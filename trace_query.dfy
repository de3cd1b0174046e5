/** `get_signal_value_at_time` (AWaveViewer.py:5673-5686): the value a
    signal holds at a given simulation time, read from its list of
    (time, value) samples. */
module TraceQuery {
  import opened Vcd

  /** The walk over the samples: every entry at or before `time` replaces the
      held value, and the first entry after `time` ends the walk. */
  function Scan(vs: seq<Sample>, time: int, held: string): (r: string)
    ensures r == held || exists i :: 0 <= i < |vs| && vs[i].time <= time && r == vs[i].value
    decreases |vs|
  {
    if vs == [] || vs[0].time > time then held else Scan(vs[1..], time, vs[0].value)
  }

  /** The value of a signal at `time`: "X" for a signal with no samples,
      otherwise the walk starting from the first sample's value. */
  function ValueAt(vs: seq<Sample>, time: int): (v: string)
    ensures vs == [] ==> v == "X"
  {
    if vs == [] then "X" else Scan(vs, time, vs[0].value)
  }

  /** The first `k` samples lie at or before `time` and sample `k`, if any,
      lies after it. */
  predicate LeadingRun(vs: seq<Sample>, time: int, k: nat) {
    k <= |vs|
    && (forall i :: 0 <= i < k ==> vs[i].time <= time)
    && (k == |vs| || vs[k].time > time)
  }

  /** The length of the leading run, counted independently of the walk. */
  function RunLength(vs: seq<Sample>, time: int): (k: nat)
    ensures LeadingRun(vs, time, k)
    decreases |vs|
  {
    if vs == [] || vs[0].time > time then 0 else 1 + RunLength(vs[1..], time)
  }

  /** Samples in non-decreasing time order, as a simulator writes them. */
  predicate InTimeOrder(vs: seq<Sample>) {
    forall i, j :: 0 <= i < j < |vs| ==> vs[i].time <= vs[j].time
  }

  lemma {:induction false} ScanOfRun(vs: seq<Sample>, time: int, held: string, k: nat)
    requires LeadingRun(vs, time, k)
    ensures Scan(vs, time, held) == if k == 0 then held else vs[k - 1].value
    decreases |vs|
  {
    if vs != [] && vs[0].time <= time {
      assert k != 0;
      assert LeadingRun(vs[1..], time, k - 1);
      ScanOfRun(vs[1..], time, vs[0].value, k - 1);
    }
  }

  /** The lookup returns the last sample of the leading run, or the first
      sample when the run is empty. */
  lemma ValueAtIsEndOfRun(vs: seq<Sample>, time: int, k: nat)
    requires vs != [] && LeadingRun(vs, time, k)
    ensures ValueAt(vs, time) == if k == 0 then vs[0].value else vs[k - 1].value
  {
    ScanOfRun(vs, time, vs[0].value, k);
  }

  /** Before every change the lookup gives the first recorded value, not "X". */
  lemma ValueBeforeFirstChange(vs: seq<Sample>, time: int)
    requires vs != [] && time < vs[0].time
    ensures ValueAt(vs, time) == vs[0].value
  {
    ValueAtIsEndOfRun(vs, time, 0);
  }

  /** In a time-ordered trace, the lookup gives the sample whose successor
      (if any) lies after `time`, namely the latest change at or before it. */
  lemma ValueOfOrderedTrace(vs: seq<Sample>, time: int, i: nat)
    requires InTimeOrder(vs) && i < |vs| && vs[i].time <= time
    requires i + 1 == |vs| || vs[i + 1].time > time
    ensures ValueAt(vs, time) == vs[i].value
  {
    assert LeadingRun(vs, time, i + 1);
    ValueAtIsEndOfRun(vs, time, i + 1);
  }

  /** The lookup never invents a value: it is "X" on an empty trace and some
      recorded value otherwise. */
  lemma ValueIsRecorded(vs: seq<Sample>, time: int)
    ensures vs == [] ==> ValueAt(vs, time) == "X"
    ensures vs != [] ==> exists i :: 0 <= i < |vs| && vs[i].value == ValueAt(vs, time)
  {
    if vs != [] {
      var k := RunLength(vs, time);
      ValueAtIsEndOfRun(vs, time, k);
      if k == 0 {
        assert vs[0].value == ValueAt(vs, time);
      } else {
        assert vs[k - 1].value == ValueAt(vs, time);
      }
    }
  }
}
