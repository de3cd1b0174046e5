/** The truth-table part of `analyze_combinational_logic`
    (AWaveViewer.py:5533-5662): the last selected signal is the output and
    the others are inputs; every signal is sampled at each change time,
    samples holding anything but 0/1 are dropped, and each observed input
    tuple is mapped to its most frequent output. The table is then
    classified and checked by the gate logic. */
module LogicAnalysis {
  import opened Vcd
  import opened TraceQuery
  import opened GateLogic

  /** One sampling instant: the input values in signal order and the output. */
  datatype LogicSample = LogicSample(time: int, inputs: seq<string>, output: string)

  /** What the analysis reports. */
  datatype Analysis =
    | NoValidSamples
    | Analysed(table: Table, gate: string, report: string)

  predicate Binary(v: string) { v == "0" || v == "1" }

  /** The sample keeps only 0/1 values, inputs and output alike. */
  predicate ValidSample(s: LogicSample) {
    (forall i :: 0 <= i < |s.inputs| ==> Binary(s.inputs[i])) && Binary(s.output)
  }

  /** The inputs' values at `time`, in signal order. */
  function InputValues(ins: seq<SignalRecord>, time: int): seq<string> {
    seq(|ins|, i requires 0 <= i < |ins| => ValueAt(ins[i].values, time))
  }

  /** All signals but the last are inputs; the last is the output. */
  function SampleAt(sigs: seq<SignalRecord>, time: int): LogicSample
    requires |sigs| >= 1
  {
    LogicSample(time, InputValues(sigs[..|sigs| - 1], time), ValueAt(sigs[|sigs| - 1].values, time))
  }

  // ------------------------------------------------------------- change times

  /** Times of the first `n` samples of a trace. */
  function TimesOf(vs: seq<Sample>, n: nat): set<int>
    requires n <= |vs|
  {
    if n == 0 then {} else TimesOf(vs, n - 1) + {vs[n - 1].time}
  }

  /** Change times of the first `k` signals. */
  function TimesUpTo(sigs: seq<SignalRecord>, k: nat): set<int>
    requires k <= |sigs|
  {
    if k == 0 then {} else TimesUpTo(sigs, k - 1) + TimesOf(sigs[k - 1].values, |sigs[k - 1].values|)
  }

  /** Every time at which any of the signals has a sample. */
  function AllTimes(sigs: seq<SignalRecord>): set<int> {
    TimesUpTo(sigs, |sigs|)
  }

  lemma {:induction false} TimesOfMembers(vs: seq<Sample>, n: nat, t: int)
    requires n <= |vs|
    ensures t in TimesOf(vs, n) <==> exists j :: 0 <= j < n && vs[j].time == t
  {
    if n > 0 {
      TimesOfMembers(vs, n - 1, t);
    }
  }

  lemma {:induction false} TimesUpToMembers(sigs: seq<SignalRecord>, k: nat, t: int)
    requires k <= |sigs|
    ensures t in TimesUpTo(sigs, k)
      <==> exists i, j :: 0 <= i < k && 0 <= j < |sigs[i].values| && sigs[i].values[j].time == t
  {
    if k > 0 {
      TimesUpToMembers(sigs, k - 1, t);
      TimesOfMembers(sigs[k - 1].values, |sigs[k - 1].values|, t);
      if t in TimesOf(sigs[k - 1].values, |sigs[k - 1].values|) {
        var j :| 0 <= j < |sigs[k - 1].values| && sigs[k - 1].values[j].time == t;
        assert sigs[k - 1].values[j].time == t;
      }
    }
  }

  /** A time is collected exactly when some signal has a sample at it. */
  lemma AllTimesMembers(sigs: seq<SignalRecord>, t: int)
    ensures t in AllTimes(sigs)
      <==> exists i, j :: 0 <= i < |sigs| && 0 <= j < |sigs[i].values| && sigs[i].values[j].time == t
  {
    TimesUpToMembers(sigs, |sigs|, t);
  }

  /** `time_points`: the union of all signals' change times. */
  method CollectTimes(sigs: seq<SignalRecord>) returns (times: set<int>)
    ensures times == AllTimes(sigs)
  {
    times := {};
    var i := 0;
    while i < |sigs|
      invariant 0 <= i <= |sigs|
      invariant times == TimesUpTo(sigs, i)
    {
      var vs := sigs[i].values;
      var j := 0;
      while j < |vs|
        invariant 0 <= j <= |vs|
        invariant times == TimesUpTo(sigs, i) + TimesOf(vs, j)
      {
        times := times + {vs[j].time};
        j := j + 1;
      }
      i := i + 1;
    }
  }

  predicate Increasing(pts: seq<int>) {
    forall i, j :: 0 <= i < j < |pts| ==> pts[i] < pts[j]
  }

  lemma SomeElement(s: set<int>)
    ensures s == {} || exists m :: m in s
  {
    if forall m :: m !in s {
      assert s == {};
    }
  }

  lemma {:induction false} MinimumExists(s: set<int>, y: int)
    requires y in s
    ensures exists m :: m in s && forall x :: x in s ==> m <= x
    decreases s
  {
    if exists z :: z in s && z < y {
      var z :| z in s && z < y;
      MinimumExists(s - {y}, z);
      var m :| m in s - {y} && forall x :: x in s - {y} ==> m <= x;
      forall x | x in s ensures m <= x {
        if x != y {
          assert x in s - {y};
        }
      }
    }
  }

  /** `sorted(time_points)`: the set's elements in strictly increasing order. */
  method SortTimes(times: set<int>) returns (pts: seq<int>)
    ensures Increasing(pts)
    ensures forall t :: t in pts <==> t in times
  {
    pts := [];
    var rest := times;
    while rest != {}
      invariant rest <= times
      invariant Increasing(pts)
      invariant forall t :: t in pts <==> t in times && t !in rest
      invariant forall i, t :: 0 <= i < |pts| && t in rest ==> pts[i] < t
      decreases rest
    {
      SomeElement(rest);
      var some :| some in rest;
      MinimumExists(rest, some);
      var m :| m in rest && forall x :: x in rest ==> m <= x;
      pts := pts + [m];
      rest := rest - {m};
    }
  }

  // ----------------------------------------------------------------- sampling

  /** The samples kept at the instants `pts`, in order: at most one per
      instant, each over 0/1 and each taken at one of the instants. */
  function ValidSamples(sigs: seq<SignalRecord>, pts: seq<int>): (r: seq<LogicSample>)
    requires |sigs| >= 1
    ensures |r| <= |pts|
    ensures forall s :: s in r ==> ValidSample(s) && s.time in pts && s == SampleAt(sigs, s.time)
  {
    if pts == [] then []
    else
      var s := SampleAt(sigs, pts[|pts| - 1]);
      ValidSamples(sigs, pts[..|pts| - 1]) + (if ValidSample(s) then [s] else [])
  }

  /** `logic_samples`: sample every signal at each instant and keep the
      samples over 0/1. */
  method SampleTrace(sigs: seq<SignalRecord>, pts: seq<int>) returns (samples: seq<LogicSample>)
    requires |sigs| >= 1
    ensures samples == ValidSamples(sigs, pts)
  {
    var ins := sigs[..|sigs| - 1];
    var out := sigs[|sigs| - 1];
    samples := [];
    var i := 0;
    while i < |pts|
      invariant 0 <= i <= |pts|
      invariant samples == ValidSamples(sigs, pts[..i])
    {
      var t := pts[i];
      var vals: seq<string> := [];
      var j := 0;
      while j < |ins|
        invariant 0 <= j <= |ins|
        invariant |vals| == j && forall k :: 0 <= k < j ==> vals[k] == ValueAt(ins[k].values, t)
      {
        vals := vals + [ValueAt(ins[j].values, t)];
        j := j + 1;
      }
      var s := LogicSample(t, vals, ValueAt(out.values, t));
      assert s == SampleAt(sigs, t);
      if ValidSample(s) {
        samples := samples + [s];
      }
      assert pts[..i + 1][..i] == pts[..i];
      i := i + 1;
    }
    assert pts[..|pts|] == pts;
  }

  // ----------------------------------------------------------------- grouping

  /** `truth_table_data`: each input tuple to its outputs in sample order. */
  function Groups(ss: seq<LogicSample>): map<seq<string>, seq<string>> {
    if ss == [] then map[]
    else
      var m := Groups(ss[..|ss| - 1]);
      var s := ss[|ss| - 1];
      m[s.inputs := (if s.inputs in m then m[s.inputs] else []) + [s.output]]
  }

  method GroupOutputs(samples: seq<LogicSample>) returns (data: map<seq<string>, seq<string>>)
    ensures data == Groups(samples)
  {
    data := map[];
    var i := 0;
    while i < |samples|
      invariant 0 <= i <= |samples|
      invariant data == Groups(samples[..i])
    {
      var s := samples[i];
      assert samples[..i + 1][..i] == samples[..i];
      if s.inputs !in data {
        data := data[s.inputs := []];
      }
      data := data[s.inputs := data[s.inputs] + [s.output]];
      i := i + 1;
    }
    assert samples[..|samples|] == samples;
  }

  /** `list.count`. */
  function Count(xs: seq<string>, x: string): nat {
    if xs == [] then 0 else Count(xs[..|xs| - 1], x) + (if xs[|xs| - 1] == x then 1 else 0)
  }

  lemma {:induction false} CountPositive(xs: seq<string>, x: string)
    ensures Count(xs, x) > 0 <==> x in xs
  {
    if xs != [] {
      CountPositive(xs[..|xs| - 1], x);
      assert xs == xs[..|xs| - 1] + [xs[|xs| - 1]];
    }
  }

  /** An output of maximal count among `outs`. */
  ghost predicate MostCommon(outs: seq<string>, m: string) {
    m in outs && forall o :: Count(outs, o) <= Count(outs, m)
  }

  /** `max(set(outputs), key=outputs.count)`. The set is walked in an
      unspecified order and a later candidate wins only with a strictly larger
      count, so on a tie any of the tied outputs may be returned. */
  method MostCommonOutput(outs: seq<string>) returns (m: string)
    requires outs != []
    ensures MostCommon(outs, m)
  {
    var candidates := set i | 0 <= i < |outs| :: outs[i];
    assert outs[0] in candidates;
    m :| m in candidates;
    var best := Count(outs, m);
    var rest := candidates - {m};
    while rest != {}
      invariant rest <= candidates && m in candidates && best == Count(outs, m)
      invariant forall o :: o in candidates && o !in rest ==> Count(outs, o) <= best
      decreases rest
    {
      var o :| o in rest;
      var c := Count(outs, o);
      if c > best {
        m, best := o, c;
      }
      rest := rest - {o};
    }
    forall o ensures Count(outs, o) <= best {
      CountPositive(outs, o);
    }
  }

  /** `truth_table`: the most common output for each input tuple. */
  method Consolidate(data: map<seq<string>, seq<string>>) returns (table: Table)
    requires forall k :: k in data ==> data[k] != []
    ensures table.Keys == data.Keys
    ensures forall k :: k in table ==> MostCommon(data[k], table[k])
  {
    table := map[];
    var keys := data.Keys;
    while keys != {}
      invariant keys <= data.Keys
      invariant table.Keys == data.Keys - keys
      invariant forall k :: k in table ==> MostCommon(data[k], table[k])
      decreases keys
    {
      var k :| k in keys;
      var m := MostCommonOutput(data[k]);
      table := table[k := m];
      keys := keys - {k};
    }
  }

  // ---------------------------------------------------- what the table means

  /** At `t` the signals show input tuple `k` with output `o`, both over 0/1. */
  predicate Shows(sigs: seq<SignalRecord>, t: int, k: seq<string>, o: string)
    requires |sigs| >= 1
  {
    ValidSample(SampleAt(sigs, t)) && SampleAt(sigs, t).inputs == k && SampleAt(sigs, t).output == o
  }

  /** The change times at which the signals show `k` with output `o`. */
  function VoteTimes(sigs: seq<SignalRecord>, ts: set<int>, k: seq<string>, o: string): set<int>
    requires |sigs| >= 1
  {
    set t | t in ts && Shows(sigs, t, k, o)
  }

  /** How often output `o` is observed for input tuple `k` over all change times. */
  function Votes(sigs: seq<SignalRecord>, k: seq<string>, o: string): nat
    requires |sigs| >= 1
  {
    |VoteTimes(sigs, AllTimes(sigs), k, o)|
  }

  /** No output is observed more often than `m` for input tuple `k`. */
  ghost predicate Majority(sigs: seq<SignalRecord>, k: seq<string>, m: string)
    requires |sigs| >= 1
  {
    forall o :: Votes(sigs, k, o) <= Votes(sigs, k, m)
  }

  /** Input tuple `k` is observed, with 0/1 values throughout, at some change time. */
  predicate Observed(sigs: seq<SignalRecord>, k: seq<string>)
    requires |sigs| >= 1
  {
    exists t :: t in AllTimes(sigs) && ValidSample(SampleAt(sigs, t)) && SampleAt(sigs, t).inputs == k
  }

  /** Samples of kind (k, o) among `ss`. */
  function Pairs(ss: seq<LogicSample>, k: seq<string>, o: string): nat {
    if ss == [] then 0
    else Pairs(ss[..|ss| - 1], k, o) + (if ss[|ss| - 1].inputs == k && ss[|ss| - 1].output == o then 1 else 0)
  }

  lemma {:induction false} GroupCounts(ss: seq<LogicSample>, k: seq<string>, o: string)
    ensures k in Groups(ss) ==> Count(Groups(ss)[k], o) == Pairs(ss, k, o)
    ensures k !in Groups(ss) ==> Pairs(ss, k, o) == 0
  {
    if ss != [] {
      var init := ss[..|ss| - 1];
      var s := ss[|ss| - 1];
      GroupCounts(init, k, o);
      if s.inputs == k {
        var before := if k in Groups(init) then Groups(init)[k] else [];
        assert Groups(ss)[k] == before + [s.output];
        assert (before + [s.output])[..|before|] == before;
        if k !in Groups(init) {
          assert Count(before, o) == 0;
        }
      }
    }
  }

  lemma {:induction false} GroupKeys(ss: seq<LogicSample>, k: seq<string>)
    ensures k in Groups(ss) <==> exists j :: 0 <= j < |ss| && ss[j].inputs == k
    ensures k in Groups(ss) ==> Groups(ss)[k] != []
  {
    if ss != [] {
      var init := ss[..|ss| - 1];
      GroupKeys(init, k);
      if k in Groups(init) {
        var j :| 0 <= j < |init| && init[j].inputs == k;
        assert ss[j].inputs == k;
      }
      if exists j :: 0 <= j < |ss| && ss[j].inputs == k {
        var j :| 0 <= j < |ss| && ss[j].inputs == k;
        if j < |init| {
          assert init[j].inputs == k;
        }
      }
    }
  }

  predicate Distinct(pts: seq<int>) {
    forall i, j :: 0 <= i < j < |pts| ==> pts[i] != pts[j]
  }

  function Instants(pts: seq<int>): set<int> {
    set i | 0 <= i < |pts| :: pts[i]
  }

  lemma InstantsSnoc(pts: seq<int>)
    requires pts != []
    ensures Instants(pts) == Instants(pts[..|pts| - 1]) + {pts[|pts| - 1]}
  {
    var init := pts[..|pts| - 1];
    forall x | x in Instants(pts) ensures x in Instants(init) + {pts[|pts| - 1]} {
      var i :| 0 <= i < |pts| && pts[i] == x;
      if i < |init| {
        assert init[i] == x;
      }
    }
  }

  lemma VoteTimesAdd(sigs: seq<SignalRecord>, ts: set<int>, t: int, k: seq<string>, o: string)
    requires |sigs| >= 1 && t !in ts
    ensures |VoteTimes(sigs, ts + {t}, k, o)| == |VoteTimes(sigs, ts, k, o)| + (if Shows(sigs, t, k, o) then 1 else 0)
  {
    if Shows(sigs, t, k, o) {
      assert VoteTimes(sigs, ts + {t}, k, o) == VoteTimes(sigs, ts, k, o) + {t};
    } else {
      assert VoteTimes(sigs, ts + {t}, k, o) == VoteTimes(sigs, ts, k, o);
    }
  }

  lemma PairsStep(sigs: seq<SignalRecord>, pts: seq<int>, k: seq<string>, o: string)
    requires |sigs| >= 1 && pts != []
    ensures Pairs(ValidSamples(sigs, pts), k, o)
      == Pairs(ValidSamples(sigs, pts[..|pts| - 1]), k, o) + (if Shows(sigs, pts[|pts| - 1], k, o) then 1 else 0)
  {
    var s := SampleAt(sigs, pts[|pts| - 1]);
    var vs := ValidSamples(sigs, pts[..|pts| - 1]);
    if ValidSample(s) {
      assert (vs + [s])[..|vs|] == vs;
    } else {
      assert vs + [] == vs;
    }
  }

  /** Counting samples of kind (k, o) counts the distinct instants that show it. */
  lemma {:induction false} PairsCountInstants(sigs: seq<SignalRecord>, pts: seq<int>, k: seq<string>, o: string)
    requires |sigs| >= 1 && Distinct(pts)
    ensures Pairs(ValidSamples(sigs, pts), k, o) == |VoteTimes(sigs, Instants(pts), k, o)|
  {
    if pts != [] {
      var init := pts[..|pts| - 1];
      var t := pts[|pts| - 1];
      assert Distinct(init);
      PairsCountInstants(sigs, init, k, o);
      PairsStep(sigs, pts, k, o);
      InstantsSnoc(pts);
      assert t !in Instants(init);
      VoteTimesAdd(sigs, Instants(init), t, k, o);
    }
  }

  /** The sample at an instant that shows 0/1 values throughout is kept. */
  lemma {:induction false} ShownInstantKept(sigs: seq<SignalRecord>, pts: seq<int>, i: nat)
    requires |sigs| >= 1 && i < |pts| && ValidSample(SampleAt(sigs, pts[i]))
    ensures SampleAt(sigs, pts[i]) in ValidSamples(sigs, pts)
  {
    var init := pts[..|pts| - 1];
    if i < |init| {
      assert init[i] == pts[i];
      ShownInstantKept(sigs, init, i);
    }
  }

  /** An input tuple is grouped exactly when some instant shows it. */
  lemma InstantsShowKeys(sigs: seq<SignalRecord>, pts: seq<int>, k: seq<string>)
    requires |sigs| >= 1
    ensures (exists j :: 0 <= j < |ValidSamples(sigs, pts)| && ValidSamples(sigs, pts)[j].inputs == k)
      <==> exists t :: t in Instants(pts) && ValidSample(SampleAt(sigs, t)) && SampleAt(sigs, t).inputs == k
  {
    var all := ValidSamples(sigs, pts);
    if exists j :: 0 <= j < |all| && all[j].inputs == k {
      var j :| 0 <= j < |all| && all[j].inputs == k;
      assert all[j] in all;
      var i :| 0 <= i < |pts| && pts[i] == all[j].time;
      assert all[j].time in Instants(pts);
    }
    if exists t :: t in Instants(pts) && ValidSample(SampleAt(sigs, t)) && SampleAt(sigs, t).inputs == k {
      var t :| t in Instants(pts) && ValidSample(SampleAt(sigs, t)) && SampleAt(sigs, t).inputs == k;
      var i :| 0 <= i < |pts| && pts[i] == t;
      ShownInstantKept(sigs, pts, i);
      var j :| 0 <= j < |all| && all[j] == SampleAt(sigs, t);
    }
  }

  /** No sample is kept exactly when no instant shows 0/1 values throughout. */
  lemma {:induction false} NoSamplesIff(sigs: seq<SignalRecord>, pts: seq<int>)
    requires |sigs| >= 1
    ensures ValidSamples(sigs, pts) == [] <==> forall i :: 0 <= i < |pts| ==> !ValidSample(SampleAt(sigs, pts[i]))
  {
    if pts != [] {
      var init := pts[..|pts| - 1];
      NoSamplesIff(sigs, init);
      if ValidSamples(sigs, pts) == [] {
        forall i | 0 <= i < |pts| ensures !ValidSample(SampleAt(sigs, pts[i])) {
          if i < |init| {
            assert pts[i] == init[i];
          }
        }
      }
    }
  }

  /** Every observed key is a tuple over 0/1 with one entry per input. */
  lemma ObservedKeysAreBinary(sigs: seq<SignalRecord>, k: seq<string>)
    requires |sigs| >= 1 && Observed(sigs, k)
    ensures |k| == |sigs| - 1
    ensures forall i :: 0 <= i < |k| ==> Binary(k[i])
  {
  }

  /** `analyze_combinational_logic`, truth-table part: returns the consolidated
      table together with the detected label and the verification report. */
  method AnalyzeCombinational(sigs: seq<SignalRecord>) returns (r: Analysis)
    requires |sigs| >= 1
    ensures r.NoValidSamples? <==> forall t :: t in AllTimes(sigs) ==> !ValidSample(SampleAt(sigs, t))
    ensures r.Analysed? ==> forall k :: k in r.table <==> Observed(sigs, k)
    ensures r.Analysed? ==> forall k :: k in r.table ==> Majority(sigs, k, r.table[k])
    ensures r.Analysed? ==> forall k :: k in r.table ==> Votes(sigs, k, r.table[k]) > 0
    ensures r.Analysed? ==> r.gate == DetectGateType(r.table, |sigs| - 1)
    ensures r.Analysed? ==> r.report == VerifyGateLogic(r.gate, r.table, |sigs| - 1)
  {
    var times := CollectTimes(sigs);
    var pts := SortTimes(times);
    assert Distinct(pts);
    assert Instants(pts) == AllTimes(sigs);
    var samples := SampleTrace(sigs, pts);
    NoSamplesIff(sigs, pts);
    if samples == [] {
      forall t | t in AllTimes(sigs) ensures !ValidSample(SampleAt(sigs, t)) {
        var i :| 0 <= i < |pts| && pts[i] == t;
      }
      return NoValidSamples;
    }
    var data := GroupOutputs(samples);
    forall k | k in data ensures data[k] != [] {
      GroupKeys(samples, k);
    }
    var table := Consolidate(data);
    var gate := DetectGateType(table, |sigs| - 1);
    var report := VerifyGateLogic(gate, table, |sigs| - 1);
    r := Analysed(table, gate, report);
    forall k ensures k in table <==> Observed(sigs, k) {
      GroupKeys(samples, k);
      InstantsShowKeys(sigs, pts, k);
    }
    forall k | k in table ensures Majority(sigs, k, table[k]) {
      forall o ensures Votes(sigs, k, o) <= Votes(sigs, k, table[k]) {
        GroupCounts(samples, k, o);
        GroupCounts(samples, k, table[k]);
        PairsCountInstants(sigs, pts, k, o);
        PairsCountInstants(sigs, pts, k, table[k]);
      }
    }
    forall k | k in table ensures Votes(sigs, k, table[k]) > 0 {
      GroupCounts(samples, k, table[k]);
      PairsCountInstants(sigs, pts, k, table[k]);
      CountPositive(data[k], table[k]);
    }
  }
}
