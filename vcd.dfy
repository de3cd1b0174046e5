/** `VCDParser` (AWaveViewer.py:1913-2013): a line-oriented reader of
    four-state Value Change Dump files (IEEE 1364-2005 section 18). It keeps
    the timescale, a map from identifier codes to signal records, the list of
    all value changes and the current scope path; `parse` reads the header
    until `$enddefinitions` and value changes after it.

    `StepLine` is what one line does and `RunLines` what a prefix of the
    file does; `VcdParser.Parse` is the source's loop over the lines,
    updating the object's fields. */
module Vcd {
  import opened Text
  import opened VerilogLex

  // ------------------------------------------------------------ records

  /** `mantissa * 10^exponent` seconds (the source keeps this product as a
      float). */
  datatype Timescale = Timescale(mantissa: nat, exponent: int)

  /** An entry `(time, value)` of a signal's `values` list. */
  datatype Sample = Sample(time: int, value: string)

  /** An entry `(time, identifier, value)` of `changes`. */
  datatype Change = Change(time: int, id: string, value: string)

  /** The record `signals[identifier]`: `name`, `full_name`, `width`,
      `type` and `values`. */
  datatype SignalRecord = SignalRecord(name: string, fullName: string, width: int, kind: string, values: seq<Sample>)

  /** The four fields of a parser. */
  datatype ParserState = ParserState(
    timescale: Timescale,
    signals: map<string, SignalRecord>,
    changes: seq<Change>,
    scopes: seq<string>)

  /** The locals `in_header` and `current_time` of `parse`. */
  datatype Cursor = Cursor(inHeader: bool, time: int)

  /** What `__init__` sets (lines 1916-1920). */
  const InitialState: ParserState := ParserState(Timescale(1, 0), map[], [], [])

  const StartCursor: Cursor := Cursor(true, 0)

  // ----------------------------------------------------------- timescale

  /** The groups of a match of `(\d+)\s*(\w+)`. */
  datatype ScaleMatch = ScaleMatch(digits: string, unit: string)

  /** The leftmost match in `s[i..]` of digits, optional blanks, then word
      characters. It starts at a digit run; the run is taken whole when
      whitespace and then a word character follow it, and otherwise its last
      digit becomes the unit (which needs a run of two or more digits). */
  function ScaleSearch(s: string, i: nat): (r: Option<ScaleMatch>)
    requires i <= |s|
    ensures r.Some? ==> r.value.digits != [] && (forall k :: 0 <= k < |r.value.digits| ==> IsDigit(r.value.digits[k]))
    ensures r.Some? ==> r.value.unit != [] && IsWord(r.value.unit)
    decreases |s| - i
  {
    if i == |s| then None
    else if !IsDigit(s[i]) then ScaleSearch(s, i + 1)
    else
      var e := DigitRunEnd(s, i);
      var p := SkipSpace(s, e);
      DigitRunChars(s, i);
      if p < |s| && IsWordChar(s[p]) then
        WordRunChars(s, p);
        Some(ScaleMatch(s[i..e], s[p..WordRunEnd(s, p)]))
      else if e - i >= 2 then Some(ScaleMatch(s[i..e - 1], s[e - 1..e]))
      else ScaleSearch(s, e)
  }

  /** `unit_map.get(unit, 1e-9)` (line 1945) as a power of ten. */
  function UnitExponent(unit: string): int
  {
    if unit == "s" then 0
    else if unit == "ms" then -3
    else if unit == "us" then -6
    else if unit == "ns" then -9
    else if unit == "ps" then -12
    else if unit == "fs" then -15
    else -9
  }

  /** The timescale after a `$timescale` line: unchanged when the pattern
      does not match. */
  function TimescaleOf(line: string, ts: Timescale): Timescale
  {
    match ScaleSearch(line, 0)
    case Some(m) => Timescale(DigitsValue(m.digits), UnitExponent(m.unit))
    case None => ts
  }

  // -------------------------------------------------------- one line

  predicate IsScalarValue(c: char) { c in "01xzXZ" }

  /** A value change `value` for `id` at `time`: appended to the signal's
      `values` and to `changes` when `id` is known, dropped otherwise. */
  function Recorded(st: ParserState, time: int, id: string, value: string): ParserState
  {
    if id in st.signals then
      st.(signals := st.signals[id := st.signals[id].(values := st.signals[id].values + [Sample(time, value)])],
          changes := st.changes + [Change(time, id, value)])
    else st
  }

  /** The record a `$var` line registers: its name, the scope path and the
      name joined by dots, the width, the type and no values yet. */
  function DeclaredRecord(scopes: seq<string>, kind: string, width: int, name: string): SignalRecord
  {
    SignalRecord(name, Join(scopes + [name], "."), width, kind, [])
  }

  /** The outcome of one line: the next state and cursor, or `ValueError`
      from `int()`. */
  datatype Step = Next(st: ParserState, cursor: Cursor) | Raise

  /** The body of the loop of `parse` (lines 1933-2011) for one line. */
  function StepLine(st: ParserState, cur: Cursor, raw: string): (r: Step)
    ensures r.Next? ==> RecordForm(st, r.st)
    ensures r.Next? && !cur.inHeader ==> !r.cursor.inHeader
  {
    var line := Strip(raw);
    if line == [] then Next(st, cur)
    else if StartsWith(line, "$timescale") then Next(st.(timescale := TimescaleOf(line, st.timescale)), cur)
    else if StartsWith(line, "$scope") then
      var parts := Words(line);
      Next(if |parts| >= 3 then st.(scopes := st.scopes + [parts[2]]) else st, cur)
    else if StartsWith(line, "$upscope") then
      Next(if st.scopes != [] then st.(scopes := st.scopes[..|st.scopes| - 1]) else st, cur)
    else if StartsWith(line, "$var") then DeclareStep(st, cur, line)
    else if StartsWith(line, "$enddefinitions") then Next(st, cur.(inHeader := false))
    else if cur.inHeader then Next(st, cur)
    else BodyStep(st, cur, line)
  }

  /** A `$var` line (lines 1959-1974): registers the signal when the line has
      five words, raising when the width is not an integer. */
  function DeclareStep(st: ParserState, cur: Cursor, line: string): (r: Step)
    ensures r.Next? ==> r.cursor == cur
    ensures r.Next? ==> SameRecords(st, r.st) || (|Words(line)| >= 5 && Redeclared(st, r.st, Words(line)[3]))
  {
    var parts := Words(line);
    if |parts| < 5 then Next(st, cur)
    else
      match ParseInt(parts[2])
      case None => Raise
      case Some(w) => Next(st.(signals := st.signals[parts[3] := DeclaredRecord(st.scopes, parts[1], w, parts[4])]), cur)
  }

  /** A non-empty line after the header that is not a directive (lines
      1982-2011): a time marker, a scalar change or a vector change. */
  function BodyStep(st: ParserState, cur: Cursor, line: string): (r: Step)
    requires line != []
    ensures r.Next? ==> r.cursor.inHeader == cur.inHeader
    ensures r.Next? ==> SameRecords(st, r.st) || exists t, id, v :: r.st == Recorded(st, t, id, v)
  {
    if line[0] == '#' then
      match ParseInt(line[1..])
      case None => Raise
      case Some(t) => Next(st, cur.(time := t))
    else if IsScalarValue(line[0]) then Next(Recorded(st, cur.time, Strip(line[1..]), [line[0]]), cur)
    else if line[0] == 'b' then
      var parts := Words(line);
      Next(if |parts| >= 2 then Recorded(st, cur.time, parts[1], parts[0][1..]) else st, cur)
    else Next(st, cur)
  }

  // ------------------------------------------------------------ a file

  /** The parse of the first lines of a file, from state `st0`: still
      running, or stopped by `ValueError` at line `at`. */
  datatype Run = Running(st: ParserState, cursor: Cursor) | Raised(st: ParserState, at: nat)

  function RunLines(st0: ParserState, lines: seq<string>): (r: Run)
    ensures r.Raised? ==> r.at < |lines|
    ensures Consistent(st0) ==> Consistent(r.st)
    ensures st0.changes <= r.st.changes && |r.st.changes| <= |st0.changes| + |lines|
  {
    if lines == [] then Running(st0, StartCursor)
    else
      match RunLines(st0, lines[..|lines| - 1])
      case Raised(st, at) => Raised(st, at)
      case Running(st, cur) =>
        StepKeepsConsistent(st, cur, lines[|lines| - 1]);
        StepExtendsChanges(st, cur, lines[|lines| - 1]);
        match StepLine(st, cur, lines[|lines| - 1])
        case Raise => Raised(st, |lines| - 1)
        case Next(st', cur') => Running(st', cur')
  }

  /** What `parse` returns: the signals and the changes, or `ValueError`. */
  datatype ParseResult = Parsed(signals: map<string, SignalRecord>, changes: seq<Change>) | ValueError

  /** The state after `parse` and its result; `None` is a missing file. */
  function ParseOutcome(st0: ParserState, file: Option<seq<string>>): (r: (ParserState, ParseResult))
    ensures file.None? ==> r.0 == st0 && r.1 == Parsed(map[], [])
    ensures file.Some? && r.1.Parsed? ==> r.1.signals == r.0.signals && r.1.changes == r.0.changes
    ensures Consistent(st0) ==> Consistent(r.0)
    ensures st0.changes <= r.0.changes
  {
    match file
    case None => (st0, Parsed(map[], []))
    case Some(lines) =>
      match RunLines(st0, lines)
      case Running(st, _) => (st, Parsed(st.signals, st.changes))
      case Raised(st, _) => (st, ValueError)
  }

  // ------------------------------------------------------------ the class

  class VcdParser {
    var timescale: Timescale
    var signals: map<string, SignalRecord>
    var changes: seq<Change>
    var scopeHierarchy: seq<string>

    function State(): ParserState
      reads this
    {
      ParserState(timescale, signals, changes, scopeHierarchy)
    }

    /** Every change names a registered signal, and each signal's values are
        the latest of the changes for its identifier. */
    ghost predicate Valid()
      reads this
    {
      Consistent(State())
    }

    constructor ()
      ensures State() == InitialState && Valid()
    {
      timescale := Timescale(1, 0);
      signals := map[];
      changes := [];
      scopeHierarchy := [];
    }

    /** Records a value change, as lines 1994-1996 and 2009-2011 do. */
    method Record(time: int, id: string, value: string)
      modifies this
      ensures State() == Recorded(old(State()), time, id, value)
    {
      if id in signals {
        var rec := signals[id];
        signals := signals[id := rec.(values := rec.values + [Sample(time, value)])];
        changes := changes + [Change(time, id, value)];
      }
    }

    /** One pass of the loop body of `parse`; `ok` is false where `int()`
        raises, and then nothing has changed. */
    method ProcessLine(raw: string, cur: Cursor) returns (ok: bool, next: Cursor)
      modifies this
      ensures StepLine(old(State()), cur, raw) == (if ok then Next(State(), next) else Raise)
      ensures !ok ==> State() == old(State())
    {
      ok, next := true, cur;
      var line := Strip(raw);
      if line == [] {
      } else if StartsWith(line, "$timescale") {
        timescale := TimescaleOf(line, timescale);
      } else if StartsWith(line, "$scope") {
        var parts := Words(line);
        if |parts| >= 3 {
          scopeHierarchy := scopeHierarchy + [parts[2]];
        }
      } else if StartsWith(line, "$upscope") {
        if scopeHierarchy != [] {
          scopeHierarchy := scopeHierarchy[..|scopeHierarchy| - 1];
        }
      } else if StartsWith(line, "$var") {
        var parts := Words(line);
        if |parts| >= 5 {
          var width := ParseInt(parts[2]);
          if width.None? {
            ok := false;
          } else {
            signals := signals[parts[3] := DeclaredRecord(scopeHierarchy, parts[1], width.value, parts[4])];
          }
        }
      } else if StartsWith(line, "$enddefinitions") {
        next := cur.(inHeader := false);
      } else if !cur.inHeader {
        if line[0] == '#' {
          var t := ParseInt(line[1..]);
          if t.None? {
            ok := false;
          } else {
            next := cur.(time := t.value);
          }
        } else if IsScalarValue(line[0]) {
          Record(cur.time, Strip(line[1..]), [line[0]]);
        } else if line[0] == 'b' {
          var parts := Words(line);
          if |parts| >= 2 {
            Record(cur.time, parts[1], parts[0][1..]);
          }
        }
      }
    }

    /** `parse` over the file's lines (`None` when the file does not exist):
        the fields end as `ParseOutcome` says, and the consistency of the
        signals and the changes is kept. */
    method Parse(file: Option<seq<string>>) returns (r: ParseResult)
      requires Valid()
      modifies this
      ensures (State(), r) == ParseOutcome(old(State()), file)
      ensures Valid()
    {
      if file.None? {
        return Parsed(map[], []);
      }
      var lines := file.value;
      var cur := StartCursor;
      var i := 0;
      while i < |lines|
        invariant 0 <= i <= |lines|
        invariant RunLines(old(State()), lines[..i]) == Running(State(), cur)
      {
        ghost var before := State();
        var ok, next := ProcessLine(lines[i], cur);
        if !ok {
          RunRaise(old(State()), lines, i, before, cur);
          assert (State(), ValueError) == ParseOutcome(old(State()), file) by {
            RaisedStays(old(State()), lines, i + 1);
          }
          return ValueError;
        }
        RunNext(old(State()), lines, i, before, cur, State(), next);
        cur := next;
        i := i + 1;
      }
      assert lines[..i] == lines;
      r := Parsed(signals, changes);
    }
  }

  lemma RunNext(st0: ParserState, lines: seq<string>, i: nat, st: ParserState, cur: Cursor, st': ParserState, cur': Cursor)
    requires i < |lines|
    requires RunLines(st0, lines[..i]) == Running(st, cur)
    requires StepLine(st, cur, lines[i]) == Next(st', cur')
    ensures RunLines(st0, lines[..i + 1]) == Running(st', cur')
  {
    assert lines[..i + 1][..i] == lines[..i];
  }

  lemma RunRaise(st0: ParserState, lines: seq<string>, i: nat, st: ParserState, cur: Cursor)
    requires i < |lines|
    requires RunLines(st0, lines[..i]) == Running(st, cur)
    requires StepLine(st, cur, lines[i]) == Raise
    ensures RunLines(st0, lines[..i + 1]) == Raised(st, i)
  {
    assert lines[..i + 1][..i] == lines[..i];
  }

  /** Once `int()` has raised, the rest of the file is not read. */
  lemma {:induction false} RaisedStays(st0: ParserState, lines: seq<string>, n: nat)
    requires n <= |lines| && RunLines(st0, lines[..n]).Raised?
    ensures RunLines(st0, lines) == RunLines(st0, lines[..n])
    decreases |lines| - n
  {
    if n < |lines| {
      assert lines[..n + 1][..n] == lines[..n];
      RaisedStays(st0, lines, n + 1);
    } else {
      assert lines[..n] == lines;
    }
  }

  // ---------------------------------------------------------- consistency

  /** The samples of the changes for `id`, in order. */
  function SamplesOf(changes: seq<Change>, id: string): seq<Sample>
  {
    if changes == [] then []
    else
      var c := changes[|changes| - 1];
      SamplesOf(changes[..|changes| - 1], id) + (if c.id == id then [Sample(c.time, c.value)] else [])
  }

  predicate IsSuffix<T(==)>(a: seq<T>, b: seq<T>) { |a| <= |b| && b[|b| - |a|..] == a }

  /** Every change names a registered signal, and the `values` of each
      signal are the last of the samples of its identifier (`$var` starts
      them afresh). */
  predicate Consistent(st: ParserState)
  {
    && (forall k :: 0 <= k < |st.changes| ==> st.changes[k].id in st.signals)
    && (forall id :: id in st.signals ==> IsSuffix(st.signals[id].values, SamplesOf(st.changes, id)))
  }

  lemma RecordedKeepsConsistent(st: ParserState, time: int, id: string, value: string)
    requires Consistent(st)
    ensures Consistent(Recorded(st, time, id, value))
  {
    if id in st.signals {
      var st' := Recorded(st, time, id, value);
      var c := Change(time, id, value);
      assert st'.changes[..|st'.changes| - 1] == st.changes;
      forall j | j in st'.signals
        ensures IsSuffix(st'.signals[j].values, SamplesOf(st'.changes, j))
      {
        assert SamplesOf(st'.changes, j) == SamplesOf(st.changes, j) + (if j == id then [Sample(time, value)] else []);
        var a := st.signals[j].values;
        var b := SamplesOf(st.changes, j);
        assert IsSuffix(a, b);
        if j == id {
          assert (b + [Sample(time, value)])[|b| + 1 - |a| - 1..] == a + [Sample(time, value)];
        } else {
          assert b + [] == b;
        }
      }
    }
  }

  /** Only the signals and the changes matter to consistency. */
  predicate SameRecords(st: ParserState, st': ParserState)
  {
    st'.signals == st.signals && st'.changes == st.changes
  }

  /** `st'` is `st` with a fresh record, without values, for `id`. */
  predicate Redeclared(st: ParserState, st': ParserState, id: string)
  {
    && st'.changes == st.changes && id in st'.signals && st'.signals[id].values == []
    && st'.signals == st.signals[id := st'.signals[id]]
  }

  /** `st'` leaves the signals and the changes of `st` alone, registers a
      signal afresh, or records one value change. */
  ghost predicate RecordForm(st: ParserState, st': ParserState)
  {
    || SameRecords(st, st')
    || (exists id :: Redeclared(st, st', id))
    || (exists t, id, v :: st' == Recorded(st, t, id, v))
  }

  lemma RedeclaredKeepsConsistent(st: ParserState, st': ParserState, id: string)
    requires Consistent(st) && Redeclared(st, st', id)
    ensures Consistent(st')
  {
    forall j | j in st'.signals
      ensures IsSuffix(st'.signals[j].values, SamplesOf(st'.changes, j))
    {
      if j != id {
        assert st'.signals[j] == st.signals[j];
      }
    }
  }

  lemma StepKeepsConsistent(st: ParserState, cur: Cursor, raw: string)
    ensures Consistent(st) && StepLine(st, cur, raw).Next? ==> Consistent(StepLine(st, cur, raw).st)
  {
    if Consistent(st) && StepLine(st, cur, raw).Next? {
      var st' := StepLine(st, cur, raw).st;
      if SameRecords(st, st') {
      } else if exists id :: Redeclared(st, st', id) {
        var id :| Redeclared(st, st', id);
        RedeclaredKeepsConsistent(st, st', id);
      } else {
        var t, id, v :| st' == Recorded(st, t, id, v);
        RecordedKeepsConsistent(st, t, id, v);
      }
    }
  }

  // --------------------------------------------------------- line by line

  lemma StartsWithChar(s: string, p: string, k: nat)
    requires k < |p|
    ensures StartsWith(s, p) ==> k < |s| && s[k] == p[k]
  {
    if StartsWith(s, p) {
      assert s[..|p|][k] == p[k];
    }
  }

  /** A line that does not begin with `$` cannot be a directive. */
  lemma NotDirective(line: string)
    requires line != [] && line[0] != '$'
    ensures !StartsWith(line, "$timescale") && !StartsWith(line, "$scope") && !StartsWith(line, "$upscope")
    ensures !StartsWith(line, "$var") && !StartsWith(line, "$enddefinitions")
  {
    StartsWithChar(line, "$timescale", 0);
    StartsWithChar(line, "$scope", 0);
    StartsWithChar(line, "$upscope", 0);
    StartsWithChar(line, "$var", 0);
    StartsWithChar(line, "$enddefinitions", 0);
  }

  /** Before `$enddefinitions`, time markers and value changes are ignored. */
  lemma HeaderIgnoresValues(st: ParserState, cur: Cursor, raw: string)
    requires cur.inHeader && Strip(raw) != [] && Strip(raw)[0] != '$'
    ensures StepLine(st, cur, raw) == Next(st, cur)
  {
    NotDirective(Strip(raw));
  }

  /** After `$enddefinitions`, a scalar change `<v><id>` is recorded at the
      current time when `id` is known and dropped otherwise. */
  lemma ScalarChange(st: ParserState, cur: Cursor, raw: string)
    requires !cur.inHeader && Strip(raw) != [] && IsScalarValue(Strip(raw)[0])
    ensures StepLine(st, cur, raw) == Next(Recorded(st, cur.time, Strip(Strip(raw)[1..]), [Strip(raw)[0]]), cur)
  {
    NotDirective(Strip(raw));
  }

  /** After `$enddefinitions`, a vector change `b<bits> <id>` is recorded
      at the current time when `id` is known and dropped otherwise. */
  lemma VectorChange(st: ParserState, cur: Cursor, raw: string)
    requires !cur.inHeader && Strip(raw) != [] && Strip(raw)[0] == 'b' && |Words(Strip(raw))| >= 2
    ensures var parts := Words(Strip(raw));
      StepLine(st, cur, raw) == Next(Recorded(st, cur.time, parts[1], parts[0][1..]), cur)
  {
    var line := Strip(raw);
    NotDirective(line);
    BodyVector(st, cur, line);
  }

  lemma BodyVector(st: ParserState, cur: Cursor, line: string)
    requires line != [] && line[0] == 'b' && |Words(line)| >= 2
    ensures BodyStep(st, cur, line) == Next(Recorded(st, cur.time, Words(line)[1], Words(line)[0][1..]), cur)
  {
    assert !IsScalarValue(line[0]);
  }

  /** After `$enddefinitions`, `#<t>` sets the current time, and raises
      when `t` is not an integer. */
  lemma TimeMarker(st: ParserState, cur: Cursor, raw: string)
    requires !cur.inHeader && Strip(raw) != [] && Strip(raw)[0] == '#'
    ensures ParseInt(Strip(raw)[1..]).None? ==> StepLine(st, cur, raw) == Raise
    ensures ParseInt(Strip(raw)[1..]).Some? ==>
      StepLine(st, cur, raw) == Next(st, cur.(time := ParseInt(Strip(raw)[1..]).value))
  {
    NotDirective(Strip(raw));
  }

  /** A known identifier's `values` and the samples of `changes` for it gain
      the same entry, and nothing else changes; an unknown one changes
      nothing. */
  lemma RecordedAppendsTogether(st: ParserState, time: int, id: string, value: string)
    ensures id !in st.signals ==> Recorded(st, time, id, value) == st
    ensures id in st.signals ==>
      var st' := Recorded(st, time, id, value);
      && st'.signals.Keys == st.signals.Keys
      && st'.signals[id].values == st.signals[id].values + [Sample(time, value)]
      && SamplesOf(st'.changes, id) == SamplesOf(st.changes, id) + [Sample(time, value)]
      && (forall j :: j in st.signals && j != id ==> st'.signals[j] == st.signals[j])
      && (forall j :: j != id ==> SamplesOf(st'.changes, j) == SamplesOf(st.changes, j))
  {
    if id in st.signals {
      var st' := Recorded(st, time, id, value);
      assert st'.changes[..|st'.changes| - 1] == st.changes;
      forall j | j != id ensures SamplesOf(st'.changes, j) == SamplesOf(st.changes, j) {
        assert SamplesOf(st'.changes, j) == SamplesOf(st.changes, j) + [];
      }
    }
  }

  /** `$var <type> <width> <id> <name> ...` registers `id` afresh (replacing
      any record it had) with the dotted path of its scope; a width that is
      not an integer raises. */
  lemma VarDeclaration(st: ParserState, cur: Cursor, raw: string)
    requires StartsWith(Strip(raw), "$var") && |Words(Strip(raw))| >= 5
    ensures var parts := Words(Strip(raw));
      ParseInt(parts[2]).None? ==> StepLine(st, cur, raw) == Raise
    ensures var parts := Words(Strip(raw));
      ParseInt(parts[2]).Some? ==>
        StepLine(st, cur, raw)
        == Next(st.(signals := st.signals[parts[3] := DeclaredRecord(st.scopes, parts[1], ParseInt(parts[2]).value, parts[4])]), cur)
  {
    VarDispatch(st, cur, raw);
  }

  /** A `$var` line is handled by the declaration step. */
  lemma VarDispatch(st: ParserState, cur: Cursor, raw: string)
    requires StartsWith(Strip(raw), "$var")
    ensures StepLine(st, cur, raw) == DeclareStep(st, cur, Strip(raw))
  {
    var line := Strip(raw);
    StartsWithChar(line, "$var", 1);
    StartsWithChar(line, "$timescale", 1);
    StartsWithChar(line, "$scope", 1);
    StartsWithChar(line, "$upscope", 1);
    assert line != [] && !StartsWith(line, "$timescale") && !StartsWith(line, "$scope") && !StartsWith(line, "$upscope");
  }

  /** The full name of a registered signal splits back into its scope path
      and its name, when none of them contains a dot. */
  lemma FullNameSplits(scopes: seq<string>, kind: string, width: int, name: string)
    requires SeparatorFree(scopes + [name], '.')
    ensures SplitOn(DeclaredRecord(scopes, kind, width, name).fullName, '.') == scopes + [name]
  {
    assert "." == ['.'];
    SplitOnOfJoin(scopes + [name], '.');
  }

  /** `$scope <kind> <name> ...` pushes `name`; a shorter line does nothing. */
  lemma ScopeLine(st: ParserState, cur: Cursor, raw: string)
    requires StartsWith(Strip(raw), "$scope")
    ensures var parts := Words(Strip(raw));
      StepLine(st, cur, raw) == Next(if |parts| >= 3 then st.(scopes := st.scopes + [parts[2]]) else st, cur)
  {
    StartsWithChar(Strip(raw), "$scope", 1);
    StartsWithChar(Strip(raw), "$timescale", 1);
    assert Strip(raw) != [] && !StartsWith(Strip(raw), "$timescale");
  }

  /** `$upscope` pops the innermost scope, and does nothing when there is
      none. */
  lemma UpscopeLine(st: ParserState, cur: Cursor, raw: string)
    requires StartsWith(Strip(raw), "$upscope")
    ensures st.scopes == [] ==> StepLine(st, cur, raw) == Next(st, cur)
    ensures st.scopes != [] ==> StepLine(st, cur, raw) == Next(st.(scopes := st.scopes[..|st.scopes| - 1]), cur)
  {
    StartsWithChar(Strip(raw), "$upscope", 1);
    StartsWithChar(Strip(raw), "$timescale", 1);
    StartsWithChar(Strip(raw), "$scope", 1);
    assert Strip(raw) != [] && !StartsWith(Strip(raw), "$timescale") && !StartsWith(Strip(raw), "$scope");
  }

  // ----------------------------------------------------------- whole runs

  /** A line read in the header, other than `$enddefinitions`, keeps the
      changes and the cursor. */
  lemma HeaderStep(st: ParserState, cur: Cursor, raw: string)
    requires cur.inHeader && !StartsWith(Strip(raw), "$enddefinitions")
    ensures StepLine(st, cur, raw).Next? ==>
      StepLine(st, cur, raw).st.changes == st.changes && StepLine(st, cur, raw).cursor == cur
  {
    var line := Strip(raw);
    if line != [] && !StartsWith(line, "$timescale") && !StartsWith(line, "$scope") && !StartsWith(line, "$upscope") {
      if StartsWith(line, "$var") {
        assert StepLine(st, cur, raw) == DeclareStep(st, cur, line);
      } else {
        assert StepLine(st, cur, raw) == Next(st, cur);
      }
    }
  }

  /** Until a `$enddefinitions` line, no value change is recorded (and the
      time stays 0). */
  lemma {:induction false} HeaderKeepsChanges(st0: ParserState, lines: seq<string>)
    requires forall k :: 0 <= k < |lines| ==> !StartsWith(Strip(lines[k]), "$enddefinitions")
    ensures RunLines(st0, lines).st.changes == st0.changes
    ensures RunLines(st0, lines).Running? ==> RunLines(st0, lines).cursor == StartCursor
  {
    if lines != [] {
      var init := lines[..|lines| - 1];
      HeaderKeepsChanges(st0, init);
      var prev := RunLines(st0, init);
      if prev.Running? {
        HeaderStep(prev.st, prev.cursor, lines[|lines| - 1]);
      }
    }
  }

  /** A line never removes or rewrites a change; it appends at most one. */
  lemma StepExtendsChanges(st: ParserState, cur: Cursor, raw: string)
    ensures StepLine(st, cur, raw).Next? ==>
      var st' := StepLine(st, cur, raw).st;
      st.changes <= st'.changes && |st'.changes| <= |st.changes| + 1
  {
    if StepLine(st, cur, raw).Next? {
      var st' := StepLine(st, cur, raw).st;
      if !SameRecords(st, st') && !exists id :: Redeclared(st, st', id) {
        var t, id, v :| st' == Recorded(st, t, id, v);
      }
    }
  }

  // ---------------------------------------------------------- timescale

  lemma {:induction false} ScaleSearchSkips(s: string, i: nat, j: nat)
    requires i <= j <= |s|
    requires forall k :: i <= k < j ==> !IsDigit(s[k])
    ensures ScaleSearch(s, i) == ScaleSearch(s, j)
    decreases j - i
  {
    if i < j {
      ScaleSearchSkips(s, i + 1, j);
    }
  }

  lemma {:induction false} SkipSpaceOf(s: string, i: nat, n: nat)
    requires i + n <= |s|
    requires forall k :: i <= k < i + n ==> IsSpace(s[k])
    requires i + n == |s| || !IsSpace(s[i + n])
    ensures SkipSpace(s, i) == i + n
    decreases n
  {
    if n > 0 {
      SkipSpaceOf(s, i + 1, n - 1);
    }
  }

  /** A run of `nd` digits at `i`, `nsp` spaces and a word of `nu`
      characters beginning with a non-digit form the match at `i`. */
  lemma ScaleSearchRuns(s: string, i: nat, nd: nat, nsp: nat, nu: nat)
    requires i + nd + nsp + nu <= |s| && nd > 0 && nu > 0
    requires forall k :: i <= k < i + nd ==> IsDigit(s[k])
    requires forall k :: i + nd <= k < i + nd + nsp ==> IsSpace(s[k])
    requires forall k :: i + nd + nsp <= k < i + nd + nsp + nu ==> IsWordChar(s[k])
    requires !IsDigit(s[i + nd + nsp])
    requires i + nd + nsp + nu == |s| || !IsWordChar(s[i + nd + nsp + nu])
    ensures ScaleSearch(s, i) == Some(ScaleMatch(s[i..i + nd], s[i + nd + nsp..i + nd + nsp + nu]))
  {
    var e := i + nd;
    var p := e + nsp;
    assert !IsDigit(s[e]) by {
      if nsp > 0 { assert IsSpace(s[e]); }
    }
    DigitRunEndOf(s, i, nd);
    assert !IsSpace(s[p]) by { assert IsWordChar(s[p]); }
    SkipSpaceOf(s, e, nsp);
    WordRunEndOf(s, p, nu);
  }

  /** Digits, spaces and a word standing side by side at `i`, as runs of
      character classes. */
  lemma SpelledRuns(s: string, i: nat, d: string, sp: string, u: string)
    requires forall k :: 0 <= k < |d| ==> IsDigit(d[k])
    requires forall k :: 0 <= k < |sp| ==> IsSpace(sp[k])
    requires u != [] && IsWord(u) && !IsDigit(u[0])
    requires HasAt(s, i, d) && HasAt(s, i + |d|, sp) && HasAt(s, i + |d| + |sp|, u)
    ensures forall k :: i <= k < i + |d| ==> IsDigit(s[k])
    ensures forall k :: i + |d| <= k < i + |d| + |sp| ==> IsSpace(s[k])
    ensures forall k :: i + |d| + |sp| <= k < i + |d| + |sp| + |u| ==> IsWordChar(s[k])
    ensures !IsDigit(s[i + |d| + |sp|])
    ensures s[i..i + |d|] == d && s[i + |d| + |sp|..i + |d| + |sp| + |u|] == u
  {
    var p := i + |d| + |sp|;
    HasAtChars(s, i, d, IsDigit);
    HasAtChars(s, i + |d|, sp, IsSpace);
    HasAtChars(s, p, u, IsWordChar);
    assert s[p] == s[p..p + |u|][0];
  }

  /** Digits `d`, spaces `sp` and a word `u` beginning with a non-digit,
      standing at `i` and followed by no word character, form the match at
      `i`. */
  lemma ScaleSearchAt(s: string, i: nat, d: string, sp: string, u: string)
    requires d != [] && forall k :: 0 <= k < |d| ==> IsDigit(d[k])
    requires forall k :: 0 <= k < |sp| ==> IsSpace(sp[k])
    requires u != [] && IsWord(u) && !IsDigit(u[0])
    requires HasAt(s, i, d) && HasAt(s, i + |d|, sp) && HasAt(s, i + |d| + |sp|, u)
    requires i + |d| + |sp| + |u| == |s| || !IsWordChar(s[i + |d| + |sp| + |u|])
    ensures ScaleSearch(s, i) == Some(ScaleMatch(d, u))
  {
    SpelledRuns(s, i, d, sp, u);
    ScaleSearchRuns(s, i, |d|, |sp|, |u|);
  }

  /** `$timescale <digits><spaces><unit>...` sets the timescale to the
      digits' value times the unit's power of ten, when the unit is a word
      that begins with a non-digit. */
  lemma TimescaleReadsBack(d: string, sp: string, u: string, rest: string, ts: Timescale)
    requires d != [] && forall k :: 0 <= k < |d| ==> IsDigit(d[k])
    requires forall k :: 0 <= k < |sp| ==> IsSpace(sp[k])
    requires u != [] && IsWord(u) && !IsDigit(u[0])
    requires rest == [] || !IsWordChar(rest[0])
    ensures TimescaleOf("$timescale " + d + sp + u + rest, ts) == Timescale(DigitsValue(d), UnitExponent(u))
  {
    var head := "$timescale ";
    var s := head + d + sp + u + rest;
    FiveParts(head, d, sp, u, rest);
    assert forall k :: 0 <= k < 11 ==> !IsDigit(s[k]) by {
      forall k | 0 <= k < 11 ensures !IsDigit(s[k]) { assert s[k] == head[k]; }
    }
    ScaleSearchSkips(s, 0, 11);
    ScaleSearchAt(s, 11, d, sp, u);
  }

  /** Where each piece of a five-part concatenation stands. */
  lemma FiveParts(a: string, b: string, c: string, d: string, e: string)
    ensures var s := a + b + c + d + e;
      && (forall k :: 0 <= k < |a| ==> s[k] == a[k])
      && HasAt(s, |a|, b) && HasAt(s, |a| + |b|, c) && HasAt(s, |a| + |b| + |c|, d)
      && (|a| + |b| + |c| + |d| == |s| || s[|a| + |b| + |c| + |d|] == e[0])
  {
    var s := a + b + c + d + e;
    var i, j, k := |a|, |a| + |b|, |a| + |b| + |c|;
    assert s == a + (b + (c + (d + e)));
    assert s[i..j] == b;
    assert s[j..k] == c;
    assert s[k..k + |d|] == d;
  }

  /** The line the built-in sample generator writes. */
  lemma NanosecondTimescale(ts: Timescale)
    ensures TimescaleOf("$timescale 1ns $end", ts) == Timescale(1, -9)
  {
    assert "$timescale 1ns $end" == "$timescale " + "1" + "" + "ns" + " $end";
    TimescaleReadsBack("1", "", "ns", " $end", ts);
    assert DigitsValue("1") == 1;
  }
}
