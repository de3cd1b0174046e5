/** `VerilogParser.parse_module` (AWaveViewer.py:1660-1758): a handful of
    regular-expression passes that pull the module name, parameters, ports
    and internal signals out of Verilog text. Each pattern is a scanner here;
    `DeclsFrom` and `ParamsFrom` give what `re.finditer` yields, and
    `ParseModule` is the source's loop of duplicate checks and appends. */
module ModuleParser {
  import opened Text
  import opened VerilogLex

  // ---------------------------------------------------------------- data

  datatype Range = Range(msb: nat, lsb: nat)

  /** One match of a port or signal pattern: the identifier, the optional
      `[msb:lsb]` range, and the index just past the match. */
  datatype Decl = Decl(name: string, range: Option<Range>, end: nat)

  datatype Port = Port(name: string, width: int, msb: nat, lsb: nat)
  datatype Signal = Signal(name: string, width: int)
  datatype Parameter = Parameter(name: string, value: string)

  datatype ModuleInfo = ModuleInfo(
    name: string,
    inputs: seq<Port>,
    outputs: seq<Port>,
    inouts: seq<Port>,
    parameters: seq<Parameter>,
    regs: seq<Signal>,
    wires: seq<Signal>)

  /** The five declaration patterns of lines 1691-1693, 1720 and 1739. */
  datatype Pattern = InputPat | OutputPat | InoutPat | WirePat | RegPat

  // ------------------------------------------------------------ scanners

  /** The keyword that opens a declaration of kind `pat`. */
  function PatKeyword(pat: Pattern): string {
    match pat
    case InputPat => "input"
    case OutputPat => "output"
    case InoutPat => "inout"
    case WirePat => "wire"
    case RegPat => "reg"
  }

  /** `kw\s+` at `p`: the index after the whitespace. */
  function AfterKeyword(s: string, p: nat, kw: string): (r: Option<nat>)
    ensures r.Some? ==> p + |kw| < r.value <= |s|
  {
    if HasAt(s, p, kw) then
      var q := SkipSpace(s, p + |kw|);
      if q > p + |kw| then Some(q) else None
    else None
  }

  /** `\[(\d+):(\d+)\]\s+` at `x`: the range and the index after the whitespace. */
  function RangeAt(s: string, x: nat): (r: Option<(Range, nat)>)
    requires x <= |s|
    ensures r.Some? ==> x < r.value.1 <= |s|
  {
    if x == |s| || s[x] != '[' then None else MsbAt(s, x, DigitRunEnd(s, x + 1))
  }

  /** After `[`, the digits of the msb end at `d1`; then `:`. */
  function MsbAt(s: string, x: nat, d1: nat): (r: Option<(Range, nat)>)
    requires x < d1 <= |s|
    ensures r.Some? ==> x < r.value.1 <= |s|
  {
    if d1 == x + 1 || d1 == |s| || s[d1] != ':' then None else LsbAt(s, x, d1, DigitRunEnd(s, d1 + 1))
  }

  /** After `:`, the digits of the lsb end at `d2`; then `]` and whitespace. */
  function LsbAt(s: string, x: nat, d1: nat, d2: nat): (r: Option<(Range, nat)>)
    requires x < d1 < d2 <= |s|
    ensures r.Some? ==> x < r.value.1 <= |s|
  {
    if d2 == d1 + 1 || d2 == |s| || s[d2] != ']' then None
    else
      var y := SkipSpace(s, d2 + 1);
      if y == d2 + 1 then None else Some((RangeOf(s, x + 1, d1, d2), y))
  }

  /** The range `[msb:lsb]` whose digit runs are `s[a..d1]` and `s[d1 + 1..d2]`. */
  function RangeOf(s: string, a: nat, d1: nat, d2: nat): Range
    requires a <= d1 < d2 <= |s|
  {
    Range(DigitsValueIn(s, a, d1), DigitsValueIn(s, d1 + 1, d2))
  }

  predicate IsTerminator(c: char, paren: bool) {
    c == ',' || c == ';' || (paren && c == ')')
  }

  /** `(\w+)\s*[,;)]` at `y` (`[,;]` when `paren` is false). A shorter word
      run would leave a word character before the terminator, so only the
      maximal run can match. */
  function IdentAt(s: string, y: nat, paren: bool): (r: Option<(string, nat)>)
    requires y <= |s|
    ensures r.Some? ==> y < r.value.1 <= |s|
  {
    var e := WordRunEnd(s, y);
    if e == y then None
    else
      var t := SkipSpace(s, e);
      if t < |s| && IsTerminator(s[t], paren) then Some((s[y..e], t + 1)) else None
  }

  /** The optional range followed by the identifier and its terminator. */
  function DeclTailAt(s: string, x: nat, paren: bool): (r: Option<Decl>)
    requires x <= |s|
    ensures r.Some? ==> x < r.value.end <= |s|
  {
    if x < |s| && s[x] == '[' then
      match RangeAt(s, x)
      case None => None
      case Some((rg, y)) =>
        match IdentAt(s, y, paren)
        case None => None
        case Some((n, e)) => Some(Decl(n, Some(rg), e))
    else
      match IdentAt(s, x, paren)
      case None => None
      case Some((n, e)) => Some(Decl(n, None, e))
  }

  /** An optional qualifier `kw\s+` at `q`, tried before going without it. */
  function QualifiedTailAt(s: string, q: nat, kw: string, paren: bool): (r: Option<Decl>)
    requires q <= |s|
    ensures r.Some? ==> q < r.value.end <= |s|
  {
    if HasAt(s, q, kw) && q + |kw| < |s| && IsSpace(s[q + |kw|]) then
      DeclTailAt(s, SkipSpace(s, q + |kw|), paren)
    else None
  }

  /** The pattern `pat` matched at `p`: its keyword and whitespace, then the
      alternatives that may follow. */
  function DeclAt(s: string, p: nat, pat: Pattern): (r: Option<Decl>)
    ensures r.Some? ==> p < r.value.end <= |s|
  {
    match AfterKeyword(s, p, PatKeyword(pat))
    case None => None
    case Some(q) => AlternativesAt(s, q, pat)
  }

  /** What may follow the keyword, in the regex engine's order of
      alternatives: for outputs `reg` (with no whitespace required after it),
      then `wire\s+`, then no qualifier; for inputs `wire\s+`, then none. */
  function AlternativesAt(s: string, q: nat, pat: Pattern): (r: Option<Decl>)
    requires q <= |s|
    ensures r.Some? ==> q < r.value.end <= |s|
  {
    match pat
    case InputPat =>
      var viaWire := QualifiedTailAt(s, q, "wire", true);
      if viaWire.Some? then viaWire else DeclTailAt(s, q, true)
    case OutputPat =>
      var viaReg := if HasAt(s, q, "reg") then DeclTailAt(s, q + 3, true) else None;
      var viaWire := QualifiedTailAt(s, q, "wire", true);
      if viaReg.Some? then viaReg else if viaWire.Some? then viaWire else DeclTailAt(s, q, true)
    case InoutPat => DeclTailAt(s, q, true)
    case WirePat => DeclTailAt(s, q, false)
    case RegPat => DeclTailAt(s, q, false)
  }

  /** `d` is a match of `pat` that starts at or after `p`. */
  ghost predicate MatchedFrom(s: string, p: nat, pat: Pattern, d: Decl) {
    exists q :: p <= q && DeclAt(s, q, pat) == Some(d)
  }

  /** `re.finditer(pattern, s)` started at `p`: leftmost matches, each search
      resuming where the previous match ended. */
  function DeclsFrom(s: string, p: nat, pat: Pattern): (r: seq<Decl>)
    ensures r != [] ==> MatchedFrom(s, p, pat, r[0])
    ensures forall k :: 0 < k < |r| ==> MatchedFrom(s, r[k - 1].end, pat, r[k])
    decreases |s| - p
  {
    if p >= |s| then []
    else match DeclAt(s, p, pat)
      case Some(d) => [d] + DeclsFrom(s, d.end, pat)
      case None => DeclsFrom(s, p + 1, pat)
  }

  /** End of the maximal run of characters other than `;` and `,`. */
  function ValueEnd(s: string, i: nat): (e: nat)
    requires i <= |s|
    ensures i <= e <= |s|
    ensures forall k :: i <= k < e ==> s[k] != ';' && s[k] != ','
    ensures e < |s| ==> s[e] == ';' || s[e] == ','
    decreases |s| - i
  {
    if i == |s| || s[i] == ';' || s[i] == ',' then i else ValueEnd(s, i + 1)
  }

  /** `(\w+)\s*=\s*([^;,]+)` at `y`, with the value stripped. The class
      `[^;,]` includes whitespace, so whatever `\s*` leaves behind, the value
      is the stripped run of non-separators after `=`; the match needs that
      run to be non-empty. */
  function ParamRestAt(s: string, y: nat): (r: Option<(Parameter, nat)>)
    requires y <= |s|
    ensures r.Some? ==> y < r.value.1 <= |s|
  {
    var e := WordRunEnd(s, y);
    if e == y then None
    else
      var t := SkipSpace(s, e);
      if t == |s| || s[t] != '=' then None
      else
        var v := ValueEnd(s, t + 1);
        if v == t + 1 then None
        else Some((Parameter(s[y..e], Strip(s[t + 1..v])), v))
  }

  /** The lazy `\[.*?\]\s+` from the `[` at `q`: each `]` at index `k` or
      later on the same line is tried in turn, the first one after which the
      rest of the pattern matches wins. */
  function ParamRangeFrom(s: string, q: nat, k: nat): (r: Option<(Parameter, nat)>)
    requires q < k <= |s|
    ensures r.Some? ==> q < r.value.1 <= |s|
    decreases |s| - k
  {
    if k == |s| || s[k] == '\n' then None
    else if s[k] == ']' && k + 1 < |s| && IsSpace(s[k + 1]) then
      match ParamRestAt(s, SkipSpace(s, k + 1))
      case Some(m) => Some(m)
      case None => ParamRangeFrom(s, q, k + 1)
    else ParamRangeFrom(s, q, k + 1)
  }

  /** `parameter\s+(?:\[.*?\]\s+)?(\w+)\s*=\s*([^;,]+)` at `p`. */
  function ParamAt(s: string, p: nat): (r: Option<(Parameter, nat)>)
    ensures r.Some? ==> p < r.value.1 <= |s|
  {
    match AfterKeyword(s, p, "parameter")
    case None => None
    case Some(q) =>
      if q < |s| && s[q] == '[' then ParamRangeFrom(s, q, q + 1)
      else ParamRestAt(s, q)
  }

  /** The `parameter` declarations found at or after `p`, in text order;
      each match consumes at least one character. */
  function ParamsFrom(s: string, p: nat): (r: seq<Parameter>)
    ensures r != [] ==> p + |r| <= |s|
    ensures forall prm :: prm in r ==> exists q :: p <= q < |s| && ParamAt(s, q).Some? && ParamAt(s, q).value.0 == prm
    decreases |s| - p
  {
    if p >= |s| then []
    else match ParamAt(s, p)
      case Some((prm, e)) => [prm] + ParamsFrom(s, e)
      case None => ParamsFrom(s, p + 1)
  }

  /** `module\s+(\w+)` at `p`. */
  function ModuleNameAt(s: string, p: nat): (r: Option<string>)
    ensures r.Some? ==> r.value != []
  {
    match AfterKeyword(s, p, "module")
    case None => None
    case Some(q) =>
      var e := WordRunEnd(s, q);
      if e > q then Some(s[q..e]) else None
  }

  /** The name after the first `module` keyword and its blanks at or after `p`;
      the empty name when there is none. */
  function ModuleNameFrom(s: string, p: nat): (r: string)
    ensures r != [] <==> exists q :: p <= q < |s| && ModuleNameAt(s, q).Some?
    ensures r != [] ==> exists q :: (&& p <= q < |s| && ModuleNameAt(s, q) == Some(r)
                                     && forall q' :: p <= q' < q ==> ModuleNameAt(s, q').None?)
    decreases |s| - p
  {
    if p >= |s| then []
    else match ModuleNameAt(s, p)
      case Some(n) => n
      case None => ModuleNameFrom(s, p + 1)
  }

  // ------------------------------------------------------- the record

  function DeclNames(ds: seq<Decl>): (r: seq<string>)
    ensures |r| == |ds| && forall k :: 0 <= k < |ds| ==> r[k] == ds[k].name
  {
    if ds == [] then [] else [ds[0].name] + DeclNames(ds[1..])
  }

  function PortNames(ps: seq<Port>): (r: seq<string>)
    ensures |r| == |ps| && forall k :: 0 <= k < |ps| ==> r[k] == ps[k].name
  {
    if ps == [] then [] else [ps[0].name] + PortNames(ps[1..])
  }

  function SignalNames(ss: seq<Signal>): (r: seq<string>)
    ensures |r| == |ss| && forall k :: 0 <= k < |ss| ==> r[k] == ss[k].name
  {
    if ss == [] then [] else [ss[0].name] + SignalNames(ss[1..])
  }

  /** The record entry for a match: a range `[m:l]` gives width `m - l + 1`
      (not clamped), no range gives width 1 and `msb == lsb == 0`. */
  function PortOf(d: Decl): Port {
    match d.range
    case Some(rg) => Port(d.name, rg.msb - rg.lsb + 1, rg.msb, rg.lsb)
    case None => Port(d.name, 1, 0, 0)
  }

  function SignalOf(d: Decl): Signal {
    match d.range
    case Some(rg) => Signal(d.name, rg.msb - rg.lsb + 1)
    case None => Signal(d.name, 1)
  }

  function PortsOf(ds: seq<Decl>): (r: seq<Port>)
    ensures |r| == |ds| && forall k :: 0 <= k < |ds| ==> r[k] == PortOf(ds[k])
  {
    if ds == [] then [] else [PortOf(ds[0])] + PortsOf(ds[1..])
  }

  function SignalsOf(ds: seq<Decl>): (r: seq<Signal>)
    ensures |r| == |ds| && forall k :: 0 <= k < |ds| ==> r[k] == SignalOf(ds[k])
  {
    if ds == [] then [] else [SignalOf(ds[0])] + SignalsOf(ds[1..])
  }

  /** The matches whose names are neither `blocked` nor already kept in
      `acc`, appended to `acc` in match order. */
  function Collect(blocked: seq<string>, acc: seq<Decl>, ds: seq<Decl>): (r: seq<Decl>)
    ensures acc <= r
    ensures forall d :: d in r ==> d in acc || d in ds
    decreases |ds|
  {
    if ds == [] then acc
    else if ds[0].name in blocked || ds[0].name in DeclNames(acc) then Collect(blocked, acc, ds[1..])
    else Collect(blocked, acc + [ds[0]], ds[1..])
  }

  /** The record `parse_module` returns: name and parameters from the raw
      text, ports and signals from the text with comments removed. */
  function ModuleInfoOf(verilog: string): (r: ModuleInfo)
    ensures WellFormed(r)
  {
    var code := RemoveComments(verilog);
    var ki := Collect([], [], DeclsFrom(code, 0, InputPat));
    var ko := Collect([], [], DeclsFrom(code, 0, OutputPat));
    var kio := Collect([], [], DeclsFrom(code, 0, InoutPat));
    var kw := Collect(PortNames(PortsOf(ki)) + PortNames(PortsOf(ko)), [], DeclsFrom(code, 0, WirePat));
    var kr := Collect(PortNames(PortsOf(ko)), [], DeclsFrom(code, 0, RegPat));
    CollectFresh([], DeclsFrom(code, 0, InputPat));
    CollectFresh([], DeclsFrom(code, 0, OutputPat));
    CollectFresh([], DeclsFrom(code, 0, InoutPat));
    CollectFresh(PortNames(PortsOf(ki)) + PortNames(PortsOf(ko)), DeclsFrom(code, 0, WirePat));
    CollectFresh(PortNames(PortsOf(ko)), DeclsFrom(code, 0, RegPat));
    RecordWellFormed(ModuleNameFrom(verilog, 0), ParamsFrom(verilog, 0), ki, ko, kio, kw, kr);
    ModuleInfo(ModuleNameFrom(verilog, 0), PortsOf(ki), PortsOf(ko), PortsOf(kio), ParamsFrom(verilog, 0), SignalsOf(kr), SignalsOf(kw))
  }

  predicate Distinct(names: seq<string>) {
    forall i, j :: 0 <= i < j < |names| ==> names[i] != names[j]
  }

  predicate PortShape(p: Port) { p.width == p.msb - p.lsb + 1 }

  /** What the duplicate checks of lines 1700, 1724 and 1743 guarantee. */
  predicate WellFormed(info: ModuleInfo) {
    PortsShaped(info) && NamesDistinct(info) && SignalsExcluded(info)
  }

  predicate PortsShaped(info: ModuleInfo) {
    forall p :: p in info.inputs + info.outputs + info.inouts ==> PortShape(p)
  }

  predicate NamesDistinct(info: ModuleInfo) {
    && Distinct(PortNames(info.inputs)) && Distinct(PortNames(info.outputs)) && Distinct(PortNames(info.inouts))
    && Distinct(SignalNames(info.wires)) && Distinct(SignalNames(info.regs))
  }

  predicate SignalsExcluded(info: ModuleInfo) {
    && (forall w :: w in info.wires ==> w.name !in PortNames(info.inputs) + PortNames(info.outputs))
    && (forall r :: r in info.regs ==> r.name !in PortNames(info.outputs))
  }

  // ------------------------------------------------------------ methods

  /** `parse_module`. */
  method ParseModule(verilog: string) returns (info: ModuleInfo)
    ensures info == ModuleInfoOf(verilog)
    ensures WellFormed(info)
  {
    var code := RemoveComments(verilog);
    var inputs := CollectPorts(DeclsFrom(code, 0, InputPat));
    var outputs := CollectPorts(DeclsFrom(code, 0, OutputPat));
    var inouts := CollectPorts(DeclsFrom(code, 0, InoutPat));
    var wires := CollectSignals(PortNames(inputs) + PortNames(outputs), DeclsFrom(code, 0, WirePat));
    var regs := CollectSignals(PortNames(outputs), DeclsFrom(code, 0, RegPat));
    info := ModuleInfo(ModuleNameFrom(verilog, 0), inputs, outputs, inouts, ParamsFrom(verilog, 0), regs, wires);
  }

  /** One of the three port loops: a match whose name is already in the
      list is skipped, any other is appended. */
  method CollectPorts(ds: seq<Decl>) returns (ports: seq<Port>)
    ensures ports == PortsOf(Collect([], [], ds))
  {
    ports := [];
    ghost var kept: seq<Decl> := [];
    for i := 0 to |ds|
      invariant ports == PortsOf(kept)
      invariant Collect([], [], ds) == Collect([], kept, ds[i..])
    {
      assert ds[i..][1..] == ds[i + 1..];
      NamesOfPorts(kept);
      if ds[i].name !in PortNames(ports) {
        ports := ports + [PortOf(ds[i])];
        kept := kept + [ds[i]];
        assert ports == PortsOf(kept);
      }
    }
    assert ds[|ds|..] == [];
  }

  /** The wire or reg loop: a match is skipped when its name is `blocked`
      (ports of the listed kinds) or already a signal of this kind. */
  method CollectSignals(blocked: seq<string>, ds: seq<Decl>) returns (signals: seq<Signal>)
    ensures signals == SignalsOf(Collect(blocked, [], ds))
  {
    signals := [];
    ghost var kept: seq<Decl> := [];
    for i := 0 to |ds|
      invariant signals == SignalsOf(kept)
      invariant Collect(blocked, [], ds) == Collect(blocked, kept, ds[i..])
    {
      assert ds[i..][1..] == ds[i + 1..];
      NamesOfSignals(kept);
      if ds[i].name !in blocked && ds[i].name !in SignalNames(signals) {
        signals := signals + [SignalOf(ds[i])];
        kept := kept + [ds[i]];
        assert signals == SignalsOf(kept);
      }
    }
    assert ds[|ds|..] == [];
  }

  // ------------------------------------------------------------- lemmas

  lemma NamesOfPorts(ds: seq<Decl>)
    ensures PortNames(PortsOf(ds)) == DeclNames(ds)
  {
  }

  lemma NamesOfSignals(ds: seq<Decl>)
    ensures SignalNames(SignalsOf(ds)) == DeclNames(ds)
  {
  }

  /** Kept names are distinct and never blocked. */
  lemma {:induction false} CollectDistinct(blocked: seq<string>, acc: seq<Decl>, ds: seq<Decl>)
    requires Distinct(DeclNames(acc)) && forall d :: d in acc ==> d.name !in blocked
    ensures Distinct(DeclNames(Collect(blocked, acc, ds)))
    ensures forall d :: d in Collect(blocked, acc, ds) ==> d.name !in blocked
    decreases |ds|
  {
    if ds != [] {
      if ds[0].name in blocked || ds[0].name in DeclNames(acc) {
        CollectDistinct(blocked, acc, ds[1..]);
      } else {
        var acc' := acc + [ds[0]];
        assert DeclNames(acc') == DeclNames(acc) + [ds[0].name];
        CollectDistinct(blocked, acc', ds[1..]);
      }
    }
  }

  /** Every match's name ends up blocked or kept: nothing is lost except duplicates. */
  lemma {:induction false} CollectComplete(blocked: seq<string>, acc: seq<Decl>, ds: seq<Decl>)
    ensures forall d :: d in acc + ds ==> d.name in blocked || d.name in DeclNames(Collect(blocked, acc, ds))
    decreases |ds|
  {
    var r := Collect(blocked, acc, ds);
    if ds != [] {
      var acc' := if ds[0].name in blocked || ds[0].name in DeclNames(acc) then acc else acc + [ds[0]];
      CollectComplete(blocked, acc', ds[1..]);
      forall d | d in acc + ds ensures d.name in blocked || d.name in DeclNames(r) {
        if d in acc {
          assert d in acc' + ds[1..];
        } else if d == ds[0] {
          if ds[0].name !in blocked && ds[0].name in DeclNames(acc) {
            var k :| 0 <= k < |acc| && acc[k].name == d.name;
            assert acc[k] in acc' + ds[1..];
          } else if ds[0].name !in blocked {
            assert d in acc' + ds[1..];
          }
        } else {
          assert d in acc' + ds[1..];
        }
      }
    } else {
      forall d | d in acc + ds ensures d.name in DeclNames(r) {
        var k :| 0 <= k < |acc| && acc[k] == d;
      }
    }
  }

  /** The first match of each name that is neither blocked nor already kept wins. */
  lemma {:induction false} CollectFirstWins(blocked: seq<string>, acc: seq<Decl>, ds: seq<Decl>, j: nat)
    requires j < |ds| && ds[j].name !in blocked && ds[j].name !in DeclNames(acc)
    requires forall i :: 0 <= i < j ==> ds[i].name != ds[j].name
    ensures ds[j] in Collect(blocked, acc, ds)
    decreases |ds|
  {
    var acc' := if ds[0].name in blocked || ds[0].name in DeclNames(acc) then acc else acc + [ds[0]];
    if j == 0 {
      assert ds[0] in acc';
    } else {
      assert ds[0].name != ds[j].name;
      assert ds[j].name !in DeclNames(acc') by {
        if acc' != acc {
          assert DeclNames(acc') == DeclNames(acc) + [ds[0].name];
        }
      }
      assert ds[1..][j - 1] == ds[j];
      forall i | 0 <= i < j - 1 ensures ds[1..][i].name != ds[1..][j - 1].name {
        assert ds[1..][i] == ds[i + 1];
      }
      CollectFirstWins(blocked, acc', ds[1..], j - 1);
    }
  }

  /** Port `k` carries the name of match `k`; a range gives its bounds and
      width `msb - lsb + 1` (not clamped), no range gives width 1 and
      `msb == lsb == 0`. */
  lemma PortsOfShape(ds: seq<Decl>)
    ensures forall p :: p in PortsOf(ds) ==> PortShape(p)
    ensures forall k :: 0 <= k < |ds| && ds[k].range.None? ==> PortsOf(ds)[k] == Port(ds[k].name, 1, 0, 0)
    ensures forall k :: 0 <= k < |ds| && ds[k].range.Some? ==>
      var rg := ds[k].range.value;
      PortsOf(ds)[k] == Port(ds[k].name, rg.msb - rg.lsb + 1, rg.msb, rg.lsb)
  {
  }

  lemma DistinctPorts(ds: seq<Decl>)
    requires Distinct(DeclNames(ds))
    ensures Distinct(PortNames(PortsOf(ds)))
  {
    NamesOfPorts(ds);
  }

  lemma DistinctSignals(ds: seq<Decl>)
    requires Distinct(DeclNames(ds))
    ensures Distinct(SignalNames(SignalsOf(ds)))
  {
    NamesOfSignals(ds);
  }

  lemma CollectFresh(blocked: seq<string>, ds: seq<Decl>)
    ensures Distinct(DeclNames(Collect(blocked, [], ds)))
    ensures forall d :: d in Collect(blocked, [], ds) ==> d.name !in blocked
  {
    CollectDistinct(blocked, [], ds);
  }

  lemma SignalsNotBlocked(blocked: seq<string>, ds: seq<Decl>)
    requires forall d :: d in ds ==> d.name !in blocked
    ensures forall s :: s in SignalsOf(ds) ==> s.name !in blocked
  {
    forall s | s in SignalsOf(ds) ensures s.name !in blocked {
      var k :| 0 <= k < |ds| && SignalsOf(ds)[k] == s;
      assert ds[k] in ds;
    }
  }

  lemma RecordWellFormed(name: string, params: seq<Parameter>, ki: seq<Decl>, ko: seq<Decl>, kio: seq<Decl>, kw: seq<Decl>, kr: seq<Decl>)
    requires Distinct(DeclNames(ki)) && Distinct(DeclNames(ko)) && Distinct(DeclNames(kio))
    requires Distinct(DeclNames(kw)) && Distinct(DeclNames(kr))
    requires forall d :: d in kw ==> d.name !in PortNames(PortsOf(ki)) + PortNames(PortsOf(ko))
    requires forall d :: d in kr ==> d.name !in PortNames(PortsOf(ko))
    ensures WellFormed(ModuleInfo(name, PortsOf(ki), PortsOf(ko), PortsOf(kio), params, SignalsOf(kr), SignalsOf(kw)))
  {
    var info := ModuleInfo(name, PortsOf(ki), PortsOf(ko), PortsOf(kio), params, SignalsOf(kr), SignalsOf(kw));
    assert PortsShaped(info) by {
      PortsOfShape(ki);
      PortsOfShape(ko);
      PortsOfShape(kio);
    }
    assert NamesDistinct(info) by {
      DistinctPorts(ki);
      DistinctPorts(ko);
      DistinctPorts(kio);
      DistinctSignals(kw);
      DistinctSignals(kr);
    }
    assert SignalsExcluded(info) by {
      SignalsNotBlocked(PortNames(PortsOf(ki)) + PortNames(PortsOf(ko)), kw);
      SignalsNotBlocked(PortNames(PortsOf(ko)), kr);
    }
  }

  /** Every input port comes from an input match, every input match's name
      is an input, and the first match of each name decides its entry (the
      same holds for outputs and inouts). */
  lemma PortsFromMatches(ds: seq<Decl>)
    ensures forall p :: p in PortsOf(Collect([], [], ds)) ==> exists d :: d in ds && p == PortOf(d)
    ensures forall d :: d in ds ==> d.name in PortNames(PortsOf(Collect([], [], ds)))
    ensures forall j :: 0 <= j < |ds| && (forall i :: 0 <= i < j ==> ds[i].name != ds[j].name) ==>
      PortOf(ds[j]) in PortsOf(Collect([], [], ds))
  {
    var kept := Collect([], [], ds);
    assert forall d :: d in ds ==> d.name in PortNames(PortsOf(kept)) by {
      CollectComplete([], [], ds);
      NamesOfPorts(kept);
    }
    forall p | p in PortsOf(kept) ensures exists d :: d in ds && p == PortOf(d) {
      var k :| 0 <= k < |kept| && PortsOf(kept)[k] == p;
      assert kept[k] in kept;
    }
    forall j | 0 <= j < |ds| && (forall i :: 0 <= i < j ==> ds[i].name != ds[j].name)
      ensures PortOf(ds[j]) in PortsOf(kept)
    {
      CollectFirstWins([], [], ds, j);
      var k :| 0 <= k < |kept| && kept[k] == ds[j];
      assert PortsOf(kept)[k] == PortOf(ds[j]);
    }
  }

  /** Every wire (or reg) match's name is blocked or a kept signal. */
  lemma SignalsFromMatches(blocked: seq<string>, ds: seq<Decl>)
    ensures forall s :: s in SignalsOf(Collect(blocked, [], ds)) ==> exists d :: d in ds && s == SignalOf(d)
    ensures forall d :: d in ds ==> d.name in blocked || d.name in SignalNames(SignalsOf(Collect(blocked, [], ds)))
  {
    var kept := Collect(blocked, [], ds);
    CollectComplete(blocked, [], ds);
    NamesOfSignals(kept);
    forall s | s in SignalsOf(kept) ensures exists d :: d in ds && s == SignalOf(d) {
      var k :| 0 <= k < |kept| && SignalsOf(kept)[k] == s;
      assert kept[k] in kept;
    }
  }

  // ------------------------------------------- scanners against their text

  /** How a range is spelled: its two runs of digits (leading zeros allowed). */
  datatype RangeSpelling = RangeSpelling(msb: string, lsb: string)

  predicate AllDigits(m: string) { forall k :: 0 <= k < |m| ==> IsDigit(m[k]) }

  predicate Spelled(r: Option<RangeSpelling>) {
    r.Some? ==> r.value.msb != [] && r.value.lsb != [] && AllDigits(r.value.msb) && AllDigits(r.value.lsb)
  }

  /** The range a spelling denotes, as `int()` reads its digits. */
  function RangeOfSpelling(r: Option<RangeSpelling>): Option<Range> {
    match r
    case None => None
    case Some(sp) => Some(Range(DigitsValue(sp.msb), DigitsValue(sp.lsb)))
  }

  /** The text of a range: `[msb:lsb]` and one space. */
  function RangeText(r: Option<RangeSpelling>): string {
    match r
    case None => []
    case Some(sp) => "[" + sp.msb + ":" + sp.lsb + "] "
  }

  /** A declaration as it is usually written: `kw [msb:lsb] name;`. */
  function DeclText(kw: string, name: string, r: Option<RangeSpelling>): string {
    kw + " " + DeclBody(name, r) + ";"
  }

  /** What follows the keyword and its space: `[msb:lsb] name`. */
  function DeclBody(name: string, r: Option<RangeSpelling>): string {
    RangeText(r) + name
  }

  /** Every range has a spelling: its decimal digits. */
  lemma DecimalSpelling(rg: Range)
    ensures var r := Some(RangeSpelling(NatToString(rg.msb), NatToString(rg.lsb)));
      Spelled(r) && RangeOfSpelling(r) == Some(rg)
  {
    DigitsOfNat(rg.msb);
    DigitsOfNat(rg.lsb);
  }

  /** A run of digits followed by a non-digit is the digit run at `i`. */
  lemma DigitRunOfDigits(s: string, i: nat, m: string)
    requires HasAt(s, i, m) && AllDigits(m) && i + |m| < |s| && !IsDigit(s[i + |m|])
    ensures DigitRunEnd(s, i) == i + |m|
    ensures DigitsValueIn(s, i, i + |m|) == DigitsValue(m)
  {
    forall k | i <= k < i + |m| ensures IsDigit(s[k]) {
      HasAtIndex(s, i, m, k - i);
    }
    DigitRunEndOf(s, i, |m|);
    DigitsValueInSlice(s, i, i + |m|);
  }

  /** One space followed by a non-space is skipped. */
  lemma SkipOneSpace(s: string, i: nat)
    requires i < |s| && IsSpace(s[i])
    requires i + 1 == |s| || !IsSpace(s[i + 1])
    ensures SkipSpace(s, i) == i + 1
  {
  }

  /** A word followed directly by a terminator is read as the identifier. */
  lemma IdentAtOf(s: string, y: nat, name: string, paren: bool)
    requires HasAt(s, y, name) && y + |name| < |s| && name != [] && IsWord(name)
    requires IsTerminator(s[y + |name|], paren)
    ensures IdentAt(s, y, paren) == Some((name, y + |name| + 1))
  {
    forall k | y <= k < y + |name| ensures IsWordChar(s[k]) {
      HasAtIndex(s, y, name, k - y);
    }
    WordRunEndOf(s, y, |name|);
  }

  lemma RangeAtFromParts(s: string, x: nat, d1: nat, d2: nat, y: nat)
    requires x + 1 < d1 && d1 + 1 < d2 && d2 < |s|
    requires s[x] == '[' && s[d1] == ':' && s[d2] == ']'
    requires DigitRunEnd(s, x + 1) == d1 && DigitRunEnd(s, d1 + 1) == d2
    requires SkipSpace(s, d2 + 1) == y && y != d2 + 1
    ensures RangeAt(s, x) == Some((RangeOf(s, x + 1, d1, d2), y))
  {
    LsbAtOf(s, x, d1, d2, y);
    MsbAtOf(s, x, d1, d2);
  }

  lemma LsbAtOf(s: string, x: nat, d1: nat, d2: nat, y: nat)
    requires x < d1 && d1 + 1 < d2 < |s| && s[d2] == ']'
    requires SkipSpace(s, d2 + 1) == y && y != d2 + 1
    ensures LsbAt(s, x, d1, d2) == Some((RangeOf(s, x + 1, d1, d2), y))
  {
  }

  lemma MsbAtOf(s: string, x: nat, d1: nat, d2: nat)
    requires x + 1 < d1 < |s| && s[d1] == ':' && DigitRunEnd(s, d1 + 1) == d2 && d1 < d2
    ensures MsbAt(s, x, d1) == LsbAt(s, x, d1, d2)
  {
  }

  /** Where the pieces of `[m:l] ` stand. */
  lemma BracketParts(s: string, x: nat, m: string, l: string)
    requires HasAt(s, x, "[" + m + ":" + l + "] ")
    ensures s[x] == '[' && HasAt(s, x + 1, m) && s[x + 1 + |m|] == ':'
    ensures HasAt(s, x + 2 + |m|, l) && s[x + 2 + |m| + |l|] == ']' && s[x + 3 + |m| + |l|] == ' '
  {
    assert "[" + m + ":" + l + "] " == ("[" + m + ":") + (l + "] ");
    HasAtSplit(s, x, "[" + m + ":", l + "] ");
    OpenParts(s, x, m);
    CloseParts(s, x + 2 + |m|, l);
  }

  /** Where the pieces of `[m:` stand. */
  lemma OpenParts(s: string, x: nat, m: string)
    requires HasAt(s, x, "[" + m + ":")
    ensures s[x] == '[' && HasAt(s, x + 1, m) && s[x + 1 + |m|] == ':'
  {
    HasAtSplit(s, x, "[" + m, ":");
    HasAtSplit(s, x, "[", m);
    HasAtOne(s, x, '[');
    HasAtOne(s, x + 1 + |m|, ':');
  }

  /** Where the pieces of `l] ` stand. */
  lemma CloseParts(s: string, y: nat, l: string)
    requires HasAt(s, y, l + "] ")
    ensures HasAt(s, y, l) && s[y + |l|] == ']' && s[y + |l| + 1] == ' '
  {
    assert l + "] " == (l + "]") + " ";
    HasAtSplit(s, y, l + "]", " ");
    HasAtSplit(s, y, l, "]");
    HasAtOne(s, y + |l|, ']');
    HasAtOne(s, y + |l| + 1, ' ');
  }

  /** `[m:l] ` followed by a non-space, for digit runs `m` and `l`. */
  lemma RangeAtOfDigits(s: string, x: nat, m: string, l: string)
    requires m != [] && l != [] && AllDigits(m) && AllDigits(l) && x + |m| + |l| + 3 < |s|
    requires s[x] == '[' && HasAt(s, x + 1, m) && s[x + 1 + |m|] == ':'
    requires HasAt(s, x + 2 + |m|, l) && s[x + 2 + |m| + |l|] == ']' && s[x + 3 + |m| + |l|] == ' '
    requires x + |m| + |l| + 4 == |s| || !IsSpace(s[x + |m| + |l| + 4])
    ensures RangeAt(s, x) == Some((Range(DigitsValue(m), DigitsValue(l)), x + |m| + |l| + 4))
  {
    var d1, d2 := x + 1 + |m|, x + 2 + |m| + |l|;
    DigitRunOfDigits(s, x + 1, m);
    assert DigitRunEnd(s, x + 1) == d1;
    DigitRunOfDigits(s, d1 + 1, l);
    assert DigitRunEnd(s, d1 + 1) == d2;
    SkipOneSpace(s, d2 + 1);
    RangeAtFromParts(s, x, d1, d2, d2 + 2);
    RangeOfDigits(s, x + 1, m, l);
  }

  /** The range whose digit runs spell `m` and `l`. */
  lemma RangeOfDigits(s: string, a: nat, m: string, l: string)
    requires a + |m| < a + |m| + 1 + |l| <= |s|
    requires DigitsValueIn(s, a, a + |m|) == DigitsValue(m)
    requires DigitsValueIn(s, a + |m| + 1, a + |m| + 1 + |l|) == DigitsValue(l)
    ensures RangeOf(s, a, a + |m|, a + |m| + 1 + |l|) == Range(DigitsValue(m), DigitsValue(l))
  {
  }

  /** The text of a range is read back as the range it spells. */
  lemma RangeAtOf(s: string, x: nat, sp: RangeSpelling)
    requires Spelled(Some(sp)) && HasAt(s, x, RangeText(Some(sp)))
    requires x + |RangeText(Some(sp))| == |s| || !IsSpace(s[x + |RangeText(Some(sp))|])
    ensures x < |s| && s[x] == '['
    ensures RangeAt(s, x) == Some((RangeOfSpelling(Some(sp)).value, x + |RangeText(Some(sp))|))
  {
    BracketParts(s, x, sp.msb, sp.lsb);
    RangeAtOfDigits(s, x, sp.msb, sp.lsb);
  }

  /** A name and its terminator, with no range, are read back. */
  lemma DeclTailAtPlain(s: string, x: nat, name: string, paren: bool)
    requires name != [] && IsWord(name)
    requires HasAt(s, x, name) && x + |name| < |s| && IsTerminator(s[x + |name|], paren)
    ensures DeclTailAt(s, x, paren) == Some(Decl(name, None, x + |name| + 1))
  {
    IdentAtOf(s, x, name, paren);
    HasAtIndex(s, x, name, 0);
  }

  /** A range, a name and its terminator are read back. */
  lemma DeclTailAtRanged(s: string, x: nat, rg: Range, y: nat, name: string, paren: bool)
    requires name != [] && IsWord(name)
    requires x < |s| && s[x] == '[' && RangeAt(s, x) == Some((rg, y))
    requires HasAt(s, y, name) && y + |name| < |s| && IsTerminator(s[y + |name|], paren)
    ensures DeclTailAt(s, x, paren) == Some(Decl(name, Some(rg), y + |name| + 1))
  {
    IdentAtOf(s, y, name, paren);
  }

  /** The optional range and identifier of a declaration's text are read back. */
  lemma DeclTailAtOf(s: string, x: nat, name: string, r: Option<RangeSpelling>, paren: bool)
    requires name != [] && IsWord(name) && Spelled(r)
    requires HasAt(s, x, DeclBody(name, r)) && x + |DeclBody(name, r)| < |s|
    requires IsTerminator(s[x + |DeclBody(name, r)|], paren)
    ensures DeclTailAt(s, x, paren) == Some(Decl(name, RangeOfSpelling(r), x + |DeclBody(name, r)| + 1))
  {
    if r.None? {
      DeclTailAtNoRange(s, x, name, paren);
    } else {
      DeclTailAtBody(s, x, r.value, name, paren);
    }
  }

  lemma DeclTailAtNoRange(s: string, x: nat, name: string, paren: bool)
    requires name != [] && IsWord(name)
    requires HasAt(s, x, DeclBody(name, None)) && x + |DeclBody(name, None)| < |s|
    requires IsTerminator(s[x + |DeclBody(name, None)|], paren)
    ensures DeclTailAt(s, x, paren) == Some(Decl(name, RangeOfSpelling(None), x + |DeclBody(name, None)| + 1))
  {
    assert DeclBody(name, None) == name;
    DeclTailAtPlain(s, x, name, paren);
  }

  lemma DeclTailAtBody(s: string, x: nat, sp: RangeSpelling, name: string, paren: bool)
    requires name != [] && IsWord(name) && Spelled(Some(sp))
    requires HasAt(s, x, DeclBody(name, Some(sp))) && x + |DeclBody(name, Some(sp))| < |s|
    requires IsTerminator(s[x + |DeclBody(name, Some(sp))|], paren)
    ensures DeclTailAt(s, x, paren) == Some(Decl(name, RangeOfSpelling(Some(sp)), x + |DeclBody(name, Some(sp))| + 1))
  {
    var t := RangeText(Some(sp));
    var y := x + |t|;
    assert DeclBody(name, Some(sp)) == t + name;
    HasAtSplit(s, x, t, name);
    HasAtIndex(s, y, name, 0);
    assert !IsSpace(s[y]);
    RangeAtOf(s, x, sp);
    assert IsTerminator(s[y + |name|], paren);
    DeclTailAtRanged(s, x, RangeOfSpelling(Some(sp)).value, y, name, paren);
  }

  /** A declaration's body starts with `[` exactly when it has a range, and
      with a word character otherwise. */
  lemma DeclBodyStart(name: string, r: Option<RangeSpelling>)
    requires name != []
    ensures DeclBody(name, r) != []
    ensures r.Some? ==> DeclBody(name, r)[0] == '['
    ensures r.None? ==> DeclBody(name, r)[0] == name[0]
  {
  }

  /** A qualifier `kw\s+` cannot match where a declaration's body and its `;`
      stand. */
  lemma NotQualified(s: string, q: nat, name: string, r: Option<RangeSpelling>, kw: string, paren: bool)
    requires name != [] && IsWord(name) && kw != [] && IsWord(kw)
    requires HasAt(s, q, DeclBody(name, r)) && q + |DeclBody(name, r)| < |s|
    requires s[q + |DeclBody(name, r)|] == ';'
    ensures QualifiedTailAt(s, q, kw, paren).None?
  {
    var t := DeclBody(name, r);
    DeclBodyStart(name, r);
    assert !HasAt(s, q, kw) || q + |kw| == |s| || !IsSpace(s[q + |kw|]) by {
      if r.Some? {
        HasAtIndex(s, q, t, 0);
        HasAtGives(s, q, kw, 0);
      } else if |kw| < |name| {
        HasAtIndex(s, q, t, |kw|);
      } else if |kw| > |name| {
        HasAtGives(s, q, kw, |name|);
      }
    }
  }

  /** `kw`, one space, `t` and `;` laid out from the start of `s`. */
  predicate LaidOut(s: string, kw: string, t: string) {
    && |kw| + 1 + |t| < |s| && HasAt(s, 0, kw) && s[|kw|] == ' '
    && HasAt(s, |kw| + 1, t) && s[|kw| + 1 + |t|] == ';'
  }

  /** The parts of `kw t;` followed by anything. */
  lemma TextShape(kw: string, t: string, rest: string)
    ensures LaidOut(kw + " " + t + ";" + rest, kw, t)
  {
    var s := kw + " " + t + ";" + rest;
    HasAtSplit(s, 0, kw + " " + t + ";", rest);
    HasAtSplit(s, 0, kw + " " + t, ";");
    HasAtSplit(s, 0, kw + " ", t);
    HasAtSplit(s, 0, kw, " ");
    HasAtOne(s, |kw|, ' ');
    HasAtOne(s, |kw| + 1 + |t|, ';');
  }

  /** After a declaration's keyword and its one space comes its range or name. */
  lemma KeywordLaidOut(s: string, kw: string, name: string, r: Option<RangeSpelling>)
    requires name != [] && IsWord(name) && LaidOut(s, kw, DeclBody(name, r))
    ensures AfterKeyword(s, 0, kw) == Some(|kw| + 1)
  {
    DeclBodyStart(name, r);
    HasAtIndex(s, |kw| + 1, DeclBody(name, r), 0);
    SkipOneSpace(s, |kw|);
  }

  /** A declaration's body closed by `;` is read back as its tail. */
  lemma DeclTailAtShaped(s: string, q: nat, name: string, r: Option<RangeSpelling>, paren: bool)
    requires name != [] && IsWord(name) && Spelled(r)
    requires HasAt(s, q, DeclBody(name, r)) && q + |DeclBody(name, r)| < |s| && s[q + |DeclBody(name, r)|] == ';'
    ensures DeclTailAt(s, q, paren) == Some(Decl(name, RangeOfSpelling(r), q + |DeclBody(name, r)| + 1))
  {
    DeclTailAtOf(s, q, name, r, paren);
  }

  /** After the keyword and its space, the declaration's tail is read back. */
  lemma TailLaidOut(s: string, kw: string, name: string, r: Option<RangeSpelling>, paren: bool)
    requires name != [] && IsWord(name) && Spelled(r) && LaidOut(s, kw, DeclBody(name, r))
    ensures DeclTailAt(s, |kw| + 1, paren) == Some(Decl(name, RangeOfSpelling(r), |kw| + 1 + |DeclBody(name, r)| + 1))
  {
    var q, t := |kw| + 1, DeclBody(name, r);
    assert HasAt(s, q, t) && q + |t| < |s| && s[q + |t|] == ';';
    DeclTailAtShaped(s, q, name, r, paren);
  }

  /** After the keyword and its space, the `wire` qualifier does not match. */
  lemma WireLaidOut(s: string, kw: string, name: string, r: Option<RangeSpelling>)
    requires name != [] && IsWord(name) && LaidOut(s, kw, DeclBody(name, r))
    ensures QualifiedTailAt(s, |kw| + 1, "wire", true).None?
  {
    NotQualified(s, |kw| + 1, name, r, "wire", true);
  }

  /** The `reg` alternative of outputs does not match a range or a name that
      does not start with `reg`. */
  lemma NoRegLaidOut(s: string, kw: string, name: string, r: Option<RangeSpelling>)
    requires name != [] && LaidOut(s, kw, DeclBody(name, r))
    requires r.Some? || !StartsWith(name, "reg")
    ensures !HasAt(s, |kw| + 1, "reg")
  {
    var q, t := |kw| + 1, DeclBody(name, r);
    DeclBodyStart(name, r);
    if r.Some? {
      HasAtIndex(s, q, t, 0);
      HasAtGives(s, q, "reg", 0);
    } else if |name| >= 3 {
      assert name == name[..3] + name[3..];
      HasAtSplit(s, q, name[..3], name[3..]);
    } else {
      HasAtGives(s, q, "reg", |name|);
    }
  }

  /** A declaration laid out in `s` is matched by its own pattern. */
  lemma DeclRoundTripAt(s: string, pat: Pattern, name: string, r: Option<RangeSpelling>)
    requires name != [] && IsWord(name) && Spelled(r)
    requires LaidOut(s, PatKeyword(pat), DeclBody(name, r))
    requires pat == OutputPat && r.None? ==> !StartsWith(name, "reg")
    ensures DeclAt(s, 0, pat) == Some(Decl(name, RangeOfSpelling(r), |PatKeyword(pat)| + 1 + |DeclBody(name, r)| + 1))
  {
    InputCase(s, pat, name, r);
    OutputCase(s, pat, name, r);
    if pat != InputPat && pat != OutputPat {
      PlainLaidOut(s, pat, name, r);
    }
  }

  lemma InputCase(s: string, pat: Pattern, name: string, r: Option<RangeSpelling>)
    requires name != [] && IsWord(name) && Spelled(r)
    requires LaidOut(s, PatKeyword(pat), DeclBody(name, r))
    ensures pat == InputPat ==>
      DeclAt(s, 0, pat) == Some(Decl(name, RangeOfSpelling(r), |PatKeyword(pat)| + 1 + |DeclBody(name, r)| + 1))
  {
    if pat == InputPat {
      InputLaidOut(s, name, r);
    }
  }

  lemma OutputCase(s: string, pat: Pattern, name: string, r: Option<RangeSpelling>)
    requires name != [] && IsWord(name) && Spelled(r)
    requires LaidOut(s, PatKeyword(pat), DeclBody(name, r))
    requires pat == OutputPat && r.None? ==> !StartsWith(name, "reg")
    ensures pat == OutputPat ==>
      DeclAt(s, 0, pat) == Some(Decl(name, RangeOfSpelling(r), |PatKeyword(pat)| + 1 + |DeclBody(name, r)| + 1))
  {
    if pat == OutputPat {
      OutputLaidOut(s, name, r);
    }
  }

  lemma InputLaidOut(s: string, name: string, r: Option<RangeSpelling>)
    requires name != [] && IsWord(name) && Spelled(r)
    requires LaidOut(s, PatKeyword(InputPat), DeclBody(name, r))
    ensures DeclAt(s, 0, InputPat) == Some(Decl(name, RangeOfSpelling(r), |PatKeyword(InputPat)| + 1 + |DeclBody(name, r)| + 1))
  {
    var kw := PatKeyword(InputPat);
    KeywordLaidOut(s, kw, name, r);
    WireLaidOut(s, kw, name, r);
    TailLaidOut(s, kw, name, r, true);
  }

  lemma OutputLaidOut(s: string, name: string, r: Option<RangeSpelling>)
    requires name != [] && IsWord(name) && Spelled(r)
    requires LaidOut(s, PatKeyword(OutputPat), DeclBody(name, r))
    requires r.None? ==> !StartsWith(name, "reg")
    ensures DeclAt(s, 0, OutputPat) == Some(Decl(name, RangeOfSpelling(r), |PatKeyword(OutputPat)| + 1 + |DeclBody(name, r)| + 1))
  {
    var kw := PatKeyword(OutputPat);
    KeywordLaidOut(s, kw, name, r);
    NoRegLaidOut(s, kw, name, r);
    WireLaidOut(s, kw, name, r);
    TailLaidOut(s, kw, name, r, true);
  }

  /** The patterns with no qualifier to try. */
  lemma PlainLaidOut(s: string, pat: Pattern, name: string, r: Option<RangeSpelling>)
    requires pat == InoutPat || pat == WirePat || pat == RegPat
    requires name != [] && IsWord(name) && Spelled(r)
    requires LaidOut(s, PatKeyword(pat), DeclBody(name, r))
    ensures DeclAt(s, 0, pat) == Some(Decl(name, RangeOfSpelling(r), |PatKeyword(pat)| + 1 + |DeclBody(name, r)| + 1))
  {
    var kw := PatKeyword(pat);
    KeywordLaidOut(s, kw, name, r);
    TailLaidOut(s, kw, name, r, pat == InoutPat);
  }

  /** `kw [msb:lsb] name;` is read back as that declaration, with or without a
      range, for every kind except the one quirk of outputs below. */
  lemma DeclRoundTrip(pat: Pattern, name: string, r: Option<RangeSpelling>, rest: string)
    requires name != [] && IsWord(name) && Spelled(r)
    requires pat == OutputPat && r.None? ==> !StartsWith(name, "reg")
    ensures var text := DeclText(PatKeyword(pat), name, r);
      DeclAt(text + rest, 0, pat) == Some(Decl(name, RangeOfSpelling(r), |text|))
  {
    DeclTextShape(PatKeyword(pat), name, r, rest);
    DeclRoundTripAt(DeclText(PatKeyword(pat), name, r) + rest, pat, name, r);
  }

  /** The parts of `kw [msb:lsb] name;` followed by anything. */
  lemma DeclTextShape(kw: string, name: string, r: Option<RangeSpelling>, rest: string)
    ensures LaidOut(DeclText(kw, name, r) + rest, kw, DeclBody(name, r))
    ensures |DeclText(kw, name, r)| == |kw| + 1 + |DeclBody(name, r)| + 1
  {
    TextShape(kw, DeclBody(name, r), rest);
  }

  /** The `reg` alternative of the output pattern takes no whitespace: in
      `output reg q;` it fails at the space, and so does every other
      alternative, so the declaration gives no output port. */
  lemma OutputRegNotCaptured(name: string, r: Option<RangeSpelling>, rest: string)
    requires name != [] && IsWord(name) && Spelled(r)
    ensures DeclAt(DeclText("output reg", name, r) + rest, 0, OutputPat).None?
  {
    var s, t := DeclText("output reg", name, r) + rest, DeclBody(name, r);
    TextShape("output reg", t, rest);
    DeclBodyStart(name, r);
    HasAtIndex(s, 11, t, 0);
    OutputRegPrefix(s);
    OutputRegTails(s);
  }

  /** Where `output reg ` stands at the start of `s`. */
  lemma OutputRegPrefix(s: string)
    requires HasAt(s, 0, "output reg") && 11 < |s| && s[10] == ' ' && !IsSpace(s[11])
    ensures AfterKeyword(s, 0, "output") == Some(7) && HasAt(s, 7, "reg")
    ensures s[7] == 'r' && s[8] == 'e' && s[9] == 'g'
  {
    assert "output reg" == "output " + "reg";
    HasAtSplit(s, 0, "output ", "reg");
    assert "output " == "output" + " ";
    HasAtSplit(s, 0, "output", " ");
    HasAtOne(s, 6, ' ');
    HasAtIndex(s, 7, "reg", 0);
    HasAtIndex(s, 7, "reg", 1);
    HasAtIndex(s, 7, "reg", 2);
    SkipOneSpace(s, 6);
  }

  /** After `output `, neither `reg` with its space, nor `wire`, nor the bare
      word `reg` followed by the body starts a declaration tail. */
  lemma OutputRegTails(s: string)
    requires 11 < |s| && s[7] == 'r' && s[8] == 'e' && s[9] == 'g' && s[10] == ' '
    requires !IsSpace(s[11]) && !IsTerminator(s[11], true)
    ensures DeclTailAt(s, 10, true).None? && QualifiedTailAt(s, 7, "wire", true).None?
    ensures DeclTailAt(s, 7, true).None?
  {
    HasAtGives(s, 7, "wire", 0);
    WordRunEndOf(s, 7, 3);
    SkipOneSpace(s, 10);
  }

  /** With no space, `output regq;` is read as the output `q`. */
  lemma OutputRegGlued(name: string, rest: string)
    requires name != [] && IsWord(name)
    ensures var text := DeclText("output", "reg" + name, None);
      DeclAt(text + rest, 0, OutputPat) == Some(Decl(name, None, |text|))
  {
    var text := DeclText("output", "reg" + name, None);
    var s := text + rest;
    GluedShape(name, rest);
    OutputGluedAt(s, name);
  }

  /** Where the pieces of `output regq;` stand. */
  lemma GluedShape(name: string, rest: string)
    ensures var text := DeclText("output", "reg" + name, None);
      var s := text + rest;
      && |text| == 11 + |name| && HasAt(s, 0, "output") && s[6] == ' '
      && HasAt(s, 7, "reg") && HasAt(s, 10, name) && s[10 + |name|] == ';'
  {
    var t := "reg" + name;
    var s := DeclText("output", t, None) + rest;
    assert DeclBody(t, None) == t;
    TextShape("output", t, rest);
    HasAtSplit(s, 7, "reg", name);
  }

  /** `output regq;` at the start of `s` gives the output `q`. */
  lemma OutputGluedAt(s: string, name: string)
    requires name != [] && IsWord(name)
    requires HasAt(s, 0, "output") && 10 + |name| < |s| && s[6] == ' '
    requires HasAt(s, 7, "reg") && HasAt(s, 10, name) && s[10 + |name|] == ';'
    ensures DeclAt(s, 0, OutputPat) == Some(Decl(name, None, 11 + |name|))
  {
    HasAtIndex(s, 7, "reg", 0);
    SkipOneSpace(s, 6);
    assert AfterKeyword(s, 0, "output") == Some(7);
    DeclTailAtPlain(s, 10, name, true);
    OutputViaReg(s, 7);
  }

  /** The `reg` alternative of outputs, once it matches, is the one taken. */
  lemma OutputViaReg(s: string, q: nat)
    requires AfterKeyword(s, 0, "output") == Some(q) && HasAt(s, q, "reg")
    requires q + 3 <= |s| && DeclTailAt(s, q + 3, true).Some?
    ensures DeclAt(s, 0, OutputPat) == DeclTailAt(s, q + 3, true)
  {
  }
}
