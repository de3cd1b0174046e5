/** `TestbenchGenerator.generate_testbench` (AWaveViewer.py:1765-1910): a
    fixed Verilog template filled in from a module record and a vector
    count. `TestbenchText` is the text section by section;
    `GenerateTestbench` is the source's `tb_code +=` accumulation, whose
    loops are `AppendEach` and `AppendUnskipped`. */
module Testbench {
  import opened Text
  import opened ModuleParser

  // ------------------------------------------------------------ sequences

  /** The texts `f(x)` for the `x` in `xs`, in order. */
  function ConcatMap<T>(xs: seq<T>, f: T -> string): string
  {
    if xs == [] then [] else ConcatMap(xs[..|xs| - 1], f) + f(xs[|xs| - 1])
  }

  /** The elements of `xs` that `keep` accepts, in order (a list comprehension
      with a condition). */
  function Filter<T>(xs: seq<T>, keep: T -> bool): seq<T>
  {
    if xs == [] then []
    else Filter(xs[..|xs| - 1], keep) + (if keep(xs[|xs| - 1]) then [xs[|xs| - 1]] else [])
  }

  function ParamNames(ps: seq<Parameter>): (r: seq<string>)
    ensures |r| == |ps| && forall k :: 0 <= k < |ps| ==> r[k] == ps[k].name
  {
    if ps == [] then [] else [ps[0].name] + ParamNames(ps[1..])
  }

  // -------------------------------------------------------- signal roles

  predicate IsClockName(n: string) { Contains(Lower(n), "clk") || Contains(Lower(n), "clock") }

  predicate IsResetName(n: string) { Contains(Lower(n), "rst") || Contains(Lower(n), "reset") }

  predicate ClockPort(p: Port) { IsClockName(p.name) }

  predicate ResetPort(p: Port) { IsResetName(p.name) }

  /** An input that is neither a clock nor a reset by its name. */
  predicate DrivenPort(p: Port) { !IsClockName(p.name) && !IsResetName(p.name) }

  /** `clock_signals` and `reset_signals` (lines 1831 and 1842). */
  function ClockSignals(ins: seq<Port>): seq<Port> { Filter(ins, ClockPort) }

  function ResetSignals(ins: seq<Port>): seq<Port> { Filter(ins, ResetPort) }

  /** `ins[k]` is the first input named as a clock. */
  predicate FirstClock(ins: seq<Port>, k: int)
  {
    0 <= k < |ins| && IsClockName(ins[k].name) && forall j :: 0 <= j < k ==> !IsClockName(ins[j].name)
  }

  /** `ins[k]` is the first input named as a reset. */
  predicate FirstReset(ins: seq<Port>, k: int)
  {
    0 <= k < |ins| && IsResetName(ins[k].name) && forall j :: 0 <= j < k ==> !IsResetName(ins[j].name)
  }

  /** The names the stimulus skips: every clock and every reset signal. */
  function Skipped(ins: seq<Port>): seq<string> { PortNames(ClockSignals(ins) + ResetSignals(ins)) }

  /** The inputs whose names are not in `skip`, in order. */
  function Unskipped(ps: seq<Port>, skip: seq<string>): seq<Port>
  {
    if ps == [] then []
    else Unskipped(ps[..|ps| - 1], skip) + (if ps[|ps| - 1].name in skip then [] else [ps[|ps| - 1]])
  }

  // --------------------------------------------------------- text pieces

  function TbName(name: string): string { name + "_tb" }

  function TitleLine(name: string): string { "// Automatic Testbench for " + name + "\n" }

  function HeaderComment(name: string): string
  {
    TitleLine(name) + HeaderNotes(name)
  }

  function HeaderNotes(name: string): string
  {
    "// Generated by AWaveViewer\n//\n// IMPORTANT: When using this testbench:\n"
    + "// 1. Save this as a SEPARATE file (e.g., " + name + "_tb.v)\n"
    + "// 2. Keep your module in another file (e.g., " + name + ".v)\n"
    + "// 3. Compile both: iverilog -o sim " + name + ".v " + name + "_tb.v\n"
    + "//\n// OR if combining in one file, put the MODULE DEFINITION FIRST,\n"
    + "// then the TESTBENCH second (module must be defined before use)\n//\n"
  }

  function ModuleLine(name: string): string { "module " + TbName(name) + ";\n" }

  function Header(name: string): string
  {
    HeaderComment(name) + "`timescale 1ns/1ps\n\n" + ModuleLine(name) + "\n    // Parameters\n"
  }

  function ParamLine(p: Parameter): string { "    parameter " + p.name + " = " + p.value + ";\n" }

  /** A `reg` or `wire` declaration, with its range exactly when the width
      exceeds one. */
  function DeclLine(kind: string, p: Port): string
  {
    if p.width > 1 then
      "    " + kind + " [" + NatToString(p.msb) + ":" + NatToString(p.lsb) + "] " + p.name + ";\n"
    else "    " + kind + " " + p.name + ";\n"
  }

  function RegLine(p: Port): string { DeclLine("reg", p) }

  function WireLine(p: Port): string { DeclLine("wire", p) }

  /** `.n(n)`, the named connection of `n` to the signal of the same name. */
  function Link(n: string): string { "." + n + "(" + n + ")" }

  function Connection(n: string): string { "        " + Link(n) }

  function Connections(names: seq<string>): (r: seq<string>)
    ensures |r| == |names| && forall k :: 0 <= k < |names| ==> r[k] == Connection(names[k])
  {
    seq(|names|, k requires 0 <= k < |names| => Connection(names[k]))
  }

  /** `",\n".join(...)` of the connections of `names`. */
  function ConnectionList(names: seq<string>): string { Join(Connections(names), ",\n") }

  /** The parameter override block, present only when there are parameters. */
  function Overrides(ps: seq<Parameter>): string
  {
    if ps == [] then [] else "#(\n" + ConnectionList(ParamNames(ps)) + "\n    ) "
  }

  function AllPorts(info: ModuleInfo): seq<Port> { info.inputs + info.outputs + info.inouts }

  function ClockBlock(c: string): string
  {
    "    // Clock generation\n    initial begin\n        " + c + " = 0;\n        forever #5 "
    + c + " = ~" + c + ";  // 100MHz clock\n    end\n"
  }

  function ResetBlock(r: string): string
  {
    "\n    // Reset generation\n    initial begin\n        " + r + " = 1;\n        #20 "
    + r + " = 0;\n        #10 " + r + " = 1;\n    end\n"
  }

  function InitLine(p: Port): string { "        " + p.name + " = 0;\n" }

  function DriveLine(p: Port): string
  {
    if p.width > 1 then "            " + p.name + " = $random % (1 << " + IntToString(p.width) + ");\n"
    else "            " + p.name + " = $random % 2;\n"
  }

  function MonitorArg(p: Port): string { ", \" " + p.name + "=%b\", " + p.name }

  const StimulusHead: string :=
    "\n    // Test stimulus\n    integer i;\n    initial begin\n        // Initialize inputs\n"

  function LoopHead(n: int): string
  {
    "\n        // Wait for reset\n        #50;\n        \n        // Apply test vectors\n"
    + "        for (i = 0; i < " + IntToString(n) + "; i = i + 1) begin\n"
  }

  const LoopTail: string := FinishBlock + MonitorHead

  const FinishBlock: string :=
    "            #10;\n        end\n        \n        // Finish simulation\n        #100;\n"
    + "        $display(\"Simulation completed successfully\");\n        $finish;\n    end\n    \n"
    + "    // Monitor signals\n    initial begin\n        "

  const MonitorHead: string := "$monitor(\"Time=%0t\", $time"

  function DumpLine(name: string): string { "        $dumpvars(0, " + TbName(name) + ");\n" }

  /** The close of the `$monitor` call, then the dump block and the end of
      the module. */
  function Footer(name: string): string { ");\n" + DumpBlock(name) }

  function DumpBlock(name: string): string
  {
    "    end\n    \n    // VCD dump for waveform viewing\n    initial begin\n"
    + "        $dumpfile(\"wave.vcd\");\n" + DumpLine(name) + "    end\n\nendmodule\n"
  }

  // -------------------------------------------------------------- sections

  function Declarations(info: ModuleInfo): string
  {
    Header(info.name) + ConcatMap(info.parameters, ParamLine)
    + "\n    // Inputs\n" + ConcatMap(info.inputs, RegLine)
    + "\n    // Outputs\n" + ConcatMap(info.outputs, WireLine)
    + "\n    // Inouts\n" + ConcatMap(info.inouts, WireLine)
  }

  /** `tb` followed by the instantiation of the module under test. */
  function WithInstance(tb: string, info: ModuleInfo): string
  {
    WithOverrides(tb + "\n    // Instantiate the Unit Under Test (UUT)\n" + "    " + info.name + " ", info.parameters)
    + "uut (\n" + ConnectionList(PortNames(AllPorts(info))) + "\n    );\n\n"
  }

  /** `tb` followed by the parameter override block, which is there only
      when there are parameters. */
  function WithOverrides(tb: string, ps: seq<Parameter>): string
  {
    if ps == [] then tb else tb + "#(\n" + ConnectionList(ParamNames(ps)) + "\n    ) "
  }

  /** `tb` followed by the clock block of the first clock input, if any. */
  function WithClock(tb: string, ins: seq<Port>): string
  {
    if ClockSignals(ins) == [] then tb else tb + ClockBlock(ClockSignals(ins)[0].name)
  }

  /** `tb` followed by the reset block of the first reset input, if any. */
  function WithReset(tb: string, ins: seq<Port>): string
  {
    if ResetSignals(ins) == [] then tb else tb + ResetBlock(ResetSignals(ins)[0].name)
  }

  function WithStimulus(tb: string, ins: seq<Port>, testVectors: int): string
  {
    WithReset(WithClock(tb, ins), ins) + StimulusHead
    + ConcatMap(Unskipped(ins, Skipped(ins)), InitLine) + LoopHead(testVectors)
    + ConcatMap(Unskipped(ins, Skipped(ins)), DriveLine) + LoopTail
  }

  function WithMonitoring(tb: string, info: ModuleInfo): string
  {
    tb + ConcatMap(info.inputs, MonitorArg) + ConcatMap(info.outputs, MonitorArg) + Footer(info.name)
  }

  /** The whole testbench text for `info` and `test_vectors`: it starts with
      the declarations, and ends by dumping the variables of `<name>_tb` and
      closing that module. */
  function TestbenchText(info: ModuleInfo, testVectors: int): (r: string)
    ensures Declarations(info) <= r
    ensures EndsWith(r, DumpLine(info.name) + "    end\n\nendmodule\n")
  {
    var d := Declarations(info);
    SectionsExtend(d, info, testVectors);
    WithMonitoring(WithStimulus(WithInstance(d, info), info.inputs, testVectors), info)
  }

  // --------------------------------------------------------------- method

  /** The source's accumulation; its text is `TestbenchText`. */
  method GenerateTestbench(info: ModuleInfo, testVectors: int) returns (tb: string)
    ensures tb == TestbenchText(info, testVectors)
  {
    tb := AppendDeclarations(info);
    tb := AppendInstance(tb, info);
    tb := AppendStimulus(tb, info.inputs, testVectors);
    tb := AppendMonitoring(tb, info);
  }

  /** Lines 1767-1811: the header, parameters and signal declarations. */
  method AppendDeclarations(info: ModuleInfo) returns (tb: string)
    ensures tb == Declarations(info)
  {
    tb := Header(info.name);
    tb := AppendEach(tb, info.parameters, ParamLine);
    tb := tb + "\n    // Inputs\n";
    tb := AppendEach(tb, info.inputs, RegLine);
    tb := tb + "\n    // Outputs\n";
    tb := AppendEach(tb, info.outputs, WireLine);
    tb := tb + "\n    // Inouts\n";
    tb := AppendEach(tb, info.inouts, WireLine);
  }

  /** Lines 1813-1828: the instantiation of the module under test. */
  method AppendInstance(tb: string, info: ModuleInfo) returns (r: string)
    ensures r == WithInstance(tb, info)
  {
    r := tb + "\n    // Instantiate the Unit Under Test (UUT)\n";
    r := r + "    " + info.name + " ";
    if info.parameters != [] {
      r := r + "#(\n";
      r := r + Join(Connections(ParamNames(info.parameters)), ",\n");
      r := r + "\n    ) ";
    }
    r := r + "uut (\n";
    var allPorts := info.inputs + info.outputs + info.inouts;
    r := r + Join(Connections(PortNames(allPorts)), ",\n");
    r := r + "\n    );\n\n";
  }

  /** Lines 1830-1891: the clock and reset blocks, the stimulus loop and the
      opening of the `$monitor` call. */
  method AppendStimulus(tb: string, ins: seq<Port>, testVectors: int) returns (r: string)
    ensures r == WithStimulus(tb, ins, testVectors)
  {
    var skip;
    r, skip := AppendClockReset(tb, ins);
    r := r + StimulusHead;
    r := AppendUnskipped(r, ins, skip, InitLine);
    r := r + LoopHead(testVectors);
    r := AppendUnskipped(r, ins, skip, DriveLine);
    r := r + LoopTail;
  }

  /** Lines 1831-1851: the clock block and the reset block, and the names
      the stimulus then leaves alone. */
  method AppendClockReset(tb: string, ins: seq<Port>) returns (r: string, skip: seq<string>)
    ensures r == WithReset(WithClock(tb, ins), ins) && skip == Skipped(ins)
  {
    r := tb;
    var clockSignals := ClockSignals(ins);
    if clockSignals != [] {
      r := r + ClockBlock(clockSignals[0].name);
    }
    var resetSignals := ResetSignals(ins);
    if resetSignals != [] {
      r := r + ResetBlock(resetSignals[0].name);
    }
    skip := PortNames(clockSignals + resetSignals);
  }

  /** Lines 1893-1908: the `$monitor` arguments and the dump block. */
  method AppendMonitoring(tb: string, info: ModuleInfo) returns (r: string)
    ensures r == WithMonitoring(tb, info)
  {
    r := AppendEach(tb, info.inputs, MonitorArg);
    r := AppendEach(r, info.outputs, MonitorArg);
    r := r + Footer(info.name);
  }

  /** `for x in xs: tb_code += f(x)`. */
  method AppendEach<T>(tb: string, xs: seq<T>, f: T -> string) returns (r: string)
    ensures r == tb + ConcatMap(xs, f)
  {
    r := tb;
    var i := 0;
    while i < |xs|
      invariant 0 <= i <= |xs|
      invariant r == tb + ConcatMap(xs[..i], f)
    {
      assert xs[..i + 1][..i] == xs[..i];
      ConcatAssoc(tb, ConcatMap(xs[..i], f), f(xs[i]));
      r := r + f(xs[i]);
      i := i + 1;
    }
    assert xs[..i] == xs;
  }

  /** `for inp in inputs: if inp['name'] not in skip: tb_code += f(inp)`. */
  method AppendUnskipped(tb: string, ps: seq<Port>, skip: seq<string>, f: Port -> string) returns (r: string)
    ensures r == tb + ConcatMap(Unskipped(ps, skip), f)
  {
    r := tb;
    var i := 0;
    while i < |ps|
      invariant 0 <= i <= |ps|
      invariant r == tb + ConcatMap(Unskipped(ps[..i], skip), f)
    {
      var u := Unskipped(ps[..i], skip);
      assert ps[..i + 1][..i] == ps[..i];
      assert Unskipped(ps[..i + 1], skip) == u + (if ps[i].name in skip then [] else [ps[i]]);
      if ps[i].name !in skip {
        assert ConcatMap(u + [ps[i]], f) == ConcatMap(u, f) + f(ps[i]) by {
          assert (u + [ps[i]])[..|u|] == u;
        }
        ConcatAssoc(tb, ConcatMap(u, f), f(ps[i]));
        r := r + f(ps[i]);
      } else {
        assert u + [] == u;
      }
      i := i + 1;
    }
    assert ps[..i] == ps;
  }

  // ------------------------------------------------------------ filtering

  lemma {:induction false} FilterMembers<T>(xs: seq<T>, keep: T -> bool, x: T)
    ensures x in Filter(xs, keep) <==> x in xs && keep(x)
    decreases |xs|
  {
    if xs != [] {
      var ys := xs[..|xs| - 1];
      FilterMembers(ys, keep, x);
      assert xs == ys + [xs[|xs| - 1]];
    }
  }

  lemma {:induction false} FilterNone<T>(xs: seq<T>, keep: T -> bool)
    requires forall k :: 0 <= k < |xs| ==> !keep(xs[k])
    ensures Filter(xs, keep) == []
    decreases |xs|
  {
    if xs != [] {
      var ys := xs[..|xs| - 1];
      assert forall k :: 0 <= k < |ys| ==> ys[k] == xs[k];
      FilterNone(ys, keep);
    }
  }

  /** The first element of a filter is the first accepted element. */
  lemma {:induction false} FilterFirst<T>(xs: seq<T>, keep: T -> bool, k: nat)
    requires k < |xs| && keep(xs[k]) && forall j :: 0 <= j < k ==> !keep(xs[j])
    ensures Filter(xs, keep) != [] && Filter(xs, keep)[0] == xs[k]
    decreases |xs|
  {
    var ys := xs[..|xs| - 1];
    assert forall j :: 0 <= j < |ys| ==> ys[j] == xs[j];
    if k < |ys| {
      FilterFirst(ys, keep, k);
    } else {
      FilterNone(ys, keep);
    }
  }

  /** The clock block toggles the first input whose lower-cased name contains
      `clk` or `clock`; when no input does, there is no clock block. */
  lemma ClockIsFirstClockInput(tb: string, ins: seq<Port>)
    ensures (forall k :: 0 <= k < |ins| ==> !IsClockName(ins[k].name)) ==> WithClock(tb, ins) == tb
    ensures forall k :: FirstClock(ins, k) ==> WithClock(tb, ins) == tb + ClockBlock(ins[k].name)
  {
    if forall k :: 0 <= k < |ins| ==> !IsClockName(ins[k].name) {
      FilterNone(ins, ClockPort);
    }
    forall k | FirstClock(ins, k)
      ensures WithClock(tb, ins) == tb + ClockBlock(ins[k].name)
    {
      FilterFirst(ins, ClockPort, k);
    }
  }

  /** The reset block pulses the first input whose lower-cased name contains
      `rst` or `reset`; when no input does, there is no reset block. */
  lemma ResetIsFirstResetInput(tb: string, ins: seq<Port>)
    ensures (forall k :: 0 <= k < |ins| ==> !IsResetName(ins[k].name)) ==> WithReset(tb, ins) == tb
    ensures forall k :: FirstReset(ins, k) ==> WithReset(tb, ins) == tb + ResetBlock(ins[k].name)
  {
    if forall k :: 0 <= k < |ins| ==> !IsResetName(ins[k].name) {
      FilterNone(ins, ResetPort);
    }
    forall k | FirstReset(ins, k)
      ensures WithReset(tb, ins) == tb + ResetBlock(ins[k].name)
    {
      FilterFirst(ins, ResetPort, k);
    }
  }

  /** An input's name is skipped exactly when the input is a clock or a reset. */
  lemma SkippedIff(ins: seq<Port>, p: Port)
    requires p in ins
    ensures p.name in Skipped(ins) <==> !DrivenPort(p)
  {
    var both := ClockSignals(ins) + ResetSignals(ins);
    FilterMembers(ins, ClockPort, p);
    FilterMembers(ins, ResetPort, p);
    if p.name in PortNames(both) {
      var k :| 0 <= k < |both| && PortNames(both)[k] == p.name;
      FilterMembers(ins, ClockPort, both[k]);
      FilterMembers(ins, ResetPort, both[k]);
    }
    if !DrivenPort(p) {
      assert p in ClockSignals(ins) || p in ResetSignals(ins);
      assert p in both;
      var k :| 0 <= k < |both| && both[k] == p;
      assert PortNames(both)[k] == p.name;
    }
  }

  lemma {:induction false} UnskippedIsFilter(ps: seq<Port>, skip: seq<string>)
    requires forall p :: p in ps ==> (p.name in skip <==> !DrivenPort(p))
    ensures Unskipped(ps, skip) == Filter(ps, DrivenPort)
    decreases |ps|
  {
    if ps != [] {
      var qs := ps[..|ps| - 1];
      assert forall p :: p in qs ==> p in ps;
      UnskippedIsFilter(qs, skip);
    }
  }

  /** Exactly the inputs that are neither clocks nor resets by name are
      zero-initialised and driven in the vector loop, in declaration order. */
  lemma StimulatedInputs(ins: seq<Port>)
    ensures Unskipped(ins, Skipped(ins)) == Filter(ins, DrivenPort)
    ensures forall p :: p in Unskipped(ins, Skipped(ins)) <==> p in ins && DrivenPort(p)
  {
    forall p | p in ins ensures p.name in Skipped(ins) <==> !DrivenPort(p) {
      SkippedIff(ins, p);
    }
    UnskippedIsFilter(ins, Skipped(ins));
    forall p ensures p in Filter(ins, DrivenPort) <==> p in ins && DrivenPort(p) {
      FilterMembers(ins, DrivenPort, p);
    }
  }

  // ------------------------------------------------- reading the port list

  /** The name `n` of a piece that strips to `.n(n)`. */
  function ConnectedName(piece: string): Option<string>
  {
    var t := Strip(piece);
    if |t| < 5 || |t| % 2 == 0 then None
    else
      var n := t[1..(|t| - 1) / 2];
      if t == Link(n) then Some(n) else None
  }

  function ConnectedNames(parts: seq<string>): Option<seq<string>>
  {
    if parts == [] then Some([])
    else match (ConnectedName(parts[0]), ConnectedNames(parts[1..]))
      case (Some(n), Some(ns)) => Some([n] + ns)
      case _ => None
  }

  /** The names a `.n(n)` list connects, read the way its text reads: split
      at the commas, each piece stripped. */
  function ReadConnections(list: string): Option<seq<string>>
  {
    if list == [] then Some([]) else ConnectedNames(SplitOn(list, ','))
  }

  predicate AllWords(names: seq<string>)
  {
    forall k :: 0 <= k < |names| ==> names[k] != [] && IsWord(names[k])
  }

  lemma LinkShape(n: string)
    requires n != [] && IsWord(n)
    ensures |Link(n)| == 2 * |n| + 3 && Link(n)[0] == '.' && Link(n)[|Link(n)| - 1] == ')'
    ensures Link(n)[1..|n| + 1] == n
    ensures forall j :: 0 <= j < |Link(n)| ==> Link(n)[j] != ','
  {
    var t := Link(n);
    var a := "." + n;
    assert t == a + ("(" + n + ")");
    assert t[1..|n| + 1] == a[1..];
    forall j | 0 <= j < |t| ensures t[j] != ',' {
      if 1 <= j < 1 + |n| {
        assert t[j] == n[j - 1];
      } else if |n| + 2 <= j < 2 * |n| + 2 {
        assert t[j] == n[j - |n| - 2];
      }
    }
  }

  /** A piece that strips to `.n(n)` is read as `n`. */
  lemma ConnectedNameOfStripped(piece: string, n: string)
    requires n != [] && IsWord(n) && Strip(piece) == Link(n)
    ensures ConnectedName(piece) == Some(n)
  {
    LinkShape(n);
  }

  /** A padded `.n(n)` is read as `n`. */
  lemma ConnectedNameOf(pad: string, n: string)
    requires n != [] && IsWord(n)
    requires forall i :: 0 <= i < |pad| ==> IsSpace(pad[i])
    ensures ConnectedName(pad + Link(n)) == Some(n)
  {
    LinkShape(n);
    StripPadded(pad, Link(n));
    ConnectedNameOfStripped(pad + Link(n), n);
  }

  /** A padded `.n(n)` holds no comma. */
  lemma PaddedLinkNoComma(pad: string, n: string)
    requires n != [] && IsWord(n)
    requires forall i :: 0 <= i < |pad| ==> IsSpace(pad[i])
    ensures forall j :: 0 <= j < |pad + Link(n)| ==> (pad + Link(n))[j] != ','
  {
    LinkShape(n);
    forall j | 0 <= j < |pad + Link(n)| ensures (pad + Link(n))[j] != ',' {
      if j >= |pad| {
        assert (pad + Link(n))[j] == Link(n)[j - |pad|];
      } else {
        assert (pad + Link(n))[j] == pad[j];
      }
    }
  }

  /** The pieces of `",".join` that a `",\n".join` of connections is. */
  lemma ConnectionParts(names: seq<string>)
    requires AllWords(names) && names != []
    ensures var parts := PrefixRest(Connections(names), "\n");
      && SeparatorFree(parts, ',')
      && forall k :: 0 <= k < |parts| ==> ConnectedName(parts[k]) == Some(names[k])
  {
    var parts := PrefixRest(Connections(names), "\n");
    forall k | 0 <= k < |parts|
      ensures ConnectedName(parts[k]) == Some(names[k])
      ensures forall j :: 0 <= j < |parts[k]| ==> parts[k][j] != ','
    {
      ConnectionPart(names, k);
    }
  }

  lemma ConnectionPart(names: seq<string>, k: nat)
    requires AllWords(names) && k < |names|
    ensures var part := PrefixRest(Connections(names), "\n")[k];
      && ConnectedName(part) == Some(names[k])
      && forall j :: 0 <= j < |part| ==> part[j] != ','
  {
    var cs := Connections(names);
    assert cs[k] == "        " + Link(names[k]);
    var part := PrefixRest(cs, "\n")[k];
    if k == 0 {
      assert part == cs[0];
      FirstPiece(part, names[k]);
    } else {
      assert part == "\n" + cs[k];
      LaterPiece(part, names[k]);
    }
  }

  lemma FirstPiece(part: string, n: string)
    requires n != [] && IsWord(n) && part == "        " + Link(n)
    ensures ConnectedName(part) == Some(n)
    ensures forall j :: 0 <= j < |part| ==> part[j] != ','
  {
    assert forall i :: 0 <= i < |"        "| ==> IsSpace("        "[i]);
    PieceFacts(part, "        ", n);
  }

  lemma LaterPiece(part: string, n: string)
    requires n != [] && IsWord(n) && part == "\n" + ("        " + Link(n))
    ensures ConnectedName(part) == Some(n)
    ensures forall j :: 0 <= j < |part| ==> part[j] != ','
  {
    assert forall i :: 0 <= i < |"\n        "| ==> IsSpace("\n        "[i]);
    ConcatAssoc("\n", "        ", Link(n));
    PieceFacts(part, "\n        ", n);
  }

  lemma PieceFacts(piece: string, pad: string, n: string)
    requires n != [] && IsWord(n) && piece == pad + Link(n)
    requires forall i :: 0 <= i < |pad| ==> IsSpace(pad[i])
    ensures ConnectedName(piece) == Some(n)
    ensures forall j :: 0 <= j < |piece| ==> piece[j] != ','
  {
    ConnectedNameOf(pad, n);
    PaddedLinkNoComma(pad, n);
  }

  lemma {:induction false} ConnectedNamesOf(parts: seq<string>, names: seq<string>)
    requires |parts| == |names|
    requires forall k :: 0 <= k < |parts| ==> ConnectedName(parts[k]) == Some(names[k])
    ensures ConnectedNames(parts) == Some(names)
    decreases |parts|
  {
    if parts != [] {
      forall k | 0 <= k < |parts| - 1
        ensures ConnectedName(parts[1..][k]) == Some(names[1..][k])
      {
        assert parts[1..][k] == parts[k + 1];
      }
      ConnectedNamesOf(parts[1..], names[1..]);
      ConnectedNamesCons(parts, names);
    }
  }

  lemma ConnectedNamesCons(parts: seq<string>, names: seq<string>)
    requires parts != [] && |parts| == |names| && ConnectedName(parts[0]) == Some(names[0])
    requires ConnectedNames(parts[1..]) == Some(names[1..])
    ensures ConnectedNames(parts) == Some(names)
  {
    assert names == [names[0]] + names[1..];
  }

  /** A `.n(n)` list reads back as exactly its names, each once, in order. */
  lemma ConnectionListReadsBack(names: seq<string>)
    requires AllWords(names)
    ensures ReadConnections(ConnectionList(names)) == Some(names)
  {
    if names != [] {
      var cs := Connections(names);
      assert ",\n" == [','] + "\n";
      JoinLongSeparator(cs, ',', "\n");
      var parts := PrefixRest(cs, "\n");
      ConnectionParts(names);
      SplitOnOfJoin(parts, ',');
      ConnectedNamesOf(parts, names);
      assert |Join(parts, [','])| >= |parts[0]|;
    }
  }

  // --------------------------------------------------- where things stand

  lemma {:induction false} ConcatMapContains<T>(xs: seq<T>, f: T -> string, k: nat)
    requires k < |xs|
    ensures Contains(ConcatMap(xs, f), f(xs[k]))
    decreases |xs|
  {
    var ys := xs[..|xs| - 1];
    if k == |ys| {
      ContainsSelf(f(xs[k]));
      ContainsRight(ConcatMap(ys, f), f(xs[k]), f(xs[k]));
    } else {
      assert ys[k] == xs[k];
      ConcatMapContains(ys, f, k);
      ContainsLeft(ConcatMap(ys, f), f(xs[|xs| - 1]), f(xs[k]));
    }
  }

  /** `a` is a prefix of `a` followed by up to six more pieces. */
  lemma PrefixOfSix(a: string, x1: string, x2: string, x3: string, x4: string, x5: string, x6: string)
    ensures a <= a + x1 + x2 + x3 + x4 + x5 + x6
  {
    assert (a + x1 + x2 + x3 + x4 + x5 + x6)[..|a|] == a;
  }

  lemma PrefixOfFour(a: string, x1: string, x2: string, x3: string, x4: string)
    ensures a <= a + x1 + x2 + x3 + x4
  {
    assert (a + x1 + x2 + x3 + x4)[..|a|] == a;
  }

  lemma PrefixOfThree(a: string, x1: string, x2: string, x3: string)
    ensures a <= a + x1 + x2 + x3
  {
    assert (a + x1 + x2 + x3)[..|a|] == a;
  }

  lemma HeaderExtends(info: ModuleInfo)
    ensures Header(info.name) <= Declarations(info)
  {
    var h := Header(info.name);
    var a := h + ConcatMap(info.parameters, ParamLine);
    PrefixConcat(h, ConcatMap(info.parameters, ParamLine));
    PrefixOfSix(a, "\n    // Inputs\n", ConcatMap(info.inputs, RegLine), "\n    // Outputs\n",
      ConcatMap(info.outputs, WireLine), "\n    // Inouts\n", ConcatMap(info.inouts, WireLine));
    PrefixTrans(h, a, Declarations(info));
  }

  lemma InstanceExtends(tb: string, info: ModuleInfo)
    ensures tb <= WithInstance(tb, info)
  {
    var a := tb + "\n    // Instantiate the Unit Under Test (UUT)\n" + "    " + info.name + " ";
    PrefixOfThree(tb, "\n    // Instantiate the Unit Under Test (UUT)\n", "    ", info.name + " ");
    var o := WithOverrides(a, info.parameters);
    assert a <= o by {
      if info.parameters != [] {
        PrefixOfThree(a, "#(\n", ConnectionList(ParamNames(info.parameters)), "\n    ) ");
      }
    }
    PrefixTrans(tb, a, o);
    PrefixOfThree(o, "uut (\n", ConnectionList(PortNames(AllPorts(info))), "\n    );\n\n");
    PrefixTrans(tb, o, WithInstance(tb, info));
  }

  lemma ClockResetExtends(tb: string, ins: seq<Port>)
    ensures tb <= WithReset(WithClock(tb, ins), ins)
  {
    var c := WithClock(tb, ins);
    if ClockSignals(ins) != [] { PrefixConcat(tb, ClockBlock(ClockSignals(ins)[0].name)); }
    if ResetSignals(ins) != [] { PrefixConcat(c, ResetBlock(ResetSignals(ins)[0].name)); }
    PrefixTrans(tb, c, WithReset(c, ins));
  }

  lemma StimulusExtends(tb: string, ins: seq<Port>, testVectors: int)
    ensures tb <= WithStimulus(tb, ins, testVectors)
  {
    var r := WithReset(WithClock(tb, ins), ins);
    var u := Unskipped(ins, Skipped(ins));
    ClockResetExtends(tb, ins);
    PrefixOfSix(r, StimulusHead, ConcatMap(u, InitLine), LoopHead(testVectors), ConcatMap(u, DriveLine), LoopTail, "");
    assert r + StimulusHead + ConcatMap(u, InitLine) + LoopHead(testVectors) + ConcatMap(u, DriveLine) + LoopTail + ""
      == WithStimulus(tb, ins, testVectors);
    PrefixTrans(tb, r, WithStimulus(tb, ins, testVectors));
  }

  lemma MonitoringExtends(tb: string, info: ModuleInfo)
    ensures tb <= WithMonitoring(tb, info)
  {
    PrefixOfThree(tb, ConcatMap(info.inputs, MonitorArg), ConcatMap(info.outputs, MonitorArg), Footer(info.name));
  }

  /** The instance, stimulus and monitoring sections extend whatever text
      they follow, and the last of them closes with the dump block. */
  lemma SectionsExtend(tb: string, info: ModuleInfo, testVectors: int)
    ensures tb <= WithMonitoring(WithStimulus(WithInstance(tb, info), info.inputs, testVectors), info)
    ensures EndsWith(WithMonitoring(WithStimulus(WithInstance(tb, info), info.inputs, testVectors), info),
      DumpLine(info.name) + "    end\n\nendmodule\n")
  {
    var w := WithInstance(tb, info);
    var st := WithStimulus(w, info.inputs, testVectors);
    var r := WithMonitoring(st, info);
    assert tb <= r by {
      InstanceExtends(tb, info);
      StimulusExtends(w, info.inputs, testVectors);
      MonitoringExtends(st, info);
      PrefixChain(tb, w, st, r);
    }
    FooterEnds(info.name);
    EndsWithRight(st + ConcatMap(info.inputs, MonitorArg) + ConcatMap(info.outputs, MonitorArg),
      Footer(info.name), DumpLine(info.name) + "    end\n\nendmodule\n");
  }

  /** Whatever the stimulus section holds, the testbench holds. */
  lemma StimulusInText(info: ModuleInfo, testVectors: int, p: string)
    requires Contains(WithStimulus(WithInstance(Declarations(info), info), info.inputs, testVectors), p)
    ensures Contains(TestbenchText(info, testVectors), p)
  {
    MonitoringExtends(WithStimulus(WithInstance(Declarations(info), info), info.inputs, testVectors), info);
    ContainsInLonger(WithStimulus(WithInstance(Declarations(info), info), info.inputs, testVectors),
      TestbenchText(info, testVectors), p);
  }

  /** Whatever the instantiation section holds, the testbench holds. */
  lemma InstanceInText(info: ModuleInfo, testVectors: int, p: string)
    requires Contains(WithInstance(Declarations(info), info), p)
    ensures Contains(TestbenchText(info, testVectors), p)
  {
    var w := WithInstance(Declarations(info), info);
    StimulusExtends(w, info.inputs, testVectors);
    ContainsInLonger(w, WithStimulus(w, info.inputs, testVectors), p);
    StimulusInText(info, testVectors, p);
  }

  /** Whatever the declarations hold, the testbench holds. */
  lemma DeclarationsInText(info: ModuleInfo, testVectors: int, p: string)
    requires Contains(Declarations(info), p)
    ensures Contains(TestbenchText(info, testVectors), p)
  {
    InstanceExtends(Declarations(info), info);
    ContainsInLonger(Declarations(info), WithInstance(Declarations(info), info), p);
    InstanceInText(info, testVectors, p);
  }

  lemma PrefixChain(a: string, b: string, c: string, d: string)
    requires a <= b && b <= c && c <= d
    ensures a <= d
  {
    PrefixTrans(a, b, c);
    PrefixTrans(a, c, d);
  }

  lemma TitleStartsHeader(name: string)
    ensures TitleLine(name) <= Header(name)
  {
    PrefixOfFour(TitleLine(name), HeaderNotes(name), "`timescale 1ns/1ps\n\n", ModuleLine(name), "\n    // Parameters\n");
  }

  lemma ModuleLineInHeader(name: string)
    ensures Contains(Header(name), ModuleLine(name))
  {
    var x := "`timescale 1ns/1ps\n\n";
    ContainsSelf(ModuleLine(name));
    ContainsRight(HeaderComment(name) + x, ModuleLine(name), ModuleLine(name));
    ContainsLeft(HeaderComment(name) + x + ModuleLine(name), "\n    // Parameters\n", ModuleLine(name));
  }

  lemma FooterEnds(name: string)
    ensures EndsWith(Footer(name), DumpLine(name) + "    end\n\nendmodule\n")
  {
    var a := "    end\n    \n    // VCD dump for waveform viewing\n    initial begin\n";
    var b := "        $dumpfile(\"wave.vcd\");\n";
    ConcatAssoc(a + b, DumpLine(name), "    end\n\nendmodule\n");
    EndsWithConcat(a + b, DumpLine(name) + "    end\n\nendmodule\n");
    EndsWithRight(");\n", DumpBlock(name), DumpLine(name) + "    end\n\nendmodule\n");
  }

  // ----------------------------------------------------- what it promises

  /** The testbench opens with the title comment naming the module. */
  lemma TitleFirst(info: ModuleInfo, testVectors: int)
    ensures TitleLine(info.name) <= TestbenchText(info, testVectors)
  {
    TitleStartsHeader(info.name);
    HeaderExtends(info);
    PrefixChain(TitleLine(info.name), Header(info.name), Declarations(info), TestbenchText(info, testVectors));
  }

  /** The testbench declares the module `<name>_tb`. */
  lemma BenchModuleDeclared(info: ModuleInfo, testVectors: int)
    ensures Contains(TestbenchText(info, testVectors), ModuleLine(info.name))
  {
    ModuleLineInHeader(info.name);
    HeaderExtends(info);
    ContainsInLonger(Header(info.name), Declarations(info), ModuleLine(info.name));
    DeclarationsInText(info, testVectors, ModuleLine(info.name));
  }

  lemma InputInDeclarations(info: ModuleInfo, k: nat)
    requires k < |info.inputs|
    ensures Contains(Declarations(info), RegLine(info.inputs[k]))
  {
    var hp := Header(info.name) + ConcatMap(info.parameters, ParamLine) + "\n    // Inputs\n";
    var ci := ConcatMap(info.inputs, RegLine);
    var co := ConcatMap(info.outputs, WireLine);
    var q := RegLine(info.inputs[k]);
    ConcatMapContains(info.inputs, RegLine, k);
    ContainsRight(hp, ci, q);
    ContainsLeft(hp + ci, "\n    // Outputs\n", q);
    ContainsLeft(hp + ci + "\n    // Outputs\n", co, q);
    ContainsLeft(hp + ci + "\n    // Outputs\n" + co, "\n    // Inouts\n", q);
    ContainsLeft(hp + ci + "\n    // Outputs\n" + co + "\n    // Inouts\n", ConcatMap(info.inouts, WireLine), q);
  }

  lemma OutputInDeclarations(info: ModuleInfo, k: nat)
    requires k < |info.outputs|
    ensures Contains(Declarations(info), WireLine(info.outputs[k]))
  {
    var hp := Header(info.name) + ConcatMap(info.parameters, ParamLine)
      + "\n    // Inputs\n" + ConcatMap(info.inputs, RegLine) + "\n    // Outputs\n";
    var co := ConcatMap(info.outputs, WireLine);
    var q := WireLine(info.outputs[k]);
    ConcatMapContains(info.outputs, WireLine, k);
    ContainsRight(hp, co, q);
    ContainsLeft(hp + co, "\n    // Inouts\n", q);
    ContainsLeft(hp + co + "\n    // Inouts\n", ConcatMap(info.inouts, WireLine), q);
  }

  lemma InoutInDeclarations(info: ModuleInfo, k: nat)
    requires k < |info.inouts|
    ensures Contains(Declarations(info), WireLine(info.inouts[k]))
  {
    var hp := Header(info.name) + ConcatMap(info.parameters, ParamLine)
      + "\n    // Inputs\n" + ConcatMap(info.inputs, RegLine) + "\n    // Outputs\n"
      + ConcatMap(info.outputs, WireLine) + "\n    // Inouts\n";
    ConcatMapContains(info.inouts, WireLine, k);
    ContainsRight(hp, ConcatMap(info.inouts, WireLine), WireLine(info.inouts[k]));
  }

  /** Every input is declared as a `reg` of its width. */
  lemma InputsDeclared(info: ModuleInfo, testVectors: int, k: nat)
    requires k < |info.inputs|
    ensures Contains(TestbenchText(info, testVectors), RegLine(info.inputs[k]))
  {
    InputInDeclarations(info, k);
    DeclarationsInText(info, testVectors, RegLine(info.inputs[k]));
  }

  /** Every output is declared as a `wire` of its width. */
  lemma OutputsDeclared(info: ModuleInfo, testVectors: int, k: nat)
    requires k < |info.outputs|
    ensures Contains(TestbenchText(info, testVectors), WireLine(info.outputs[k]))
  {
    OutputInDeclarations(info, k);
    DeclarationsInText(info, testVectors, WireLine(info.outputs[k]));
  }

  /** Every inout is declared as a `wire` of its width. */
  lemma InoutsDeclared(info: ModuleInfo, testVectors: int, k: nat)
    requires k < |info.inouts|
    ensures Contains(TestbenchText(info, testVectors), WireLine(info.inouts[k]))
  {
    InoutInDeclarations(info, k);
    DeclarationsInText(info, testVectors, WireLine(info.inouts[k]));
  }

  /** A text ends with its last three pieces together. */
  lemma ContainsLastThree(o: string, a: string, b: string, c: string)
    ensures Contains(o + a + b + c, a + b + c)
  {
    assert HasAt(o + a + b + c, |o|, a + b + c) by {
      assert (o + a + b + c)[|o|..|o| + |a + b + c|] == a + b + c;
    }
  }

  /** A text ends with its last five pieces together. */
  lemma ContainsLastFive(o: string, a: string, b: string, c: string, d: string, e: string)
    ensures Contains(o + a + b + c + d + e, a + b + c + d + e)
  {
    assert HasAt(o + a + b + c + d + e, |o|, a + b + c + d + e) by {
      assert (o + a + b + c + d + e)[|o|..|o| + |a + b + c + d + e|] == a + b + c + d + e;
    }
  }

  lemma PortNamesConcat(a: seq<Port>, b: seq<Port>)
    ensures PortNames(a + b) == PortNames(a) + PortNames(b)
  {
    assert forall k :: 0 <= k < |a + b| ==> PortNames(a + b)[k] == (PortNames(a) + PortNames(b))[k];
  }

  /** The port list of the instantiation names the inputs, then the outputs,
      then the inouts, each connected to the testbench signal of its name. */
  lemma InstancePortList(info: ModuleInfo)
    requires AllWords(PortNames(AllPorts(info)))
    ensures ReadConnections(ConnectionList(PortNames(AllPorts(info))))
         == Some(PortNames(info.inputs) + PortNames(info.outputs) + PortNames(info.inouts))
  {
    PortNamesConcat(info.inputs + info.outputs, info.inouts);
    PortNamesConcat(info.inputs, info.outputs);
    ConnectionListReadsBack(PortNames(AllPorts(info)));
  }

  /** The instantiation closes with its port list. */
  lemma InstanceBlockIn(tb: string, info: ModuleInfo)
    ensures Contains(WithInstance(tb, info), "uut (\n" + ConnectionList(PortNames(AllPorts(info))) + "\n    );\n\n")
  {
    ContainsLastThree(WithOverrides(tb + "\n    // Instantiate the Unit Under Test (UUT)\n" + "    " + info.name + " ",
      info.parameters), "uut (\n", ConnectionList(PortNames(AllPorts(info))), "\n    );\n\n");
  }

  /** The testbench instantiates the module as `uut` with every port
      connected by name. */
  lemma InstanceInTestbench(info: ModuleInfo, testVectors: int)
    ensures Contains(TestbenchText(info, testVectors),
      "uut (\n" + ConnectionList(PortNames(AllPorts(info))) + "\n    );\n\n")
  {
    InstanceBlockIn(Declarations(info), info);
    InstanceInText(info, testVectors, "uut (\n" + ConnectionList(PortNames(AllPorts(info))) + "\n    );\n\n");
  }

  lemma HasAtFront(lead: string, m: string, t1: string, t2: string)
    ensures HasAt(lead + m + t1 + t2, |lead|, m)
  {
    assert (lead + m + t1 + t2)[|lead|..|lead| + |m|] == m;
  }

  lemma HasAtFrontFour(lead: string, a: string, b: string, c: string, d: string, t1: string, t2: string)
    ensures HasAt(lead + a + b + c + d + t1 + t2, |lead|, a + b + c + d)
  {
    assert (lead + a + b + c + d + t1 + t2)[|lead|..|lead| + |a + b + c + d|] == a + b + c + d;
  }

  lemma HasAtShorter(s: string, i: nat, p: string, q: string)
    requires HasAt(s, i, p + q)
    ensures HasAt(s, i, p)
  {
    assert s[i..i + |p|] == (p + q)[..|p|];
  }

  /** Without parameters, `uut (` follows the module name. */
  lemma OverridesAbsent(tb: string, info: ModuleInfo)
    requires info.parameters == []
    ensures var lead := tb + "\n    // Instantiate the Unit Under Test (UUT)\n" + "    " + info.name + " ";
      HasAt(WithInstance(tb, info), |lead|, "uut (\n") && !HasAt(WithInstance(tb, info), |lead|, "#(")
  {
    var lead := tb + "\n    // Instantiate the Unit Under Test (UUT)\n" + "    " + info.name + " ";
    HasAtFront(lead, "uut (\n", ConnectionList(PortNames(AllPorts(info))), "\n    );\n\n");
    HasAtGives(WithInstance(tb, info), |lead|, "uut (\n", 0);
    HasAtGives(WithInstance(tb, info), |lead|, "#(", 0);
  }

  /** With parameters, the override block and then `uut (` follow the
      module name. */
  lemma OverridesPresent(tb: string, info: ModuleInfo)
    requires info.parameters != []
    ensures var lead := tb + "\n    // Instantiate the Unit Under Test (UUT)\n" + "    " + info.name + " ";
      HasAt(WithInstance(tb, info), |lead|, Overrides(info.parameters) + "uut (\n")
      && HasAt(WithInstance(tb, info), |lead|, "#(")
  {
    var lead := tb + "\n    // Instantiate the Unit Under Test (UUT)\n" + "    " + info.name + " ";
    var pl := ConnectionList(ParamNames(info.parameters));
    HasAtFrontFour(lead, "#(\n", pl, "\n    ) ", "uut (\n",
      ConnectionList(PortNames(AllPorts(info))), "\n    );\n\n");
    assert "#(\n" + pl + "\n    ) " + "uut (\n" == "#(" + ("\n" + pl + "\n    ) " + "uut (\n");
    HasAtShorter(WithInstance(tb, info), |lead|, "#(", "\n" + pl + "\n    ) " + "uut (\n");
  }

  /** After the module name comes the parameter override block exactly when
      the module has parameters, then `uut (`. */
  lemma OverrideBlock(tb: string, info: ModuleInfo)
    ensures var lead := tb + "\n    // Instantiate the Unit Under Test (UUT)\n" + "    " + info.name + " ";
      HasAt(WithInstance(tb, info), |lead|, Overrides(info.parameters) + "uut (\n")
    ensures var lead := tb + "\n    // Instantiate the Unit Under Test (UUT)\n" + "    " + info.name + " ";
      HasAt(WithInstance(tb, info), |lead|, "#(") <==> info.parameters != []
  {
    if info.parameters == [] {
      OverridesAbsent(tb, info);
      assert Overrides(info.parameters) + "uut (\n" == "uut (\n";
    } else {
      OverridesPresent(tb, info);
    }
  }

  lemma ContainsFourBefore(y: string, a: string, b: string, c: string, d: string, r: string)
    ensures Contains(y + a + b + c + (d + r), a + b + c + d)
  {
    assert (y + a + b + c + (d + r))[|y|..|y| + |a + b + c + d|] == a + b + c + d;
    assert HasAt(y + a + b + c + (d + r), |y|, a + b + c + d);
  }

  /** Every input and every output is shown by the `$monitor` call, inputs
      first, each in the source's order; inouts are not. */
  lemma MonitorCall(st: string, info: ModuleInfo)
    requires EndsWith(st, MonitorHead)
    ensures Contains(WithMonitoring(st, info),
      MonitorHead + ConcatMap(info.inputs, MonitorArg) + ConcatMap(info.outputs, MonitorArg) + ");\n")
  {
    var y := st[..|st| - |MonitorHead|];
    assert st == y + MonitorHead;
    ContainsFourBefore(y, MonitorHead, ConcatMap(info.inputs, MonitorArg), ConcatMap(info.outputs, MonitorArg),
      ");\n", DumpBlock(info.name));
  }

  lemma StimulusEndsWithMonitor(tb: string, ins: seq<Port>, testVectors: int)
    ensures EndsWith(WithStimulus(tb, ins, testVectors), MonitorHead)
  {
    var u := Unskipped(ins, Skipped(ins));
    EndsWithConcat(FinishBlock, MonitorHead);
    EndsWithRight(WithReset(WithClock(tb, ins), ins) + StimulusHead + ConcatMap(u, InitLine)
      + LoopHead(testVectors) + ConcatMap(u, DriveLine), LoopTail, MonitorHead);
  }

  /** The testbench's `$monitor` call shows every input and then every
      output, in the source's order. */
  lemma MonitorInTestbench(info: ModuleInfo, testVectors: int)
    ensures Contains(TestbenchText(info, testVectors),
      MonitorHead + ConcatMap(info.inputs, MonitorArg) + ConcatMap(info.outputs, MonitorArg) + ");\n")
  {
    var st := WithStimulus(WithInstance(Declarations(info), info), info.inputs, testVectors);
    StimulusEndsWithMonitor(WithInstance(Declarations(info), info), info.inputs, testVectors);
    MonitorCall(st, info);
  }

  /** The stimulus initialises and then, in each of the `testVectors`
      iterations, randomises exactly the inputs that are neither clocks nor
      resets, in the source's order. */
  lemma StimulusOfDriven(tb: string, ins: seq<Port>, testVectors: int)
    ensures Contains(WithStimulus(tb, ins, testVectors),
      StimulusHead + ConcatMap(Filter(ins, DrivenPort), InitLine) + LoopHead(testVectors)
      + ConcatMap(Filter(ins, DrivenPort), DriveLine) + LoopTail)
  {
    StimulatedInputs(ins);
    ContainsLastFive(WithReset(WithClock(tb, ins), ins), StimulusHead, ConcatMap(Filter(ins, DrivenPort), InitLine),
      LoopHead(testVectors), ConcatMap(Filter(ins, DrivenPort), DriveLine), LoopTail);
  }

  lemma StimulusInTestbench(info: ModuleInfo, testVectors: int)
    ensures Contains(TestbenchText(info, testVectors),
      StimulusHead + ConcatMap(Filter(info.inputs, DrivenPort), InitLine) + LoopHead(testVectors)
      + ConcatMap(Filter(info.inputs, DrivenPort), DriveLine) + LoopTail)
  {
    var ps := Filter(info.inputs, DrivenPort);
    StimulusOfDriven(WithInstance(Declarations(info), info), info.inputs, testVectors);
    StimulusInText(info, testVectors,
      StimulusHead + ConcatMap(ps, InitLine) + LoopHead(testVectors) + ConcatMap(ps, DriveLine) + LoopTail);
  }

  lemma ResetBeforeStimulus(tb: string, ins: seq<Port>, testVectors: int)
    ensures WithClock(tb, ins) <= WithStimulus(tb, ins, testVectors)
  {
    var c := WithClock(tb, ins);
    var r := WithReset(c, ins);
    var u := Unskipped(ins, Skipped(ins));
    if ResetSignals(ins) != [] { PrefixConcat(c, ResetBlock(ResetSignals(ins)[0].name)); }
    PrefixOfSix(r, StimulusHead, ConcatMap(u, InitLine), LoopHead(testVectors), ConcatMap(u, DriveLine), LoopTail, "");
    assert r + StimulusHead + ConcatMap(u, InitLine) + LoopHead(testVectors) + ConcatMap(u, DriveLine) + LoopTail + ""
      == WithStimulus(tb, ins, testVectors);
    PrefixTrans(c, r, WithStimulus(tb, ins, testVectors));
  }

  /** The first input named as a clock toggles every 5 time units. */
  lemma ClockGenerated(tb: string, ins: seq<Port>, testVectors: int, k: nat)
    requires FirstClock(ins, k)
    ensures Contains(WithStimulus(tb, ins, testVectors), ClockBlock(ins[k].name))
  {
    ClockIsFirstClockInput(tb, ins);
    ContainsSelf(ClockBlock(ins[k].name));
    ContainsRight(tb, ClockBlock(ins[k].name), ClockBlock(ins[k].name));
    ResetBeforeStimulus(tb, ins, testVectors);
    ContainsInLonger(WithClock(tb, ins), WithStimulus(tb, ins, testVectors), ClockBlock(ins[k].name));
  }

  /** The first input named as a reset is pulsed low after 20 time units. */
  lemma ResetGenerated(tb: string, ins: seq<Port>, testVectors: int, k: nat)
    requires FirstReset(ins, k)
    ensures Contains(WithStimulus(tb, ins, testVectors), ResetBlock(ins[k].name))
  {
    var c := WithClock(tb, ins);
    var u := Unskipped(ins, Skipped(ins));
    ResetIsFirstResetInput(c, ins);
    ContainsSelf(ResetBlock(ins[k].name));
    ContainsRight(c, ResetBlock(ins[k].name), ResetBlock(ins[k].name));
    PrefixOfSix(WithReset(c, ins), StimulusHead, ConcatMap(u, InitLine), LoopHead(testVectors),
      ConcatMap(u, DriveLine), LoopTail, "");
    assert WithReset(c, ins) + StimulusHead + ConcatMap(u, InitLine) + LoopHead(testVectors)
      + ConcatMap(u, DriveLine) + LoopTail + "" == WithStimulus(tb, ins, testVectors);
    ContainsInLonger(WithReset(c, ins), WithStimulus(tb, ins, testVectors), ResetBlock(ins[k].name));
  }

  lemma ClockInTestbench(info: ModuleInfo, testVectors: int, k: nat)
    requires FirstClock(info.inputs, k)
    ensures Contains(TestbenchText(info, testVectors), ClockBlock(info.inputs[k].name))
  {
    ClockGenerated(WithInstance(Declarations(info), info), info.inputs, testVectors, k);
    StimulusInText(info, testVectors, ClockBlock(info.inputs[k].name));
  }

  lemma ResetInTestbench(info: ModuleInfo, testVectors: int, k: nat)
    requires FirstReset(info.inputs, k)
    ensures Contains(TestbenchText(info, testVectors), ResetBlock(info.inputs[k].name))
  {
    ResetGenerated(WithInstance(Declarations(info), info), info.inputs, testVectors, k);
    StimulusInText(info, testVectors, ResetBlock(info.inputs[k].name));
  }

  /** A port whose range is written low-to-high (`[0:7]`) gets width
      `0 - 7 + 1`, so it is declared without a range and driven with a
      single random bit, like a scalar. */
  lemma AscendingRangeIsScalar(p: Port)
    requires PortShape(p) && p.msb < p.lsb
    ensures RegLine(p) == "    reg " + p.name + ";\n"
    ensures WireLine(p) == "    wire " + p.name + ";\n"
    ensures DriveLine(p) == "            " + p.name + " = $random % 2;\n"
  {
  }
}
