/** `VerilogSyntaxChecker` (AWaveViewer.py:1507-1653): structural checks of
    Verilog text after comment removal. `CheckSyntax` is the imperative
    scan; `Errors` and `Warnings` specify the messages it returns. */
module SyntaxChecker {
  import opened Text
  import opened VerilogLex

  // ------------------------------------------------------------ messages

  predicate IsError(m: string) { StartsWith(m, "ERROR") }

  /** The three message severities, each a fixed prefix. */
  datatype Severity = Error | Warning | Info {
    function Prefix(): string {
      match this
      case Error => "ERROR: "
      case Warning => "WARNING: "
      case Info => "INFO: "
    }
  }

  /** A message of severity `sev`: only the ERROR prefix reads as an error. */
  function Message(sev: Severity, body: string): (m: string)
    ensures IsError(m) <==> sev == Error
  {
    var m := sev.Prefix() + body;
    assert m[0] == sev.Prefix()[0];
    assert sev == Error ==> m[..5] == "ERROR";
    m
  }

  function ModuleMismatch(m: nat, e: nat): string {
    Message(Error, "Module/endmodule mismatch (found " + NatToString(m) + " module(s) but " + NatToString(e) + " endmodule(s))")
  }

  function CaseMismatch(c: nat, e: nat): string {
    Message(Error, "Case/endcase mismatch (found " + NatToString(c) + " case(s) but " + NatToString(e) + " endcase(s))")
  }

  function BeginEndMismatch(b: nat, e: nat): string {
    Message(Warning, "Begin/end mismatch (found " + NatToString(b) + " begin(s) but " + NatToString(e) + " end(s))")
  }

  /** The two running-balance scans of checks 7 and 8. */
  datatype Bracketing = Paren | Bracket {
    function Open(): char { if Paren? then '(' else '[' }
    function Close(): char { if Paren? then ')' else ']' }
    function ClosingName(): string { if Paren? then "parenthesis" else "bracket" }
    function UnclosedName(): string { if Paren? then "unclosed parenthesis/parentheses" else "unclosed bracket(s)" }
  }

  function UnmatchedMessage(br: Bracketing, line: nat): string {
    Message(Error, "Unmatched closing " + br.ClosingName() + " at line " + NatToString(line))
  }

  function UnclosedMessage(br: Bracketing, balance: int): string {
    Message(Error, IntToString(balance) + " " + br.UnclosedName())
  }

  // ------------------------------------------------------ keyword counts

  function ModuleCount(code: string): nat { Count(code, ThenSpace("module")) }
  function EndmoduleCount(code: string): nat { Count(code, Bounded("endmodule")) }
  function BeginCount(code: string): nat { Count(code, Bounded("begin")) }
  function EndCount(code: string): nat { Count(code, Bounded("end")) }

  /** `\bcase[xz]?\b`: the three whole words are disjoint, so the count is their sum. */
  function CaseCount(code: string): nat {
    Count(code, Bounded("case")) + Count(code, Bounded("casex")) + Count(code, Bounded("casez"))
  }

  function EndcaseCount(code: string): nat { Count(code, Bounded("endcase")) }

  predicate FunctionsPaired(code: string) { Count(code, Bounded("function")) == Count(code, Bounded("endfunction")) }
  predicate TasksPaired(code: string) { Count(code, Bounded("task")) == Count(code, Bounded("endtask")) }

  /** Checks 1, 2 and 4-6, in the order the source appends them. */
  function KeywordErrors(code: string): seq<string> {
    (if !HasModuleDecl(code) then [Message(Error, "No module declaration found")] else [])
    + (if ModuleCount(code) != EndmoduleCount(code) then [ModuleMismatch(ModuleCount(code), EndmoduleCount(code))] else [])
    + (if CaseCount(code) != EndcaseCount(code) then [CaseMismatch(CaseCount(code), EndcaseCount(code))] else [])
    + (if !FunctionsPaired(code) then [Message(Error, "Function/endfunction mismatch")] else [])
    + (if !TasksPaired(code) then [Message(Error, "Task/endtask mismatch")] else [])
  }

  // ------------------------------------------------- balance scans (7, 8)

  function Delta(c: char, br: Bracketing): int {
    if c == br.Open() then 1 else if c == br.Close() then -1 else 0
  }

  /** Openers minus closers in `s`. */
  function Net(s: string, br: Bracketing): int {
    if s == [] then 0 else Delta(s[0], br) + Net(s[1..], br)
  }

  /** Scanning one line from balance `b`; the flag says the line was cut
      short by a closer that took the balance below zero. */
  function LineScan(line: string, br: Bracketing, b: int): (int, bool) {
    if line == [] then (b, false)
    else if line[0] == br.Open() then LineScan(line[1..], br, b + 1)
    else if line[0] == br.Close() then
      (if b - 1 < 0 then (b - 1, true) else LineScan(line[1..], br, b - 1))
    else LineScan(line[1..], br, b)
  }

  /** Scanning `lines`, the first of which is line number `num`: the final
      balance and one "unmatched" error per line that was cut short. */
  function ScanLines(lines: seq<string>, br: Bracketing, b: int, num: nat): (int, seq<string>)
    decreases |lines|
  {
    if lines == [] then (b, [])
    else
      var (b1, dipped) := LineScan(lines[0], br, b);
      var (bf, errs) := ScanLines(lines[1..], br, b1, num + 1);
      (bf, (if dipped then [UnmatchedMessage(br, num)] else []) + errs)
  }

  /** What the scan returns once the first `i` lines have left the running
      balance at `b` and collected `errs`. */
  function ScanFrom(lines: seq<string>, br: Bracketing, i: nat, b: int, errs: seq<string>): (int, seq<string>)
    requires i <= |lines|
  {
    var (bf, rest) := ScanLines(lines[i..], br, b, i + 1);
    (bf, errs + rest)
  }

  /** Before any line, the scan from line 0 is the whole scan. */
  lemma ScanFromStart(lines: seq<string>, br: Bracketing)
    ensures ScanFrom(lines, br, 0, 0, []) == ScanLines(lines, br, 0, 1)
  {
    assert lines[0..] == lines;
    var r := ScanLines(lines, br, 0, 1);
    assert [] + r.1 == r.1;
  }

  /** Line `i` passes its balance and its error, if any, on to line `i + 1`. */
  lemma ScanFromStep(lines: seq<string>, br: Bracketing, i: nat, b: int, errs: seq<string>)
    requires i < |lines|
    ensures ScanFrom(lines, br, i, b, errs)
      == ScanFrom(lines, br, i + 1, LineScan(lines[i], br, b).0,
                  if LineScan(lines[i], br, b).1 then errs + [UnmatchedMessage(br, i + 1)] else errs)
  {
    assert lines[i..][1..] == lines[i + 1..];
    var (b1, dipped) := LineScan(lines[i], br, b);
    var e := if dipped then [UnmatchedMessage(br, i + 1)] else [];
    var rest := ScanLines(lines[i + 1..], br, b1, i + 2).1;
    assert ScanLines(lines[i..], br, b, i + 1).1 == e + rest;
    assert errs + (e + rest) == (errs + e) + rest;
    assert errs + [] == errs;
  }

  /** The messages of check 7 (parentheses) or 8 (brackets). */
  function BalanceErrors(code: string, br: Bracketing): (r: seq<string>)
    ensures forall m :: m in r ==> IsError(m)
  {
    ScanLinesAreErrors(SplitOn(code, '\n'), br, 0, 1);
    var (b, errs) := ScanLines(SplitOn(code, '\n'), br, 0, 1);
    errs + (if b > 0 then [UnclosedMessage(br, b)] else [])
  }

  /** A closer at index `k` takes the running balance, started at `b`, below zero. */
  predicate DipAt(line: string, br: Bracketing, b: int, k: nat) {
    k < |line| && line[k] == br.Close() && b + Net(line[..k + 1], br) < 0
  }

  /** No prefix of `s` takes the balance, started at `b`, below zero. */
  predicate NoDip(s: string, br: Bracketing, b: int) {
    forall k :: 0 <= k <= |s| ==> b + Net(s[..k], br) >= 0
  }

  // ------------------------------------------------------------ warnings

  function InvalidPortWarnings(code: string): seq<string> {
    if HasInvalidPort(code) then [Message(Warning, "Potentially invalid port declarations found")] else []
  }

  function MultipleModuleInfo(code: string): seq<string> {
    if ModuleCount(code) > 1 then
      [Message(Info, "Multiple modules found (" + NatToString(ModuleCount(code)) + "). Only the first will be used for testbench generation.")]
    else []
  }

  predicate HasPorts(content: string) {
    Contains(content, "input") || Contains(content, "output") || Contains(content, "inout")
  }

  predicate HasLogic(content: string) {
    Contains(content, "always") || Contains(content, "assign") || Contains(content, "initial") || HasCall(content)
  }

  /** Check 12: the first `module ... endmodule` block has no port keyword and no logic. */
  function EmptyModuleWarnings(code: string): seq<string> {
    match FirstModuleBlock(code, 0)
    case Some(content) =>
      if !HasPorts(content) && !HasLogic(content) then [Message(Warning, "Module appears to be empty (no ports or logic found)")] else []
    case None => []
  }

  predicate EndsWithTerminator(line: string) {
    EndsWith(line, ";") || EndsWith(line, ",") || EndsWith(line, ")") || EndsWith(line, "(")
    || EndsWith(line, "begin") || EndsWith(line, "end")
  }

  /** Check 13 for the line at index `i` (line number `i + 1`): a declaration
      that does not end in a terminator and whose next line does not begin
      with `)` or `,`. The last line is never reported. */
  predicate MissingSemicolonAt(lines: seq<string>, i: nat)
    requires i < |lines|
  {
    var line := Strip(lines[i]);
    && line != [] && !StartsWith(line, "//")
    && StartsWithDecl(line)
    && !EndsWithTerminator(line)
    && i + 1 < |lines|
    && !StartsWith(Strip(lines[i + 1]), ")") && !StartsWith(Strip(lines[i + 1]), ",")
  }

  function SemicolonMessage(lines: seq<string>, i: nat): string
    requires i < |lines|
  {
    var line := Strip(lines[i]);
    Message(Warning, "Line " + NatToString(i + 1) + " might be missing semicolon: " + line[..if |line| < 50 then |line| else 50])
  }

  /** The check-13 warnings for the first `n` lines, in line order. */
  function SemicolonWarnings(lines: seq<string>, n: nat): seq<string>
    requires n <= |lines|
  {
    if n == 0 then []
    else SemicolonWarnings(lines, n - 1) + (if MissingSemicolonAt(lines, n - 1) then [SemicolonMessage(lines, n - 1)] else [])
  }

  // ----------------------------------------------------------- the result

  /** Checks 1-8: every message is an ERROR. */
  function Errors(code: string): (r: seq<string>)
    ensures forall m :: m in r ==> IsError(m)
  {
    KeywordErrors(code) + BalanceErrors(code, Paren) + BalanceErrors(code, Bracket)
  }

  /** Checks 9, 11 and 12 and the multiple-module note, in source order. */
  function PatternWarnings(code: string): seq<string> {
    (if BeginCount(code) != EndCount(code) then [BeginEndMismatch(BeginCount(code), EndCount(code))] else [])
    + InvalidPortWarnings(code)
    + MultipleModuleInfo(code)
    + EmptyModuleWarnings(code)
  }

  /** Checks 9-13 and the multiple-module note: no message is an ERROR. */
  function Warnings(code: string): (r: seq<string>)
    ensures forall m :: m in r ==> !IsError(m)
  {
    var lines := SplitOn(code, '\n');
    SemicolonWarningsAreNotErrors(lines, |lines|);
    PatternWarnings(code) + SemicolonWarnings(lines, |lines|)
  }

  /** `check_syntax`: errors first, then warnings; valid when there is no error. */
  method CheckSyntax(verilog: string) returns (isValid: bool, messages: seq<string>)
    ensures messages == Errors(RemoveComments(verilog)) + Warnings(RemoveComments(verilog))
    ensures isValid <==> Errors(RemoveComments(verilog)) == []
  {
    var code := RemoveComments(verilog);
    var errors := KeywordErrors(code);
    var parenErrors := ScanBalance(code, Paren);
    errors := errors + parenErrors;
    var bracketErrors := ScanBalance(code, Bracket);
    errors := errors + bracketErrors;
    var warnings := PatternWarnings(code);
    var semicolonWarnings := SemicolonScan(SplitOn(code, '\n'));
    warnings := warnings + semicolonWarnings;
    messages := errors + warnings;
    isValid := |errors| == 0;
  }

  /** Checks 7 and 8 as the source runs them: a running balance carried
      across the lines, with one "unmatched" error per line cut short and an
      "unclosed" error when openers remain at the end. */
  method ScanBalance(code: string, br: Bracketing) returns (errs: seq<string>)
    ensures errs == BalanceErrors(code, br)
  {
    var lines := SplitOn(code, '\n');
    var balance := 0;
    errs := [];
    var i := 0;
    ScanFromStart(lines, br);
    while i < |lines|
      invariant 0 <= i <= |lines|
      invariant ScanLines(lines, br, 0, 1) == ScanFrom(lines, br, i, balance, errs)
    {
      ScanFromStep(lines, br, i, balance, errs);
      var cut;
      balance, cut := ScanLine(lines[i], br, balance);
      if cut {
        errs := errs + [UnmatchedMessage(br, i + 1)];
      }
      i := i + 1;
    }
    assert lines[i..] == [];
    assert errs + [] == errs;
    if balance > 0 {
      errs := errs + [UnclosedMessage(br, balance)];
    }
  }

  /** The character loop of checks 7 and 8 over one line: stops at the first
      closer that takes the balance below zero, keeping that balance. */
  method ScanLine(line: string, br: Bracketing, b: int) returns (balance: int, cut: bool)
    ensures (balance, cut) == LineScan(line, br, b)
  {
    balance := b;
    cut := false;
    var j := 0;
    while j < |line|
      invariant 0 <= j <= |line|
      invariant LineScan(line, br, b) == LineScan(line[j..], br, balance)
    {
      assert line[j..][1..] == line[j + 1..];
      if line[j] == br.Open() {
        balance := balance + 1;
      } else if line[j] == br.Close() {
        balance := balance - 1;
        if balance < 0 {
          cut := true;
          break;
        }
      }
      j := j + 1;
    }
  }

  /** Check 13 as the source runs it, one line at a time. */
  method SemicolonScan(lines: seq<string>) returns (warnings: seq<string>)
    ensures warnings == SemicolonWarnings(lines, |lines|)
  {
    warnings := [];
    var i := 0;
    while i < |lines|
      invariant 0 <= i <= |lines|
      invariant warnings == SemicolonWarnings(lines, i)
    {
      warnings := SemicolonStep(lines, i, warnings);
      i := i + 1;
    }
  }

  /** One iteration of the check-13 loop: the line at index `i`. */
  method SemicolonStep(lines: seq<string>, i: nat, warnings: seq<string>) returns (next: seq<string>)
    requires i < |lines| && warnings == SemicolonWarnings(lines, i)
    ensures next == SemicolonWarnings(lines, i + 1)
  {
    next := warnings;
    if MissingSemicolonAt(lines, i) {
      next := next + [SemicolonMessage(lines, i)];
    }
  }

  // ---------------------------------------------------------------- lemmas

  lemma {:induction false} ScanLinesAreErrors(lines: seq<string>, br: Bracketing, b: int, num: nat)
    ensures forall m :: m in ScanLines(lines, br, b, num).1 ==> IsError(m)
    decreases |lines|
  {
    if lines != [] {
      var (b1, dipped) := LineScan(lines[0], br, b);
      ScanLinesAreErrors(lines[1..], br, b1, num + 1);
    }
  }

  lemma {:induction false} SemicolonWarningsAreNotErrors(lines: seq<string>, n: nat)
    requires n <= |lines|
    ensures forall m :: m in SemicolonWarnings(lines, n) ==> !IsError(m)
  {
    if n > 0 {
      SemicolonWarningsAreNotErrors(lines, n - 1);
    }
  }

  /** The result of `check_syntax` is valid exactly when no ERROR message was
      produced: the begin/end, invalid-port, multiple-module, empty-module and
      missing-semicolon findings never change validity. */
  lemma ValidIffNoErrorMessage(code: string)
    ensures Errors(code) == [] <==> forall m :: m in Errors(code) + Warnings(code) ==> !IsError(m)
  {
    if Errors(code) != [] {
      assert Errors(code)[0] in Errors(code) + Warnings(code);
    }
  }

  /** In the returned list the ERROR messages are exactly the first
      `|Errors(code)|` entries, so they precede every warning. */
  lemma ErrorsComeFirst(code: string)
    ensures forall k :: 0 <= k < |Errors(code) + Warnings(code)| ==>
      (IsError((Errors(code) + Warnings(code))[k]) <==> k < |Errors(code)|)
  {
    var e, w := Errors(code), Warnings(code);
    forall k | 0 <= k < |e + w| ensures IsError((e + w)[k]) <==> k < |e| {
      if k < |e| {
        assert (e + w)[k] == e[k];
        assert e[k] in e;
      } else {
        assert (e + w)[k] == w[k - |e|];
        assert w[k - |e|] in w;
      }
    }
  }

  lemma HasAtShift(pre: string, s: string, i: nat, p: string)
    requires HasAt(s, i, p)
    ensures HasAt(pre + s, |pre| + i, p)
  {
    assert (pre + s)[|pre| + i..|pre| + i + |p|] == s[i..i + |p|];
  }

  /** A module/endmodule count difference yields an error that names both counts. */
  lemma ModuleMismatchReported(code: string)
    requires ModuleCount(code) != EndmoduleCount(code)
    ensures ModuleMismatch(ModuleCount(code), EndmoduleCount(code)) in Errors(code)
    ensures Contains(ModuleMismatch(ModuleCount(code), EndmoduleCount(code)), NatToString(ModuleCount(code)))
    ensures Contains(ModuleMismatch(ModuleCount(code), EndmoduleCount(code)), NatToString(EndmoduleCount(code)))
  {
    var mc, ec := NatToString(ModuleCount(code)), NatToString(EndmoduleCount(code));
    var a, b, c := "Module/endmodule mismatch (found ", " module(s) but ", " endmodule(s))";
    var body := a + mc + b + ec + c;
    assert HasAt(body, |a|, mc);
    assert HasAt(body, |a + mc + b|, ec);
    HasAtShift("ERROR: ", body, |a|, mc);
    HasAtShift("ERROR: ", body, |a + mc + b|, ec);
    assert ModuleMismatch(ModuleCount(code), EndmoduleCount(code)) in KeywordErrors(code);
  }

  // ---------------------------------------------------- balance lemmas

  lemma {:induction false} NetAppend(a: string, c: string, br: Bracketing)
    ensures Net(a + c, br) == Net(a, br) + Net(c, br)
    decreases |a|
  {
    if a == [] {
      assert a + c == c;
    } else {
      assert (a + c)[0] == a[0];
      assert (a + c)[1..] == a[1..] + c;
      NetAppend(a[1..], c, br);
    }
  }

  lemma NetPrefixStep(s: string, br: Bracketing, k: nat)
    requires 0 < k <= |s|
    ensures Net(s[..k], br) == Delta(s[0], br) + Net(s[1..][..k - 1], br)
  {
    assert s[..k][1..] == s[1..][..k - 1];
  }

  /** A line with no dip is scanned to its end and adds its net count. */
  lemma {:induction false} LineScanNoDip(line: string, br: Bracketing, b: int)
    requires forall k :: 0 <= k < |line| ==> !DipAt(line, br, b, k)
    ensures LineScan(line, br, b) == (b + Net(line, br), false)
    decreases |line|
  {
    if line != [] {
      var b1 := b + Delta(line[0], br);
      forall k | 0 <= k < |line[1..]| ensures !DipAt(line[1..], br, b1, k) {
        NetPrefixStep(line, br, k + 2);
        assert line[1..][k] == line[k + 1];
        assert !DipAt(line, br, b, k + 1);
      }
      if line[0] == br.Close() {
        NetPrefixStep(line, br, 1);
        assert !DipAt(line, br, b, 0);
      }
      LineScanNoDip(line[1..], br, b1);
    }
  }

  /** At the first closer that takes the balance below zero the line is cut:
      the rest of it is not scanned and the negative balance is kept. */
  lemma {:induction false} LineScanFirstDip(line: string, br: Bracketing, b: int, k: nat)
    requires DipAt(line, br, b, k)
    requires forall j :: 0 <= j < k ==> !DipAt(line, br, b, j)
    ensures LineScan(line, br, b) == (b + Net(line[..k + 1], br), true)
    decreases k
  {
    var b1 := b + Delta(line[0], br);
    NetPrefixStep(line, br, k + 1);
    if k == 0 {
      assert line[..1][1..] == [];
    } else {
      if line[0] == br.Close() {
        NetPrefixStep(line, br, 1);
        assert !DipAt(line, br, b, 0);
      }
      forall j | 0 <= j < k - 1 ensures !DipAt(line[1..], br, b1, j) {
        NetPrefixStep(line, br, j + 2);
        assert line[1..][j] == line[j + 1];
        assert !DipAt(line, br, b, j + 1);
      }
      assert line[1..][k - 1] == line[k];
      LineScanFirstDip(line[1..], br, b1, k - 1);
    }
  }

  lemma NoDipCons(c: char, s: string, br: Bracketing, b: int)
    ensures NoDip([c] + s, br, b) <==> b >= 0 && NoDip(s, br, b + Delta(c, br))
  {
    var t := [c] + s;
    forall k | 0 < k <= |t| ensures Net(t[..k], br) == Delta(c, br) + Net(s[..k - 1], br) {
      NetPrefixStep(t, br, k);
      assert t[1..] == s;
    }
    assert Net(t[..0], br) == 0;
    if b >= 0 && NoDip(s, br, b + Delta(c, br)) {
      forall k | 0 <= k <= |t| ensures b + Net(t[..k], br) >= 0 {
        if k > 0 { assert b + Delta(c, br) + Net(s[..k - 1], br) >= 0; }
      }
    }
    if NoDip(t, br, b) {
      forall k | 0 <= k <= |s| ensures b + Delta(c, br) + Net(s[..k], br) >= 0 {
        assert b + Net(t[..k + 1], br) >= 0;
      }
    }
  }

  /** From a non-negative balance, a line is cut short exactly when some
      prefix of it has more closers than the balance covers; otherwise the
      scan adds the line's net count. */
  lemma {:induction false} LineScanClean(line: string, br: Bracketing, b: int)
    requires b >= 0
    ensures LineScan(line, br, b).1 <==> !NoDip(line, br, b)
    ensures !LineScan(line, br, b).1 ==> LineScan(line, br, b).0 == b + Net(line, br)
    decreases |line|
  {
    if line == [] {
      assert NoDip(line, br, b) by { assert line[..0] == []; }
    } else {
      assert line == [line[0]] + line[1..];
      NoDipCons(line[0], line[1..], br, b);
      var b1 := b + Delta(line[0], br);
      if line[0] == br.Close() && b - 1 < 0 {
        assert !NoDip(line[1..], br, b1) by { assert line[1..][..0] == []; }
      } else {
        LineScanClean(line[1..], br, b1);
      }
    }
  }

  lemma NoDipAppend(a: string, c: string, br: Bracketing, b: int)
    ensures NoDip(a + c, br, b) <==> NoDip(a, br, b) && NoDip(c, br, b + Net(a, br))
  {
    var t := a + c;
    forall k | |a| <= k <= |t| ensures Net(t[..k], br) == Net(a, br) + Net(c[..k - |a|], br) {
      assert t[..k] == a + c[..k - |a|];
      NetAppend(a, c[..k - |a|], br);
    }
    forall k | 0 <= k <= |a| ensures t[..k] == a[..k] { }
    if NoDip(a, br, b) && NoDip(c, br, b + Net(a, br)) {
      forall k | 0 <= k <= |t| ensures b + Net(t[..k], br) >= 0 {
        if k > |a| { assert b + Net(a, br) + Net(c[..k - |a|], br) >= 0; }
        else { assert b + Net(a[..k], br) >= 0; }
      }
    }
    if NoDip(t, br, b) {
      forall k | 0 <= k <= |c| ensures b + Net(a, br) + Net(c[..k], br) >= 0 {
        assert b + Net(t[..|a| + k], br) >= 0;
      }
      forall k | 0 <= k <= |a| ensures b + Net(a[..k], br) >= 0 {
        assert b + Net(t[..k], br) >= 0;
      }
    }
  }

  lemma NewlineNeutral(br: Bracketing)
    ensures Net("\n", br) == 0
    ensures forall b :: b >= 0 ==> NoDip("\n", br, b)
  {
    forall b | b >= 0 ensures NoDip("\n", br, b) {
      assert "\n"[..0] == [] && "\n"[..1] == "\n";
    }
  }

  /** Joining a further line after a newline continues the balance. */
  lemma JoinStep(first: string, rest: string, br: Bracketing, b: int)
    requires NoDip(first, br, b)
    ensures NoDip(first + ("\n" + rest), br, b) <==> NoDip(rest, br, b + Net(first, br))
    ensures Net(first + ("\n" + rest), br) == Net(first, br) + Net(rest, br)
  {
    NoDipAppend(first, "\n" + rest, br, b);
    NoDipAppend("\n", rest, br, b + Net(first, br));
    NetAppend(first, "\n" + rest, br);
    NetAppend("\n", rest, br);
    NewlineNeutral(br);
    assert first[..|first|] == first;
  }

  /** From a non-negative balance, scanning lines reports nothing exactly when
      no prefix of the joined text dips below zero; the final balance is then
      the start balance plus the text's net count. */
  lemma {:induction false} ScanLinesClean(lines: seq<string>, br: Bracketing, b: int, num: nat)
    requires b >= 0
    ensures ScanLines(lines, br, b, num).1 == [] <==> NoDip(Join(lines, "\n"), br, b)
    ensures ScanLines(lines, br, b, num).1 == [] ==> ScanLines(lines, br, b, num).0 == b + Net(Join(lines, "\n"), br)
    decreases |lines|
  {
    if lines == [] {
      var e: string := [];
      assert NoDip(e, br, b) by { assert e[..0] == []; }
    } else {
      var (b1, dipped) := LineScan(lines[0], br, b);
      LineScanClean(lines[0], br, b);
      ScanLinesHead(lines, br, b, num);
      if |lines| > 1 {
        var rest := Join(lines[1..], "\n");
        assert Join(lines, "\n") == lines[0] + ("\n" + rest);
        if dipped {
          NoDipAppend(lines[0], "\n" + rest, br, b);
        } else {
          assert lines[0][..|lines[0]|] == lines[0];
          ScanLinesClean(lines[1..], br, b1, num + 1);
          JoinStep(lines[0], rest, br, b);
        }
      }
    }
  }

  /** Scanning reports nothing exactly when the first line is not cut short
      and the rest report nothing; the final balance is the rest's. */
  lemma ScanLinesHead(lines: seq<string>, br: Bracketing, b: int, num: nat)
    requires lines != []
    ensures var (b1, dipped) := LineScan(lines[0], br, b);
      && (ScanLines(lines, br, b, num).1 == [] <==> !dipped && ScanLines(lines[1..], br, b1, num + 1).1 == [])
      && ScanLines(lines, br, b, num).0 == ScanLines(lines[1..], br, b1, num + 1).0
  {
  }

  /** Check 7 (or 8) reports nothing exactly when the text is balanced: no
      prefix closes more than it opened, and the whole text closes all it opened. */
  lemma BalanceErrorsEmptyIff(code: string, br: Bracketing)
    ensures BalanceErrors(code, br) == [] <==> NoDip(code, br, 0) && Net(code, br) == 0
  {
    var lines := SplitOn(code, '\n');
    SplitOnJoin(code, '\n');
    ScanLinesClean(lines, br, 0, 1);
    if NoDip(code, br, 0) {
      assert code[..|code|] == code;
    }
  }

  /** Distinct line numbers give distinct "unmatched" messages. */
  lemma UnmatchedInjective(br: Bracketing, n: nat, n': nat)
    requires UnmatchedMessage(br, n) == UnmatchedMessage(br, n')
    ensures n == n'
  {
    var body := "Unmatched closing " + br.ClosingName() + " at line ";
    var m, m' := Message(Error, body + NatToString(n)), Message(Error, body + NatToString(n'));
    assert m[7..] == body + NatToString(n) && m'[7..] == body + NatToString(n');
    assert (body + NatToString(n))[|body|..] == NatToString(n);
    assert (body + NatToString(n'))[|body|..] == NatToString(n');
    DigitsOfNat(n);
    DigitsOfNat(n');
  }

  /** An "unclosed" count is never read as an "unmatched" line. */
  lemma UnclosedNotUnmatched(br: Bracketing, b: int, n: nat)
    requires b > 0
    ensures UnclosedMessage(br, b) != UnmatchedMessage(br, n)
  {
    var u := UnclosedMessage(br, b);
    assert u == Error.Prefix() + (NatToString(b) + " " + br.UnclosedName());
    assert u[7] == NatToString(b)[0];
    assert UnmatchedMessage(br, n)[7] == 'U';
  }

  /** The messages of a scan starting at line `num` name lines `num` and later. */
  lemma {:induction false} ScanLinesLines(lines: seq<string>, br: Bracketing, b: int, num: nat)
    ensures forall m :: m in ScanLines(lines, br, b, num).1 ==>
      exists n: nat :: num <= n < num + |lines| && m == UnmatchedMessage(br, n)
    decreases |lines|
  {
    if lines != [] {
      var (b1, dipped) := LineScan(lines[0], br, b);
      ScanLinesLines(lines[1..], br, b1, num + 1);
    }
  }

  /** The first line's number is reported exactly when that line is cut short. */
  lemma ScanLinesReportsFirst(lines: seq<string>, br: Bracketing, b: int, num: nat)
    requires lines != []
    ensures UnmatchedMessage(br, num) in ScanLines(lines, br, b, num).1 <==> LineScan(lines[0], br, b).1
  {
    var (b1, dipped) := LineScan(lines[0], br, b);
    var rest := ScanLines(lines[1..], br, b1, num + 1).1;
    assert ScanLines(lines, br, b, num).1 == (if dipped then [UnmatchedMessage(br, num)] else []) + rest;
    ScanLinesLines(lines[1..], br, b1, num + 1);
    if UnmatchedMessage(br, num) in rest {
      var n: nat :| num + 1 <= n < num + |lines| && UnmatchedMessage(br, num) == UnmatchedMessage(br, n);
      UnmatchedInjective(br, num, n);
    }
  }

  /** A later line's number is reported by the whole scan exactly when it is
      reported by the scan of the lines after the first. */
  lemma ScanLinesReportsLater(lines: seq<string>, br: Bracketing, b: int, num: nat, k: nat)
    requires 0 < k < |lines|
    ensures var b1 := LineScan(lines[0], br, b).0;
      && (UnmatchedMessage(br, num + k) in ScanLines(lines, br, b, num).1
          <==> UnmatchedMessage(br, num + k) in ScanLines(lines[1..], br, b1, num + 1).1)
      && ScanLines(lines[..k], br, b, num).0 == ScanLines(lines[1..][..k - 1], br, b1, num + 1).0
  {
    var (b1, dipped) := LineScan(lines[0], br, b);
    var rest := ScanLines(lines[1..], br, b1, num + 1).1;
    assert ScanLines(lines, br, b, num).1 == (if dipped then [UnmatchedMessage(br, num)] else []) + rest;
    assert lines[..k][0] == lines[0] && lines[..k][1..] == lines[1..][..k - 1];
    if UnmatchedMessage(br, num + k) == UnmatchedMessage(br, num) {
      UnmatchedInjective(br, num + k, num);
    }
  }

  /** Line `num + k` is reported unmatched exactly when that line, entered
      at the balance the lines before it leave, is cut short. */
  lemma {:induction false} ScanLinesReports(lines: seq<string>, br: Bracketing, b: int, num: nat, k: nat)
    requires k < |lines|
    ensures UnmatchedMessage(br, num + k) in ScanLines(lines, br, b, num).1
      <==> LineScan(lines[k], br, ScanLines(lines[..k], br, b, num).0).1
    decreases k
  {
    if k == 0 {
      assert lines[..0] == [];
      ScanLinesReportsFirst(lines, br, b, num);
    } else {
      var b1 := LineScan(lines[0], br, b).0;
      ScanLinesReportsLater(lines, br, b, num, k);
      assert lines[1..][k - 1] == lines[k];
      ScanLinesReports(lines[1..], br, b1, num + 1, k - 1);
    }
  }

  /** Check 7 (or 8) names 1-based line `k + 1` exactly when line `k` is cut
      short at the balance the earlier lines leave. */
  lemma UnmatchedReportedIff(code: string, br: Bracketing, k: nat)
    requires k < |SplitOn(code, '\n')|
    ensures var lines := SplitOn(code, '\n');
      UnmatchedMessage(br, k + 1) in BalanceErrors(code, br)
      <==> LineScan(lines[k], br, ScanLines(lines[..k], br, 0, 1).0).1
  {
    var lines := SplitOn(code, '\n');
    var (b, errs) := ScanLines(lines, br, 0, 1);
    ScanLinesReports(lines, br, 0, 1, k);
    if b > 0 {
      UnclosedNotUnmatched(br, b, k + 1);
    }
  }

  /** A text that never closes more than it opened, but leaves openers behind,
      gets the single "unclosed" error with the count of openers left. */
  lemma UnclosedOnly(code: string, br: Bracketing)
    requires NoDip(code, br, 0) && Net(code, br) > 0
    ensures BalanceErrors(code, br) == [UnclosedMessage(br, Net(code, br))]
  {
    SplitOnJoin(code, '\n');
    ScanLinesClean(SplitOn(code, '\n'), br, 0, 1);
  }

  /** `check_syntax` reports the text valid exactly when a module is declared,
      the module/endmodule, case/endcase, function/endfunction and
      task/endtask counts agree, and parentheses and brackets balance. */
  lemma ValidIff(code: string)
    ensures Errors(code) == [] <==>
      && HasModuleDecl(code)
      && ModuleCount(code) == EndmoduleCount(code)
      && CaseCount(code) == EndcaseCount(code)
      && FunctionsPaired(code) && TasksPaired(code)
      && NoDip(code, Paren, 0) && Net(code, Paren) == 0
      && NoDip(code, Bracket, 0) && Net(code, Bracket) == 0
  {
    BalanceErrorsEmptyIff(code, Paren);
    BalanceErrorsEmptyIff(code, Bracket);
  }

  // ------------------------------------------------------------ versions

  datatype Version = Verilog95 | Verilog2001 | SystemVerilog {
    function Name(): string {
      match this
      case Verilog95 => "Verilog-95"
      case Verilog2001 => "Verilog-2001"
      case SystemVerilog => "SystemVerilog"
    }
    function Rank(): nat {
      match this
      case Verilog95 => 0
      case Verilog2001 => 1
      case SystemVerilog => 2
    }
  }

  const SystemVerilogWords: seq<string> := ["logic", "always_ff", "always_comb", "always_latch", "interface", "class", "package"]
  const Verilog2001Words: seq<string> := ["localparam", "generate", "signed", "unsigned"]

  /** `get_verilog_version`, on the raw text (comments included): SystemVerilog
      keywords take precedence over Verilog-2001 markers. */
  function VerilogVersion(src: string): (v: Version)
    ensures v == SystemVerilog <==> AnyWord(src, SystemVerilogWords)
    ensures v == Verilog95 <==> !AnyWord(src, SystemVerilogWords) && !AnyWord(src, Verilog2001Words) && !Contains(src, "@(*)")
  {
    if AnyWord(src, SystemVerilogWords) then SystemVerilog
    else if AnyWord(src, Verilog2001Words) || Contains(src, "@(*)") then Verilog2001
    else Verilog95
  }

  lemma WordAtExtend(a: string, t: string, i: nat, kw: string)
    requires WordAt(a, i, kw)
    ensures WordAt(a + " " + t, i, kw)
  {
    var s := a + " " + t;
    assert s[i..i + |kw|] == a[i..i + |kw|];
    if i > 0 { assert s[i - 1] == a[i - 1]; }
    if i + |kw| < |a| { assert s[i + |kw|] == a[i + |kw|]; }
    else { assert s[i + |kw|] == ' '; }
  }

  lemma AnyWordExtend(a: string, t: string, kws: seq<string>)
    requires AnyWord(a, kws)
    ensures AnyWord(a + " " + t, kws)
  {
    var i, k :| 0 <= i < |a| && 0 <= k < |kws| && WordAt(a, i, kws[k]);
    WordAtExtend(a, t, i, kws[k]);
  }

  /** Appending more text, after a separating space, never lowers the
      detected version: every marker is a presence test. */
  lemma VersionMonotone(a: string, t: string)
    ensures VerilogVersion(a + " " + t).Rank() >= VerilogVersion(a).Rank()
  {
    var s := a + " " + t;
    if AnyWord(a, SystemVerilogWords) {
      AnyWordExtend(a, t, SystemVerilogWords);
    } else if AnyWord(a, Verilog2001Words) {
      AnyWordExtend(a, t, Verilog2001Words);
    } else if Contains(a, "@(*)") {
      var i :| 0 <= i <= |a| && HasAt(a, i, "@(*)");
      assert s[i..i + 4] == a[i..i + 4];
      assert HasAt(s, i, "@(*)");
    }
  }
}
