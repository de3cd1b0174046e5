/** `detect_gate_type` and `verify_gate_logic` (AWaveViewer.py:5688-5932):
    classification of a consolidated truth table as a named logic gate, and
    the textual verification report that checks the table against the rules
    of the gate the label names. */
module GateLogic {
  import opened Text

  /** A truth table: input tuple (each entry "0" or "1") to output value. */
  type Table = map<seq<string>, string>

  /** `table.get(key, default)`. */
  function Lookup(t: Table, key: seq<string>, default: string): string {
    if key in t then t[key] else default
  }

  /** `table.get(key, None)`. */
  function Find(t: Table, key: seq<string>): Option<string> {
    if key in t then Some(t[key]) else None
  }

  /** The output spelling of a bit. */
  function Bit(b: bool): string {
    if b then "1" else "0"
  }

  // ------------------------------------------------------------ two-input gates

  datatype Gate = And | Or | Xor | Nand | Nor | Xnor

  /** The Boolean function each two-input gate computes. */
  function Truth(g: Gate, a: bool, b: bool): bool {
    match g
    case And => a && b
    case Or => a || b
    case Xor => a != b
    case Nand => !(a && b)
    case Nor => !(a || b)
    case Xnor => a == b
  }

  /** The label reported for a detected two-input gate. */
  function Label(g: Gate): string {
    match g
    case And => "AND Gate"
    case Or => "OR Gate"
    case Xor => "XOR Gate"
    case Nand => "NAND Gate"
    case Nor => "NOR Gate"
    case Xnor => "XNOR Gate"
  }

  const CustomLogic: string := "Custom Logic"

  /** A row looked up the way the detector does, with "X" for a missing row. */
  function Row(t: Table, a: string, b: string): string {
    Lookup(t, [a, b], "X")
  }

  /** The table holds all four rows of gate `g`. */
  predicate Realises(t: Table, g: Gate) {
    Row(t, "0", "0") == Bit(Truth(g, false, false))
    && Row(t, "0", "1") == Bit(Truth(g, false, true))
    && Row(t, "1", "0") == Bit(Truth(g, true, false))
    && Row(t, "1", "1") == Bit(Truth(g, true, true))
  }

  /** Keys whose output is "1" (the source sums over the table's values, one
      per key). */
  function OnesKeys(t: Table): set<seq<string>> {
    set k | k in t && t[k] == "1"
  }

  /** Label for a table over `numInputs` inputs: NOT/BUFFER for one input,
      the six classic gates for two, three coarse classes for three. */
  function DetectGateType(t: Table, numInputs: int): (name: string)
    ensures numInputs == 1 ==> name in {"NOT Gate", "BUFFER", "Unknown"}
    ensures numInputs == 2 ==> name in {"AND Gate", "OR Gate", "XOR Gate", "NAND Gate", "NOR Gate", "XNOR Gate", CustomLogic}
    ensures numInputs == 3 ==> name in {"3-input AND", "3-input OR", "3-input XOR/Complex", "3-input Logic"}
    ensures numInputs !in {1, 2, 3} ==> EndsWith(name, "-input Logic") && RuleFor(name) == CustomRules
  {
    if numInputs == 1 then
      var in0 := Find(t, ["0"]);
      var in1 := Find(t, ["1"]);
      if in0 == Some("1") && in1 == Some("0") then "NOT Gate"
      else if in0 == Some("0") && in1 == Some("1") then "BUFFER"
      else "Unknown"
    else if numInputs == 2 then
      var o00 := Row(t, "0", "0");
      var o01 := Row(t, "0", "1");
      var o10 := Row(t, "1", "0");
      var o11 := Row(t, "1", "1");
      if o00 == "0" && o01 == "0" && o10 == "0" && o11 == "1" then "AND Gate"
      else if o00 == "0" && o01 == "1" && o10 == "1" && o11 == "1" then "OR Gate"
      else if o00 == "0" && o01 == "1" && o10 == "1" && o11 == "0" then "XOR Gate"
      else if o00 == "1" && o01 == "1" && o10 == "1" && o11 == "0" then "NAND Gate"
      else if o00 == "1" && o01 == "0" && o10 == "0" && o11 == "0" then "NOR Gate"
      else if o00 == "1" && o01 == "0" && o10 == "0" && o11 == "1" then "XNOR Gate"
      else CustomLogic
    else if numInputs == 3 then
      var ones := |OnesKeys(t)|;
      if ones == 1 && Lookup(t, ["1", "1", "1"], "0") == "1" then "3-input AND"
      else if ones == 7 && Lookup(t, ["0", "0", "0"], "1") == "0" then "3-input OR"
      else if ones == 4 then "3-input XOR/Complex"
      else "3-input Logic"
    else
      var name := IntToString(numInputs) + "-input Logic";
      CountLabelRule(numInputs);
      assert name[|name| - |"-input Logic"|..] == "-input Logic";
      name
  }

  /** A two-input table gets a gate's label exactly when it holds all four
      rows of that gate. */
  lemma DetectTwoInputs(t: Table, g: Gate)
    ensures DetectGateType(t, 2) == Label(g) <==> Realises(t, g)
  {
  }

  /** "Custom Logic" is reported exactly when no gate's four rows are all
      present. */
  lemma CustomWhenNoGate(t: Table)
    ensures DetectGateType(t, 2) == CustomLogic <==> forall g :: !Realises(t, g)
  {
    if DetectGateType(t, 2) != CustomLogic {
      var o00, o01, o10, o11 := Row(t, "0", "0"), Row(t, "0", "1"), Row(t, "1", "0"), Row(t, "1", "1");
      if o00 == "0" && o01 == "0" && o10 == "0" && o11 == "1" {
        assert Realises(t, And);
      } else if o00 == "0" && o01 == "1" && o10 == "1" && o11 == "1" {
        assert Realises(t, Or);
      } else if o00 == "0" && o01 == "1" && o10 == "1" && o11 == "0" {
        assert Realises(t, Xor);
      } else if o00 == "1" && o01 == "1" && o10 == "1" && o11 == "0" {
        assert Realises(t, Nand);
      } else if o00 == "1" && o01 == "0" && o10 == "0" && o11 == "0" {
        assert Realises(t, Nor);
      } else {
        assert Realises(t, Xnor);
      }
    }
  }

  /** A missing row reads as "X", which no gate produces. */
  lemma MissingRowIsCustom(t: Table, a: bool, b: bool)
    requires [Bit(a), Bit(b)] !in t
    ensures DetectGateType(t, 2) == CustomLogic
  {
    CustomWhenNoGate(t);
  }

  /** One input: NOT exactly when both rows hold the negation, BUFFER exactly
      when both hold the identity. */
  lemma DetectOneInput(t: Table)
    ensures DetectGateType(t, 1) == "NOT Gate"
      <==> forall b :: [Bit(b)] in t && t[[Bit(b)]] == Bit(!b)
    ensures DetectGateType(t, 1) == "BUFFER"
      <==> forall b :: [Bit(b)] in t && t[[Bit(b)]] == Bit(b)
  {
    var ok0, ok1 := Find(t, [Bit(false)]), Find(t, [Bit(true)]);
  }

  /** Three inputs: "3-input AND" exactly when (1,1,1) is the one key whose
      output is "1". */
  lemma DetectThreeInputAnd(t: Table)
    ensures DetectGateType(t, 3) == "3-input AND" <==> OnesKeys(t) == {["1", "1", "1"]}
  {
    var top := ["1", "1", "1"];
    if DetectGateType(t, 3) == "3-input AND" {
      assert top in OnesKeys(t);
      SingletonOf(OnesKeys(t), top);
    }
  }

  lemma SingletonOf<T>(s: set<T>, x: T)
    requires |s| == 1 && x in s
    ensures s == {x}
  {
    assert |s - {x}| == 0;
  }

  // --------------------------------------------------------- the verifier's rules

  /** The rule set the verifier applies, chosen by substring tests on a label. */
  datatype Rule = AndRules | OrRules | XorRules | NotRules | NandRules | NorRules | CustomRules

  /** The rule set a label selects: the first gate word it contains, with
      the longer words (NAND, NOR, XOR, XNOR) taking precedence over the
      shorter ones inside them; no gate word at all gives the custom rules. */
  function RuleFor(gateType: string): (r: Rule)
    ensures r == CustomRules <==> !Contains(gateType, "AND") && !Contains(gateType, "OR") && !Contains(gateType, "NOT")
    ensures r == AndRules <==> Contains(gateType, "AND") && !Contains(gateType, "NAND")
    ensures r == NotRules ==> Contains(gateType, "NOT")
  {
    GateWordsNest(gateType);
    if Contains(gateType, "AND") && !Contains(gateType, "NAND") then AndRules
    else if Contains(gateType, "OR") && !Contains(gateType, "NOR") && !Contains(gateType, "XOR") then OrRules
    else if Contains(gateType, "XOR") && !Contains(gateType, "XNOR") then XorRules
    else if Contains(gateType, "NOT") then NotRules
    else if Contains(gateType, "NAND") then NandRules
    else if Contains(gateType, "NOR") then NorRules
    else CustomRules
  }

  /** The fixed explanation printed for each rule set. */
  function RulesText(r: Rule): string {
    match r
    case AndRules =>
      "✓ AND Gate Rules (Correct Logic):\n"
      + "  • 0 AND 0 = 0 ✓\n" + "  • 0 AND 1 = 0 ✓\n" + "  • 1 AND 0 = 0 ✓\n" + "  • 1 AND 1 = 1 ✓\n"
      + "  • Output = 1 ONLY when ALL inputs = 1\n" + "  • Output = 0 if ANY input = 0\n"
    case OrRules =>
      "✓ OR Gate Rules (Correct Logic):\n"
      + "  • 0 OR 0 = 0 ✓\n" + "  • 0 OR 1 = 1 ✓\n" + "  • 1 OR 0 = 1 ✓\n" + "  • 1 OR 1 = 1 ✓\n"
      + "  • Output = 1 when ANY input = 1\n" + "  • Output = 0 only when ALL inputs = 0\n"
    case XorRules =>
      "✓ XOR Gate Rules (Correct Logic):\n"
      + "  • 0 XOR 0 = 0 ✓\n" + "  • 0 XOR 1 = 1 ✓\n" + "  • 1 XOR 0 = 1 ✓\n" + "  • 1 XOR 1 = 0 ✓\n"
      + "  • Output = 1 when inputs are DIFFERENT\n" + "  • Output = 0 when inputs are SAME\n"
    case NotRules =>
      "✓ NOT Gate Rules (Correct Logic):\n"
      + "  • NOT 0 = 1 ✓\n" + "  • NOT 1 = 0 ✓\n" + "  • Output = opposite of input\n"
    case NandRules =>
      "✓ NAND Gate Rules (Correct Logic):\n"
      + "  • 0 NAND 0 = 1 ✓\n" + "  • 0 NAND 1 = 1 ✓\n" + "  • 1 NAND 0 = 1 ✓\n" + "  • 1 NAND 1 = 0 ✓\n"
      + "  • Output = 0 only when ALL inputs = 1\n" + "  • Inverted AND gate\n"
    case NorRules =>
      "✓ NOR Gate Rules (Correct Logic):\n"
      + "  • 0 NOR 0 = 1 ✓\n" + "  • 0 NOR 1 = 0 ✓\n" + "  • 1 NOR 0 = 0 ✓\n" + "  • 1 NOR 1 = 0 ✓\n"
      + "  • Output = 1 only when ALL inputs = 0\n" + "  • Inverted OR gate\n"
    case CustomRules =>
      "ℹ Custom logic detected\n" + "  Check truth table for behavior\n"
  }

  /** One expected row of a rule set. */
  datatype Expectation = Expectation(inputs: seq<string>, out: string)

  /** The four rows of a two-input gate, in the order the verifier lists them. */
  function GateRows(g: Gate): seq<Expectation> {
    [ Expectation(["0", "0"], Bit(Truth(g, false, false))),
      Expectation(["0", "1"], Bit(Truth(g, false, true))),
      Expectation(["1", "0"], Bit(Truth(g, true, false))),
      Expectation(["1", "1"], Bit(Truth(g, true, true))) ]
  }

  const NotRows: seq<Expectation> := [Expectation(["0"], "1"), Expectation(["1"], "0")]

  function OperatorName(r: Rule): string {
    match r
    case AndRules => "AND"
    case OrRules => "OR"
    case XorRules => "XOR"
    case NandRules => "NAND"
    case NorRules => "NOR"
    case _ => ""
  }

  function Entry(key: seq<string>, i: nat): string {
    if i < |key| then key[i] else ""
  }

  /** The statement an error line makes about a row: `a OP b` or `NOT a`. */
  function Claim(r: Rule, key: seq<string>): string {
    if r == NotRules then "NOT " + Entry(key, 0)
    else Entry(key, 0) + " " + OperatorName(r) + " " + Entry(key, 1)
  }

  function ErrorLine(r: Rule, key: seq<string>, expected: string, actual: string): string {
    "  ✗ Error: " + Claim(r, key) + " should be " + expected + ", got " + actual
  }

  /** One error line per expected row from `i` on that the table disagrees
      with, in row order; a missing row reads as "X". */
  function ErrorsFrom(r: Rule, t: Table, rows: seq<Expectation>, i: nat): (errs: seq<string>)
    ensures |errs| <= |rows| - i || i > |rows|
    decreases |rows| - i
  {
    if i >= |rows| then []
    else
      var actual := Lookup(t, rows[i].inputs, "X");
      (if actual != rows[i].out then [ErrorLine(r, rows[i].inputs, rows[i].out, actual)] else [])
      + ErrorsFrom(r, t, rows, i + 1)
  }

  /** The `errors` list the verifier collects over a rule set's rows. */
  function Errors(r: Rule, t: Table, rows: seq<Expectation>): seq<string> {
    ErrorsFrom(r, t, rows, 0)
  }

  /** The table agrees with every expected row. */
  predicate Satisfies(t: Table, rows: seq<Expectation>) {
    forall i :: 0 <= i < |rows| ==> Lookup(t, rows[i].inputs, "X") == rows[i].out
  }

  const AllCorrect: string := "  ✓ ALL COMBINATIONS VERIFIED CORRECT!\n"

  function Verdict(errs: seq<string>): string {
    if errs == [] then AllCorrect else Join(errs, "\n") + "\n"
  }

  /** `['1'] * n` as a tuple key. */
  function Repeat(x: string, n: int): (r: seq<string>)
    ensures |r| == if n <= 0 then 0 else n
    ensures forall i :: 0 <= i < |r| ==> r[i] == x
    decreases n
  {
    if n <= 0 then [] else Repeat(x, n - 1) + [x]
  }

  /** The multi-input AND check: the all-ones row must give "1". */
  function AllOnesCheck(t: Table, n: int): string {
    if Lookup(t, Repeat("1", n), "0") == "1" then
      "  ✓ Correct: All " + IntToString(n) + " inputs = 1 → Output = 1\n"
    else
      "  ✗ Error: All " + IntToString(n) + " inputs = 1 should → Output = 1\n"
  }

  /** The multi-input OR check: the all-zeros row must give "0". */
  function AllZerosCheck(t: Table, n: int): string {
    if Lookup(t, Repeat("0", n), "1") == "0" then
      "  ✓ Correct: All " + IntToString(n) + " inputs = 0 → Output = 0\n"
    else
      "  ✗ Error: All " + IntToString(n) + " inputs = 0 should → Output = 0\n"
  }

  /** The table check that follows the rules text. */
  function CheckText(r: Rule, t: Table, n: int): string {
    match r
    case AndRules => if n == 2 then Verdict(Errors(r, t, GateRows(And))) else AllOnesCheck(t, n)
    case OrRules => if n == 2 then Verdict(Errors(r, t, GateRows(Or))) else AllZerosCheck(t, n)
    case XorRules => if n == 2 then Verdict(Errors(r, t, GateRows(Xor))) else ""
    case NotRules => Verdict(Errors(r, t, NotRows))
    case NandRules => if n == 2 then Verdict(Errors(r, t, GateRows(Nand))) else ""
    case NorRules => if n == 2 then Verdict(Errors(r, t, GateRows(Nor))) else ""
    case CustomRules => ""
  }

  const ReportHead: string := "VERIFICATION:\n"

  /** The rows a rule set other than the custom one checks a table against. */
  function RuleRows(r: Rule): seq<Expectation>
    requires r != CustomRules
  {
    if r == NotRules then NotRows else GateRows(RuleGate(r))
  }

  /** The verification report for a label and table: the heading and the
      rules of the selected set, then nothing more for a custom label, and
      for NOT (any input count) or a gate at two inputs the all-correct
      verdict exactly when the table agrees with every row of the set. */
  function VerifyGateLogic(gateType: string, t: Table, numInputs: int): (report: string)
    ensures ReportHead + RulesText(RuleFor(gateType)) <= report
    ensures RuleFor(gateType) == CustomRules ==> report == ReportHead + RulesText(CustomRules)
    ensures RuleFor(gateType) == NotRules || (numInputs == 2 && RuleFor(gateType) != CustomRules) ==>
      (report == ReportHead + RulesText(RuleFor(gateType)) + AllCorrect <==> Satisfies(t, RuleRows(RuleFor(gateType))))
  {
    var r := RuleFor(gateType);
    var head := ReportHead + RulesText(r);
    var report := head + CheckText(r, t, numInputs);
    assert report[|head|..] == CheckText(r, t, numInputs);
    if r == CustomRules then report
    else
      VerdictAllCorrect(r, t, RuleRows(r));
      assert (head + AllCorrect)[|head|..] == AllCorrect;
      report
  }

  // ------------------------------------------------------- facts about the rules

  /** No error line from `i` on exactly when the table agrees with every
      row from `i` on. */
  lemma {:induction false} ErrorsFromEmptyIff(r: Rule, t: Table, rows: seq<Expectation>, i: nat)
    ensures ErrorsFrom(r, t, rows, i) == []
      <==> forall j :: i <= j < |rows| ==> Lookup(t, rows[j].inputs, "X") == rows[j].out
    decreases |rows| - i
  {
    if i < |rows| {
      var here := Lookup(t, rows[i].inputs, "X") == rows[i].out;
      var restEmpty := ErrorsFrom(r, t, rows, i + 1) == [];
      var restAgree := forall j :: i + 1 <= j < |rows| ==> Lookup(t, rows[j].inputs, "X") == rows[j].out;
      ErrorsFromEmptyIff(r, t, rows, i + 1);
      assert restEmpty == restAgree;
      ErrorsFromStep(r, t, rows, i);
      assert (ErrorsFrom(r, t, rows, i) == []) == (here && restEmpty);
      AgreesFromStep(t, rows, i);
    }
  }

  /** Agreement with every row from `i` on is agreement with row `i` and with
      every row after it. */
  lemma AgreesFromStep(t: Table, rows: seq<Expectation>, i: nat)
    requires i < |rows|
    ensures (forall j :: i <= j < |rows| ==> Lookup(t, rows[j].inputs, "X") == rows[j].out)
      <==> (&& Lookup(t, rows[i].inputs, "X") == rows[i].out
            && forall j :: i + 1 <= j < |rows| ==> Lookup(t, rows[j].inputs, "X") == rows[j].out)
  {
  }

  /** The error lines from `i` on are empty exactly when row `i` agrees and
      those from `i + 1` on are empty. */
  lemma ErrorsFromStep(r: Rule, t: Table, rows: seq<Expectation>, i: nat)
    requires i < |rows|
    ensures ErrorsFrom(r, t, rows, i) == []
      <==> Lookup(t, rows[i].inputs, "X") == rows[i].out && ErrorsFrom(r, t, rows, i + 1) == []
  {
    var actual := Lookup(t, rows[i].inputs, "X");
    if actual != rows[i].out {
      var line := ErrorLine(r, rows[i].inputs, rows[i].out, actual);
      assert ErrorsFrom(r, t, rows, i) == [line] + ErrorsFrom(r, t, rows, i + 1);
    }
  }

  /** No error line exactly when the table agrees with every row. */
  lemma ErrorsEmptyIff(r: Rule, t: Table, rows: seq<Expectation>)
    ensures Errors(r, t, rows) == [] <==> Satisfies(t, rows)
  {
    ErrorsFromEmptyIff(r, t, rows, 0);
  }

  /** A table agrees with a gate's four rows exactly when it realises the gate. */
  lemma RowsOfGate(t: Table, g: Gate)
    ensures Satisfies(t, GateRows(g)) <==> Realises(t, g)
  {
    var rows := GateRows(g);
    if Realises(t, g) {
      forall i | 0 <= i < |rows| ensures Lookup(t, rows[i].inputs, "X") == rows[i].out {
      }
    }
    if Satisfies(t, rows) {
      assert Lookup(t, rows[0].inputs, "X") == rows[0].out;
      assert Lookup(t, rows[1].inputs, "X") == rows[1].out;
      assert Lookup(t, rows[2].inputs, "X") == rows[2].out;
      assert Lookup(t, rows[3].inputs, "X") == rows[3].out;
    }
  }

  /** The rule set each gate's label selects: XNOR has none of its own and
      reaches the NOR rules, because "NOR" is a substring of "XNOR Gate". */
  function LabelRule(g: Gate): Rule {
    match g
    case And => AndRules
    case Or => OrRules
    case Xor => XorRules
    case Nand => NandRules
    case Nor => NorRules
    case Xnor => NorRules
  }

  /** The gate whose rows a rule set (other than NOT and custom) checks. */
  function RuleGate(r: Rule): Gate
    requires r != NotRules && r != CustomRules
  {
    match r
    case AndRules => And
    case OrRules => Or
    case XorRules => Xor
    case NandRules => Nand
    case NorRules => Nor
  }

  /** Every error line opens with the cross mark. */
  lemma {:induction false} ErrorsFromMarked(r: Rule, t: Table, rows: seq<Expectation>, i: nat)
    ensures forall k :: 0 <= k < |ErrorsFrom(r, t, rows, i)| ==> |ErrorsFrom(r, t, rows, i)[k]| > 2 && ErrorsFrom(r, t, rows, i)[k][2] == '✗'
    decreases |rows| - i
  {
    if i < |rows| {
      ErrorsFromMarked(r, t, rows, i + 1);
    }
  }

  /** The verdict is the all-correct line exactly when every row agrees. */
  lemma VerdictAllCorrect(r: Rule, t: Table, rows: seq<Expectation>)
    ensures Verdict(Errors(r, t, rows)) == AllCorrect <==> Satisfies(t, rows)
  {
    var errs := Errors(r, t, rows);
    ErrorsEmptyIff(r, t, rows);
    if errs != [] {
      ErrorsFromMarked(r, t, rows, 0);
      assert Verdict(errs)[2] == errs[0][2];
      assert AllCorrect[2] == '✓';
    }
  }


  /** A word found in a label says the words inside it are found too. */
  lemma GateWordsNest(s: string)
    ensures Contains(s, "NAND") ==> Contains(s, "AND")
    ensures Contains(s, "NOR") ==> Contains(s, "OR")
    ensures Contains(s, "XOR") ==> Contains(s, "OR")
    ensures Contains(s, "XNOR") ==> Contains(s, "NOR")
  {
    forall a: string, p: string | |a| == 1 && Contains(s, a + p) ensures Contains(s, p) {
      var i :| 0 <= i <= |s| && HasAt(s, i, a + p);
      assert s[i + 1..i + 1 + |p|] == (a + p)[1..];
      assert HasAt(s, i + 1, p);
    }
    assert "NAND" == "N" + "AND" && "NOR" == "N" + "OR" && "XOR" == "X" + "OR" && "XNOR" == "X" + "NOR";
  }

  // Each label's rule set. Every proof path unfolds the dispatch on one
  // label only; "3-input Logic", like "BUFFER", "Unknown" and "Custom
  // Logic", has no gate word and is covered by `NoGateWord`.

  /** "AND Gate" and the three-input class "3-input AND" select the AND
      rules. */
  lemma AndLabelRules(name: string)
    requires name == "AND Gate" || name == "3-input AND"
    ensures RuleFor(name) == AndRules
  {
    if name == "AND Gate" {
      Occurs(name, "", "AND", " Gate");
    } else {
      Occurs(name, "3-input ", "AND", "");
    }
    AbsentPair(name, "NAND");
  }

  /** "OR Gate" and the three-input class "3-input OR" select the OR rules. */
  lemma OrLabelRules(name: string)
    requires name == "OR Gate" || name == "3-input OR"
    ensures RuleFor(name) == OrRules
  {
    if name == "OR Gate" {
      Occurs(name, "", "OR", " Gate");
    } else {
      Occurs(name, "3-input ", "OR", "");
    }
    AbsentChar(name, "AND", 0);
    AbsentChar(name, "NOR", 0);
    AbsentChar(name, "XOR", 0);
  }

  /** "XOR Gate" and the three-input class "3-input XOR/Complex" select the
      XOR rules. */
  lemma XorLabelRules(name: string)
    requires name == "XOR Gate" || name == "3-input XOR/Complex"
    ensures RuleFor(name) == XorRules
  {
    if name == "XOR Gate" {
      Occurs(name, "X", "OR", " Gate");
      Occurs(name, "", "XOR", " Gate");
    } else {
      Occurs(name, "3-input X", "OR", "/Complex");
      Occurs(name, "3-input ", "XOR", "/Complex");
    }
    AbsentChar(name, "AND", 0);
    AbsentChar(name, "XNOR", 1);
  }

  lemma NandLabelRule()
    ensures RuleFor("NAND Gate") == NandRules
  {
    Occurs("NAND Gate", "N", "AND", " Gate");
    Occurs("NAND Gate", "", "NAND", " Gate");
    AbsentChar("NAND Gate", "OR", 0);
    AbsentChar("NAND Gate", "XOR", 0);
    AbsentChar("NAND Gate", "NOT", 1);
  }

  lemma NorLabelRule()
    ensures RuleFor("NOR Gate") == NorRules
  {
    AbsentChar("NOR Gate", "AND", 0);
    Occurs("NOR Gate", "N", "OR", " Gate");
    Occurs("NOR Gate", "", "NOR", " Gate");
    AbsentChar("NOR Gate", "XOR", 0);
    AbsentChar("NOR Gate", "NOT", 2);
    AbsentChar("NOR Gate", "NAND", 1);
  }

  /** "XNOR Gate" contains "NOR" and not "XOR", so it reaches the NOR rules. */
  lemma XnorLabelRule()
    ensures RuleFor("XNOR Gate") == NorRules
  {
    AbsentChar("XNOR Gate", "AND", 0);
    Occurs("XNOR Gate", "XN", "OR", " Gate");
    Occurs("XNOR Gate", "X", "NOR", " Gate");
    AbsentPair("XNOR Gate", "XOR");
    AbsentChar("XNOR Gate", "NOT", 2);
    AbsentChar("XNOR Gate", "NAND", 1);
  }

  /** Each gate label selects the rule set `LabelRule` names. */
  lemma LabelDispatch(g: Gate)
    ensures RuleFor(Label(g)) == LabelRule(g)
  {
    match g
    case And => AndLabelRules("AND Gate");
    case Or => OrLabelRules("OR Gate");
    case Xor => XorLabelRules("XOR Gate");
    case Nand => NandLabelRule();
    case Nor => NorLabelRule();
    case Xnor => XnorLabelRule();
  }

  lemma NotLabelRule()
    ensures RuleFor("NOT Gate") == NotRules
  {
    AbsentChar("NOT Gate", "AND", 0);
    AbsentChar("NOT Gate", "OR", 1);
    AbsentChar("NOT Gate", "XOR", 0);
    Occurs("NOT Gate", "", "NOT", " Gate");
  }

  /** A label with none of the letters A, O and X selects the custom rules. */
  lemma NoGateWord(s: string)
    requires 'A' !in s && 'O' !in s && 'X' !in s
    ensures RuleFor(s) == CustomRules
  {
    AbsentChar(s, "AND", 0);
    AbsentChar(s, "OR", 0);
    AbsentChar(s, "XOR", 0);
    AbsentChar(s, "NOT", 1);
    AbsentChar(s, "NAND", 1);
    AbsentChar(s, "NOR", 1);
  }

  /** The "N-input Logic" labels select the custom rules. */
  lemma CountLabelRule(n: int)
    ensures RuleFor(IntToString(n) + "-input Logic") == CustomRules
  {
    var d := IntToString(n);
    var s := d + "-input Logic";
    assert forall i :: 0 <= i < |d| ==> d[i] == '-' || IsDigit(d[i]);
    assert forall c :: c in "-input Logic" ==> c != 'A' && c != 'O' && c != 'X';
    assert forall i :: 0 <= i < |s| ==> s[i] != 'A' && s[i] != 'O' && s[i] != 'X' by {
      forall i | 0 <= i < |s| ensures s[i] != 'A' && s[i] != 'O' && s[i] != 'X' {
        if i >= |d| {
          assert s[i] == "-input Logic"[i - |d|];
        }
      }
    }
    NoGateWord(s);
  }

  // ------------------------------------------------------- detection meets checking

  /** The row check of a gate other than XNOR passes on a table realising it. */
  lemma CleanGateCheck(t: Table, g: Gate)
    requires g != Xnor && Realises(t, g)
    ensures CheckText(LabelRule(g), t, 2) == AllCorrect
  {
    RowsOfGate(t, g);
    ErrorsEmptyIff(LabelRule(g), t, GateRows(g));
  }

  /** For AND, OR, XOR, NAND and NOR so detected, the report states the rules
      and then that all combinations are verified: no error line. */
  lemma DetectedGateVerifies(t: Table, g: Gate)
    requires g != Xnor && DetectGateType(t, 2) == Label(g)
    ensures VerifyGateLogic(Label(g), t, 2) == ReportHead + RulesText(LabelRule(g)) + AllCorrect
  {
    DetectTwoInputs(t, g);
    CleanGateCheck(t, g);
    LabelDispatch(g);
  }

  const XnorAsNorError: string := "  ✗ Error: 1 NOR 1 should be 0, got 1"

  /** The NOR row check on an XNOR table fails in row (1, 1) only. */
  lemma XnorUnderNorCheck(t: Table)
    requires Realises(t, Xnor)
    ensures CheckText(NorRules, t, 2) == XnorAsNorError + "\n"
  {
    NorErrorLine();
    XnorNorErrors(t);
    assert Join([XnorAsNorError], "\n") == XnorAsNorError;
  }

  /** The one line the NOR check writes for row (1, 1) reading 1. */
  lemma NorErrorLine()
    ensures ErrorLine(NorRules, ["1", "1"], "0", "1") == XnorAsNorError
  {
    assert Claim(NorRules, ["1", "1"]) == "1 NOR 1";
  }

  /** An XNOR table agrees with the NOR rows except in row (1, 1). */
  lemma XnorNorErrors(t: Table)
    requires Realises(t, Xnor)
    ensures Errors(NorRules, t, GateRows(Nor)) == [ErrorLine(NorRules, ["1", "1"], "0", "1")]
  {
    var rows := GateRows(Nor);
    var e := ErrorLine(NorRules, ["1", "1"], "0", "1");
    assert ErrorsFrom(NorRules, t, rows, 4) == [];
    assert ErrorsFrom(NorRules, t, rows, 3) == [e];
    assert ErrorsFrom(NorRules, t, rows, 2) == [e];
    assert ErrorsFrom(NorRules, t, rows, 1) == [e];
  }

  /** A detected XNOR gate is checked against the NOR rows and reported wrong
      in exactly one row, (1, 1). */
  lemma XnorReportsNorMismatch(t: Table)
    requires DetectGateType(t, 2) == Label(Xnor)
    ensures RuleFor(Label(Xnor)) == NorRules
    ensures VerifyGateLogic(Label(Xnor), t, 2) == ReportHead + RulesText(NorRules) + XnorAsNorError + "\n"
  {
    DetectTwoInputs(t, Xnor);
    XnorUnderNorCheck(t);
    XnorLabelRule();
  }

  /** A detected NOT gate passes the NOT check whatever input count is passed. */
  lemma DetectedNotVerifies(t: Table, n: int)
    requires DetectGateType(t, 1) == "NOT Gate"
    ensures VerifyGateLogic("NOT Gate", t, n) == ReportHead + RulesText(NotRules) + AllCorrect
  {
    NotLabelRule();
    assert Satisfies(t, NotRows);
    ErrorsEmptyIff(NotRules, t, NotRows);
  }

  const ThreeOnesCorrect: string := "  ✓ Correct: All " + "3" + " inputs = 1 → Output = 1\n"
  const ThreeZerosCorrect: string := "  ✓ Correct: All " + "3" + " inputs = 0 → Output = 0\n"

  lemma AllOnesOfThree(t: Table)
    requires Lookup(t, ["1", "1", "1"], "0") == "1"
    ensures AllOnesCheck(t, 3) == ThreeOnesCorrect
  {
    assert Repeat("1", 3) == ["1", "1", "1"];
    ThreeOnesText();
  }

  lemma ThreeOnesText()
    ensures "  ✓ Correct: All " + IntToString(3) + " inputs = 1 → Output = 1\n" == ThreeOnesCorrect
  {
    assert IntToString(3) == "3";
  }

  lemma AllZerosOfThree(t: Table)
    requires Lookup(t, ["0", "0", "0"], "1") == "0"
    ensures AllZerosCheck(t, 3) == ThreeZerosCorrect
  {
    assert Repeat("0", 3) == ["0", "0", "0"];
    ThreeZerosText();
  }

  lemma ThreeZerosText()
    ensures "  ✓ Correct: All " + IntToString(3) + " inputs = 0 → Output = 0\n" == ThreeZerosCorrect
  {
    assert IntToString(3) == "3";
  }

  /** A detected three-input AND passes the all-ones check. */
  lemma DetectedThreeInputAndVerifies(t: Table)
    requires DetectGateType(t, 3) == "3-input AND"
    ensures VerifyGateLogic("3-input AND", t, 3) == ReportHead + RulesText(AndRules) + ThreeOnesCorrect
  {
    AndLabelRules("3-input AND");
    AllOnesOfThree(t);
  }

  /** A detected three-input OR passes the all-zeros check. */
  lemma DetectedThreeInputOrVerifies(t: Table)
    requires DetectGateType(t, 3) == "3-input OR"
    ensures VerifyGateLogic("3-input OR", t, 3) == ReportHead + RulesText(OrRules) + ThreeZerosCorrect
  {
    OrLabelRules("3-input OR");
    AllZerosOfThree(t);
  }
}
