# AWaveViewer text-processing core in Dafny

AWaveViewer is a Qt waveform viewer and Verilog workbench. Behind its windows
sits a deterministic text-processing core, and this project models that core
and proves properties of the model. The core has six parts:

- **Verilog structural checker** (`VerilogSyntaxChecker`). It strips comments,
  then counts keyword pairs (`module`/`endmodule`, `case[xz]`/`endcase`,
  `function`/`endfunction`, `task`/`endtask`, and `begin`/`end` as a warning).
  It runs a running-balance scan for `(`/`)` and one for `[`/`]`, and applies
  heuristics: invalid ports, several modules, an empty module, and missing
  semicolons. It returns `(is_valid, errors + warnings)`. Beside it,
  `get_verilog_version` classifies text as SystemVerilog, Verilog-2001 or
  Verilog-95.
- **Module extractor** (`VerilogParser.parse_module`). Regular-expression
  passes build a record: name, parameters, inputs, outputs, inouts, wires and
  regs. Later duplicates are dropped.
- **Testbench synthesiser** (`TestbenchGenerator.generate_testbench`). This is
  a fixed Verilog template filled in from that record. It has declarations, a
  named-port instantiation, clock and reset blocks, a random stimulus loop,
  `$monitor` and `$dumpvars`.
- **VCD trace parser** (`VCDParser`). It is an object with four fields. Its
  `parse` reads a Value Change Dump (IEEE 1364-2005 section 18) line by line:
  header directives until `$enddefinitions`, then time markers and value
  changes.
- **Point-in-time lookup** (`get_signal_value_at_time`). It gives the value a
  signal holds at a time.
- **Combinational-logic inference**:
  - `analyze_combinational_logic` samples the selected signals at every
    change time and keeps the samples that hold only `0`/`1`. It builds a
    truth table from the most frequent output of each input tuple.
  - `detect_gate_type` names the gate.
  - `verify_gate_logic` writes a report that checks the table against the
    rules of the named gate.

## How the model is organised

One module per part, leaf first:

| file | module | what it holds |
|---|---|---|
| `text.dfy` | `Text` | Python string primitives over `seq<char>`: `isspace` classes, `strip`, `split`, `join`, `lower`, `str(int)`, `int(str)` |
| `verilog_lex.dfy` | `VerilogLex` | comment removal, and scanners for the regular expressions the checker runs |
| `syntax_checker.dfy` | `SyntaxChecker` | the messages of `check_syntax` as functions, the imperative scans, and `get_verilog_version` |
| `module_parser.dfy` | `ModuleParser` | the declaration scanners (what `re.finditer` yields) and the duplicate-skipping loops |
| `testbench.dfy` | `Testbench` | the template section by section, and the `tb_code +=` accumulation as methods |
| `vcd.dfy` | `Vcd` | the parser state, one line as a function, and the class `VcdParser` with its fields |
| `trace_query.dfy` | `TraceQuery` | the lookup as a recursive walk over the samples |
| `gate_logic.dfy` | `GateLogic` | gate detection and the verification report |
| `logic_analysis.dfy` | `LogicAnalysis` | the change-time set, sampling, grouping and majority vote as loops |

Where the source keeps state, the model is imperative:

- `VcdParser` is a class whose `Parse` method updates its fields line by line.
  It is proved equal to the function `RunLines` and keeps the invariant
  `Consistent`: every change names a registered signal, and each signal's
  `values` are the latest samples of its identifier.
- `CheckSyntax`, `ParseModule`, `GenerateTestbench` and
  `AnalyzeCombinational` are methods with loops. Each is proved equal to a
  specification function, and the properties are lemmas about those
  functions.
- Regular expressions are written as scanners. Each follows Python's
  leftmost, backtracking search for its pattern, including lazy quantifiers
  and the `re.finditer` restart after each match.

Three behaviours of the source are reproduced as written and documented by
lemmas:

- In `parse_module`, the output pattern has no whitespace after its optional
  `reg`. So `output reg q;` yields no output port at all
  (`ModuleParser.OutputRegNotCaptured`), and `output regq;` yields the
  output `q` (`ModuleParser.OutputRegGlued`).
- A port declared with an ascending range such as `[0:3]` gets width -2. The
  testbench then declares it without a range and drives it with a single
  random bit (`Testbench.AscendingRangeIsScalar`).
- `verify_gate_logic` chooses its rules by substring tests on the label, and
  "XNOR Gate" contains "NOR". So a detected XNOR gate is checked against the
  NOR rows and reported wrong in row (1, 1) (`GateLogic.XnorReportsNorMismatch`).

## Model

| member | source | states |
|---|---|---|
| VerilogLex.StripLineComments | AWaveViewer.py:1635 | after line-comment removal no `//` remains; the text only shrinks, and its first character is kept or is a newline |
| VerilogLex.StripLineCommentsKeepsLines | AWaveViewer.py:1635 | line-comment removal keeps every newline, so the later 1-based line numbers refer to the original lines |
| VerilogLex.StripLineCommentsNoMarker | AWaveViewer.py:1635 | text without `//` is unchanged by line-comment removal |
| VerilogLex.StripBlockComments | AWaveViewer.py:1637 | block-comment removal never lengthens the text |
| VerilogLex.StripBlockCommentsNoMarker | AWaveViewer.py:1637 | text without `/*` is unchanged by block-comment removal |
| VerilogLex.RemoveComments | AWaveViewer.py:1632-1638 | comment removal (line comments, then block comments) never lengthens the text |
| VerilogLex.RemoveCommentsNoMarker | AWaveViewer.py:1632-1638 | text with no comment opener is returned unchanged |
| VerilogLex.CountFromZeroIff | AWaveViewer.py:1527-1552 | a keyword count used by the pair checks is zero exactly when the keyword matches nowhere |
| VerilogLex.StartsWithAny | AWaveViewer.py:1620 | a line opens with a declaration keyword exactly when one of the listed keywords, followed by whitespace, starts it |
| SyntaxChecker.Message | AWaveViewer.py:1524-1623 | a message reads as an error (begins with `ERROR`) exactly when it is issued with the error severity; warnings and the `INFO` note never do |
| SyntaxChecker.Errors | AWaveViewer.py:1522-1586 | every message of checks 1-8 is an ERROR |
| SyntaxChecker.Warnings | AWaveViewer.py:1532-1623 | no begin/end, invalid-port, multiple-module, empty-module or semicolon message reads as an ERROR |
| SyntaxChecker.BalanceErrors | AWaveViewer.py:1556-1586 | every message of check 7 or 8 is an ERROR |
| SyntaxChecker.CheckSyntax | AWaveViewer.py:1511-1629 | returns the error messages then the warning messages of the comment-free text, and is valid exactly when there is no error |
| SyntaxChecker.ScanBalance | AWaveViewer.py:1556-1586 | the parenthesis (or bracket) scan over the lines yields the messages `BalanceErrors` specifies |
| SyntaxChecker.ScanLine | AWaveViewer.py:1561-1568 | the character loop over one line stops at the first closer that takes the balance below zero, and keeps that balance |
| SyntaxChecker.SemicolonScan | AWaveViewer.py:1615-1623 | the missing-semicolon loop yields one warning per flagged line, in line order |
| SyntaxChecker.SemicolonStep | AWaveViewer.py:1616-1623 | one iteration of that loop extends the warnings of the first `i` lines to those of the first `i + 1` |
| SyntaxChecker.ScanLinesAreErrors | AWaveViewer.py:1559-1570 | every message of a balance scan over lines is an ERROR |
| SyntaxChecker.SemicolonWarningsAreNotErrors | AWaveViewer.py:1613-1623 | no missing-semicolon warning reads as an ERROR |
| SyntaxChecker.ValidIffNoErrorMessage | AWaveViewer.py:1625-1629 | the code is valid exactly when no returned message is an ERROR, so warnings and notes never change validity |
| SyntaxChecker.ErrorsComeFirst | AWaveViewer.py:1626 | in the returned list the ERROR messages are exactly the leading entries, so all errors precede all warnings |
| SyntaxChecker.ModuleMismatchReported | AWaveViewer.py:1526-1530 | unequal module and endmodule counts produce an error message that contains both counts |
| SyntaxChecker.LineScanNoDip | AWaveViewer.py:1561-1568 | a line whose running balance never dips below zero is scanned to its end and adds its net count |
| SyntaxChecker.LineScanFirstDip | AWaveViewer.py:1564-1568 | at the first closer that drives the balance below zero the rest of the line is skipped and the negative balance is kept, not reset |
| SyntaxChecker.LineScanClean | AWaveViewer.py:1561-1568 | from a non-negative balance, a line is cut short exactly when some prefix of it dips below zero |
| SyntaxChecker.ScanLinesClean | AWaveViewer.py:1557-1570 | a multi-line scan reports no unmatched closer exactly when no prefix of the joined text dips below zero, and then ends at the text's net count |
| SyntaxChecker.BalanceErrorsEmptyIff | AWaveViewer.py:1556-1586 | check 7 (or 8) reports nothing exactly when no prefix closes more than it opened and the whole text closes everything it opened |
| SyntaxChecker.ScanLinesReports | AWaveViewer.py:1559-1568 | a scan over lines reports an unmatched closer at line `num + k` exactly when line `k`, entered with the balance the earlier lines leave, is cut short |
| SyntaxChecker.UnmatchedReportedIff | AWaveViewer.py:1556-1570 | check 7 (or 8) reports an unmatched closer at line `k + 1` exactly when that line, entered at the balance the lines before it leave, dips below zero and is cut short |
| SyntaxChecker.UnclosedOnly | AWaveViewer.py:1556-1570 | when no prefix closes more than it opened and the text opens more than it closes, the only message is the unclosed count, with the net balance |
| SyntaxChecker.ValidIff | AWaveViewer.py:1516-1629 | the code is valid exactly when it declares a module, the module/endmodule, case/endcase, function/endfunction and task/endtask counts agree, and parentheses and brackets balance |
| SyntaxChecker.VerilogVersion | AWaveViewer.py:1641-1653 | SystemVerilog exactly when a SystemVerilog keyword occurs; Verilog-95 exactly when neither a SystemVerilog nor a Verilog-2001 keyword nor `@(*)` occurs |
| SyntaxChecker.VersionMonotone | AWaveViewer.py:1641-1653 | appending text after a separating space never lowers the detected version: SystemVerilog outranks Verilog-2001, which outranks Verilog-95 |
| ModuleParser.ValueEnd | AWaveViewer.py:1678 | a parameter value runs up to the first `;` or `,` or the end of the text, and holds neither character |
| ModuleParser.ModuleNameFrom | AWaveViewer.py:1673-1675 | the name is empty exactly when no `module <word>` match exists, and otherwise is the word of the first match |
| ModuleParser.ParamsFrom | AWaveViewer.py:1678-1683 | every parameter comes from a match of the parameter pattern in the text, and there are no more parameters than characters |
| ModuleParser.DeclsFrom | AWaveViewer.py:1696-1697 | the matches `re.finditer` yields in order: each at or after the end of the previous one |
| ModuleParser.ModuleInfoOf | AWaveViewer.py:1660-1758 | in the record, names are distinct within each list; wires are never inputs or outputs, and regs are never outputs |
| ModuleParser.ParseModule | AWaveViewer.py:1660-1758 | builds the record whose name and parameters come from the raw text and whose ports and signals come from the comment-free text; the record is well formed |
| ModuleParser.CollectPorts | AWaveViewer.py:1696-1717 | a port loop appends each match whose name is not yet in the list, in match order |
| ModuleParser.CollectSignals | AWaveViewer.py:1719-1756 | the wire or reg loop appends each match whose name is neither blocked by the listed ports nor already a signal |
| ModuleParser.Collect | AWaveViewer.py:1696-1756 | the entries kept so far stay as they were, and every kept entry is one of them or one of the matches |
| ModuleParser.CollectDistinct | AWaveViewer.py:1700-1701 | kept names are pairwise distinct and never blocked |
| ModuleParser.CollectComplete | AWaveViewer.py:1696-1756 | every match's name ends up blocked or kept: only duplicates are lost |
| ModuleParser.CollectFirstWins | AWaveViewer.py:1700-1701 | the first match of each name that is not blocked is the one kept |
| ModuleParser.PortsOfShape | AWaveViewer.py:1703-1717 | a port with no range has width 1 and msb = lsb = 0; a port with range `[msb:lsb]` keeps those bounds and has width `msb - lsb + 1`, with no clamping |
| ModuleParser.PortsFromMatches | AWaveViewer.py:1696-1717 | each port is the entry of some match, every match's name is among the ports, and the first match of each name is kept as is |
| ModuleParser.SignalsFromMatches | AWaveViewer.py:1719-1756 | each wire or reg is the entry of some match, and every match's name is blocked or among the signals |
| ModuleParser.DeclRoundTrip | AWaveViewer.py:1690-1739 | a declaration `kw [msb:lsb] name;` is read back by the input, output, inout, wire and reg patterns as that name and range, with or without the range (outputs: see the next row) |
| ModuleParser.OutputRegNotCaptured | AWaveViewer.py:1692 | `output reg name;` is matched by no alternative of the output pattern, so it yields no output port |
| ModuleParser.OutputRegGlued | AWaveViewer.py:1692 | `output regq;` is read as the output `q` |
| Testbench.GenerateTestbench | AWaveViewer.py:1765-1910 | the accumulated text is the template `TestbenchText` that the lemmas below describe |
| Testbench.TestbenchText | AWaveViewer.py:1765-1910 | the testbench opens with the declarations and ends by dumping the variables of `<name>_tb` and closing that module |
| Testbench.AppendDeclarations | AWaveViewer.py:1767-1811 | the header, the parameter lines and the `reg`/`wire` declarations, in the source's order |
| Testbench.AppendInstance | AWaveViewer.py:1813-1828 | the instantiation of the module under test, with its override block and port list |
| Testbench.AppendStimulus | AWaveViewer.py:1830-1891 | the clock and reset blocks, and the stimulus over the inputs that are neither clock nor reset |
| Testbench.AppendClockReset | AWaveViewer.py:1831-1851 | the clock and reset blocks, and the names the stimulus then leaves alone (all clock and reset inputs) |
| Testbench.AppendMonitoring | AWaveViewer.py:1893-1908 | the `$monitor` arguments for inputs then outputs, and the dump block |
| Testbench.AppendEach | AWaveViewer.py:1789-1811 | a loop of appends adds the pieces of all elements, in order |
| Testbench.AppendUnskipped | AWaveViewer.py:1861-1878 | a loop of conditional appends adds the pieces of exactly the inputs not named in the skip list, in order |
| Testbench.ClockIsFirstClockInput | AWaveViewer.py:1831-1839 | the clock block toggles the first input whose lower-cased name contains `clk` or `clock`; with no such input there is no block |
| Testbench.ResetIsFirstResetInput | AWaveViewer.py:1842-1852 | the reset block pulses the first input whose lower-cased name contains `rst` or `reset`; with no such input there is no block |
| Testbench.SkippedIff | AWaveViewer.py:1862 | an input's name is skipped exactly when the input is a clock or a reset by name |
| Testbench.StimulatedInputs | AWaveViewer.py:1861-1878 | exactly the inputs that are neither clocks nor resets are zero-initialised and driven, in declaration order |
| Testbench.ConnectionListReadsBack | AWaveViewer.py:1819-1827 | a `.n(n)` connection list, split at its commas with each piece stripped, reads back as exactly its names, in order |
| Testbench.TitleFirst | AWaveViewer.py:1770 | the testbench opens with the title comment naming the module |
| Testbench.BenchModuleDeclared | AWaveViewer.py:1768-1783 | the testbench declares the module `<name>_tb` |
| Testbench.InputsDeclared | AWaveViewer.py:1793-1797 | every input is declared as a `reg`, with its range exactly when its width exceeds one |
| Testbench.OutputsDeclared | AWaveViewer.py:1800-1804 | every output is declared as a `wire`, with its range exactly when its width exceeds one |
| Testbench.InoutsDeclared | AWaveViewer.py:1807-1811 | every inout is declared as a `wire`, with its range exactly when its width exceeds one |
| Testbench.InstancePortList | AWaveViewer.py:1825-1827 | the instantiation's port list connects the inputs, then the outputs, then the inouts, one `.p(p)` each |
| Testbench.InstanceInTestbench | AWaveViewer.py:1823-1828 | the testbench instantiates the module as `uut` with every port connected by name |
| Testbench.OverridesAbsent | AWaveViewer.py:1815-1823 | without parameters, `uut (` follows the module name directly |
| Testbench.OverridesPresent | AWaveViewer.py:1815-1823 | with parameters, the `#(` override block and then `uut (` follow the module name |
| Testbench.OverrideBlock | AWaveViewer.py:1817-1821 | the `#(` block follows the module name exactly when the module has parameters |
| Testbench.MonitorCall | AWaveViewer.py:1891-1898 | the `$monitor` call shows every input and then every output, in order; inouts are not shown |
| Testbench.MonitorInTestbench | AWaveViewer.py:1891-1898 | the testbench holds that `$monitor` call |
| Testbench.StimulusOfDriven | AWaveViewer.py:1855-1880 | the stimulus zero-initialises and then randomises exactly the inputs that are neither clocks nor resets, inside a loop of `test_vectors` iterations |
| Testbench.StimulusInTestbench | AWaveViewer.py:1855-1880 | the testbench holds that stimulus |
| Testbench.ResetBeforeStimulus | AWaveViewer.py:1841-1855 | the clock block comes before the reset block and the stimulus |
| Testbench.ClockGenerated | AWaveViewer.py:1832-1839 | the first clock input gets the block that toggles it every 5 time units |
| Testbench.ResetGenerated | AWaveViewer.py:1843-1852 | the first reset input gets the 1/0/1 pulse block |
| Testbench.ClockInTestbench | AWaveViewer.py:1831-1839 | the testbench holds the clock block of the first clock input |
| Testbench.ResetInTestbench | AWaveViewer.py:1842-1852 | the testbench holds the reset block of the first reset input |
| Testbench.AscendingRangeIsScalar | AWaveViewer.py:1794-1878 | a port with `msb < lsb` (width at most 0) is declared without a range and driven with a single random bit |
| Vcd.VcdParser.constructor | AWaveViewer.py:1916-1920 | a new parser has timescale 1, no signals, no changes and no scopes |
| Vcd.VcdParser.Record | AWaveViewer.py:1994-2011 | a value change for a known identifier is appended to that signal's values and to the changes; an unknown one changes nothing |
| Vcd.VcdParser.ProcessLine | AWaveViewer.py:1933-2011 | one pass of the loop body updates the fields as `StepLine` says, or reports the `int()` failure and changes nothing |
| Vcd.VcdParser.Parse | AWaveViewer.py:1922-2013 | the fields and the result are those of `ParseOutcome`: the state after all lines, or `ValueError` at the first bad integer; a missing file gives empty results; consistency is kept |
| Vcd.ParseOutcome | AWaveViewer.py:1922-2013 | a missing file changes nothing and gives an empty result; a parsed file returns the final signals and changes; consistency is kept and no change is lost |
| Vcd.RunLines | AWaveViewer.py:1933-2013 | a raise happens at one of the lines; every prefix keeps consistency; `changes` only grows, in file order, by at most one entry per line |
| Vcd.StepLine | AWaveViewer.py:1933-2011 | a line leaves the signals and changes alone, registers one signal afresh, or records one value change; it never re-enters the header |
| Vcd.RunNext | AWaveViewer.py:1933 | a line that steps normally extends the run of the lines before it |
| Vcd.RunRaise | AWaveViewer.py:1962-1984 | a line whose `int()` fails stops the run at that line |
| Vcd.RaisedStays | AWaveViewer.py:1962-1984 | after `int()` has raised, the later lines are not read |
| Vcd.RecordedKeepsConsistent | AWaveViewer.py:1994-2011 | recording a change keeps every signal's values equal to the latest samples of its identifier |
| Vcd.RedeclaredKeepsConsistent | AWaveViewer.py:1968-1974 | a `$var` that replaces any earlier record for its identifier, with no values, keeps consistency |
| Vcd.StepKeepsConsistent | AWaveViewer.py:1933-2011 | every line keeps consistency |
| Vcd.NotDirective | AWaveViewer.py:1939-1978 | a line not beginning with `$` is none of the directives |
| Vcd.HeaderIgnoresValues | AWaveViewer.py:1981 | before `$enddefinitions`, time markers and value changes are ignored |
| Vcd.ScalarChange | AWaveViewer.py:1986-2000 | after `$enddefinitions`, a scalar change `<v><id>` is recorded at the current time for a known id and dropped otherwise |
| Vcd.VectorChange | AWaveViewer.py:2002-2011 | after `$enddefinitions`, `b<bits> <id>` records the bits without the `b` at the current time for a known id |
| Vcd.TimeMarker | AWaveViewer.py:1982-1984 | after `$enddefinitions`, `#<t>` sets the current time, and raises when `t` is not an integer |
| Vcd.RecordedAppendsTogether | AWaveViewer.py:1994-1996 | a known id's change appends one sample to its values and one change to the list in the same step, and leaves every other signal alone; an unknown id changes nothing |
| Vcd.VarDeclaration | AWaveViewer.py:1957-1974 | `$var type width id name` registers a record with no values under `id`, replacing any earlier one; a width that is not an integer raises |
| Vcd.FullNameSplits | AWaveViewer.py:1966 | a signal's full name is the scope path and its name joined by dots, and splits back into them when none contains a dot |
| Vcd.ScopeLine | AWaveViewer.py:1948-1951 | `$scope kind name` pushes `name`; a shorter line does nothing |
| Vcd.UpscopeLine | AWaveViewer.py:1953-1955 | `$upscope` pops the innermost scope, and does nothing on an empty stack |
| Vcd.HeaderStep | AWaveViewer.py:1939-1981 | a header line other than `$enddefinitions` keeps the changes and leaves the time and the header flag alone |
| Vcd.HeaderKeepsChanges | AWaveViewer.py:1930-1981 | until `$enddefinitions`, no value change is recorded and the time stays 0 |
| Vcd.StepExtendsChanges | AWaveViewer.py:1996-2011 | a line never removes or rewrites a change, and appends at most one |
| Vcd.ScaleSearch | AWaveViewer.py:1941 | a timescale match is a non-empty run of digits and a non-empty word |
| Vcd.ScaleSearchRuns | AWaveViewer.py:1941 | digits, blanks and a word that begins with a non-digit form the timescale match |
| Vcd.TimescaleReadsBack | AWaveViewer.py:1939-1946 | `$timescale <digits> <unit>` sets the timescale to that number times the unit's power of ten; an unknown unit counts as nanoseconds |
| Vcd.NanosecondTimescale | AWaveViewer.py:1945-1946 | `$timescale 1ns $end` gives one nanosecond |
| TraceQuery.ValueAt | AWaveViewer.py:5675-5676 | a signal with no samples reads as `X` |
| TraceQuery.RunLength | AWaveViewer.py:5680-5684 | the leading run of samples at or before the time ends where the first later sample begins |
| TraceQuery.Scan | AWaveViewer.py:5679-5684 | the walk returns its starting value or the value of a sample at or before the time |
| TraceQuery.ScanOfRun | AWaveViewer.py:5679-5684 | the walk returns the last sample of the leading run, or its starting value when the run is empty |
| TraceQuery.ValueAtIsEndOfRun | AWaveViewer.py:5673-5686 | the lookup gives the value of the last sample with time at or before the query in the leading run, or the first sample's value when there is none |
| TraceQuery.ValueBeforeFirstChange | AWaveViewer.py:5679 | a time before every change gives the first recorded value, not `X` |
| TraceQuery.ValueOfOrderedTrace | AWaveViewer.py:5673-5686 | in a time-ordered trace the lookup gives the latest change at or before the query time |
| TraceQuery.ValueIsRecorded | AWaveViewer.py:5673-5686 | the lookup never invents a value: `X` for an empty trace, otherwise some recorded value |
| GateLogic.DetectTwoInputs | AWaveViewer.py:5702-5731 | a two-input table gets a gate's label exactly when it holds all four rows of that gate |
| GateLogic.CustomWhenNoGate | AWaveViewer.py:5702-5734 | "Custom Logic" is reported exactly when no gate's four rows are all present |
| GateLogic.MissingRowIsCustom | AWaveViewer.py:5704-5734 | a missing row reads as `X`, which gives "Custom Logic" |
| GateLogic.DetectOneInput | AWaveViewer.py:5690-5700 | one input gives "NOT Gate" exactly when both rows hold the negation, and "BUFFER" exactly when both hold the identity |
| GateLogic.DetectThreeInputAnd | AWaveViewer.py:5736-5743 | three inputs give "3-input AND" exactly when (1,1,1) is the one key whose output is 1 |
| GateLogic.DetectGateType | AWaveViewer.py:5688-5754 | one input gives NOT, BUFFER or Unknown; two give one of the six gate labels or Custom Logic; three give one of the four three-input classes; any other count gives an "N-input Logic" label that selects the custom rules |
| GateLogic.RuleFor | AWaveViewer.py:5760-5930 | the custom rules exactly when the label has none of AND, OR and NOT; the AND rules exactly when it has AND but not NAND; the NOT rules only when it has NOT |
| GateLogic.VerifyGateLogic | AWaveViewer.py:5756-5932 | the report opens with the heading and the selected rules; a custom label adds nothing more; under the NOT rules, or a gate's rules at two inputs, it ends in the all-correct verdict exactly when the table agrees with every row of the set |
| GateLogic.VerdictAllCorrect | AWaveViewer.py:5770-5786 | the verdict is the all-correct line exactly when the table agrees with every expected row; an error line never reads as it |
| GateLogic.ErrorsFrom | AWaveViewer.py:5778-5781 | there is at most one error line per expected row |
| GateLogic.ErrorsFromEmptyIff | AWaveViewer.py:5778-5781 | no error line from a row on exactly when the table agrees with every later row, a missing row reading as `X` |
| GateLogic.ErrorsEmptyIff | AWaveViewer.py:5770-5786 | the error list is empty exactly when the table agrees with every expected row |
| GateLogic.RowsOfGate | AWaveViewer.py:5772-5916 | a table agrees with the four expected rows of a gate exactly when it holds that gate's rows |
| GateLogic.Repeat | AWaveViewer.py:5789 | the all-ones (all-zeros) key has one entry per input, each the given bit |
| GateLogic.AndLabelRules | AWaveViewer.py:5760 | "AND Gate" and "3-input AND" select the AND rules |
| GateLogic.OrLabelRules | AWaveViewer.py:5795 | "OR Gate" and "3-input OR" select the OR rules |
| GateLogic.XorLabelRules | AWaveViewer.py:5829 | "XOR Gate" and "3-input XOR/Complex" select the XOR rules |
| GateLogic.NandLabelRule | AWaveViewer.py:5874 | "NAND Gate" selects the NAND rules |
| GateLogic.NorLabelRule | AWaveViewer.py:5901 | "NOR Gate" selects the NOR rules |
| GateLogic.XnorLabelRule | AWaveViewer.py:5901 | "XNOR Gate" has no rules of its own and reaches the NOR rules |
| GateLogic.LabelDispatch | AWaveViewer.py:5760-5929 | each gate label selects the rule set `LabelRule` names |
| GateLogic.NotLabelRule | AWaveViewer.py:5856 | "NOT Gate" selects the NOT rules |
| GateLogic.NoGateWord | AWaveViewer.py:5928-5930 | a label with none of the letters A, O and X, such as "BUFFER", "Unknown", "Custom Logic" or "3-input Logic", selects the custom-logic text |
| GateLogic.CountLabelRule | AWaveViewer.py:5928-5930 | every "N-input Logic" label selects the custom-logic text |
| GateLogic.CleanGateCheck | AWaveViewer.py:5771-5926 | the two-input row check of a gate other than XNOR passes on a table holding that gate's rows |
| GateLogic.DetectedGateVerifies | AWaveViewer.py:5756-5926 | an AND, OR, XOR, NAND or NOR gate so detected gets its rules and then "ALL COMBINATIONS VERIFIED CORRECT", with no error line |
| GateLogic.XnorUnderNorCheck | AWaveViewer.py:5910-5926 | the NOR row check on an XNOR table fails in row (1, 1) only |
| GateLogic.XnorReportsNorMismatch | AWaveViewer.py:5901-5926 | a detected XNOR gate is reported under the NOR rules, with exactly one error line, `1 NOR 1 should be 0, got 1` |
| GateLogic.DetectedNotVerifies | AWaveViewer.py:5856-5872 | a detected NOT gate passes the NOT check whatever input count is passed |
| GateLogic.AllOnesOfThree | AWaveViewer.py:5789-5791 | on a three-input table whose (1,1,1) row gives 1 the all-ones check passes |
| GateLogic.AllZerosOfThree | AWaveViewer.py:5823-5825 | on a three-input table whose (0,0,0) row gives 0 the all-zeros check passes |
| GateLogic.DetectedThreeInputAndVerifies | AWaveViewer.py:5787-5791 | a detected three-input AND passes the all-ones check |
| GateLogic.DetectedThreeInputOrVerifies | AWaveViewer.py:5822-5825 | a detected three-input OR passes the all-zeros check |
| LogicAnalysis.AllTimesMembers | AWaveViewer.py:5565-5568 | a time is collected exactly when some selected signal has a sample at it |
| LogicAnalysis.CollectTimes | AWaveViewer.py:5565-5568 | the nested loop collects exactly the union of all signals' change times |
| LogicAnalysis.SortTimes | AWaveViewer.py:5570 | the sorted time points are strictly increasing and are exactly the collected times |
| LogicAnalysis.ValidSamples | AWaveViewer.py:5573-5588 | at most one sample per time point, each over 0/1 only and each the lookup of every signal at one of the time points |
| LogicAnalysis.SampleTrace | AWaveViewer.py:5573-5588 | at each time point every signal is looked up; the sample is kept only when the inputs and the output are all 0/1 |
| LogicAnalysis.GroupOutputs | AWaveViewer.py:5597-5604 | each input tuple is mapped to its outputs, in sample order |
| LogicAnalysis.GroupCounts | AWaveViewer.py:5597-5604 | in the grouping, an output's count for a tuple is the number of samples of that tuple and output |
| LogicAnalysis.GroupKeys | AWaveViewer.py:5602-5604 | a tuple is grouped exactly when some sample has it, and its output list is not empty |
| LogicAnalysis.CountPositive | AWaveViewer.py:5610 | an output's count is positive exactly when it occurs |
| LogicAnalysis.MostCommonOutput | AWaveViewer.py:5610 | the chosen output occurs and none occurs more often |
| LogicAnalysis.Consolidate | AWaveViewer.py:5607-5611 | the table has the grouped tuples as keys, each mapped to an output of maximal count |
| LogicAnalysis.PairsCountInstants | AWaveViewer.py:5574-5604 | counting samples of a tuple and output counts the distinct time points that show them |
| LogicAnalysis.InstantsShowKeys | AWaveViewer.py:5574-5604 | a tuple is among the kept samples exactly when some time point shows it with 0/1 values throughout |
| LogicAnalysis.NoSamplesIff | AWaveViewer.py:5586-5590 | no sample is kept exactly when no time point shows 0/1 values throughout |
| LogicAnalysis.ObservedKeysAreBinary | AWaveViewer.py:5586-5599 | every table key has one entry per input, each 0 or 1 |
| LogicAnalysis.AnalyzeCombinational | AWaveViewer.py:5539-5662 | no result exactly when no change time shows 0/1 values throughout; otherwise the table holds exactly the observed input tuples, each mapped to an output of maximal observed count, and the label and report are those of `detect_gate_type` and `verify_gate_logic` on it |

## Left out

- The Qt user interface is not modelled: windows, dialogs, the code editor, syntax highlighting, themes and waveform painting.
- The analysis report's banner, signal list and box-drawn truth table (lines 5545-5562 and 5613-5648) are not modelled. Neither are the tree-widget rows and the final message box. `AnalyzeCombinational` returns the table, the label and the verification text, which is the part the report's meaning rests on.
- The simulation thread is not modelled; it runs iverilog/vvp as external processes.
- File access is not modelled. `VcdParser.Parse` takes the file's lines, with `None` for a missing file. The newline that `readlines` keeps on each line is removed by the same `strip` that the model applies.
- The debug prints of the VCD parser (lines 1976, 1992, 1997 and 2000) are not modelled; they are output only.
- The timescale is a float product in the source. Here it is `mantissa * 10^exponent`, and an unknown unit counts as 10^-9.
- `parse` returns the parser's own `signals` dictionary, so a caller that edits the result edits the parser. Model values cannot alias, so this is not captured.
- `\w` and `\d` are ASCII only here, and `lower()` changes only ASCII letters. Python's `str` patterns also accept other Unicode letters and digits. `\s`, `strip` and `split()` use Python's full whitespace set.
- `VerilogLex.StripBlockComments` and `VerilogLex.RemoveComments` state only that the text does not grow. What line-comment removal leaves is stated by `StripLineComments`, and text without comment openers is covered by the `...NoMarker` lemmas. No "no comment remains" property is stated, because it does not hold for block comments: `re.sub` does not rescan, so `//*x*/*b*/` keeps `/*b*/` after the first comment is removed.
- `SyntaxChecker.VersionMonotone`: states monotonicity only for text appended after a space. Text glued on without a separator can break a keyword's word boundary (`logic` becomes `logicx`), so the detected version can drop.
- `SyntaxChecker.CheckSyntax`: check 10 (line 1594) has no effect in the source, so it has nothing to model.
- `ModuleParser.ParseModule`: the example `module m(input a, input [3:0] b, output c); endmodule` is not proved as a whole. `DeclRoundTrip` covers each declaration on its own, and `CollectFirstWins` covers the duplicate rule.
- `Testbench.GenerateTestbench`: balanced `begin`/`end` in the generated text is not proved.
- `LogicAnalysis.AnalyzeCombinational` requires at least one signal. On an empty selection the source fails at `signals[-1]`, and its caller only passes two to four single-bit signals. That caller's restriction (lines 5513-5526) is not imposed; the model accepts any number of signals.
- `LogicAnalysis.MostCommonOutput`: ties are broken by the iteration order of a Python `set`, which is unspecified. The model picks a tied output nondeterministically, and its contract allows any output of maximal count.
- `WaveformWidget.get_value_at_time` (lines 2716-2729) is not modelled separately. It is the same scan as `get_signal_value_at_time`, which `TraceQuery.ValueAt` models.
- `_extract_signal_width` and `extract_module_info_from_testbench` (lines 4551-4696) are not modelled. They rely on `eval` and on regular expressions over whole generated files.
- `generate_sample_vcd` (lines 2837-2921) is not modelled. It draws random values and writes a file.
- The frequency and period statistics of the waveform view are not modelled; they are floating point.
