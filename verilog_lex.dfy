/** The regular expressions that the syntax checker and the module parser
    run over Verilog text, written as scanners over `seq<char>`. Each
    scanner follows the search order and backtracking of Python's `re`
    for its pattern; `\w` and `\d` are ASCII (see module Text). */
module VerilogLex {
  import opened Text

  // ------------------------------------------------------------ comments

  /** Index of the first `'\n'` at or after `i`, or `|s|` (where `.*?$`
      stops in MULTILINE mode). */
  function LineEnd(s: string, i: nat): (e: nat)
    requires i <= |s|
    ensures i <= e <= |s| && (e < |s| ==> s[e] == '\n')
    ensures forall j :: i <= j < e ==> s[j] != '\n'
    decreases |s| - i
  {
    if i == |s| || s[i] == '\n' then i else LineEnd(s, i + 1)
  }

  /** Line-comment removal, a lazy match from `//` to the end of its line in
      multi-line mode: every `//` and the rest of its line, newline excluded,
      is dropped. */
  function StripLineComments(s: string): (r: string)
    ensures !Contains(r, "//")
    ensures |r| <= |s|
    ensures r != [] ==> (s != [] && r[0] == s[0]) || r[0] == '\n'
    decreases |s|
  {
    if s == [] then []
    else if HasAt(s, 0, "//") then StripLineComments(s[LineEnd(s, 0)..])
    else
      var rest := StripLineComments(s[1..]);
      var t := [s[0]] + rest;
      assert !Contains(t, "//") by {
        forall i | 0 <= i <= |t| ensures !HasAt(t, i, "//") {
          if i > 0 {
            assert HasAt(t, i, "//") == HasAt(rest, i - 1, "//");
          } else if rest != [] && rest[0] != '\n' {
            assert rest[0] == s[1];
            assert t[..2] == s[..2];
          }
        }
      }
      t
  }

  /** Line-comment removal keeps every newline, so line numbers survive it. */
  lemma {:induction false} StripLineCommentsKeepsLines(s: string)
    ensures CountChar(StripLineComments(s), '\n') == CountChar(s, '\n')
    decreases |s|
  {
    if s == [] {
    } else if HasAt(s, 0, "//") {
      var e := LineEnd(s, 0);
      StripLineCommentsKeepsLines(s[e..]);
      CountCharNone(s[..e], '\n');
      CountCharAppend(s[..e], s[e..], '\n');
      assert s[..e] + s[e..] == s;
    } else {
      StripLineCommentsKeepsLines(s[1..]);
      CountCharAppend([s[0]], s[1..], '\n');
      CountCharAppend([s[0]], StripLineComments(s[1..]), '\n');
      assert [s[0]] + s[1..] == s;
    }
  }

  function CountChar(s: string, c: char): nat {
    if s == [] then 0 else (if s[0] == c then 1 else 0) + CountChar(s[1..], c)
  }

  lemma {:induction false} CountCharAppend(a: string, b: string, c: char)
    ensures CountChar(a + b, c) == CountChar(a, c) + CountChar(b, c)
    decreases |a|
  {
    if a != [] {
      assert (a + b)[0] == a[0];
      assert (a + b)[1..] == a[1..] + b;
      CountCharAppend(a[1..], b, c);
    } else {
      assert a + b == b;
    }
  }

  lemma {:induction false} CountCharNone(a: string, c: char)
    requires forall j :: 0 <= j < |a| ==> a[j] != c
    ensures CountChar(a, c) == 0
    decreases |a|
  {
    if a != [] {
      CountCharNone(a[1..], c);
    }
  }

  /** The first index `k >= i` at which `p` occurs in `s`. */
  function FindFrom(s: string, p: string, i: nat): (r: Option<nat>)
    requires i <= |s|
    ensures r.Some? ==> i <= r.value && HasAt(s, r.value, p)
    ensures r.Some? ==> forall k :: i <= k < r.value ==> !HasAt(s, k, p)
    ensures r.None? ==> forall k :: i <= k <= |s| ==> !HasAt(s, k, p)
    decreases |s| - i
  {
    if HasAt(s, i, p) then Some(i)
    else if i == |s| then None
    else FindFrom(s, p, i + 1)
  }

  // Block-comment removal, `re.sub` of the lazy DOTALL pattern from a
  // slash-star opener to the first star-slash that follows it: each opener
  // up to that closer is dropped; an unclosed opener and everything after it
  // stay, because no later opener can be closed either.
  function StripBlockComments(s: string): (r: string)
    ensures |r| <= |s|
    decreases |s|
  {
    if s == [] then []
    else if HasAt(s, 0, "/*") then
      match FindFrom(s, "*/", 2)
      case Some(k) => StripBlockComments(s[k + 2..])
      case None => s
    else [s[0]] + StripBlockComments(s[1..])
  }

  /** `VerilogSyntaxChecker._remove_comments`: line comments first, then block comments. */
  function RemoveComments(s: string): (r: string)
    ensures |r| <= |s|
  {
    StripBlockComments(StripLineComments(s))
  }

  lemma {:induction false} StripLineCommentsNoMarker(s: string)
    requires !Contains(s, "//")
    ensures StripLineComments(s) == s
    decreases |s|
  {
    if s != [] {
      assert !HasAt(s, 0, "//");
      assert !Contains(s[1..], "//") by {
        forall i | 0 <= i <= |s[1..]| ensures !HasAt(s[1..], i, "//") {
          assert HasAt(s[1..], i, "//") == HasAt(s, i + 1, "//");
        }
      }
      StripLineCommentsNoMarker(s[1..]);
    }
  }

  lemma {:induction false} StripBlockCommentsNoMarker(s: string)
    requires !Contains(s, "/*")
    ensures StripBlockComments(s) == s
    decreases |s|
  {
    if s != [] {
      assert !HasAt(s, 0, "/*");
      assert !Contains(s[1..], "/*") by {
        forall i | 0 <= i <= |s[1..]| ensures !HasAt(s[1..], i, "/*") {
          assert HasAt(s[1..], i, "/*") == HasAt(s, i + 1, "/*");
        }
      }
      StripBlockCommentsNoMarker(s[1..]);
    }
  }

  /** Text with no comment opener is left unchanged. */
  lemma RemoveCommentsNoMarker(s: string)
    requires !Contains(s, "//") && !Contains(s, "/*")
    ensures RemoveComments(s) == s
  {
    StripLineCommentsNoMarker(s);
    StripBlockCommentsNoMarker(s);
  }

  // ----------------------------------------------------------- keywords

  /** `\bkw\b` matches at `i` (for a keyword `kw` made of word characters). */
  predicate WordAt(s: string, i: nat, kw: string) {
    && HasAt(s, i, kw)
    && (i == 0 || !IsWordChar(s[i - 1]))
    && (i + |kw| == |s| || !IsWordChar(s[i + |kw|]))
  }

  /** `\bkw\s+` matches at `i`. */
  predicate WordSpaceAt(s: string, i: nat, kw: string) {
    && HasAt(s, i, kw)
    && (i == 0 || !IsWordChar(s[i - 1]))
    && i + |kw| < |s| && IsSpace(s[i + |kw|])
  }

  /** The two keyword shapes the checker counts with `re.findall`. */
  datatype Keyword = Bounded(kw: string) | ThenSpace(kw: string)

  predicate KeywordAt(s: string, i: nat, k: Keyword) {
    match k
    case Bounded(kw) => WordAt(s, i, kw)
    case ThenSpace(kw) => WordSpaceAt(s, i, kw)
  }

  /** Number of positions at or after `i` where `k` matches. Matches of a
      word-bounded keyword cannot overlap, so this is `len(re.findall(...))`. */
  function CountFrom(s: string, k: Keyword, i: nat): nat
    decreases |s| - i
  {
    if i >= |s| then 0 else (if KeywordAt(s, i, k) then 1 else 0) + CountFrom(s, k, i + 1)
  }

  function Count(s: string, k: Keyword): nat { CountFrom(s, k, 0) }

  /** Counting is exact: zero precisely when the keyword occurs nowhere. */
  lemma {:induction false} CountFromZeroIff(s: string, k: Keyword, i: nat)
    ensures CountFrom(s, k, i) == 0 <==> forall j :: i <= j < |s| ==> !KeywordAt(s, j, k)
    decreases |s| - i
  {
    if i < |s| {
      CountFromZeroIff(s, k, i + 1);
    }
  }

  /** `\b(kw1|kw2|...)\b` finds a match somewhere in `s`. */
  predicate AnyWord(s: string, kws: seq<string>) {
    exists i, k :: 0 <= i < |s| && 0 <= k < |kws| && WordAt(s, i, kws[k])
  }

  /** `\bmodule\s+\w+` finds a match somewhere in `s`. */
  predicate HasModuleDecl(s: string) {
    exists i :: 0 <= i < |s| && ModuleDeclAt(s, i)
  }

  predicate ModuleDeclAt(s: string, i: nat) {
    WordSpaceAt(s, i, "module") &&
    var j := SkipSpace(s, i + 6);
    j < |s| && IsWordChar(s[j])
  }

  // ----------------------------------------------------- word runs

  /** End of the maximal run of word characters starting at `i`. */
  function WordRunEnd(s: string, i: nat): (e: nat)
    requires i <= |s|
    ensures i <= e <= |s|
    ensures e < |s| ==> !IsWordChar(s[e])
    decreases |s| - i
  {
    if i == |s| || !IsWordChar(s[i]) then i else WordRunEnd(s, i + 1)
  }

  /** End of the maximal run of ASCII digits starting at `i`. */
  function DigitRunEnd(s: string, i: nat): (e: nat)
    requires i <= |s|
    ensures i <= e <= |s|
    ensures e < |s| ==> !IsDigit(s[e])
    decreases |s| - i
  {
    if i == |s| || !IsDigit(s[i]) then i else DigitRunEnd(s, i + 1)
  }

  /** The characters a word run spans are word characters. */
  lemma {:induction false} WordRunChars(s: string, i: nat)
    requires i <= |s|
    ensures forall k :: i <= k < WordRunEnd(s, i) ==> IsWordChar(s[k])
    decreases |s| - i
  {
    if i < |s| && IsWordChar(s[i]) {
      WordRunChars(s, i + 1);
    }
  }

  /** The characters a digit run spans are digits. */
  lemma {:induction false} DigitRunChars(s: string, i: nat)
    requires i <= |s|
    ensures forall k :: i <= k < DigitRunEnd(s, i) ==> IsDigit(s[k])
    decreases |s| - i
  {
    if i < |s| && IsDigit(s[i]) {
      DigitRunChars(s, i + 1);
    }
  }

  lemma {:induction false} WordRunEndOf(s: string, i: nat, n: nat)
    requires i + n <= |s|
    requires forall k :: i <= k < i + n ==> IsWordChar(s[k])
    requires i + n == |s| || !IsWordChar(s[i + n])
    ensures WordRunEnd(s, i) == i + n
    decreases n
  {
    if n > 0 {
      WordRunEndOf(s, i + 1, n - 1);
    }
  }

  lemma {:induction false} DigitRunEndOf(s: string, i: nat, n: nat)
    requires i + n <= |s|
    requires forall k :: i <= k < i + n ==> IsDigit(s[k])
    requires i + n == |s| || !IsDigit(s[i + n])
    ensures DigitRunEnd(s, i) == i + n
    decreases n
  {
    if n > 0 {
      DigitRunEndOf(s, i + 1, n - 1);
    }
  }

  // --------------------------------------------- heuristics of the checker

  /** `(input|output|inout)\s+[^\w\s\[\]]+` matches at `i`. */
  predicate InvalidPortAt(s: string, i: nat) {
    exists kw :: kw in ["input", "output", "inout"] && InvalidPortAfter(s, i, kw)
  }

  predicate InvalidPortAfter(s: string, i: nat, kw: string) {
    HasAt(s, i, kw) &&
    var j := SkipSpace(s, i + |kw|);
    j > i + |kw| && j < |s| && !IsWordChar(s[j]) && !IsSpace(s[j]) && s[j] != '[' && s[j] != ']'
  }

  predicate HasInvalidPort(s: string) {
    exists i :: 0 <= i < |s| && InvalidPortAt(s, i)
  }

  /** The last index `k` with `lo <= k < hi` at which `p` occurs. */
  function FindLastBefore(s: string, p: string, lo: nat, hi: nat): (r: Option<nat>)
    requires lo <= hi <= |s|
    ensures r.Some? ==> lo <= r.value < hi && HasAt(s, r.value, p)
    ensures r.Some? ==> forall k :: r.value < k < hi ==> !HasAt(s, k, p)
    ensures r.None? ==> forall k :: lo <= k < hi ==> !HasAt(s, k, p)
    decreases hi - lo
  {
    if lo == hi then None
    else if HasAt(s, hi - 1, p) then Some(hi - 1)
    else FindLastBefore(s, p, lo, hi - 1)
  }

  /** End of the match of `module\s+\w+.*?endmodule` (DOTALL) that starts at
      `i`, if there is one. The greedy `\w+` backs off only as far as needed
      to find an `endmodule` after it, so the match ends at the first
      `endmodule` after the whole identifier if there is one, and otherwise
      at the last `endmodule` inside the identifier. */
  function ModuleBlockAt(s: string, i: nat): (r: Option<nat>)
    requires i <= |s|
    ensures r.Some? ==> i < r.value <= |s|
  {
    if !HasAt(s, i, "module") then None
    else
      var w := SkipSpace(s, i + 6);
      if w == i + 6 || w == |s| || !IsWordChar(s[w]) then None
      else
        var e := WordRunEnd(s, w);
        match FindFrom(s, "endmodule", e)
        case Some(k) => Some(k + 9)
        case None =>
          match FindLastBefore(s, "endmodule", w + 1, e)
          case Some(k) => Some(k + 9)
          case None => None
  }

  /** The text of the first module block at or after `i`: `module`, blanks, a
      name, then everything up to the nearest `endmodule` (lazy, across lines). */
  function FirstModuleBlock(s: string, i: nat): (r: Option<string>)
    requires i <= |s|
    decreases |s| - i
  {
    if i == |s| then None
    else match ModuleBlockAt(s, i)
      case Some(e) => Some(s[i..e])
      case None => FirstModuleBlock(s, i + 1)
  }

  /** `\w+\s+\w+\s*\(` matches with its first `\w+` ending at `i`. */
  predicate CallAt(s: string, i: nat) {
    i < |s| && IsWordChar(s[i]) &&
    var j := SkipSpace(s, i + 1);
    j > i + 1 && j < |s| && IsWordChar(s[j]) &&
    var m := SkipSpace(s, WordRunEnd(s, j));
    m < |s| && s[m] == '('
  }

  predicate HasCall(s: string) {
    exists i :: 0 <= i < |s| && CallAt(s, i)
  }

  /** The keywords after which a line is expected to end in `;`. */
  const DeclKeywords: seq<string> := ["input", "output", "inout", "wire", "reg", "parameter", "assign", "integer", "real"]

  /** A declaration keyword followed by whitespace opens `line`. */
  predicate StartsWithDecl(line: string) {
    StartsWithAny(line, DeclKeywords)
  }

  /** Some keyword of `kws`, followed by whitespace, opens `line`. */
  predicate StartsWithAny(line: string, kws: seq<string>)
    ensures StartsWithAny(line, kws) <==> exists k :: 0 <= k < |kws| && StartsWithKeywordSpace(line, kws[k])
  {
    kws != [] && (StartsWithKeywordSpace(line, kws[0]) || StartsWithAny(line, kws[1..]))
  }

  predicate StartsWithKeywordSpace(line: string, kw: string) {
    HasAt(line, 0, kw) && |kw| < |line| && IsSpace(line[|kw|])
  }
}
