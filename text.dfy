/** Python string primitives that the core relies on, stated over `seq<char>`:
    whitespace and word-character classes (ASCII `\w` and `\d`, Python's
    `str.isspace` set for `\s`), `strip`, `split()`, `split(sep)`, `join`,
    `lower`, `startswith`/`endswith`/`in`, `str(int)` and `int(str)`. */
module Text {

  datatype Option<+T> = None | Some(value: T)

  /** The characters for which Python's `str.isspace()` holds; `\s` in a
      `re` pattern over `str`, `str.strip()` and `str.split()` use this set. */
  predicate IsSpace(c: char) {
    || c == ' '
    || ('\t' <= c <= '\r')
    || ('\U{1c}' <= c <= '\U{1f}')
    || c == '\U{85}' || c == '\U{a0}' || c == '\U{1680}'
    || ('\U{2000}' <= c <= '\U{200a}')
    || c == '\U{2028}' || c == '\U{2029}' || c == '\U{202f}' || c == '\U{205f}' || c == '\U{3000}'
  }

  /** `\d`, restricted to ASCII digits. */
  predicate IsDigit(c: char) { '0' <= c <= '9' }

  /** The value of a decimal digit; a non-digit counts as 0 (callers only
      pass digit runs). */
  function DigitOf(c: char): (d: nat)
    ensures d < 10
  {
    if IsDigit(c) then c as int - '0' as int else 0
  }

  /** `\w`, restricted to ASCII letters, digits and the underscore. */
  predicate IsWordChar(c: char) { ('a' <= c <= 'z') || ('A' <= c <= 'Z') || IsDigit(c) || c == '_' }

  predicate IsWord(s: string) { forall i :: 0 <= i < |s| ==> IsWordChar(s[i]) }

  predicate NoSpace(s: string) { forall i :: 0 <= i < |s| ==> !IsSpace(s[i]) }

  predicate StartsWith(s: string, p: string) { |p| <= |s| && s[..|p|] == p }

  predicate EndsWith(s: string, p: string) { |p| <= |s| && s[|s| - |p|..] == p }

  /** `p in s` for strings. */
  predicate Contains(s: string, p: string) { exists i :: 0 <= i <= |s| && HasAt(s, i, p) }

  /** `s[i..]` begins with `p`. */
  predicate HasAt(s: string, i: nat, p: string) { i + |p| <= |s| && s[i..i + |p|] == p }

  // ------------------------------------------------------- substring facts

  /** One character standing at `i`. */
  lemma HasAtOne(s: string, i: nat, c: char)
    requires HasAt(s, i, [c])
    ensures i < |s| && s[i] == c
  {
    assert s[i] == s[i..i + 1][0];
  }

  /** A character of `u` standing at `i`. */
  lemma HasAtIndex(s: string, i: nat, u: string, k: nat)
    requires HasAt(s, i, u) && k < |u|
    ensures s[i + k] == u[k]
  {
    assert s[i + k] == s[i..i + |u|][k];
  }

  /** What `u` standing at `i` says about one of its characters. */
  lemma HasAtGives(s: string, i: nat, u: string, k: nat)
    requires k < |u|
    ensures HasAt(s, i, u) ==> i + k < |s| && s[i + k] == u[k]
  {
    if HasAt(s, i, u) {
      HasAtIndex(s, i, u, k);
    }
  }

  /** Two pieces standing together stand one after the other. */
  lemma HasAtSplit(s: string, i: nat, u: string, v: string)
    requires HasAt(s, i, u + v)
    ensures HasAt(s, i, u) && HasAt(s, i + |u|, v)
  {
    assert s[i..i + |u|] == s[i..i + |u + v|][..|u|];
    assert s[i + |u|..i + |u| + |v|] == s[i..i + |u + v|][|u|..];
  }

  /** A property every character of `d` has holds where `d` stands. */
  lemma HasAtChars(s: string, i: nat, d: string, P: char -> bool)
    requires HasAt(s, i, d) && forall k :: 0 <= k < |d| ==> P(d[k])
    ensures forall k :: i <= k < i + |d| ==> P(s[k])
  {
    forall k | i <= k < i + |d| ensures P(s[k]) { assert s[k] == s[i..i + |d|][k - i]; }
  }

  /** `p` occurs in `a + p + b`. */
  lemma Occurs(s: string, a: string, p: string, b: string)
    requires s == a + p + b
    ensures Contains(s, p)
  {
    assert (a + p + b)[|a|..|a| + |p|] == p;
    assert HasAt(a + p + b, |a|, p);
  }

  /** A pattern with a character the text lacks does not occur in it. */
  lemma AbsentChar(s: string, p: string, k: nat)
    requires k < |p| && p[k] !in s
    ensures !Contains(s, p)
  {
    forall i | 0 <= i <= |s| ensures !HasAt(s, i, p) {
      HasAtGives(s, i, p, k);
    }
  }

  /** A pattern whose first two characters never appear side by side in the
      text does not occur in it. */
  lemma AbsentPair(s: string, p: string)
    requires |p| >= 2
    requires forall i :: 0 <= i < |s| - 1 ==> !(s[i] == p[0] && s[i + 1] == p[1])
    ensures !Contains(s, p)
  {
    forall i | 0 <= i <= |s| ensures !HasAt(s, i, p) {
      HasAtGives(s, i, p, 0);
      HasAtGives(s, i, p, 1);
    }
  }

  // ---------------------------------------------------------------- strip

  /** `s.lstrip()`. */
  function LStrip(s: string): (r: string)
    ensures |r| <= |s| && r == s[|s| - |r|..]
    ensures forall i :: 0 <= i < |s| - |r| ==> IsSpace(s[i])
    ensures r != [] ==> !IsSpace(r[0])
  {
    if s != [] && IsSpace(s[0]) then
      var r := LStrip(s[1..]);
      assert s[1..][|s| - 1 - |r|..] == s[|s| - |r|..];
      assert forall i :: 1 <= i < |s| - |r| ==> s[i] == s[1..][i - 1];
      r
    else s
  }

  /** `s.rstrip()`. */
  function RStrip(s: string): (r: string)
    ensures |r| <= |s| && r == s[..|r|]
    ensures forall i :: |r| <= i < |s| ==> IsSpace(s[i])
    ensures r != [] ==> !IsSpace(r[|r| - 1])
  {
    if s != [] && IsSpace(s[|s| - 1]) then RStrip(s[..|s| - 1]) else s
  }

  /** `s.strip()`: the longest infix of `s` that neither begins nor ends with whitespace. */
  function Strip(s: string): (r: string)
    ensures |r| <= |s|
    ensures r != [] ==> !IsSpace(r[0]) && !IsSpace(r[|r| - 1])
  {
    RStrip(LStrip(s))
  }

  lemma StripOfSpaceFree(s: string)
    requires NoSpace(s)
    ensures Strip(s) == s
  {
  }

  // ------------------------------------------------------- split / join

  /** `sep.join(parts)`. */
  function Join(parts: seq<string>, sep: string): (r: string)
    ensures parts == [] ==> r == []
    ensures parts != [] ==> parts[0] <= r
  {
    if parts == [] then []
    else if |parts| == 1 then parts[0]
    else parts[0] + sep + Join(parts[1..], sep)
  }

  /** `s.split(sep)` for a one-character separator. */
  function SplitOn(s: string, sep: char): (r: seq<string>)
    ensures |r| >= 1
  {
    SplitFrom(s, sep, 0, 0)
  }

  /** The parts of `s[start..]`, the current one having begun at `start`
      and been scanned up to `i`. */
  function SplitFrom(s: string, sep: char, start: nat, i: nat): (r: seq<string>)
    requires start <= i <= |s|
    ensures |r| >= 1
    decreases |s| - i
  {
    if i == |s| then [s[start..]]
    else if s[i] == sep then [s[start..i]] + SplitFrom(s, sep, i + 1, i + 1)
    else SplitFrom(s, sep, start, i + 1)
  }

  lemma {:induction false} SplitFromNoSeparator(s: string, sep: char, start: nat, i: nat)
    requires start <= i <= |s|
    requires forall j :: start <= j < i ==> s[j] != sep
    ensures SeparatorFree(SplitFrom(s, sep, start, i), sep)
    decreases |s| - i
  {
    var r := SplitFrom(s, sep, start, i);
    if i == |s| {
      assert r == [s[start..]];
      forall k, j | 0 <= k < |r| && 0 <= j < |r[k]| ensures r[k][j] != sep {
        assert r[0][j] == s[start + j];
      }
    } else if s[i] == sep {
      SplitFromNoSeparator(s, sep, i + 1, i + 1);
      var tail := SplitFrom(s, sep, i + 1, i + 1);
      assert r == [s[start..i]] + tail;
      forall k, j | 0 <= k < |r| && 0 <= j < |r[k]| ensures r[k][j] != sep {
        if k == 0 {
          assert r[0][j] == s[start + j];
        } else {
          assert r[k] == tail[k - 1];
        }
      }
    } else {
      SplitFromNoSeparator(s, sep, start, i + 1);
      assert r == SplitFrom(s, sep, start, i + 1);
    }
  }

  /** No part of `s.split(sep)` contains the separator. */
  lemma SplitOnNoSeparator(s: string, sep: char)
    ensures SeparatorFree(SplitOn(s, sep), sep)
  {
    SplitFromNoSeparator(s, sep, 0, 0);
    assert SplitOn(s, sep) == SplitFrom(s, sep, 0, 0);
  }

  lemma {:induction false} SplitFromJoin(s: string, sep: char, start: nat, i: nat)
    requires start <= i <= |s|
    ensures Join(SplitFrom(s, sep, start, i), [sep]) == s[start..]
    decreases |s| - i
  {
    if i == |s| {
    } else if s[i] == sep {
      SplitFromJoin(s, sep, i + 1, i + 1);
      var rest := SplitFrom(s, sep, i + 1, i + 1);
      assert s[start..] == s[start..i] + [sep] + s[i + 1..];
    } else {
      SplitFromJoin(s, sep, start, i + 1);
    }
  }

  /** Splitting on a separator and joining with it again gives back the text. */
  lemma SplitOnJoin(s: string, sep: char)
    ensures Join(SplitOn(s, sep), [sep]) == s
  {
    SplitFromJoin(s, sep, 0, 0);
  }

  /** Index of the first whitespace character at or after `i`, or `|s|`. */
  function WordEnd(s: string, i: nat): (e: nat)
    requires i <= |s|
    ensures i <= e <= |s|
    ensures forall j :: i <= j < e ==> !IsSpace(s[j])
    ensures e < |s| ==> IsSpace(s[e])
    decreases |s| - i
  {
    if i == |s| || IsSpace(s[i]) then i else WordEnd(s, i + 1)
  }

  /** Index of the first non-whitespace character at or after `i`, or `|s|`. */
  function SkipSpace(s: string, i: nat): (j: nat)
    requires i <= |s|
    ensures i <= j <= |s|
    ensures j < |s| ==> !IsSpace(s[j])
    decreases |s| - i
  {
    if i == |s| || !IsSpace(s[i]) then i else SkipSpace(s, i + 1)
  }

  /** `s[i..].split()`: the maximal runs of non-whitespace characters, in order. */
  function WordsFrom(s: string, i: nat): (r: seq<string>)
    requires i <= |s|
    decreases |s| - i
  {
    var j := SkipSpace(s, i);
    if j == |s| then []
    else
      var e := WordEnd(s, j);
      [s[j..e]] + WordsFrom(s, e)
  }

  /** `s.split()`. */
  function Words(s: string): (r: seq<string>)
  {
    WordsFrom(s, 0)
  }

  predicate ValidWords(ws: seq<string>) { forall k :: 0 <= k < |ws| ==> ws[k] != [] && NoSpace(ws[k]) }

  lemma {:induction false} SkipSpaceShift(a: string, b: string, i: nat)
    requires i <= |b|
    ensures SkipSpace(a + b, |a| + i) == |a| + SkipSpace(b, i)
    decreases |b| - i
  {
    if i < |b| {
      assert (a + b)[|a| + i] == b[i];
      SkipSpaceShift(a, b, i + 1);
    }
  }

  lemma {:induction false} WordEndShift(a: string, b: string, i: nat)
    requires i <= |b|
    ensures WordEnd(a + b, |a| + i) == |a| + WordEnd(b, i)
    decreases |b| - i
  {
    if i < |b| {
      assert (a + b)[|a| + i] == b[i];
      WordEndShift(a, b, i + 1);
    }
  }

  lemma SliceShift(a: string, b: string, j: nat, e: nat)
    requires j <= e <= |b|
    ensures (a + b)[|a| + j..|a| + e] == b[j..e]
  {
  }

  lemma WordsFromStep(s: string, i: nat, j: nat, e: nat)
    requires i <= |s| && j == SkipSpace(s, i) && j < |s| && e == WordEnd(s, j)
    ensures WordsFrom(s, i) == [s[j..e]] + WordsFrom(s, e)
  {
  }

  lemma ShiftStep(a: string, b: string, i: nat, j: nat, e: nat)
    requires i <= j < |b| && j == SkipSpace(b, i) && e == WordEnd(b, j)
    requires |a| + j == SkipSpace(a + b, |a| + i) && |a| + e == WordEnd(a + b, |a| + j)
    requires WordsFrom(a + b, |a| + e) == WordsFrom(b, e)
    ensures WordsFrom(a + b, |a| + i) == WordsFrom(b, i)
  {
    var s := a + b;
    WordsFromStep(s, |a| + i, |a| + j, |a| + e);
    WordsFromStep(b, i, j, e);
    SliceShift(a, b, j, e);
  }

  /** What `split()` finds after a prefix does not depend on the prefix. */
  lemma {:induction false} WordsFromShift(a: string, b: string, i: nat)
    requires i <= |b|
    ensures WordsFrom(a + b, |a| + i) == WordsFrom(b, i)
    decreases |b| - i
  {
    SkipSpaceShift(a, b, i);
    var j := SkipSpace(b, i);
    if j < |b| {
      WordEndShift(a, b, j);
      var e := WordEnd(b, j);
      WordsFromShift(a, b, e);
      ShiftStep(a, b, i, j, e);
    }
  }

  lemma {:induction false} WordEndOfWord(w: string, rest: string, i: nat)
    requires i <= |w| && NoSpace(w)
    requires rest == [] || IsSpace(rest[0])
    ensures WordEnd(w + rest, i) == |w|
    decreases |w| - i
  {
    if i < |w| {
      assert (w + rest)[i] == w[i];
      WordEndOfWord(w, rest, i + 1);
    }
  }

  /** `" ".join(ws).split() == ws` for non-empty, whitespace-free words. */
  lemma {:induction false} WordsOfJoin(ws: seq<string>)
    requires ValidWords(ws)
    ensures Words(Join(ws, " ")) == ws
    decreases |ws|
  {
    if |ws| == 1 {
      WordsOfWord(ws[0]);
    } else if ws != [] {
      var tail := Join(ws[1..], " ");
      assert Join(ws, " ") == ws[0] + " " + tail;
      WordsOfJoin(ws[1..]);
      WordsBeforeSpace(ws[0], tail);
      assert ws == [ws[0]] + ws[1..];
    }
  }

  /** A single word splits into itself. */
  lemma WordsOfWord(w: string)
    requires w != [] && NoSpace(w)
    ensures Words(w) == [w]
  {
    var e: string := [];
    assert w + e == w;
    WordEndOfWord(w, e, 0);
    assert w[0..|w|] == w;
    assert WordsFrom(w, |w|) == [];
  }

  /** A word, a space and more text split into the word and the words of the
      rest. */
  lemma WordsBeforeSpace(w: string, tail: string)
    requires w != [] && NoSpace(w)
    ensures Words(w + " " + tail) == [w] + Words(tail)
  {
    var s := w + " " + tail;
    var rest := " " + tail;
    assert s == w + rest;
    assert s[0] == w[0] && !IsSpace(s[0]);
    WordEndOfWord(w, rest, 0);
    assert s[0..|w|] == w;
    assert SkipSpace(s, 0) == 0;
    WordsFromStep(s, 0, 0, |w|);
    WordsFromShift(w + " ", tail, 0);
    assert WordsFrom(s, |w| + 1) == Words(tail);
    SpaceBeforeWords(s, |w|);
  }

  /** A space is skipped before the next word. */
  lemma SpaceBeforeWords(s: string, k: nat)
    requires k < |s| && IsSpace(s[k])
    ensures WordsFrom(s, k) == WordsFrom(s, k + 1)
  {
    assert SkipSpace(s, k) == SkipSpace(s, k + 1);
  }

  // ------------------------------------------------------------- lower

  function LowerChar(c: char): char {
    if 'A' <= c <= 'Z' then (c as int + 32) as char else c
  }

  /** `s.lower()` on ASCII letters. */
  function Lower(s: string): (r: string)
    ensures |r| == |s| && forall i :: 0 <= i < |s| ==> r[i] == LowerChar(s[i])
  {
    if s == [] then [] else [LowerChar(s[0])] + Lower(s[1..])
  }

  // ---------------------------------------------------- str(int), int(str)

  function DigitChar(d: nat): (c: char)
    requires d < 10
    ensures IsDigit(c)
  {
    ('0' as int + d) as char
  }

  /** Decimal digits of a natural number with no leading zero (`str(n)` for n >= 0). */
  function NatToString(n: nat): (r: string)
    ensures r != [] && forall i :: 0 <= i < |r| ==> IsDigit(r[i])
    decreases n
  {
    if n < 10 then [DigitChar(n)] else NatToString(n / 10) + [DigitChar(n % 10)]
  }

  /** `str(i)`. */
  function IntToString(i: int): (r: string)
    ensures r != [] && NoSpace(r)
  {
    if i < 0 then "-" + NatToString(-i) else NatToString(i)
  }

  /** Value of a string of ASCII digits. */
  function DigitsValue(s: string): nat {
    DigitsValueIn(s, 0, |s|)
  }

  /** Value of the digits `s[i..j]`, read in place. */
  function DigitsValueIn(s: string, i: nat, j: nat): nat
    requires i <= j <= |s|
    decreases j - i
  {
    if j == i then 0 else DigitsValueIn(s, i, j - 1) * 10 + DigitOf(s[j - 1])
  }

  /** Equal runs of characters have equal values, wherever they stand. */
  lemma {:induction false} DigitsValueInSame(s: string, i: nat, t: string, k: nat, n: nat)
    requires i + n <= |s| && k + n <= |t| && s[i..i + n] == t[k..k + n]
    ensures DigitsValueIn(s, i, i + n) == DigitsValueIn(t, k, k + n)
    decreases n
  {
    if n > 0 {
      assert s[i..i + n - 1] == s[i..i + n][..n - 1];
      assert t[k..k + n - 1] == t[k..k + n][..n - 1];
      DigitsValueInSame(s, i, t, k, n - 1);
      assert s[i + n - 1] == s[i..i + n][n - 1];
      assert t[k + n - 1] == t[k..k + n][n - 1];
    }
  }

  lemma DigitsValueInSlice(s: string, i: nat, j: nat)
    requires i <= j <= |s|
    ensures DigitsValueIn(s, i, j) == DigitsValue(s[i..j])
  {
    var t := s[i..j];
    assert t[0..j - i] == t;
    DigitsValueInSame(s, i, t, 0, j - i);
  }

  lemma {:induction false} DigitsOfNat(n: nat)
    ensures DigitsValue(NatToString(n)) == n
    decreases n
  {
    if n >= 10 {
      DigitsOfNat(n / 10);
      var s := NatToString(n);
      var t := NatToString(n / 10);
      assert s == t + [DigitChar(n % 10)];
      assert s[0..|t|] == t[0..|t|];
      DigitsValueInSame(s, 0, t, 0, |t|);
      assert DigitsValueIn(s, 0, |s|) == DigitsValueIn(s, 0, |t|) * 10 + DigitOf(s[|t|]);
      DigitOfChar(n % 10);
    } else {
      DigitOfChar(n);
      var s := NatToString(n);
      assert s == [DigitChar(n)];
      assert DigitsValueIn(s, 0, 1) == DigitsValueIn(s, 0, 0) * 10 + DigitOf(s[0]);
    }
  }

  lemma DigitOfChar(d: nat)
    requires d < 10
    ensures DigitOf(DigitChar(d)) == d
  {
  }

  /** The digits of a Python integer literal as accepted by `int()`: ASCII
      digits, with single underscores allowed between two digits. */
  predicate IsDigitGroup(s: string) {
    && s != [] && IsDigit(s[0]) && IsDigit(s[|s| - 1])
    && (forall i :: 0 <= i < |s| ==> IsDigit(s[i]) || s[i] == '_')
    && (forall i :: 0 <= i < |s| - 1 ==> !(s[i] == '_' && s[i + 1] == '_'))
  }

  function DropUnderscores(s: string): (r: string)
    requires forall i :: 0 <= i < |s| ==> IsDigit(s[i]) || s[i] == '_'
    ensures forall i :: 0 <= i < |r| ==> IsDigit(r[i])
  {
    if s == [] then [] else (if s[0] == '_' then [] else [s[0]]) + DropUnderscores(s[1..])
  }

  lemma DropUnderscoresOfDigits(s: string)
    requires forall i :: 0 <= i < |s| ==> IsDigit(s[i])
    ensures DropUnderscores(s) == s
  {
  }

  /** The value of a digit group, `None` if `t` is not one. */
  function ParseDigitGroup(t: string): (r: Option<nat>)
    ensures r.Some? <==> IsDigitGroup(t)
  {
    if IsDigitGroup(t) then Some(DigitsValue(DropUnderscores(t))) else None
  }

  /** `int(t)` for a `t` with no surrounding whitespace. */
  function ParseSigned(t: string): (r: Option<int>)
    ensures r.Some? ==> t != []
  {
    if t != [] && (t[0] == '-' || t[0] == '+') then
      match ParseDigitGroup(t[1..])
      case Some(v) => Some(if t[0] == '-' then 0 - v else v)
      case None => None
    else
      match ParseDigitGroup(t)
      case Some(v) => Some(v)
      case None => None
  }

  /** `int(s)` in base 10: surrounding whitespace stripped, one optional sign,
      then a digit group; `None` where Python raises `ValueError`. */
  function ParseInt(s: string): (r: Option<int>)
    ensures r.Some? ==> Strip(s) != []
  {
    ParseSigned(Strip(s))
  }

  lemma DigitsAreDigitGroup(s: string)
    requires s != [] && forall i :: 0 <= i < |s| ==> IsDigit(s[i])
    ensures IsDigitGroup(s) && DropUnderscores(s) == s
  {
    DropUnderscoresOfDigits(s);
  }

  /** `int(str(i)) == i`. */
  lemma ParseIntOfIntToString(i: int)
    ensures ParseInt(IntToString(i)) == Some(i)
  {
    var s := IntToString(i);
    var n: nat := if i < 0 then -i else i;
    var d := NatToString(n);
    DigitsOfNat(n);
    DigitsAreDigitGroup(d);
    assert NoSpace(s);
    StripOfSpaceFree(s);
    if i < 0 {
      assert s == "-" + d;
      assert s[1..] == d;
      assert s[0] == '-';
    } else {
      assert s == d;
      assert s[0] != '-' && s[0] != '+';
    }
  }

  /** A string of digits is accepted by `int()` and gives its digit value. */
  lemma ParseIntOfDigits(s: string)
    requires s != [] && forall i :: 0 <= i < |s| ==> IsDigit(s[i])
    ensures ParseInt(s) == Some(DigitsValue(s))
  {
    assert NoSpace(s);
    StripOfSpaceFree(s);
    DigitsAreDigitGroup(s);
    var v := DigitsValue(s);
    assert ParseDigitGroup(s) == Some(v);
    assert !(s[0] == '-' || s[0] == '+') by { assert IsDigit(s[0]); }
    assert ParseSigned(s) == Some(v);
  }

  // -------------------------------------------------------- containment

  lemma ConcatAssoc(a: string, b: string, c: string)
    ensures a + b + c == a + (b + c)
  {
  }

  lemma ContainsSelf(p: string)
    ensures Contains(p, p)
  {
    assert HasAt(p, 0, p);
  }

  lemma ContainsLeft(a: string, b: string, p: string)
    requires Contains(a, p)
    ensures Contains(a + b, p)
  {
    var i :| 0 <= i <= |a| && HasAt(a, i, p);
    assert (a + b)[i..i + |p|] == a[i..i + |p|];
    assert HasAt(a + b, i, p);
  }

  lemma ContainsRight(a: string, b: string, p: string)
    requires Contains(b, p)
    ensures Contains(a + b, p)
  {
    var i :| 0 <= i <= |b| && HasAt(b, i, p);
    assert (a + b)[|a| + i..|a| + i + |p|] == b[i..i + |p|];
    assert HasAt(a + b, |a| + i, p);
  }

  lemma PrefixConcat(a: string, b: string)
    ensures a <= a + b
  {
    assert (a + b)[..|a|] == a;
  }

  lemma PrefixTrans(a: string, b: string, c: string)
    requires a <= b && b <= c
    ensures a <= c
  {
    assert c[..|b|][..|a|] == c[..|a|];
  }

  lemma ContainsInLonger(a: string, b: string, p: string)
    requires Contains(a, p) && a <= b
    ensures Contains(b, p)
  {
    assert b == a + b[|a|..] by { assert b[..|a|] == a; }
    ContainsLeft(a, b[|a|..], p);
  }

  lemma PrefixStartsWith(p: string, s: string)
    requires p <= s
    ensures StartsWith(s, p)
  {
    assert s[..|p|] == p;
  }

  lemma EndsWithConcat(a: string, b: string)
    ensures EndsWith(a + b, b)
  {
    assert (a + b)[|a|..] == b;
  }

  lemma PrefixRight(a: string, b: string, x: string)
    requires a <= b
    ensures a <= b + x
  {
    PrefixConcat(b, x);
    PrefixTrans(a, b, b + x);
  }

  lemma EndsWithRight(a: string, b: string, c: string)
    requires EndsWith(b, c)
    ensures EndsWith(a + b, c)
  {
    assert (a + b)[|a + b| - |c|..] == b[|b| - |c|..];
  }

  // -------------------------------------------------- split after join

  predicate SeparatorFree(parts: seq<string>, sep: char) {
    forall k, j :: 0 <= k < |parts| && 0 <= j < |parts[k]| ==> parts[k][j] != sep
  }

  /** A part free of the separator is read up to the separator or the end. */
  lemma {:induction false} SplitFromPart(s: string, sep: char, start: nat, i: nat, e: nat)
    requires start <= i <= e <= |s|
    requires forall j :: i <= j < e ==> s[j] != sep
    requires e == |s| || s[e] == sep
    ensures SplitFrom(s, sep, start, i) ==
      if e == |s| then [s[start..]] else [s[start..e]] + SplitFrom(s, sep, e + 1, e + 1)
    decreases e - i
  {
    if i < e {
      SplitFromPart(s, sep, start, i + 1, e);
    }
  }

  lemma {:induction false} SplitFromOfJoin(s: string, sep: char, start: nat, parts: seq<string>)
    requires start <= |s| && parts != [] && SeparatorFree(parts, sep)
    requires s[start..] == Join(parts, [sep])
    ensures SplitFrom(s, sep, start, start) == parts
    decreases |parts|
  {
    var p := parts[0];
    var e := start + |p|;
    if |parts| == 1 {
      assert s[start..] == p;
      forall j | start <= j < e ensures s[j] != sep {
        assert s[j] == s[start..][j - start];
      }
      SplitFromPart(s, sep, start, start, e);
    } else {
      var rest := Join(parts[1..], [sep]);
      assert s[start..] == p + [sep] + rest;
      assert s[start..e] == p by { assert s[start..e] == s[start..][..|p|]; }
      assert s[e] == sep by { assert s[e] == s[start..][|p|]; }
      assert s[e + 1..] == rest by { assert s[e + 1..] == s[start..][|p| + 1..]; }
      forall j | start <= j < e ensures s[j] != sep {
        assert s[j] == p[j - start];
      }
      SplitFromPart(s, sep, start, start, e);
      assert SeparatorFree(parts[1..], sep) by {
        forall k, j | 0 <= k < |parts[1..]| && 0 <= j < |parts[1..][k]| ensures parts[1..][k][j] != sep {
          assert parts[1..][k] == parts[k + 1];
        }
      }
      SplitFromOfJoin(s, sep, e + 1, parts[1..]);
    }
  }

  /** Splitting a join of separator-free parts gives the parts back. */
  lemma SplitOnOfJoin(parts: seq<string>, sep: char)
    requires parts != [] && SeparatorFree(parts, sep)
    ensures SplitOn(Join(parts, [sep]), sep) == parts
  {
    var s := Join(parts, [sep]);
    assert s[0..] == s;
    SplitFromOfJoin(s, sep, 0, parts);
  }

  /** The parts after the first, each prefixed with `u`. */
  function PrefixRest(xs: seq<string>, u: string): (r: seq<string>)
    requires xs != []
    ensures |r| == |xs| && r[0] == xs[0]
    ensures forall k :: 0 < k < |xs| ==> r[k] == u + xs[k]
  {
    [xs[0]] + seq(|xs| - 1, k requires 0 <= k < |xs| - 1 => u + xs[k + 1])
  }

  lemma JoinPrependHead(u: string, ys: seq<string>, sep: string)
    requires ys != []
    ensures u + Join(ys, sep) == Join([u + ys[0]] + ys[1..], sep)
  {
    var zs := [u + ys[0]] + ys[1..];
    assert zs[1..] == ys[1..];
  }

  /** Joining with `[c] + u` is joining with `[c]` once `u` is moved to the
      front of every part but the first. */
  lemma {:induction false} JoinLongSeparator(xs: seq<string>, c: char, u: string)
    requires xs != []
    ensures Join(xs, [c] + u) == Join(PrefixRest(xs, u), [c])
    decreases |xs|
  {
    if |xs| > 1 {
      var sep := [c] + u;
      var tail := PrefixRest(xs[1..], u);
      JoinLongSeparator(xs[1..], c, u);
      JoinPrependHead(u, tail, [c]);
      var ys := [u + tail[0]] + tail[1..];
      assert PrefixRest(xs, u)[1..] == ys;
      assert Join(xs, sep) == xs[0] + sep + Join(xs[1..], sep);
      assert Join(xs, sep) == xs[0] + [c] + (u + Join(tail, [c]));
    }
  }

  /** Whitespace in front of a text that neither begins nor ends with
      whitespace is what `strip` removes. */
  lemma {:induction false} StripPadded(pad: string, t: string)
    requires forall i :: 0 <= i < |pad| ==> IsSpace(pad[i])
    requires t != [] && !IsSpace(t[0]) && !IsSpace(t[|t| - 1])
    ensures Strip(pad + t) == t
    decreases |pad|
  {
    if pad != [] {
      assert (pad + t)[1..] == pad[1..] + t;
      StripPadded(pad[1..], t);
    } else {
      assert pad + t == t;
    }
  }
}
