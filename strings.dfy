/** String operations of the Kotlin standard library that the core relies on:
    `contains`, `replace(old, "")`, `Long.toString`, `compareTo`,
    `joinToString`, and the line structure of a JSONL file. */
module Strings {

  import opened Wrappers

  predicate IsPrefix(p: string, s: string) {
    |p| <= |s| && s[..|p|] == p
  }

  // ---------------------------------------------------------------------
  // Substrings: Kotlin `s.contains(sub)`

  /** `sub` occurs in `s`, found by trying each start position in turn. */
  predicate Contains(s: string, sub: string)
    decreases |s|
  {
    IsPrefix(sub, s) || (|s| > 0 && Contains(s[1..], sub))
  }

  /** `sub` occurs in `s` starting at index `i`. */
  ghost predicate OccursAt(s: string, sub: string, i: int) {
    0 <= i && i + |sub| <= |s| && s[i..i + |sub|] == sub
  }

  /** The recursive search agrees with the definition by index. */
  lemma {:induction false} ContainsIffOccurs(s: string, sub: string)
    ensures Contains(s, sub) <==> exists i :: OccursAt(s, sub, i)
    decreases |s|
  {
    if IsPrefix(sub, s) {
      assert OccursAt(s, sub, 0);
    } else if |s| > 0 {
      ContainsIffOccurs(s[1..], sub);
      if Contains(s[1..], sub) {
        var j :| OccursAt(s[1..], sub, j);
        assert s[j + 1..j + 1 + |sub|] == s[1..][j..j + |sub|];
        assert OccursAt(s, sub, j + 1);
      }
      if i :| OccursAt(s, sub, i) {
        assert i != 0;
        assert s[1..][i - 1..i - 1 + |sub|] == s[i..i + |sub|];
        assert OccursAt(s[1..], sub, i - 1);
      }
    }
  }

  /** Every string contains the empty string. */
  lemma ContainsEmpty(s: string)
    ensures Contains(s, "")
  {
  }

  // ---------------------------------------------------------------------
  // Kotlin `s.replace(pat, "")`: every non-overlapping occurrence of `pat`,
  // scanning left to right, is removed.

  function RemoveAll(s: string, pat: string): (r: string)
    requires |pat| > 0
    ensures |r| <= |s|
    decreases |s|
  {
    if |s| < |pat| then s
    else if IsPrefix(pat, s) then RemoveAll(s[|pat|..], pat)
    else [s[0]] + RemoveAll(s[1..], pat)
  }

  /** Removing leaves the string unchanged exactly when the pattern does not
      occur in it; otherwise the string gets strictly shorter. */
  lemma {:induction false} RemoveAllUnchangedIff(s: string, pat: string)
    requires |pat| > 0
    ensures RemoveAll(s, pat) == s <==> !Contains(s, pat)
    ensures Contains(s, pat) ==> |RemoveAll(s, pat)| < |s|
    decreases |s|
  {
    if |s| < |pat| {
      assert !IsPrefix(pat, s);
      if |s| > 0 {
        NotContainsShort(s[1..], pat);
      }
    } else if IsPrefix(pat, s) {
      assert |RemoveAll(s, pat)| <= |s| - |pat|;
    } else {
      RemoveAllUnchangedIff(s[1..], pat);
      assert s == [s[0]] + s[1..];
    }
  }

  /** The leftmost occurrence is removed, the text before it is kept as it
      is, and removal goes on after it; with `RemoveAllUnchangedIff` this
      determines the result. */
  lemma {:induction false} RemoveAllLeftmost(s: string, pat: string, i: nat)
    requires |pat| > 0
    requires OccursAt(s, pat, i)
    requires forall j :: 0 <= j < i ==> !OccursAt(s, pat, j)
    ensures RemoveAll(s, pat) == s[..i] + RemoveAll(s[i + |pat|..], pat)
    decreases i
  {
    if i == 0 {
      RemoveAllAtStart(s, pat);
    } else {
      assert !OccursAt(s, pat, 0);
      var t := s[1..];
      assert OccursAt(t, pat, i - 1) && NoneBefore(t, pat, i - 1) by {
        OccursShift(s, pat, i);
      }
      assert RemoveAll(t, pat) == t[..i - 1] + RemoveAll(t[i - 1 + |pat|..], pat) by {
        RemoveAllLeftmost(t, pat, i - 1);
      }
      RemoveAllStep(s, pat, i);
    }
  }

  /** No occurrence of `pat` starts before index `i` of `s`. */
  ghost predicate NoneBefore(s: string, pat: string, i: nat)
  {
    forall j :: 0 <= j < i ==> !OccursAt(s, pat, j)
  }

  /** One step of the induction: a first character that starts no
      occurrence is kept. */
  lemma RemoveAllStep(s: string, pat: string, i: nat)
    requires |pat| > 0 && 0 < i && i + |pat| <= |s| && !OccursAt(s, pat, 0)
    requires RemoveAll(s[1..], pat) == s[1..][..i - 1] + RemoveAll(s[1..][i - 1 + |pat|..], pat)
    ensures RemoveAll(s, pat) == s[..i] + RemoveAll(s[i + |pat|..], pat)
  {
    RemoveAllSkip(s, pat);
    SliceShift(s, i, i + |pat|);
    var rest := RemoveAll(s[i + |pat|..], pat);
    assert RemoveAll(s[1..][i - 1 + |pat|..], pat) == rest;
    ConcatAssoc([s[0]], s[1..][..i - 1], rest);
  }

  lemma ConcatAssoc(a: string, b: string, c: string)
    ensures a + (b + c) == (a + b) + c
  {
  }

  lemma RemoveAllAtStart(s: string, pat: string)
    requires |pat| > 0 && OccursAt(s, pat, 0)
    ensures RemoveAll(s, pat) == s[..0] + RemoveAll(s[0 + |pat|..], pat)
  {
    assert s[..|pat|] == s[0..|pat|];
    assert IsPrefix(pat, s);
  }

  lemma RemoveAllSkip(s: string, pat: string)
    requires |pat| > 0 && |pat| < |s| && !OccursAt(s, pat, 0)
    ensures RemoveAll(s, pat) == [s[0]] + RemoveAll(s[1..], pat)
  {
    assert s[..|pat|] == s[0..|pat|];
    assert !IsPrefix(pat, s);
  }

  lemma SliceShift(s: string, i: nat, k: nat)
    requires 0 < i <= k <= |s|
    ensures s[..i] == [s[0]] + s[1..][..i - 1]
    ensures s[1..][k - 1..] == s[k..]
  {
  }

  /** Occurrences in `s[1..]` are those in `s` one place further right. */
  lemma OccursShift(s: string, pat: string, i: nat)
    requires 0 < i && OccursAt(s, pat, i)
    requires forall j :: 0 <= j < i ==> !OccursAt(s, pat, j)
    ensures OccursAt(s[1..], pat, i - 1)
    ensures NoneBefore(s[1..], pat, i - 1)
  {
    assert s[1..][i - 1..i - 1 + |pat|] == s[i..i + |pat|];
    forall j | 0 <= j < i - 1
      ensures !OccursAt(s[1..], pat, j)
    {
      assert !OccursAt(s, pat, j + 1);
      if j + |pat| <= |s[1..]| {
        assert s[1..][j..j + |pat|] == s[j + 1..j + 1 + |pat|];
      }
    }
  }

  lemma {:induction false} NotContainsShort(s: string, pat: string)
    requires 0 < |pat| && |s| < |pat|
    ensures !Contains(s, pat)
    decreases |s|
  {
    if |s| > 0 {
      NotContainsShort(s[1..], pat);
    }
  }

  /** If no occurrence of `pat` starts inside `a`, then removing from
      `a + pat` strips exactly the trailing `pat`. */
  lemma {:induction false} RemoveAllTrailing(a: string, pat: string)
    requires |pat| > 0
    requires forall i :: 0 <= i < |a| ==> !IsPrefix(pat, (a + pat)[i..])
    ensures RemoveAll(a + pat, pat) == a
    decreases |a|
  {
    if |a| == 0 {
      assert a + pat == pat;
      assert IsPrefix(pat, a + pat);
      assert (a + pat)[|pat|..] == "";
    } else {
      assert (a + pat)[0..] == a + pat;
      assert (a + pat)[1..] == a[1..] + pat;
      forall i | 0 <= i < |a[1..]|
        ensures !IsPrefix(pat, (a[1..] + pat)[i..])
      {
        assert (a[1..] + pat)[i..] == (a + pat)[i + 1..];
      }
      RemoveAllTrailing(a[1..], pat);
    }
  }

  // ---------------------------------------------------------------------
  // Decimal rendering of a Kotlin Long, and its parser

  predicate IsDigit(c: char) {
    '0' <= c <= '9'
  }

  predicate AllDigits(s: string) {
    forall k :: 0 <= k < |s| ==> IsDigit(s[k])
  }

  function DigitChar(d: int): (c: char)
    requires 0 <= d < 10
    ensures IsDigit(c)
  {
    ('0' as int + d) as char
  }

  function DigitValue(c: char): (d: nat)
    requires IsDigit(c)
    ensures d < 10
  {
    c as int - '0' as int
  }

  /** The decimal digits of `n`, most significant first, no leading zero. */
  function NatToString(n: nat): (s: string)
    ensures |s| > 0 && AllDigits(s)
    ensures |s| > 1 ==> s[0] != '0'
  {
    if n < 10 then [DigitChar(n)] else NatToString(n / 10) + [DigitChar(n % 10)]
  }

  /** Kotlin's `Long.toString()`: a minus sign for negative values. */
  function IntToString(i: int): string {
    if i < 0 then "-" + NatToString(-i) else NatToString(i)
  }

  function ParseNat(s: string): nat
    requires AllDigits(s)
  {
    if s == [] then 0 else ParseNat(s[..|s| - 1]) * 10 + DigitValue(s[|s| - 1])
  }

  /** A natural number as `Long.toString()` prints it: at least one digit,
      and no leading zero unless the number is zero. */
  predicate IsNatLiteral(s: string) {
    |s| > 0 && AllDigits(s) && (|s| > 1 ==> s[0] != '0')
  }

  /** An integer as `Long.toString()` prints it: there is no "-0" and no
      lone "-". */
  predicate IsIntLiteral(s: string) {
    if |s| > 0 && s[0] == '-' then IsNatLiteral(s[1..]) && s[1..] != "0" else IsNatLiteral(s)
  }

  function ParseInt(s: string): int
    requires IsIntLiteral(s)
  {
    if |s| > 0 && s[0] == '-' then -(ParseNat(s[1..]) as int) else ParseNat(s)
  }

  lemma {:induction false} ParseNatToString(n: nat)
    ensures ParseNat(NatToString(n)) == n
  {
    if n >= 10 {
      var s := NatToString(n);
      assert s[..|s| - 1] == NatToString(n / 10);
      ParseNatToString(n / 10);
    }
  }

  /** Parsing the rendered number gives the number back. */
  lemma IntToStringRoundTrip(i: int)
    ensures IsIntLiteral(IntToString(i))
    ensures ParseInt(IntToString(i)) == i
  {
    if i < 0 {
      assert IntToString(i)[1..] == NatToString(-i);
      ParseNatToString(-i);
      assert ParseNat("0") == 0 by {
        assert "0"[..0] == "";
      }
    } else {
      ParseNatToString(i);
    }
  }

  /** A digit string that does not start with '0' denotes a positive number. */
  lemma {:induction false} ParseNatPositive(s: string)
    requires |s| > 0 && AllDigits(s) && s[0] != '0'
    ensures ParseNat(s) >= 1
    decreases |s|
  {
    if |s| > 1 {
      var t := s[..|s| - 1];
      assert t[0] == s[0];
      ParseNatPositive(t);
    }
  }

  /** A natural literal is exactly how its value is printed. */
  lemma {:induction false} NatLiteralIsPrinted(s: string)
    requires IsNatLiteral(s)
    ensures NatToString(ParseNat(s)) == s
    decreases |s|
  {
    var t := s[..|s| - 1];
    var d := DigitValue(s[|s| - 1]);
    if |s| == 1 {
      assert ParseNat(t) == 0;
      assert [DigitChar(d)] == s;
    } else {
      assert t[0] == s[0];
      ParseNatPositive(t);
      NatLiteralIsPrinted(t);
      var n := ParseNat(s);
      assert n == ParseNat(t) * 10 + d;
      assert n / 10 == ParseNat(t) && n % 10 == d;
      assert DigitChar(d) == s[|s| - 1];
      assert s == t + [s[|s| - 1]];
    }
  }

  /** An integer literal is exactly how its value is printed, so printing and
      parsing are inverse both ways. */
  lemma LiteralIsPrinted(s: string)
    requires IsIntLiteral(s)
    ensures IntToString(ParseInt(s)) == s
  {
    if |s| > 0 && s[0] == '-' {
      var u := s[1..];
      NatLiteralIsPrinted(u);
      ParseNatPositive(u);
      assert s == "-" + u;
    } else {
      NatLiteralIsPrinted(s);
    }
  }

  // ---------------------------------------------------------------------
  // Lines of a JSONL text: every line is terminated by "\n"

  predicate NoNewline(s: string) {
    '\n' !in s
  }

  /** The text made of each line followed by "\n". */
  function JoinLines(lines: seq<string>): string {
    if lines == [] then "" else lines[0] + "\n" + JoinLines(lines[1..])
  }

  function IndexOfNewline(s: string): (i: nat)
    ensures i <= |s|
    ensures i < |s| ==> s[i] == '\n'
    ensures NoNewline(s[..i])
  {
    if s == [] then 0
    else if s[0] == '\n' then 0
    else
      var k := IndexOfNewline(s[1..]);
      assert s[..k + 1] == [s[0]] + s[1..][..k];
      k + 1
  }

  /** The lines of a text on "\n"; an unterminated tail counts as a line. */
  function SplitLines(s: string): seq<string>
    decreases |s|
  {
    if s == [] then []
    else
      var i := IndexOfNewline(s);
      if i == |s| then [s] else [s[..i]] + SplitLines(s[i + 1..])
  }

  lemma {:induction false} JoinLinesAppend(lines: seq<string>, x: string)
    ensures JoinLines(lines + [x]) == JoinLines(lines) + x + "\n"
  {
    if lines != [] {
      assert (lines + [x])[1..] == lines[1..] + [x];
      JoinLinesAppend(lines[1..], x);
    }
  }

  lemma {:induction false} IndexOfNewlineAt(a: string, b: string)
    requires NoNewline(a)
    ensures IndexOfNewline(a + "\n" + b) == |a|
    decreases |a|
  {
    if a != [] {
      assert (a + "\n" + b)[1..] == a[1..] + "\n" + b;
      IndexOfNewlineAt(a[1..], b);
    }
  }

  /** Splitting the joined lines gives the lines back when none of them holds
      a newline. */
  lemma {:induction false} SplitJoinLines(lines: seq<string>)
    requires forall k :: 0 <= k < |lines| ==> NoNewline(lines[k])
    ensures SplitLines(JoinLines(lines)) == lines
  {
    if lines != [] {
      var s := JoinLines(lines);
      var rest := JoinLines(lines[1..]);
      assert s == lines[0] + "\n" + rest;
      IndexOfNewlineAt(lines[0], rest);
      assert s[..|lines[0]|] == lines[0];
      assert s[|lines[0]| + 1..] == rest;
      SplitJoinLines(lines[1..]);
    }
  }

  // ---------------------------------------------------------------------
  // Kotlin `String.compareTo`: lexicographic, a proper prefix first

  predicate StrLe(a: string, b: string)
    decreases |a|
  {
    |a| == 0 || (|b| > 0 && (a[0] < b[0] || (a[0] == b[0] && StrLe(a[1..], b[1..]))))
  }

  lemma {:induction false} StrLeTotal(a: string, b: string)
    ensures StrLe(a, b) || StrLe(b, a)
    decreases |a|
  {
    if |a| > 0 && |b| > 0 && a[0] == b[0] {
      StrLeTotal(a[1..], b[1..]);
    }
  }

  lemma {:induction false} StrLeTrans(a: string, b: string, c: string)
    requires StrLe(a, b) && StrLe(b, c)
    ensures StrLe(a, c)
    decreases |a|
  {
    if |a| > 0 && a[0] == b[0] && b[0] == c[0] {
      StrLeTrans(a[1..], b[1..], c[1..]);
    }
  }

  // ---------------------------------------------------------------------
  // Kotlin `joinToString(sep)`

  /** Kotlin `joinToString(sep)`: the parts in order, with `sep` between
      neighbours only. */
  function JoinWith(parts: seq<string>, sep: string): (r: string)
    ensures parts == [] ==> r == ""
    ensures |parts| == 1 ==> r == parts[0]
  {
    if |parts| == 0 then ""
    else if |parts| == 1 then parts[0]
    else parts[0] + sep + JoinWith(parts[1..], sep)
  }

  /** Appending a part adds the separator and then that part. */
  lemma {:induction false} JoinWithSnoc(parts: seq<string>, x: string, sep: string)
    requires |parts| > 0
    ensures JoinWith(parts + [x], sep) == JoinWith(parts, sep) + sep + x
    decreases |parts|
  {
    if |parts| == 1 {
      assert (parts + [x])[1..] == [x];
    } else {
      assert (parts + [x])[1..] == parts[1..] + [x];
      JoinWithSnoc(parts[1..], x, sep);
    }
  }
}
