/**
 * The few string operations of Python 2 that the daemon relies on, written out over
 * `seq<char>`: substring tests, `split`, `join`, `lower`, `startswith`, `%s` of an
 * integer, `int()` of a string, and string ordering (`<`).
 */
module Strings {
  import opened Wrappers

  /** `pat` occurs in `s` at index `i`. */
  predicate OccursAt(s: string, pat: string, i: int) {
    0 <= i && i + |pat| <= |s| && s[i..i + |pat|] == pat
  }

  /** `pat in s` for strings. */
  predicate Contains(s: string, pat: string) {
    exists i :: 0 <= i <= |s| && OccursAt(s, pat, i)
  }

  /** `s.startswith(pat)`. */
  predicate StartsWith(s: string, pat: string) {
    |pat| <= |s| && s[..|pat|] == pat
  }

  lemma ContainsAt(s: string, pat: string, i: nat)
    requires OccursAt(s, pat, i)
    ensures Contains(s, pat)
  {
  }

  /** A pattern whose first character never occurs in `s` does not occur in `s`. */
  lemma NotContainedFirst(s: string, pat: string)
    requires pat != [] && pat[0] !in s
    ensures !Contains(s, pat)
  {
    forall i | 0 <= i && i + |pat| <= |s|
      ensures !OccursAt(s, pat, i)
    {
      assert s[i..i + |pat|][0] == s[i];
    }
  }

  /** An occurrence cannot straddle a separator character that the pattern does not contain. */
  lemma NotContainedAround(a: string, c: char, b: string, pat: string)
    requires c !in pat && !Contains(a, pat) && !Contains(b, pat)
    ensures !Contains(a + [c] + b, pat)
  {
    var s := a + [c] + b;
    forall i | 0 <= i && i + |pat| <= |s|
      ensures !OccursAt(s, pat, i)
    {
      if i + |pat| <= |a| {
        assert s[i..i + |pat|] == a[i..i + |pat|];
        assert !OccursAt(a, pat, i);
      } else if i > |a| {
        var j := i - |a| - 1;
        assert s[i..i + |pat|] == b[j..j + |pat|];
        assert !OccursAt(b, pat, j);
      } else {
        assert s[i..i + |pat|][|a| - i] == c;
      }
    }
  }

  lemma NotContainedShort(s: string, pat: string)
    requires |s| < |pat|
    ensures !Contains(s, pat)
  {
  }

  // ---------------------------------------------------------------------------
  // split and join

  /** The pieces of `s` between characters of `seps`, empty pieces included (`s.split(c)` for `seps == {c}`). */
  function SplitOn(s: string, seps: set<char>): (r: seq<string>)
    ensures |r| >= 1
  {
    if s == [] then [[]]
    else
      var rest := SplitOn(s[1..], seps);
      if s[0] in seps then [[]] + rest else [[s[0]] + rest[0]] + rest[1..]
  }

  /** `s.split(c)`. */
  function Split(s: string, c: char): seq<string> {
    SplitOn(s, {c})
  }

  /** Splitting distributes over a separator. */
  lemma {:induction false} SplitOnAround(a: string, c: char, b: string, seps: set<char>)
    requires c in seps
    ensures SplitOn(a + [c] + b, seps) == SplitOn(a, seps) + SplitOn(b, seps)
    decreases |a|
  {
    if a == [] {
      assert a + [c] + b == [c] + b;
      assert ([c] + b)[1..] == b;
    } else {
      assert (a + [c] + b)[1..] == a[1..] + [c] + b;
      SplitOnAround(a[1..], c, b, seps);
    }
  }

  /** A string free of separators is a single piece. */
  lemma {:induction false} SplitOnNone(a: string, seps: set<char>)
    requires forall i :: 0 <= i < |a| ==> a[i] !in seps
    ensures SplitOn(a, seps) == [a]
    decreases |a|
  {
    if a != [] {
      SplitOnNone(a[1..], seps);
      assert [a[0]] + a[1..] == a;
    }
  }

  /** The piece after the last separator. */
  lemma LastPiece(a: string, c: char, b: string, seps: set<char>)
    requires c in seps && forall i :: 0 <= i < |b| ==> b[i] !in seps
    ensures var pieces := SplitOn(a + [c] + b, seps); pieces[|pieces| - 1] == b
  {
    SplitOnAround(a, c, b, seps);
    SplitOnNone(b, seps);
  }

  /** The piece before the first separator. */
  lemma FirstPiece(a: string, c: char, b: string, seps: set<char>)
    requires c in seps && forall i :: 0 <= i < |a| ==> a[i] !in seps
    ensures SplitOn(a + [c] + b, seps)[0] == a
  {
    SplitOnAround(a, c, b, seps);
    SplitOnNone(a, seps);
  }

  /** `c.join(parts)`. */
  function Join(parts: seq<string>, c: char): string {
    if parts == [] then []
    else if |parts| == 1 then parts[0]
    else parts[0] + [c] + Join(parts[1..], c)
  }

  /** `split` undoes `join` when no part holds the separator. */
  lemma {:induction false} SplitJoin(parts: seq<string>, c: char)
    requires parts != []
    requires forall k :: 0 <= k < |parts| ==> c !in parts[k]
    ensures Split(Join(parts, c), c) == parts
    decreases |parts|
  {
    SplitOnNone(parts[0], {c});
    if |parts| > 1 {
      SplitJoin(parts[1..], c);
      SplitOnAround(parts[0], c, Join(parts[1..], c), {c});
    }
  }

  /** `s.split(pat)[0]`: what precedes the first occurrence of `pat`, or all of `s`. */
  function Before(s: string, pat: string): (r: string)
    requires pat != []
    ensures |r| <= |s| && r == s[..|r|]
    decreases |s|
  {
    if |s| < |pat| then s
    else if s[..|pat|] == pat then []
    else [s[0]] + Before(s[1..], pat)
  }

  /**
   * Appending a pattern whose first character does not recur in it to a string free of
   * the pattern, and splitting on the pattern, gives the string back.
   */
  lemma {:induction false} BeforeAppended(h: string, pat: string)
    requires pat != [] && pat[0] !in pat[1..] && !Contains(h, pat)
    ensures Before(h + pat, pat) == h
    decreases |h|
  {
    var s := h + pat;
    if h == [] {
      assert s == pat;
    } else {
      if |h| >= |pat| {
        assert s[..|pat|] == h[..|pat|];
        assert !OccursAt(h, pat, 0);
      } else {
        assert s[..|pat|][|h|] == pat[0];
        assert pat[|h|] == pat[1..][|h| - 1];
      }
      assert !Contains(h[1..], pat) by {
        forall i | 0 <= i && i + |pat| <= |h[1..]| && OccursAt(h[1..], pat, i)
          ensures false
        {
          assert h[i + 1..i + 1 + |pat|] == h[1..][i..i + |pat|];
          ContainsAt(h, pat, i + 1);
        }
      }
      assert s[1..] == h[1..] + pat;
      BeforeAppended(h[1..], pat);
    }
  }

  /** `s[:-1]`: all but the last character; empty for the empty string. */
  function DropLast(s: string): (r: string)
    ensures |s| > 0 ==> s == r + [s[|s| - 1]]
  {
    if s == [] then [] else s[..|s| - 1]
  }

  /** `pieces[-1]`. */
  function Last(pieces: seq<string>): string
    requires pieces != []
  {
    pieces[|pieces| - 1]
  }

  // ---------------------------------------------------------------------------
  // whitespace split, strip, lower

  /** The characters Python 2's `str.split()` and `str.strip()` treat as whitespace. */
  const Whitespace: set<char> := {' ', '\t', '\n', '\r', '\U{000B}', '\U{000C}'}

  function NonEmpty(pieces: seq<string>): (r: seq<string>)
    ensures forall k :: 0 <= k < |r| ==> r[k] != []
  {
    if pieces == [] then []
    else if pieces[0] == [] then NonEmpty(pieces[1..])
    else [pieces[0]] + NonEmpty(pieces[1..])
  }

  lemma {:induction false} NonEmptyAppend(p: seq<string>, q: seq<string>)
    ensures NonEmpty(p + q) == NonEmpty(p) + NonEmpty(q)
    decreases |p|
  {
    if p != [] {
      assert (p + q)[0] == p[0];
      assert (p + q)[1..] == p[1..] + q;
      NonEmptyAppend(p[1..], q);
    } else {
      assert p + q == q;
    }
  }

  /** `s.split()`: the runs of non-whitespace characters. */
  function Words(s: string): seq<string> {
    NonEmpty(SplitOn(s, Whitespace))
  }

  /** The last word after a whitespace character is the whitespace-free tail. */
  lemma WordsEndingWith(a: string, t: string)
    requires t != [] && forall i :: 0 <= i < |t| ==> t[i] !in Whitespace
    ensures Words(a + [' '] + t) == Words(a) + [t]
  {
    SplitOnAround(a, ' ', t, Whitespace);
    SplitOnNone(t, Whitespace);
    NonEmptyAppend(SplitOn(a, Whitespace), [t]);
  }

  function StripLeft(s: string): (r: string)
    ensures |r| <= |s|
  {
    if s != [] && s[0] in Whitespace then StripLeft(s[1..]) else s
  }

  function StripRight(s: string): (r: string)
    ensures |r| <= |s|
  {
    if s != [] && s[|s| - 1] in Whitespace then StripRight(s[..|s| - 1]) else s
  }

  /** `s.strip()`. */
  function Strip(s: string): string {
    StripRight(StripLeft(s))
  }

  /** `c.lower()` for one character of a Python 2 byte string: ASCII letters only. */
  function LowerChar(c: char): char {
    if 'A' <= c <= 'Z' then (c as int - 'A' as int + 'a' as int) as char else c
  }

  /** `s.lower()`. */
  function Lower(s: string): (r: string)
    ensures |r| == |s|
    ensures forall i :: 0 <= i < |s| ==> r[i] == LowerChar(s[i])
  {
    if s == [] then [] else [LowerChar(s[0])] + Lower(s[1..])
  }

  // ---------------------------------------------------------------------------
  // integers as text

  predicate IsDigit(c: char) {
    '0' <= c <= '9'
  }

  function DigitChar(d: nat): char
    requires d < 10
  {
    ('0' as int + d) as char
  }

  /** The decimal digits of `n`, most significant first. */
  function NatToString(n: nat): (r: string)
    ensures r != []
    ensures forall i :: 0 <= i < |r| ==> IsDigit(r[i])
  {
    if n < 10 then [DigitChar(n)] else NatToString(n / 10) + [DigitChar(n % 10)]
  }

  /** `"%s" % n` for an integer `n`. */
  function IntToString(n: int): (r: string)
    ensures r != []
    ensures forall i :: 0 <= i < |r| ==> IsDigit(r[i]) || (i == 0 && r[i] == '-')
  {
    if n < 0 then "-" + NatToString(-n) else NatToString(n)
  }

  function DigitValue(c: char): nat
    requires IsDigit(c)
  {
    c as int - '0' as int
  }

  /** The value of a string of decimal digits. */
  function DigitsValue(s: string): nat
    requires forall i :: 0 <= i < |s| ==> IsDigit(s[i])
  {
    if s == [] then 0 else DigitsValue(s[..|s| - 1]) * 10 + DigitValue(s[|s| - 1])
  }

  function ParseDigits(s: string): Option<nat> {
    if s != [] && forall i :: 0 <= i < |s| ==> IsDigit(s[i]) then Some(DigitsValue(s)) else None
  }

  function Negated(r: Option<nat>): Option<int> {
    match r
    case Some(n) => Some(-(n as int))
    case None => None
  }

  function Widened(r: Option<nat>): Option<int> {
    match r
    case Some(n) => Some(n)
    case None => None
  }

  /** `int(s)`: surrounding whitespace, an optional sign, then decimal digits; `None` where Python raises. */
  function ParseInt(s: string): Option<int> {
    var t := Strip(s);
    if t != [] && t[0] == '-' then Negated(ParseDigits(t[1..]))
    else if t != [] && t[0] == '+' then Widened(ParseDigits(t[1..]))
    else Widened(ParseDigits(t))
  }

  lemma {:induction false} DigitsRoundTrip(n: nat)
    ensures DigitsValue(NatToString(n)) == n
  {
    if n >= 10 {
      var s := NatToString(n);
      assert s[..|s| - 1] == NatToString(n / 10);
      DigitsRoundTrip(n / 10);
    }
  }

  lemma StripClean(t: string)
    requires t != [] && t[0] !in Whitespace && t[|t| - 1] !in Whitespace
    ensures Strip(t) == t
  {
  }

  lemma ParseNatText(n: nat)
    ensures ParseDigits(NatToString(n)) == Some(n)
  {
    DigitsRoundTrip(n);
  }

  lemma NotWhitespace(c: char)
    requires IsDigit(c) || c == '-'
    ensures c !in Whitespace
  {
  }

  /** `int("%s" % n) == n`. */
  lemma ParseIntRoundTrip(n: int)
    ensures ParseInt(IntToString(n)) == Some(n)
  {
    var s := IntToString(n);
    NotWhitespace(s[0]);
    NotWhitespace(s[|s| - 1]);
    StripClean(s);
    if n < 0 {
      assert s[0] == '-' && s[1..] == NatToString(-n);
      ParseNatText(-n);
    } else {
      assert IsDigit(s[0]);
      ParseNatText(n);
    }
  }

  // ---------------------------------------------------------------------------
  // string ordering

  /** Python's `a < b` on strings: lexicographic by character, a proper prefix first. */
  predicate Below(a: string, b: string) {
    if a == [] then b != []
    else b != [] && (a[0] < b[0] || (a[0] == b[0] && Below(a[1..], b[1..])))
  }

  /** `a <= b`. */
  predicate NotAbove(a: string, b: string) {
    a == b || Below(a, b)
  }

  lemma {:induction false} BelowIrreflexive(a: string)
    ensures !Below(a, a)
    decreases |a|
  {
    if a != [] {
      BelowIrreflexive(a[1..]);
    }
  }

  lemma {:induction false} BelowTransitive(a: string, b: string, c: string)
    requires Below(a, b) && Below(b, c)
    ensures Below(a, c)
    decreases |a|
  {
    if a != [] && a[0] == b[0] && b[0] == c[0] {
      BelowTransitive(a[1..], b[1..], c[1..]);
    }
  }

  lemma {:induction false} BelowTotal(a: string, b: string)
    requires a != b
    ensures Below(a, b) || Below(b, a)
    decreases |a|
  {
    if a != [] && b != [] && a[0] == b[0] {
      assert a == [a[0]] + a[1..] && b == [b[0]] + b[1..];
      BelowTotal(a[1..], b[1..]);
    }
  }

  lemma BelowAsymmetric(a: string, b: string)
    requires Below(a, b)
    ensures !Below(b, a)
  {
    if Below(b, a) {
      BelowTransitive(a, b, a);
      BelowIrreflexive(a);
    }
  }
}
