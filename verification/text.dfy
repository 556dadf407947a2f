/** The string operations the scheduler relies on: `str.upper()`, the `in`
    substring test, `str.strip()`, `str.replace` of one character, and the
    decimal rendering of integers done by `str()` / `astype(str)`. */
module Text {

  function UpperChar(c: char): char {
    if 'a' <= c <= 'z' then (c as int - 32) as char else c
  }

  /** `s.upper()` on ASCII text. */
  function Upper(s: string): (r: string)
    ensures |r| == |s|
    ensures forall i :: 0 <= i < |s| ==> r[i] == UpperChar(s[i])
  {
    seq(|s|, i requires 0 <= i < |s| => UpperChar(s[i]))
  }

  /** `sub in s`. */
  predicate Contains(s: string, sub: string)
    decreases |s|
  {
    |sub| <= |s| && (s[..|sub|] == sub || Contains(s[1..], sub))
  }

  /** `sub` occurs in `s` starting at position `i`. */
  predicate OccursAt(s: string, sub: string, i: int) {
    0 <= i && i + |sub| <= |s| && s[i..i + |sub|] == sub
  }

  /** The explicit form of `Contains`: `sub` occurs at some position of `s`. */
  lemma {:induction false} ContainsIffOccurs(s: string, sub: string)
    ensures Contains(s, sub) <==> exists i :: OccursAt(s, sub, i)
    decreases |s|
  {
    if |sub| <= |s| && s[..|sub|] != sub {
      ContainsIffOccurs(s[1..], sub);
      if exists i :: OccursAt(s, sub, i) {
        var i :| OccursAt(s, sub, i);
        assert i != 0;
        assert s[1..][i - 1..i - 1 + |sub|] == s[i..i + |sub|];
        assert OccursAt(s[1..], sub, i - 1);
      }
      if exists i :: OccursAt(s[1..], sub, i) {
        var i :| OccursAt(s[1..], sub, i);
        assert s[i + 1..i + 1 + |sub|] == s[1..][i..i + |sub|];
        assert OccursAt(s, sub, i + 1);
      }
    } else if |sub| <= |s| {
      assert OccursAt(s, sub, 0);
    }
  }

  /** Looking for a one-character string is looking for the character. */
  lemma ContainsChar(s: string, c: char)
    ensures Contains(s, [c]) <==> c in s
  {
    ContainsIffOccurs(s, [c]);
    if c in s {
      var i :| 0 <= i < |s| && s[i] == c;
      assert OccursAt(s, [c], i);
    }
    if Contains(s, [c]) {
      var i :| OccursAt(s, [c], i);
      assert s[i..i + 1][0] == c;
    }
  }

  predicate IsLetter(c: char) {
    'a' <= c <= 'z' || 'A' <= c <= 'Z'
  }

  /** Where a pattern without letters occurs in the upper-cased text it
      occurs in the text, and the other way round. */
  lemma UpperKeepsLetterFreeOccurrence(s: string, sub: string, i: int)
    requires forall k :: 0 <= k < |sub| ==> !IsLetter(sub[k])
    ensures OccursAt(Upper(s), sub, i) <==> OccursAt(s, sub, i)
  {
    if OccursAt(Upper(s), sub, i) {
      forall k | 0 <= k < |sub|
        ensures s[i + k] == sub[k]
      {
        assert Upper(s)[i..i + |sub|][k] == sub[k];
        assert UpperChar(s[i + k]) == sub[k];
      }
      assert s[i..i + |sub|] == sub;
    }
    if OccursAt(s, sub, i) {
      forall k | 0 <= k < |sub|
        ensures Upper(s)[i + k] == sub[k]
      {
        assert s[i..i + |sub|][k] == sub[k];
      }
      assert Upper(s)[i..i + |sub|] == sub;
    }
  }

  /** A pattern without letters is found in the upper-cased text exactly when
      it is found in the text itself (so `'546' in reason.upper()` and
      `'1' in task.upper()` are plain substring tests). */
  lemma UpperKeepsLetterFreeMatches(s: string, sub: string)
    requires forall i :: 0 <= i < |sub| ==> !IsLetter(sub[i])
    ensures Contains(Upper(s), sub) <==> Contains(s, sub)
  {
    ContainsIffOccurs(Upper(s), sub);
    ContainsIffOccurs(s, sub);
    if Contains(Upper(s), sub) {
      var i :| OccursAt(Upper(s), sub, i);
      UpperKeepsLetterFreeOccurrence(s, sub, i);
    }
    if Contains(s, sub) {
      var i :| OccursAt(s, sub, i);
      UpperKeepsLetterFreeOccurrence(s, sub, i);
    }
  }

  /** The characters Python's `str.isspace()` accepts in the ASCII range. */
  predicate IsSpace(c: char) {
    c == ' ' || 9 <= c as int <= 13 || 28 <= c as int <= 31
  }

  function StripLeft(s: string): (r: string)
    ensures |r| <= |s| && r == s[|s| - |r|..]
    ensures forall i :: 0 <= i < |s| - |r| ==> IsSpace(s[i])
    ensures |r| > 0 ==> !IsSpace(r[0])
  {
    if |s| > 0 && IsSpace(s[0]) then StripLeft(s[1..]) else s
  }

  function StripRight(s: string): (r: string)
    ensures |r| <= |s| && r == s[..|r|]
    ensures forall i :: |r| <= i < |s| ==> IsSpace(s[i])
    ensures |r| > 0 ==> !IsSpace(r[|r| - 1])
  {
    if |s| > 0 && IsSpace(s[|s| - 1]) then StripRight(s[..|s| - 1]) else s
  }

  /** `r` is the slice of `s` at `lo` and all of `s` around it is white space. */
  predicate StrippedAt(s: string, r: string, lo: int) {
    0 <= lo <= |s| - |r| && r == s[lo..lo + |r|]
    && (forall i :: 0 <= i < lo ==> IsSpace(s[i]))
    && (forall i :: lo + |r| <= i < |s| ==> IsSpace(s[i]))
  }

  /** `s.strip()`: the slice of `s` left after removing leading and trailing
      white space. */
  function Strip(s: string): (r: string)
    ensures exists lo :: StrippedAt(s, r, lo)
    ensures |r| > 0 ==> !IsSpace(r[0]) && !IsSpace(r[|r| - 1])
  {
    var left := StripLeft(s);
    var r := StripRight(left);
    var lo := |s| - |left|;
    assert StrippedAt(s, r, lo);
    r
  }

  /** Text without white space at either end is left as it is. */
  lemma StripTrimmed(s: string)
    requires |s| > 0 ==> !IsSpace(s[0]) && !IsSpace(s[|s| - 1])
    ensures Strip(s) == s
  {
    assert StripLeft(s) == s;
    assert StripRight(s) == s;
  }

  /** `s.replace(a, b)` for one-character `a` and `b`: every occurrence is
      replaced, not only the first. */
  function ReplaceChar(s: string, a: char, b: char): (r: string)
    ensures |r| == |s|
    ensures forall i :: 0 <= i < |s| ==> r[i] == (if s[i] == a then b else s[i])
  {
    seq(|s|, i requires 0 <= i < |s| => if s[i] == a then b else s[i])
  }

  // ---------------------------------------------------------------------------
  // Decimal rendering
  // ---------------------------------------------------------------------------

  predicate IsDigit(c: char) {
    '0' <= c <= '9'
  }

  function Digit(n: nat): (c: char)
    requires n < 10
    ensures IsDigit(c)
  {
    ('0' as int + n) as char
  }

  /** `str(n)` for a natural number: its decimal digits, without leading zeros. */
  function NatToString(n: nat): (r: string)
    ensures |r| > 0
    ensures forall i :: 0 <= i < |r| ==> IsDigit(r[i])
    ensures |r| > 1 ==> r[0] != '0'
  {
    if n < 10 then [Digit(n)] else NatToString(n / 10) + [Digit(n % 10)]
  }

  /** `str(n)` for an integer. */
  function IntToString(n: int): (r: string)
    ensures |r| > 0
    ensures n >= 0 <==> r[0] != '-'
  {
    if n >= 0 then NatToString(n) else "-" + NatToString(-n)
  }

  function DigitValue(c: char): (n: nat)
    requires IsDigit(c)
    ensures n < 10
  {
    c as int - '0' as int
  }

  /** The value of a string of decimal digits: the partner of `NatToString`. */
  function ParseNat(s: string): nat
    requires forall i :: 0 <= i < |s| ==> IsDigit(s[i])
  {
    if |s| == 0 then 0 else 10 * ParseNat(s[..|s| - 1]) + DigitValue(s[|s| - 1])
  }

  /** Reading back the decimal rendering of `n` gives `n`. */
  lemma {:induction false} ParseNatToString(n: nat)
    ensures ParseNat(NatToString(n)) == n
  {
    if n >= 10 {
      ParseNatToString(n / 10);
      var s := NatToString(n);
      assert s[..|s| - 1] == NatToString(n / 10);
    }
  }

  /** Distinct numbers render as distinct strings. */
  lemma NatToStringInjective(a: nat, b: nat)
    requires NatToString(a) == NatToString(b)
    ensures a == b
  {
    ParseNatToString(a);
    ParseNatToString(b);
  }
}
