/**
 * The Python string operations the backend relies on: `str.isspace`,
 * `str.strip()`, `str.strip(c)`, `str.lower()`, `str.startswith`, the `in`
 * substring test, `str(int)` and `int(str)`.
 */
module Text {
  import opened Wrappers

  /** `str.isspace()` for one character: the whitespace characters of Python 3
      (also what `\s` matches in a `str` pattern and what `str.strip()` drops). */
  predicate IsSpace(c: char) {
    || ('\t' <= c <= '\r')
    || ('\U{1C}' <= c <= '\U{1F}')
    || c == ' ' || c == '\U{85}' || c == '\U{A0}' || c == '\U{1680}'
    || ('\U{2000}' <= c <= '\U{200A}')
    || c == '\U{2028}' || c == '\U{2029}' || c == '\U{202F}' || c == '\U{205F}' || c == '\U{3000}'
  }

  /** ASCII decimal digit (`\d`, `str.isdigit` restricted to ASCII). */
  predicate IsDigit(c: char) { '0' <= c <= '9' }

  predicate IsAsciiUpper(c: char) { 'A' <= c <= 'Z' }

  predicate IsAsciiLetter(c: char) { 'A' <= c <= 'Z' || 'a' <= c <= 'z' }

  /** `str.lower()` on one character, for the ASCII range. */
  function LowerChar(c: char): (r: char)
    ensures IsAsciiUpper(c) ==> r as int == c as int + 32
    ensures !IsAsciiUpper(c) ==> r == c
  {
    if IsAsciiUpper(c) then (c as int + 32) as char else c
  }

  /** `str.lower()`, character by character. */
  function Lower(s: string): (r: string)
    ensures |r| == |s|
    ensures forall k | 0 <= k < |r| :: !IsAsciiUpper(r[k])
  {
    seq(|s|, k requires 0 <= k < |s| => LowerChar(s[k]))
  }

  /** The characters a strip removes: whitespace, or one given character. */
  datatype Chars = Spaces | Only(c: char)

  predicate Drops(drop: Chars, x: char) {
    match drop
    case Spaces => IsSpace(x)
    case Only(c) => x == c
  }

  /** Drops the longest prefix whose characters all belong to `drop`. */
  function TrimStart(s: string, drop: Chars): (r: string)
    ensures |r| <= |s|
  {
    if s != [] && Drops(drop, s[0]) then TrimStart(s[1..], drop) else s
  }

  /** What TrimStart keeps is a suffix of `s`, everything before it is in
      `drop`, and it does not itself start with a character of `drop`. */
  lemma {:induction false} TrimStartShape(s: string, drop: Chars)
    ensures var r := TrimStart(s, drop);
      && r == s[|s| - |r|..]
      && (forall k | 0 <= k < |s| - |r| :: Drops(drop, s[k]))
      && (r == [] || !Drops(drop, r[0]))
  {
    if s != [] && Drops(drop, s[0]) {
      TrimStartShape(s[1..], drop);
      var r := TrimStart(s[1..], drop);
      assert s[1..][|s| - 1 - |r|..] == s[|s| - |r|..];
      forall k | 1 <= k < |s| - |r|
        ensures Drops(drop, s[k])
      {
        assert s[1..][k - 1] == s[k];
      }
    }
  }

  /** Drops the longest suffix whose characters all belong to `drop`. */
  function TrimEnd(s: string, drop: Chars): (r: string)
    ensures |r| <= |s|
  {
    if s != [] && Drops(drop, s[|s| - 1]) then TrimEnd(s[..|s| - 1], drop) else s
  }

  /** What TrimEnd keeps is a prefix of `s`, everything after it is in
      `drop`, and it does not itself end with a character of `drop`. */
  lemma {:induction false} TrimEndShape(s: string, drop: Chars)
    ensures var r := TrimEnd(s, drop);
      && r == s[..|r|]
      && (forall k | |r| <= k < |s| :: Drops(drop, s[k]))
      && (r == [] || !Drops(drop, r[|r| - 1]))
  {
    if s != [] && Drops(drop, s[|s| - 1]) {
      var t := s[..|s| - 1];
      TrimEndShape(t, drop);
      var r := TrimEnd(t, drop);
      assert t[..|r|] == s[..|r|];
      forall k | |r| <= k < |s| - 1
        ensures Drops(drop, s[k])
      {
        assert t[k] == s[k];
      }
    }
  }

  /** `str.strip(chars)`: both ends, as many characters of `drop` as there are. */
  function StripBy(s: string, drop: Chars): (r: string)
    ensures |r| <= |s|
    ensures r == [] || (!Drops(drop, r[0]) && !Drops(drop, r[|r| - 1]))
  {
    var t := TrimStart(s, drop);
    TrimStartShape(s, drop);
    TrimEndShape(t, drop);
    var r := TrimEnd(t, drop);
    assert r != [] ==> r[0] == t[0];
    r
  }

  /** `str.strip()` (whitespace). */
  function Strip(s: string): (r: string)
    ensures |r| <= |s|
    ensures r == [] || (!IsSpace(r[0]) && !IsSpace(r[|r| - 1]))
  {
    StripBy(s, Spaces)
  }

  /** `str.strip(c)` for a one-character argument. */
  function StripChar(s: string, c: char): string { StripBy(s, Only(c)) }

  /** A string with neither end in `drop` is left alone by StripBy. */
  lemma StripByKeeps(s: string, drop: Chars)
    requires s == [] || (!Drops(drop, s[0]) && !Drops(drop, s[|s| - 1]))
    ensures StripBy(s, drop) == s
  {
  }

  /** The characterisation of StripBy: what is kept is a contiguous slice, and
      exactly the characters of `drop` at both ends are dropped. */
  lemma {:induction false} StripBySlice(s: string, drop: Chars)
    ensures exists i | 0 <= i <= |s| :: KeptSlice(s, StripBy(s, drop), i, drop)
  {
    var t := TrimStart(s, drop);
    var i := |s| - |t|;
    var r := TrimEnd(t, drop);
    TrimStartShape(s, drop);
    TrimEndShape(t, drop);
    assert t == s[i..];
    assert s[i..i + |r|] == r by {
      assert s[i..][..|r|] == s[i..i + |r|];
    }
    forall k | i + |r| <= k < |s|
      ensures Drops(drop, s[k])
    {
      assert t[k - i] == s[k];
    }
    assert StripBy(s, drop) == r;
    assert KeptSlice(s, r, i, drop);
  }

  /** `r` is `s[i..i + |r|]` and every character of `s` outside it is in `drop`. */
  ghost predicate KeptSlice(s: string, r: string, i: nat, drop: Chars) {
    && i + |r| <= |s| && s[i..i + |r|] == r
    && (forall k | 0 <= k < i :: Drops(drop, s[k]))
    && (forall k | i + |r| <= k < |s| :: Drops(drop, s[k]))
  }

  /** A character absent from `s` is absent from its strip. */
  lemma StripAbsent(s: string, drop: Chars, c: char)
    requires c !in s
    ensures c !in StripBy(s, drop)
  {
    StripBySlice(s, drop);
    var i :| 0 <= i <= |s| && KeptSlice(s, StripBy(s, drop), i, drop);
  }

  lemma StripIdempotent(s: string, drop: Chars)
    ensures StripBy(StripBy(s, drop), drop) == StripBy(s, drop)
  {
    StripByKeeps(StripBy(s, drop), drop);
  }

  predicate StartsWith(s: string, w: string) { |w| <= |s| && s[..|w|] == w }

  predicate EndsWith(s: string, w: string) { |w| <= |s| && s[|s| - |w|..] == w }

  /** Python's `w in s` for strings. */
  predicate Contains(s: string, w: string) {
    exists i | 0 <= i <= |s| :: OccursAt(s, w, i)
  }

  predicate OccursAt(s: string, w: string, i: nat) {
    i + |w| <= |s| && s[i..i + |w|] == w
  }

  lemma ContainsInfix(a: string, w: string, b: string)
    ensures Contains(a + w + b, w)
  {
    var s := a + w + b;
    assert s[|a|..|a| + |w|] == w;
    assert OccursAt(s, w, |a|);
  }

  /** The index of the first occurrence of `c`, as `str.find` / `str.split(c, 1)` use it. */
  function IndexOf(s: string, c: char): (r: Option<nat>)
    ensures r.None? <==> c !in s
    ensures r.Some? ==> r.value < |s| && s[r.value] == c && c !in s[..r.value]
  {
    if s == [] then None
    else if s[0] == c then Some(0)
    else match IndexOf(s[1..], c)
      case None => None
      case Some(i) =>
        assert s[1..][..i] == s[1..i + 1];
        Some(i + 1)
  }

  function DigitChar(d: nat): char
    requires d < 10
  {
    ('0' as int + d) as char
  }

  function DigitValue(c: char): nat
    requires IsDigit(c)
  {
    c as int - '0' as int
  }

  predicate AllDigits(s: string) { forall k | 0 <= k < |s| :: IsDigit(s[k]) }

  /** The decimal digits of `n`, most significant first, without leading zeros. */
  function NatToString(n: nat): (r: string)
    ensures r != [] && AllDigits(r)
    ensures |r| > 1 ==> r[0] != '0'
  {
    if n < 10 then [DigitChar(n)] else NatToString(n / 10) + [DigitChar(n % 10)]
  }

  /** `str(n)` for an `int`. */
  function IntToString(n: int): (r: string)
    ensures r != []
    ensures forall k | 0 <= k < |r| :: IsDigit(r[k]) || r[k] == '-'
    ensures r[0] == '-' <==> n < 0
    ensures n >= 0 ==> AllDigits(r)
  {
    if n < 0 then "-" + NatToString(-n) else NatToString(n)
  }

  /** The value of a string of decimal digits. */
  function DigitsValue(s: string): nat
    requires AllDigits(s)
  {
    if s == [] then 0 else DigitsValue(s[..|s| - 1]) * 10 + DigitValue(s[|s| - 1])
  }

  predicate IsSign(c: char) { c == '-' || c == '+' }

  /** A decimal numeral: ASCII digits, possibly after one sign, ending in a digit. */
  predicate IsNumeral(t: string) {
    && t != [] && IsDigit(t[|t| - 1])
    && forall k | 0 <= k < |t| :: IsDigit(t[k]) || (k == 0 && IsSign(t[k]))
  }

  /** The value of a numeral; None for anything else. */
  function ParseNumeral(t: string): (r: Option<int>)
    ensures r.Some? <==> IsNumeral(t)
  {
    assert forall k | 1 <= k < |t| :: t[1..][k - 1] == t[k];
    if t != [] && (t[0] == '-' || t[0] == '+') then
      if |t| > 1 && AllDigits(t[1..]) then
        Some(if t[0] == '-' then -(DigitsValue(t[1..]) as int) else DigitsValue(t[1..]))
      else None
    else if t != [] && AllDigits(t) then Some(DigitsValue(t))
    else None
  }

  /** `int(s)` for base 10: surrounding whitespace around a numeral; anything
      else is the `ValueError` case. */
  function ParseInt(s: string): (r: Option<int>)
    ensures r.Some? <==> IsNumeral(Strip(s))
  {
    ParseNumeral(Strip(s))
  }

  lemma {:induction false} DigitsValueOfNat(n: nat)
    ensures DigitsValue(NatToString(n)) == n
  {
    if n >= 10 {
      var p := NatToString(n / 10);
      var s := p + [DigitChar(n % 10)];
      assert s[..|s| - 1] == p;
      DigitsValueOfNat(n / 10);
    }
  }

  /** `int(str(n)) == n`. */
  lemma ParseIntOfIntToString(n: int)
    ensures ParseInt(IntToString(n)) == Some(n)
  {
    StripOfIntToString(n);
    if n < 0 {
      NumeralOfNegative(-n);
    } else {
      NumeralOfNat(n);
    }
  }

  lemma NumeralOfNat(m: nat)
    ensures ParseNumeral(NatToString(m)) == Some(m)
  {
    var t := NatToString(m);
    assert IsDigit(t[0]);
    DigitsValueOfNat(m);
  }

  lemma NumeralOfNegative(m: nat)
    requires m > 0
    ensures ParseNumeral("-" + NatToString(m)) == Some(-(m as int))
  {
    var t := "-" + NatToString(m);
    assert t[1..] == NatToString(m);
    DigitsValueOfNat(m);
  }

  lemma StripOfIntToString(n: int)
    ensures Strip(IntToString(n)) == IntToString(n)
  {
    var s := IntToString(n);
    assert IsDigit(s[0]) || s[0] == '-';
    assert IsDigit(s[|s| - 1]);
    StripByKeeps(s, Spaces);
  }

  /** `int(s)` never accepts a string with a character other than a digit, a
      sign or surrounding whitespace. */
  lemma ParseIntRejectsLetters(s: string, k: nat)
    requires k < |Strip(s)| && !IsDigit(Strip(s)[k]) && Strip(s)[k] != '-' && Strip(s)[k] != '+'
    ensures ParseInt(s) == None
  {
    var t := Strip(s);
    assert !IsDigit(t[k]);
    if k > 0 { assert t[1..][k - 1] == t[k]; }
  }
}
