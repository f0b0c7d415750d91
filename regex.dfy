/**
 * The fragment of Python's `re` that the PII patterns use, with the
 * backtracking order of the `re` engine: every construct yields the list of
 * positions where a match of it starting at `i` can end, in the order the
 * engine tries them, and the match the engine reports is the first end that
 * lets the rest of the pattern succeed.
 */
module Regex {
  import opened Text
  import opened Wrappers

  /** A set of characters: a range `[lo-hi]`, `\d`, `\s`, or a union of classes. */
  datatype CharClass =
    | Range(lo: char, hi: char)
    | Digit
    | Space
    | Union(left: CharClass, right: CharClass)

  predicate InClass(c: char, cls: CharClass) {
    match cls
    case Range(lo, hi) => lo <= c <= hi
    case Digit => IsDigit(c)
    case Space => IsSpace(c)
    case Union(a, b) => InClass(c, a) || InClass(c, b)
  }

  /** The characters `\w` matches, as far as this model distinguishes them:
      ASCII letters, digits and `_`, and the Hangul syllables and jamo. */
  predicate IsWordChar(c: char) {
    || IsAsciiLetter(c) || IsDigit(c) || c == '_'
    || ('\U{AC00}' <= c <= '\U{D7A3}')
    || ('\U{1100}' <= c <= '\U{11FF}')
    || ('\U{3131}' <= c <= '\U{318E}')
  }

  datatype Re =
    | Atom(cls: CharClass)          // one character of the class
    | Cat(first: Re, second: Re)    // concatenation
    | Opt(body: Re)                 // greedy `?`
    | Star(starred: CharClass)      // greedy `*` over one class
    | NotAfterDigit                 // `(?<!\d)`
    | NotBeforeDigit                // `(?!\d)`
    | WordBoundary                  // `\b`

  /** The number of consecutive characters of `cls` from position `i`. */
  function Run(s: string, i: nat, cls: CharClass): (n: nat)
    requires i <= |s|
    ensures i + n <= |s|
    ensures forall k | i <= k < i + n :: InClass(s[k], cls)
    ensures i + n == |s| || !InClass(s[i + n], cls)
    decreases |s| - i
  {
    if i < |s| && InClass(s[i], cls) then 1 + Run(s, i + 1, cls) else 0
  }

  /** The ends of the matches of `r` that start at `i`, in the order tried. */
  function Ends(r: Re, s: string, i: nat): (es: seq<nat>)
    requires i <= |s|
    ensures forall k | 0 <= k < |es| :: i <= es[k] <= |s|
    decreases r, 1, 0
  {
    match r
    case Atom(cls) => if i < |s| && InClass(s[i], cls) then [i + 1] else []
    case Cat(a, b) => EndsFrom(b, s, Ends(a, s, i), i)
    case Opt(a) => Ends(a, s, i) + [i]
    case Star(cls) =>
      var n := Run(s, i, cls);
      seq(n + 1, k requires 0 <= k <= n => i + n - k)
    case NotAfterDigit => if i == 0 || !IsDigit(s[i - 1]) then [i] else []
    case NotBeforeDigit => if i == |s| || !IsDigit(s[i]) then [i] else []
    case WordBoundary =>
      if (i > 0 && IsWordChar(s[i - 1])) != (i < |s| && IsWordChar(s[i])) then [i] else []
  }

  /** The ends of `r` from each of `starts` in turn (all of them at least `lo`). */
  function EndsFrom(r: Re, s: string, starts: seq<nat>, lo: nat): (es: seq<nat>)
    requires forall k | 0 <= k < |starts| :: lo <= starts[k] <= |s|
    ensures forall k | 0 <= k < |es| :: lo <= es[k] <= |s|
    decreases r, 2, |starts|
  {
    if starts == [] then [] else Ends(r, s, starts[0]) + EndsFrom(r, s, starts[1..], lo)
  }

  /** `pattern.match(s, i)`: the end of the match the engine reports at `i`. */
  function MatchAt(r: Re, s: string, i: nat): (m: Option<nat>)
    requires i <= |s|
    ensures m.Some? ==> i <= m.value <= |s|
  {
    var es := Ends(r, s, i);
    if es == [] then None else Some(es[0])
  }

  /** An end of a concatenation is an end of its second part after an end of the first. */
  lemma {:induction false} EndsFromMember(r: Re, s: string, starts: seq<nat>, lo: nat, e: nat)
    requires forall k | 0 <= k < |starts| :: lo <= starts[k] <= |s|
    requires e in EndsFrom(r, s, starts, lo)
    ensures exists j | 0 <= j < |starts| :: e in Ends(r, s, starts[j])
    decreases |starts|
  {
    if e !in Ends(r, s, starts[0]) {
      EndsFromMember(r, s, starts[1..], lo, e);
      var j :| 0 <= j < |starts[1..]| && e in Ends(r, s, starts[1..][j]);
      assert starts[1..][j] == starts[j + 1];
    }
  }

  /** The least number of characters a match of `r` consumes. */
  function MinLen(r: Re): nat {
    match r
    case Atom(_) => 1
    case Cat(a, b) => MinLen(a) + MinLen(b)
    case Opt(_) => 0
    case Star(_) => 0
    case NotAfterDigit => 0
    case NotBeforeDigit => 0
    case WordBoundary => 0
  }

  /** Every match of `r` is at least MinLen(r) characters long. */
  lemma {:induction false} EndsAtLeastMinLen(r: Re, s: string, i: nat, e: nat)
    requires i <= |s| && e in Ends(r, s, i)
    ensures e >= i + MinLen(r)
    decreases r
  {
    match r
    case Cat(a, b) =>
      var ms := Ends(a, s, i);
      EndsFromMember(b, s, ms, i, e);
      var j :| 0 <= j < |ms| && e in Ends(b, s, ms[j]);
      EndsAtLeastMinLen(a, s, i, ms[j]);
      EndsAtLeastMinLen(b, s, ms[j], e);
    case Opt(a) =>
    case _ =>
  }

  /** The most characters a match of `r` can consume; None when unbounded. */
  function MaxLen(r: Re): Option<nat> {
    match r
    case Atom(_) => Some(1)
    case Cat(a, b) =>
      if MaxLen(a).Some? && MaxLen(b).Some? then Some(MaxLen(a).value + MaxLen(b).value) else None
    case Opt(a) => MaxLen(a)
    case Star(_) => None
    case NotAfterDigit => Some(0)
    case NotBeforeDigit => Some(0)
    case WordBoundary => Some(0)
  }

  /** Every match of a bounded `r` is at most MaxLen(r) characters long. */
  lemma {:induction false} EndsAtMostMaxLen(r: Re, s: string, i: nat, e: nat)
    requires i <= |s| && e in Ends(r, s, i) && MaxLen(r).Some?
    ensures e <= i + MaxLen(r).value
    decreases r
  {
    match r
    case Cat(a, b) =>
      var ms := Ends(a, s, i);
      EndsFromMember(b, s, ms, i, e);
      var j :| 0 <= j < |ms| && e in Ends(b, s, ms[j]);
      EndsAtMostMaxLen(a, s, i, ms[j]);
      EndsAtMostMaxLen(b, s, ms[j], e);
    case Opt(a) =>
      if e in Ends(a, s, i) {
        EndsAtMostMaxLen(a, s, i, e);
      }
    case _ =>
  }

  /** Whether some character-consuming part of `r` accepts `c`. */
  predicate Uses(r: Re, c: char) {
    match r
    case Atom(cls) => InClass(c, cls)
    case Cat(a, b) => Uses(a, c) || Uses(b, c)
    case Opt(a) => Uses(a, c)
    case Star(cls) => InClass(c, cls)
    case NotAfterDigit => false
    case NotBeforeDigit => false
    case WordBoundary => false
  }

  /** A match of `r` consists of characters that some part of `r` accepts. */
  lemma {:induction false} EndsUseOnly(r: Re, s: string, i: nat, e: nat, k: nat)
    requires i <= |s| && e in Ends(r, s, i) && i <= k < e
    ensures Uses(r, s[k])
    decreases r
  {
    match r
    case Atom(_) =>
    case Cat(a, b) =>
      var ms := Ends(a, s, i);
      EndsFromMember(b, s, ms, i, e);
      var j :| 0 <= j < |ms| && e in Ends(b, s, ms[j]);
      if k < ms[j] {
        EndsUseOnly(a, s, i, ms[j], k);
      } else {
        EndsUseOnly(b, s, ms[j], e, k);
      }
    case Opt(a) =>
      EndsUseOnly(a, s, i, e, k);
    case Star(cls) =>
      var n := Run(s, i, cls);
      var es := Ends(r, s, i);
      var t :| 0 <= t < |es| && es[t] == e;
      assert e == i + n - t;
    case NotAfterDigit =>
    case NotBeforeDigit =>
    case WordBoundary =>
  }

  /** The match the engine reports is between the least and the most length
      of the pattern, and consists of characters the pattern accepts. */
  lemma MatchShape(r: Re, s: string, i: nat)
    requires i <= |s| && MatchAt(r, s, i).Some?
    ensures MatchAt(r, s, i).value - i >= MinLen(r)
    ensures MaxLen(r).Some? ==> MatchAt(r, s, i).value - i <= MaxLen(r).value
    ensures forall k | i <= k < MatchAt(r, s, i).value :: Uses(r, s[k])
  {
    var e := MatchAt(r, s, i).value;
    EndsAtLeastMinLen(r, s, i, e);
    if MaxLen(r).Some? {
      EndsAtMostMaxLen(r, s, i, e);
    }
    forall k | i <= k < e
      ensures Uses(r, s[k])
    {
      EndsUseOnly(r, s, i, e, k);
    }
  }

  /** `?` is greedy: the engine first tries the optional part and skips it only
      when it does not match. */
  lemma OptTriesBodyFirst(a: Re, s: string, i: nat)
    requires i <= |s|
    ensures MatchAt(Opt(a), s, i) == if MatchAt(a, s, i).Some? then MatchAt(a, s, i) else Some(i)
  {
  }

  /** `*` is greedy: on its own it takes the whole run of class characters. */
  lemma StarIsGreedy(cls: CharClass, s: string, i: nat)
    requires i <= |s|
    ensures MatchAt(Star(cls), s, i) == Some(i + Run(s, i, cls))
  {
  }

  /** A pattern framed as `(?<!\d)body(?!\d)`. */
  function DigitFramed(body: Re): Re {
    Cat(NotAfterDigit, Cat(body, NotBeforeDigit))
  }

  /** `(?<!\d)rest` matches like `rest` where no digit precedes, and nowhere else. */
  lemma NotAfterDigitThen(rest: Re, s: string, i: nat)
    requires i <= |s|
    ensures Ends(Cat(NotAfterDigit, rest), s, i)
         == if i == 0 || !IsDigit(s[i - 1]) then Ends(rest, s, i) else []
  {
    if i == 0 || !IsDigit(s[i - 1]) {
      assert Ends(NotAfterDigit, s, i) == [i];
      assert EndsFrom(rest, s, [i], i) == Ends(rest, s, i) + EndsFrom(rest, s, [], i);
    }
  }

  /** A match of anything followed by `(?!\d)` ends before a non-digit. */
  lemma NotBeforeDigitHolds(body: Re, s: string, i: nat, e: nat)
    requires i <= |s| && e in Ends(Cat(body, NotBeforeDigit), s, i)
    ensures e == |s| || !IsDigit(s[e])
  {
    var ns := Ends(body, s, i);
    EndsFromMember(NotBeforeDigit, s, ns, i, e);
  }

  /** A match of a digit-framed pattern is neither preceded nor followed by a digit. */
  lemma DigitFramedBoundaries(body: Re, s: string, i: nat)
    requires i <= |s| && MatchAt(DigitFramed(body), s, i).Some?
    ensures i == 0 || !IsDigit(s[i - 1])
    ensures var e := MatchAt(DigitFramed(body), s, i).value; e == |s| || !IsDigit(s[e])
  {
    var inner := Cat(body, NotBeforeDigit);
    var e := MatchAt(DigitFramed(body), s, i).value;
    NotAfterDigitThen(inner, s, i);
    NotBeforeDigitHolds(body, s, i, e);
  }

  /** A match of a pattern that consumes at least one character moves forward. */
  lemma MatchConsumes(r: Re, s: string, i: nat)
    requires MinLen(r) >= 1 && i <= |s| && MatchAt(r, s, i).Some?
    ensures MatchAt(r, s, i).value > i
  {
    EndsAtLeastMinLen(r, s, i, MatchAt(r, s, i).value);
  }
}
