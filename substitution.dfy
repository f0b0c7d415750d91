/**
 * `pattern.sub(repl, s)` for a pattern that never matches the empty string
 * and a callback that always returns the same replacement. The scan is
 * stated over a table giving, for every position, where the match of the
 * pattern starting there ends (`pattern.match(s, q)`), so that the scan's
 * properties hold for any pattern; `MatchTable` fills the table in from the
 * regular-expression model.
 */
module Substitution {
  import opened Wrappers
  import opened Regex

  /** A table of match ends for a text of length `n`: the match starting at
      `q`, if any, ends after `q` and within the text. */
  predicate IsMatchTable(ms: seq<Option<nat>>, n: nat) {
    |ms| == n && forall q | 0 <= q < n :: ms[q].Some? ==> q < ms[q].value <= n
  }

  /** Every match of a pattern that consumes at least one character moves forward. */
  lemma AllMatchesConsume(r: Re, s: string)
    requires MinLen(r) >= 1
    ensures forall q | 0 <= q < |s| :: MatchAt(r, s, q).Some? ==> q < MatchAt(r, s, q).value
  {
    forall q | 0 <= q < |s| && MatchAt(r, s, q).Some?
      ensures q < MatchAt(r, s, q).value
    {
      MatchConsumes(r, s, q);
    }
  }

  /** `pattern.match(s, q)` for every position `q` of `s`. */
  function MatchTable(r: Re, s: string): (ms: seq<Option<nat>>)
    requires MinLen(r) >= 1
    ensures IsMatchTable(ms, |s|)
    ensures forall q | 0 <= q < |s| :: ms[q] == MatchAt(r, s, q)
  {
    AllMatchesConsume(r, s);
    seq(|s|, q requires 0 <= q < |s| => MatchAt(r, s, q))
  }

  /** The scan from `pos` on: the output and the number of matches replaced.
      It tries a match at each position from left to right; after a match it
      resumes where the match ended, so matches never overlap. */
  function SubFrom(ms: seq<Option<nat>>, rep: string, s: string, pos: nat): (out: (string, nat))
    requires IsMatchTable(ms, |s|) && pos <= |s|
    ensures out.1 <= |s| - pos
    decreases |s| - pos
  {
    if pos == |s| then ("", 0)
    else match ms[pos]
      case Some(e) =>
        var rest := SubFrom(ms, rep, s, e);
        (rep + rest.0, rest.1 + 1)
      case None =>
        var rest := SubFrom(ms, rep, s, pos + 1);
        ([s[pos]] + rest.0, rest.1)
  }

  /** `pattern.sub(lambda _: rep, s)`: the output and the number of calls of the callback. */
  function Sub(r: Re, rep: string, s: string): (out: (string, nat))
    requires MinLen(r) >= 1
    ensures out.1 <= |s|
    ensures out.1 == 0 <==> forall q | 0 <= q < |s| :: MatchAt(r, s, q).None?
    ensures out.1 == 0 ==> out.0 == s
  {
    var ms := MatchTable(r, s);
    SubFromCountZero(ms, rep, s, 0);
    var out := SubFrom(ms, rep, s, 0);
    if out.1 == 0 then SubFromNoMatch(ms, rep, s, 0); out else out
  }

  /** The scan replaces nothing exactly when no match starts at any position it passes. */
  lemma {:induction false} SubFromCountZero(ms: seq<Option<nat>>, rep: string, s: string, pos: nat)
    requires IsMatchTable(ms, |s|) && pos <= |s|
    ensures SubFrom(ms, rep, s, pos).1 == 0 <==> forall q | pos <= q < |s| :: ms[q].None?
    decreases |s| - pos
  {
    if pos < |s| {
      SubFromCountZero(ms, rep, s, pos + 1);
    }
  }

  /** A scan that replaces nothing leaves the text as it was. */
  lemma {:induction false} SubFromNoMatch(ms: seq<Option<nat>>, rep: string, s: string, pos: nat)
    requires IsMatchTable(ms, |s|) && pos <= |s| && SubFrom(ms, rep, s, pos).1 == 0
    ensures SubFrom(ms, rep, s, pos).0 == s[pos..]
    decreases |s| - pos
  {
    if pos < |s| {
      assert ms[pos].None?;
      SubFromNoMatch(ms, rep, s, pos + 1);
      assert s[pos..] == [s[pos]] + s[pos + 1..];
    }
  }

  /** Text before the next match is copied unchanged: if no match starts in
      `[pos, j)`, the output from `pos` is `s[pos..j]` followed by the output
      from `j`, with the same count. */
  lemma {:induction false} SubFromCopiesGap(ms: seq<Option<nat>>, rep: string, s: string, pos: nat, j: nat)
    requires IsMatchTable(ms, |s|) && pos <= j <= |s|
    requires forall q | pos <= q < j :: ms[q].None?
    ensures SubFrom(ms, rep, s, pos).0 == s[pos..j] + SubFrom(ms, rep, s, j).0
    ensures SubFrom(ms, rep, s, pos).1 == SubFrom(ms, rep, s, j).1
    decreases j - pos
  {
    if pos < j {
      assert ms[pos].None?;
      SubFromCopiesGap(ms, rep, s, pos + 1, j);
      assert s[pos..j] == [s[pos]] + s[pos + 1..j];
    }
  }

  /** A match found at `pos` is replaced by exactly `rep`, counted once, and
      the scan resumes where the match ended. */
  lemma SubFromReplacesMatch(ms: seq<Option<nat>>, rep: string, s: string, pos: nat)
    requires IsMatchTable(ms, |s|) && pos < |s| && ms[pos].Some?
    ensures pos < ms[pos].value <= |s|
    ensures SubFrom(ms, rep, s, pos).0 == rep + SubFrom(ms, rep, s, ms[pos].value).0
    ensures SubFrom(ms, rep, s, pos).1 == SubFrom(ms, rep, s, ms[pos].value).1 + 1
  {
  }

  /** The text up to the next match is kept, the match becomes `rep`, and the
      scan goes on after it. */
  lemma SubFromGapThenMatch(ms: seq<Option<nat>>, rep: string, s: string, pos: nat, j: nat)
    requires IsMatchTable(ms, |s|) && pos <= j < |s| && ms[j].Some?
    requires forall q | pos <= q < j :: ms[q].None?
    ensures SubFrom(ms, rep, s, pos).0 == s[pos..j] + rep + SubFrom(ms, rep, s, ms[j].value).0
    ensures SubFrom(ms, rep, s, pos).1 == SubFrom(ms, rep, s, ms[j].value).1 + 1
  {
    SubFromCopiesGap(ms, rep, s, pos, j);
    SubFromReplacesMatch(ms, rep, s, j);
  }
}
