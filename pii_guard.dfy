/**
 * The PII masker: five patterns applied in a fixed order, each pass
 * substituting the leftmost non-overlapping matches in the output of the
 * previous pass, while one counter and one duplicate-free list of type names
 * record what was replaced.
 */
module PiiGuard {
  import opened Text
  import opened Wrappers
  import opened Regex
  import opened Substitution

  datatype PiiKind = Email | Phone | Rrn | BusinessNo | CardNo

  /** The order of `PII_PATTERNS`. */
  const PiiPatterns: seq<PiiKind> := [Email, Phone, Rrn, BusinessNo, CardNo]

  /** The type name recorded in `detected_types`. */
  function TypeName(k: PiiKind): string {
    match k
    case Email => "email"
    case Phone => "phone"
    case Rrn => "rrn"
    case BusinessNo => "business_no"
    case CardNo => "card_no"
  }

  /** The bracketed tag a match is replaced by. */
  function Tag(k: PiiKind): string {
    match k
    case Email => "[이메일]"
    case Phone => "[휴대전화]"
    case Rrn => "[주민번호]"
    case BusinessNo => "[사업자번호]"
    case CardNo => "[카드번호]"
  }

  const D: Re := Atom(Digit)
  const D2: Re := Cat(D, D)
  const D3: Re := Cat(D, D2)
  const D4: Re := Cat(D2, D2)
  const D5: Re := Cat(D, D4)
  const D6: Re := Cat(D3, D3)
  const Letters: CharClass := Union(Range('A', 'Z'), Range('a', 'z'))
  const Alnum: CharClass := Union(Letters, Range('0', '9'))
  /** `[-\s]` */
  const Separator: CharClass := Union(Range('-', '-'), Space)

  function Lit(c: char): Re { Atom(Range(c, c)) }

  /** `x+`, greedy. */
  function Plus(cls: CharClass): Re { Cat(Atom(cls), Star(cls)) }

  /** `\b[A-Za-z0-9._%+-]+@[A-Za-z0-9.-]+\.[A-Za-z]{2,}\b` */
  const EmailPattern: Re :=
    var local := Union(Alnum, Union(Union(Range('.', '.'), Range('_', '_')),
                                    Union(Range('%', '%'), Union(Range('+', '+'), Range('-', '-')))));
    var domain := Union(Alnum, Union(Range('.', '.'), Range('-', '-')));
    Cat(WordBoundary, Cat(Plus(local), Cat(Lit('@'), Cat(Plus(domain), Cat(Lit('.'),
      Cat(Atom(Letters), Cat(Atom(Letters), Cat(Star(Letters), WordBoundary))))))))

  /** `(?:\+?82[-\s]?)?0?1[016789][-\s]?\d{3,4}[-\s]?\d{4}` */
  const PhoneBody: Re :=
    var country := Cat(Opt(Lit('+')), Cat(Lit('8'), Cat(Lit('2'), Opt(Atom(Separator)))));
    Cat(Opt(country), Cat(Opt(Lit('0')), Cat(Lit('1'),
      Cat(Atom(Union(Range('0', '1'), Range('6', '9'))), Cat(Opt(Atom(Separator)),
      Cat(D3, Cat(Opt(D), Cat(Opt(Atom(Separator)), D4))))))))

  /** `\d{6}-?[1-4]\d{6}` */
  const RrnBody: Re := Cat(D6, Cat(Opt(Lit('-')), Cat(Atom(Range('1', '4')), D6)))

  /** `\d{3}-\d{2}-\d{5}` */
  const BusinessNoBody: Re := Cat(D3, Cat(Lit('-'), Cat(D2, Cat(Lit('-'), D5))))

  /** `(?:\d{4}[-\s]?){3}\d{4}` */
  const CardNoBody: Re :=
    var group := Cat(D4, Opt(Atom(Separator)));
    Cat(group, Cat(group, Cat(group, D4)))

  /** The part of a digit-based pattern inside its `(?<!\d)`…`(?!\d)` frame. */
  function DigitBody(k: PiiKind): Re
    requires k != Email
  {
    match k
    case Phone => PhoneBody
    case Rrn => RrnBody
    case BusinessNo => BusinessNoBody
    case CardNo => CardNoBody
  }

  /** The compiled pattern of each kind. None matches the empty string, so
      every match consumes at least one character. */
  function Pattern(k: PiiKind): (r: Re)
    ensures MinLen(r) >= 1
  {
    if k == Email then EmailPattern else DigitFramed(DigitBody(k))
  }

  /** Digit-based patterns match only where no digit touches the match. */
  lemma DigitPatternBoundaries(k: PiiKind, s: string, i: nat)
    requires k != Email && i <= |s| && MatchAt(Pattern(k), s, i).Some?
    ensures i == 0 || !IsDigit(s[i - 1])
    ensures var e := MatchAt(Pattern(k), s, i).value; e == |s| || !IsDigit(s[e])
  {
    DigitFramedBoundaries(DigitBody(k), s, i);
  }

  // The lemmas below read the length and the alphabet of every match off
  // each compiled pattern.

  lemma DigitRunsUseDigits(c: char)
    ensures Uses(D, c) || Uses(D2, c) || Uses(D3, c) || Uses(D4, c) || Uses(D5, c) || Uses(D6, c)
            ==> IsDigit(c)
  {
    assert Uses(D, c) == IsDigit(c);
    assert Uses(D2, c) == Uses(D, c);
    assert Uses(D3, c) == (Uses(D, c) || Uses(D2, c));
    assert Uses(D4, c) == Uses(D2, c);
    assert Uses(D5, c) == (Uses(D, c) || Uses(D4, c));
    assert Uses(D6, c) == Uses(D3, c);
  }

  lemma LitUses(x: char, c: char)
    ensures Uses(Lit(x), c) == (c == x)
    ensures Uses(Opt(Lit(x)), c) == (c == x)
  {
    assert Lit(x) == Atom(Range(x, x));
  }

  /** `[-\s]?` accepts `-` and whitespace. */
  lemma SeparatorUses(c: char)
    ensures Uses(Opt(Atom(Separator)), c) == (c == '-' || IsSpace(c))
  {
    assert InClass(c, Separator) == (InClass(c, Range('-', '-')) || InClass(c, Space));
  }

  lemma FramedUses(body: Re, c: char)
    ensures Uses(DigitFramed(body), c) == Uses(body, c)
  {
    assert Uses(Cat(body, NotBeforeDigit), c) == Uses(body, c);
  }

  predicate IsEmailChar(c: char) {
    IsAsciiLetter(c) || IsDigit(c) || c == '.' || c == '_' || c == '%' || c == '+' || c == '-' || c == '@'
  }

  lemma EmailUses(c: char)
    ensures Uses(EmailPattern, c) ==> IsEmailChar(c)
  {
    assert InClass(c, Letters) == IsAsciiLetter(c);
    assert InClass(c, Alnum) == (IsAsciiLetter(c) || IsDigit(c));
    var local := Union(Alnum, Union(Union(Range('.', '.'), Range('_', '_')),
                                    Union(Range('%', '%'), Union(Range('+', '+'), Range('-', '-')))));
    var domain := Union(Alnum, Union(Range('.', '.'), Range('-', '-')));
    var pm := Union(Range('+', '+'), Range('-', '-'));
    assert InClass(c, pm) == (c == '+' || c == '-');
    assert InClass(c, Union(Range('%', '%'), pm)) == (c == '%' || InClass(c, pm));
    var du := Union(Range('.', '.'), Range('_', '_'));
    assert InClass(c, du) == (c == '.' || c == '_');
    assert InClass(c, Union(du, Union(Range('%', '%'), pm))) == (InClass(c, du) || InClass(c, Union(Range('%', '%'), pm)));
    assert InClass(c, local) ==> IsEmailChar(c);
    assert InClass(c, Union(Range('.', '.'), Range('-', '-'))) == (c == '.' || c == '-');
    assert InClass(c, domain) ==> IsEmailChar(c);
    assert Uses(Plus(local), c) == InClass(c, local);
    assert Uses(Plus(domain), c) == InClass(c, domain);
    LitUses('@', c);
    LitUses('.', c);
    var t4 := Cat(Atom(Letters), Cat(Star(Letters), WordBoundary));
    assert Uses(Cat(Star(Letters), WordBoundary), c) == IsAsciiLetter(c);
    assert Uses(t4, c) == IsAsciiLetter(c);
    var t3 := Cat(Lit('.'), Cat(Atom(Letters), t4));
    assert Uses(t3, c) == (c == '.' || IsAsciiLetter(c));
    var t2 := Cat(Lit('@'), Cat(Plus(domain), t3));
    assert Uses(Cat(Plus(domain), t3), c) == (InClass(c, domain) || Uses(t3, c));
    assert Uses(t2, c) == (c == '@' || Uses(Cat(Plus(domain), t3), c));
    assert Uses(EmailPattern, c) == (Uses(Plus(local), c) || Uses(t2, c));
  }

  lemma PhoneUses(c: char)
    ensures Uses(PhoneBody, c) ==> IsDigit(c) || c == '+' || c == '-' || IsSpace(c)
  {
    DigitRunsUseDigits(c);
    SeparatorUses(c);
    LitUses('+', c);
    LitUses('8', c);
    LitUses('2', c);
    LitUses('0', c);
    LitUses('1', c);
    var sep := Opt(Atom(Separator));
    var tail := Cat(D3, Cat(Opt(D), Cat(sep, D4)));
    assert Uses(Cat(sep, D4), c) == (Uses(sep, c) || Uses(D4, c));
    assert Uses(Cat(Opt(D), Cat(sep, D4)), c) == (Uses(D, c) || Uses(Cat(sep, D4), c));
    assert Uses(tail, c) == (Uses(D3, c) || Uses(Cat(Opt(D), Cat(sep, D4)), c));
    var second := Atom(Union(Range('0', '1'), Range('6', '9')));
    assert InClass(c, Union(Range('0', '1'), Range('6', '9')))
        == (InClass(c, Range('0', '1')) || InClass(c, Range('6', '9')));
    assert Uses(second, c) ==> IsDigit(c);
    var local := Cat(Lit('1'), Cat(second, Cat(sep, tail)));
    assert Uses(Cat(sep, tail), c) == (Uses(sep, c) || Uses(tail, c));
    assert Uses(Cat(second, Cat(sep, tail)), c) == (Uses(second, c) || Uses(Cat(sep, tail), c));
    assert Uses(local, c) == (c == '1' || Uses(Cat(second, Cat(sep, tail)), c));
    var country := Cat(Opt(Lit('+')), Cat(Lit('8'), Cat(Lit('2'), sep)));
    assert Uses(Cat(Lit('2'), sep), c) == (c == '2' || Uses(sep, c));
    assert Uses(Cat(Lit('8'), Cat(Lit('2'), sep)), c) == (c == '8' || Uses(Cat(Lit('2'), sep), c));
    assert Uses(country, c) == (c == '+' || Uses(Cat(Lit('8'), Cat(Lit('2'), sep)), c));
    assert Uses(Cat(Opt(Lit('0')), local), c) == (c == '0' || Uses(local, c));
    assert Uses(PhoneBody, c) == (Uses(Opt(country), c) || Uses(Cat(Opt(Lit('0')), local), c));
  }

  lemma RrnUses(c: char)
    ensures Uses(RrnBody, c) ==> IsDigit(c) || c == '-'
  {
    DigitRunsUseDigits(c);
    LitUses('-', c);
    var tail := Cat(Atom(Range('1', '4')), D6);
    assert Uses(tail, c) == ('1' <= c <= '4' || Uses(D6, c));
    assert Uses(Cat(Opt(Lit('-')), tail), c) == (c == '-' || Uses(tail, c));
    assert Uses(RrnBody, c) == (Uses(D6, c) || Uses(Cat(Opt(Lit('-')), tail), c));
  }

  lemma BusinessNoUses(c: char)
    ensures Uses(BusinessNoBody, c) ==> IsDigit(c) || c == '-'
  {
    DigitRunsUseDigits(c);
    LitUses('-', c);
    var tail := Cat(Lit('-'), D5);
    assert Uses(tail, c) == (c == '-' || Uses(D5, c));
    assert Uses(Cat(D2, tail), c) == (Uses(D2, c) || Uses(tail, c));
    assert Uses(Cat(Lit('-'), Cat(D2, tail)), c) == (c == '-' || Uses(Cat(D2, tail), c));
    assert Uses(BusinessNoBody, c) == (Uses(D3, c) || Uses(Cat(Lit('-'), Cat(D2, tail)), c));
  }

  lemma CardNoUses(c: char)
    ensures Uses(CardNoBody, c) ==> IsDigit(c) || c == '-' || IsSpace(c)
  {
    DigitRunsUseDigits(c);
    SeparatorUses(c);
    var group := Cat(D4, Opt(Atom(Separator)));
    assert Uses(group, c) == (Uses(D4, c) || Uses(Opt(Atom(Separator)), c));
    assert Uses(Cat(group, D4), c) == (Uses(group, c) || Uses(D4, c));
    assert Uses(Cat(group, Cat(group, D4)), c) == (Uses(group, c) || Uses(Cat(group, D4), c));
    assert Uses(CardNoBody, c) == (Uses(group, c) || Uses(Cat(group, Cat(group, D4)), c));
  }

  /** An email match is at least `x@x.xx` long and made of letters, digits,
      `.`, `_`, `%`, `+`, `-` and `@`. */
  lemma EmailMatchShape(s: string, i: nat)
    requires i <= |s| && MatchAt(Pattern(Email), s, i).Some?
    ensures MatchAt(Pattern(Email), s, i).value - i >= 6
    ensures forall k | i <= k < MatchAt(Pattern(Email), s, i).value :: IsEmailChar(s[k])
  {
    MatchShape(Pattern(Email), s, i);
    forall c | Uses(Pattern(Email), c)
      ensures IsEmailChar(c)
    {
      EmailUses(c);
    }
  }

  /** A phone match has 9 to 17 characters: digits, `+`, `-` and whitespace. */
  lemma PhoneMatchShape(s: string, i: nat)
    requires i <= |s| && MatchAt(Pattern(Phone), s, i).Some?
    ensures 9 <= MatchAt(Pattern(Phone), s, i).value - i <= 17
    ensures forall k | i <= k < MatchAt(Pattern(Phone), s, i).value ::
              IsDigit(s[k]) || s[k] == '+' || s[k] == '-' || IsSpace(s[k])
  {
    MatchShape(Pattern(Phone), s, i);
    forall c | Uses(Pattern(Phone), c)
      ensures IsDigit(c) || c == '+' || c == '-' || IsSpace(c)
    {
      FramedUses(PhoneBody, c);
      PhoneUses(c);
    }
  }

  /** An rrn match has 13 digits, or 14 characters with one `-`. */
  lemma RrnMatchShape(s: string, i: nat)
    requires i <= |s| && MatchAt(Pattern(Rrn), s, i).Some?
    ensures 13 <= MatchAt(Pattern(Rrn), s, i).value - i <= 14
    ensures forall k | i <= k < MatchAt(Pattern(Rrn), s, i).value :: IsDigit(s[k]) || s[k] == '-'
  {
    MatchShape(Pattern(Rrn), s, i);
    forall c | Uses(Pattern(Rrn), c)
      ensures IsDigit(c) || c == '-'
    {
      FramedUses(RrnBody, c);
      RrnUses(c);
    }
  }

  /** A business number match is exactly 12 characters of digits and `-`. */
  lemma BusinessNoMatchShape(s: string, i: nat)
    requires i <= |s| && MatchAt(Pattern(BusinessNo), s, i).Some?
    ensures MatchAt(Pattern(BusinessNo), s, i).value - i == 12
    ensures forall k | i <= k < MatchAt(Pattern(BusinessNo), s, i).value :: IsDigit(s[k]) || s[k] == '-'
  {
    MatchShape(Pattern(BusinessNo), s, i);
    forall c | Uses(Pattern(BusinessNo), c)
      ensures IsDigit(c) || c == '-'
    {
      FramedUses(BusinessNoBody, c);
      BusinessNoUses(c);
    }
  }

  /** A card number match has 16 digits and up to three separators. */
  lemma CardNoMatchShape(s: string, i: nat)
    requires i <= |s| && MatchAt(Pattern(CardNo), s, i).Some?
    ensures 16 <= MatchAt(Pattern(CardNo), s, i).value - i <= 19
    ensures forall k | i <= k < MatchAt(Pattern(CardNo), s, i).value ::
              IsDigit(s[k]) || s[k] == '-' || IsSpace(s[k])
  {
    MatchShape(Pattern(CardNo), s, i);
    forall c | Uses(Pattern(CardNo), c)
      ensures IsDigit(c) || c == '-' || IsSpace(c)
    {
      FramedUses(CardNoBody, c);
      CardNoUses(c);
    }
  }

  /** One pass `pattern.sub(_repl, s)` of kind `k`: the output and the number
      of times `_repl` ran. */
  function Pass(k: PiiKind, s: string): (string, nat) {
    Sub(Pattern(k), Tag(k), s)
  }

  /** The outcome of masking: the masked text, the type names of the patterns
      that matched (each once), and the number of matches replaced. */
  datatype PiiMaskResult = PiiMaskResult(maskedText: string, detectedTypes: seq<string>, replacements: nat)

  /** A pass of each kind over a text: the output and the number of matches
      replaced. The masking spec is stated for any such function, and `Mask`
      uses `Pass`. */
  type PassFn = (PiiKind, string) -> (string, nat)

  /** The text after the first `n` passes, each applied to the output of the one before. */
  function Stage(pass: PassFn, text: string, n: nat): string
    requires n <= |PiiPatterns|
  {
    if n == 0 then text else pass(PiiPatterns[n - 1], Stage(pass, text, n - 1)).0
  }

  /** The number of matches replaced by pass `j`. */
  function PassCount(pass: PassFn, text: string, j: nat): nat
    requires j < |PiiPatterns|
  {
    pass(PiiPatterns[j], Stage(pass, text, j)).1
  }

  /** The match counts of the first `n` passes, in pass order. */
  function Counts(pass: PassFn, text: string, n: nat): (cs: seq<nat>)
    requires n <= |PiiPatterns|
    ensures |cs| == n
  {
    if n == 0 then [] else Counts(pass, text, n - 1) + [PassCount(pass, text, n - 1)]
  }

  /** Pass `n` works on the output of the passes before it. */
  lemma StageStep(pass: PassFn, text: string, n: nat)
    requires n < |PiiPatterns|
    ensures var out := pass(PiiPatterns[n], Stage(pass, text, n));
      && Stage(pass, text, n + 1) == out.0
      && Counts(pass, text, n + 1) == Counts(pass, text, n) + [out.1]
  {
  }

  /** The counts list holds the count of each pass. */
  lemma {:induction false} CountsAt(pass: PassFn, text: string, n: nat, j: nat)
    requires j < n <= |PiiPatterns|
    ensures Counts(pass, text, n)[j] == PassCount(pass, text, j)
  {
    if j < n - 1 {
      CountsAt(pass, text, n - 1, j);
    }
  }

  /** The sum of the counts: the final value of `replacements`. */
  function Total(cs: seq<nat>): nat {
    if cs == [] then 0 else Total(cs[..|cs| - 1]) + cs[|cs| - 1]
  }

  /** The final value of `detected_types` after passes with counts `cs`: the
      type name of every pass whose count is positive, in pass order. */
  function DetectedOf(cs: seq<nat>): seq<string>
    requires |cs| <= |PiiPatterns|
  {
    if cs == [] then []
    else
      var n := |cs| - 1;
      DetectedOf(cs[..n]) + (if cs[n] > 0 then [TypeName(PiiPatterns[n])] else [])
  }

  /** The result of masking `text` with the passes `pass`: every name it lists
      is the type name of one of the five patterns. */
  function Masking(pass: PassFn, text: string): (r: PiiMaskResult)
    ensures forall i | 0 <= i < |r.detectedTypes| :: NameRank(r.detectedTypes[i]) < |PiiPatterns|
  {
    var cs := Counts(pass, text, |PiiPatterns|);
    DetectedRanksBelow(cs);
    PiiMaskResult(Stage(pass, text, |PiiPatterns|), DetectedOf(cs), Total(cs))
  }

  /** What `mask_pii(text)` returns. When nothing was replaced, the text comes
      back as it was. */
  function Mask(text: string): (r: PiiMaskResult)
    ensures r.replacements == 0 ==> r.maskedText == text
  {
    StageOfNoCount(text, |PiiPatterns|);
    Masking(Pass, text)
  }

  /** Passes that together replaced nothing left the text as it was. */
  lemma {:induction false} StageOfNoCount(text: string, n: nat)
    requires n <= |PiiPatterns|
    ensures Total(Counts(Pass, text, n)) == 0 ==> Stage(Pass, text, n) == text
  {
    if n > 0 {
      StageOfNoCount(text, n - 1);
      AppendCount(Counts(Pass, text, n - 1), PassCount(Pass, text, n - 1));
    }
  }

  /** The position of a type name in the pattern order (5 for any other string). */
  function NameRank(name: string): nat {
    if name == "email" then 0
    else if name == "phone" then 1
    else if name == "rrn" then 2
    else if name == "business_no" then 3
    else if name == "card_no" then 4
    else 5
  }

  lemma NameRankOfPass(j: nat)
    requires j < |PiiPatterns|
    ensures NameRank(TypeName(PiiPatterns[j])) == j
  {
  }

  /** What `_repl` does to the detected types: append `name` unless present. */
  function Record(detected: seq<string>, name: string): seq<string> {
    if name in detected then detected else detected + [name]
  }

  /** Recording keeps what was there, adds `name` and nothing else, and
      adds it only once. */
  lemma RecordContents(detected: seq<string>, name: string)
    ensures var d := Record(detected, name);
      && d[..|detected|] == detected
      && name in d
      && (forall x | x in d :: x == name || x in detected)
      && Record(d, name) == d
  {
  }

  lemma AppendAssoc(a: string, b: string, c: string)
    ensures a + (b + c) == (a + b) + c
  {
  }

  /** Recording a name twice is recording it once. */
  lemma RecordTwice(detected: seq<string>, name: string)
    ensures Record(Record(detected, name), name) == Record(detected, name)
  {
  }

  /** `_repl`, called once per match: it counts the match, records the type
      name unless it is already recorded, and returns the tag. */
  method Repl(tag: string, name: string, detected0: seq<string>, replacements0: nat)
    returns (rep: string, detected: seq<string>, replacements: nat)
    ensures rep == tag
    ensures replacements == replacements0 + 1
    ensures detected == Record(detected0, name)
  {
    replacements := replacements0 + 1;
    detected := detected0;
    if name !in detected {
      detected := detected + [name];
    }
    rep := tag;
  }

  /** One pass `pattern.sub(_repl, s)` with the callback `_repl` of type
      `name`, over the table `ms` of where the pattern matches: each match is
      replaced by what `_repl` returns. */
  method SubstitutePass(ms: seq<Option<nat>>, tag: string, name: string, s: string,
                        detected0: seq<string>, replacements0: nat)
    returns (masked: string, detected: seq<string>, replacements: nat)
    requires IsMatchTable(ms, |s|)
    ensures masked == SubFrom(ms, tag, s, 0).0
    ensures replacements == replacements0 + SubFrom(ms, tag, s, 0).1
    ensures detected == if SubFrom(ms, tag, s, 0).1 > 0 then Record(detected0, name) else detected0
  {
    masked, detected, replacements := "", detected0, replacements0;
    ghost var whole := SubFrom(ms, tag, s, 0);
    var pos := 0;
    while pos < |s|
      invariant pos <= |s| && replacements >= replacements0
      invariant masked + SubFrom(ms, tag, s, pos).0 == whole.0
      invariant replacements + SubFrom(ms, tag, s, pos).1 == replacements0 + whole.1
      invariant replacements == replacements0 ==> detected == detected0
      invariant replacements > replacements0 ==> detected == Record(detected0, name)
      decreases |s| - pos
    {
      ghost var rest := SubFrom(ms, tag, s, pos);
      match ms[pos]
      case Some(e) =>
        assert rest == (tag + SubFrom(ms, tag, s, e).0, SubFrom(ms, tag, s, e).1 + 1);
        AppendAssoc(masked, tag, SubFrom(ms, tag, s, e).0);
        RecordTwice(detected0, name);
        var rep;
        rep, detected, replacements := Repl(tag, name, detected, replacements);
        masked := masked + rep;
        pos := e;
      case None =>
        assert rest == ([s[pos]] + SubFrom(ms, tag, s, pos + 1).0, SubFrom(ms, tag, s, pos + 1).1);
        AppendAssoc(masked, [s[pos]], SubFrom(ms, tag, s, pos + 1).0);
        masked := masked + [s[pos]];
        pos := pos + 1;
    }
  }

  /** Every name recorded for the passes `cs` ranks below `|cs|`. */
  lemma {:induction false} DetectedRanksBelow(cs: seq<nat>)
    requires |cs| <= |PiiPatterns|
    ensures forall i | 0 <= i < |DetectedOf(cs)| :: NameRank(DetectedOf(cs)[i]) < |cs|
  {
    if cs != [] {
      DetectedRanksBelow(cs[..|cs| - 1]);
      NameRankOfPass(|cs| - 1);
    }
  }

  /** Appending the count of the next pass. */
  lemma AppendCount(cs: seq<nat>, c: nat)
    requires |cs| < |PiiPatterns|
    ensures DetectedOf(cs + [c]) == DetectedOf(cs) + (if c > 0 then [TypeName(PiiPatterns[|cs|])] else [])
    ensures Total(cs + [c]) == Total(cs) + c
  {
    assert (cs + [c])[..|cs|] == cs;
  }

  /** Pass `n` takes the text, the detected types and the counter of the
      passes before it to those of the passes up to and including it. */
  lemma MaskStep(text: string, n: nat)
    requires n < |PiiPatterns|
    ensures var cs := Counts(Pass, text, n);
      var out := Pass(PiiPatterns[n], Stage(Pass, text, n));
      && Stage(Pass, text, n + 1) == out.0
      && Total(Counts(Pass, text, n + 1)) == Total(cs) + out.1
      && DetectedOf(Counts(Pass, text, n + 1))
         == if out.1 > 0 then Record(DetectedOf(cs), TypeName(PiiPatterns[n])) else DetectedOf(cs)
  {
    var cs := Counts(Pass, text, n);
    var out := Pass(PiiPatterns[n], Stage(Pass, text, n));
    StageStep(Pass, text, n);
    DetectedRanksBelow(cs);
    NameRankOfPass(n);
    AppendCount(cs, out.1);
  }

  /** `mask_pii`: the five passes in order, threading the text, the counter
      and the list of detected types through them. */
  method MaskPii(text: string) returns (result: PiiMaskResult)
    ensures result == Mask(text)
  {
    var masked := text;
    var detected: seq<string> := [];
    var replacements := 0;
    for n := 0 to |PiiPatterns|
      invariant masked == Stage(Pass, text, n)
      invariant detected == DetectedOf(Counts(Pass, text, n))
      invariant replacements == Total(Counts(Pass, text, n))
    {
      var k := PiiPatterns[n];
      var ms := MatchTable(Pattern(k), masked);
      assert Pass(k, masked) == SubFrom(ms, Tag(k), masked, 0);
      MaskStep(text, n);
      masked, detected, replacements := SubstitutePass(ms, Tag(k), TypeName(k), masked, detected, replacements);
    }
    result := PiiMaskResult(masked, detected, replacements);
  }

  /** The detected types follow the pattern order, so none appears twice. */
  lemma {:induction false} DetectedOrdered(cs: seq<nat>)
    requires |cs| <= |PiiPatterns|
    ensures forall i, j | 0 <= i < j < |DetectedOf(cs)| ::
      NameRank(DetectedOf(cs)[i]) < NameRank(DetectedOf(cs)[j])
  {
    if cs != [] {
      DetectedOrdered(cs[..|cs| - 1]);
      DetectedRanksBelow(cs[..|cs| - 1]);
      NameRankOfPass(|cs| - 1);
    }
  }

  /** `detected_types` has no duplicates and lists the types in pattern order. */
  lemma MaskDetectedDistinct(text: string)
    ensures var d := Mask(text).detectedTypes;
      (forall i, j | 0 <= i < j < |d| :: NameRank(d[i]) < NameRank(d[j]))
      && (forall i, j | 0 <= i < j < |d| :: d[i] != d[j])
  {
    DetectedOrdered(Counts(Pass, text, |PiiPatterns|));
  }

  /** The type of pass `j` is recorded iff that pass replaced a match. */
  lemma {:induction false} DetectedIff(cs: seq<nat>, j: nat)
    requires j < |cs| <= |PiiPatterns|
    ensures TypeName(PiiPatterns[j]) in DetectedOf(cs) <==> cs[j] > 0
  {
    var n := |cs| - 1;
    NameRankOfPass(j);
    if j < n {
      DetectedIff(cs[..n], j);
      NameRankOfPass(n);
    } else {
      DetectedRanksBelow(cs[..n]);
    }
  }

  /** A type appears in `detected_types` iff its pass replaced at least one match. */
  lemma MaskDetectedIff(text: string, j: nat)
    requires j < |PiiPatterns|
    ensures TypeName(PiiPatterns[j]) in Mask(text).detectedTypes <==> PassCount(Pass, text, j) > 0
  {
    DetectedIff(Counts(Pass, text, |PiiPatterns|), j);
    CountsAt(Pass, text, |PiiPatterns|, j);
  }

  /** Each pass that records a type replaced at least one match. */
  lemma {:induction false} DetectedAtMostTotal(cs: seq<nat>)
    requires |cs| <= |PiiPatterns|
    ensures |DetectedOf(cs)| <= Total(cs)
    ensures DetectedOf(cs) == [] <==> Total(cs) == 0
  {
    if cs != [] {
      DetectedAtMostTotal(cs[..|cs| - 1]);
    }
  }

  /** `replacements >= len(detected_types)`, and both are empty together. */
  lemma MaskCounts(text: string)
    ensures |Mask(text).detectedTypes| <= Mask(text).replacements
    ensures Mask(text).detectedTypes == [] <==> Mask(text).replacements == 0
  {
    DetectedAtMostTotal(Counts(Pass, text, |PiiPatterns|));
  }

  /** Passes that leave the text as it was and find nothing. */
  lemma {:induction false} StageUnchanged(pass: PassFn, text: string, n: nat)
    requires n <= |PiiPatterns|
    requires forall k: PiiKind :: pass(k, text) == (text, 0)
    ensures Stage(pass, text, n) == text && Total(Counts(pass, text, n)) == 0
  {
    if n > 0 {
      StageUnchanged(pass, text, n - 1);
      AppendCount(Counts(pass, text, n - 1), PassCount(pass, text, n - 1));
    }
  }

  /** A pattern that matches nowhere leaves the text as it was. */
  lemma PassNoMatch(k: PiiKind, text: string)
    requires forall q: nat | q < |text| :: MatchAt(Pattern(k), text, q).None?
    ensures Pass(k, text) == (text, 0)
  {
    var ms := MatchTable(Pattern(k), text);
    SubFromCountZero(ms, Tag(k), text, 0);
    SubFromNoMatch(ms, Tag(k), text, 0);
  }

  /** If no pattern matches anywhere in the input, it comes back unchanged
      with nothing detected. */
  lemma MaskNoMatch(text: string)
    requires forall k: PiiKind, q: nat | q < |text| :: MatchAt(Pattern(k), text, q).None?
    ensures Mask(text) == PiiMaskResult(text, [], 0)
  {
    forall k: PiiKind
      ensures Pass(k, text) == (text, 0)
    {
      PassNoMatch(k, text);
    }
    StageUnchanged(Pass, text, |PiiPatterns|);
    DetectedAtMostTotal(Counts(Pass, text, |PiiPatterns|));
  }
}
