/**
 * The two text screens of the backend: the crisis keyword test run on the
 * user's text, and the medical-tone test run on every message before it is
 * returned. Both look at the lower-cased text.
 */
module Safety {
  import opened Text

  // ---------------------------------------------------------------------
  // Crisis keywords
  // ---------------------------------------------------------------------

  /** `CRISIS_KEYWORDS`. */
  const CrisisKeywords: seq<string> := ["죽고 싶", "자해", "끝내고 싶", "사라지고 싶", "극단적 선택", "해치고 싶"]

  /** Whether one of `keywords` occurs in `s`. */
  function AnyKeyword(s: string, keywords: seq<string>): (r: bool)
    ensures r <==> exists k | 0 <= k < |keywords| :: Contains(s, keywords[k])
  {
    if keywords == [] then false
    else Contains(s, keywords[0]) || AnyKeyword(s, keywords[1..])
  }

  /** `is_crisis_text`: a crisis keyword occurs in the lower-cased text. */
  function IsCrisisText(text: string): (r: bool)
    ensures r <==> exists k | 0 <= k < |CrisisKeywords| :: Contains(Lower(text), CrisisKeywords[k])
  {
    AnyKeyword(Lower(text), CrisisKeywords)
  }

  predicate NoAsciiLetter(w: string) { forall k | 0 <= k < |w| :: !IsAsciiLetter(w[k]) }

  /** Lower-casing changes no character except ASCII upper-case letters, so a
      string without ASCII letters occurs in `Lower(s)` exactly where it occurs in `s`. */
  lemma OccursAtLower(s: string, w: string, i: nat)
    requires NoAsciiLetter(w)
    ensures OccursAt(Lower(s), w, i) <==> OccursAt(s, w, i)
  {
    if i + |w| <= |s| {
      if OccursAt(s, w, i) {
        forall k | 0 <= k < |w|
          ensures Lower(s)[i + k] == w[k]
        {
          assert s[i..i + |w|][k] == s[i + k];
        }
        assert Lower(s)[i..i + |w|] == w;
      }
      if OccursAt(Lower(s), w, i) {
        forall k | 0 <= k < |w|
          ensures s[i + k] == w[k]
        {
          assert Lower(s)[i..i + |w|][k] == Lower(s)[i + k];
        }
        assert s[i..i + |w|] == w;
      }
    }
  }

  lemma ContainsLower(s: string, w: string)
    requires NoAsciiLetter(w)
    ensures Contains(Lower(s), w) <==> Contains(s, w)
  {
    if Contains(s, w) {
      var i :| 0 <= i <= |s| && OccursAt(s, w, i);
      OccursAtLower(s, w, i);
    }
    if Contains(Lower(s), w) {
      var i :| 0 <= i <= |Lower(s)| && OccursAt(Lower(s), w, i);
      OccursAtLower(s, w, i);
    }
  }

  lemma KeywordsHaveNoAsciiLetter()
    ensures forall k | 0 <= k < |CrisisKeywords| :: NoAsciiLetter(CrisisKeywords[k])
  {
    assert NoAsciiLetter("죽고 싶") && NoAsciiLetter("자해") && NoAsciiLetter("끝내고 싶");
    assert NoAsciiLetter("사라지고 싶") && NoAsciiLetter("극단적 선택") && NoAsciiLetter("해치고 싶");
  }

  /** The keywords are Korean, so the lower-casing makes no difference: the
      text is a crisis text exactly when a keyword occurs in it as written. */
  lemma CrisisIgnoresCase(text: string)
    ensures IsCrisisText(text) <==> exists k | 0 <= k < |CrisisKeywords| :: Contains(text, CrisisKeywords[k])
  {
    KeywordsHaveNoAsciiLetter();
    forall k | 0 <= k < |CrisisKeywords|
      ensures Contains(Lower(text), CrisisKeywords[k]) <==> Contains(text, CrisisKeywords[k])
    {
      ContainsLower(text, CrisisKeywords[k]);
    }
  }

  /** A keyword anywhere in the text, with anything around it, makes it a crisis text. */
  lemma CrisisKeywordAnywhere(before: string, k: nat, after: string)
    requires k < |CrisisKeywords|
    ensures IsCrisisText(before + CrisisKeywords[k] + after)
  {
    ContainsInfix(before, CrisisKeywords[k], after);
    CrisisIgnoresCase(before + CrisisKeywords[k] + after);
  }

  // ---------------------------------------------------------------------
  // Medical-risk patterns
  // ---------------------------------------------------------------------

  /** The seven entries of `MEDICAL_RISK_PATTERNS`, in order. */
  datatype MedicalPattern =
    | Diagnosis        // 진단
    | Prescription     // 처방
    | DiseaseName      // 병명
    | Hospitalization  // 입원
    | Medication       // 약, optionally 물, then whitespace, then 복용 / 드시 / 먹
    | Disorder         // 우울증 / 불안장애 / 조현병 / 양극성
    | Treatment        // 치료, then whitespace, then 가 / 를 / 받

  const MedicalRiskPatterns: seq<MedicalPattern> :=
    [Diagnosis, Prescription, DiseaseName, Hospitalization, Medication, Disorder, Treatment]

  /** `\s*` followed by a taking-medicine verb. None of the alternatives starts
      with whitespace, so the greedy `\s*` can only succeed by skipping all of it. */
  predicate DoseFollows(u: string) {
    var v := TrimStart(u, Spaces);
    StartsWith(v, "복용") || StartsWith(v, "드시") || StartsWith(v, "먹")
  }

  /** `\s*` followed by a particle or verb after 치료. */
  predicate TreatmentFollows(u: string) {
    var v := TrimStart(u, Spaces);
    StartsWith(v, "가") || StartsWith(v, "를") || StartsWith(v, "받")
  }

  /** `pattern.match(t)`: a match of `p` starts at the beginning of `t`. Every
      match begins with a lead character and is at least two characters long. */
  predicate PatternAt(p: MedicalPattern, t: string)
    ensures PatternAt(p, t) ==> |t| >= 2 && IsLead(t[0])
  {
    match p
    case Diagnosis => StartsWith(t, "진단")
    case Prescription => StartsWith(t, "처방")
    case DiseaseName => StartsWith(t, "병명")
    case Hospitalization => StartsWith(t, "입원")
    case Medication =>
      StartsWith(t, "약") && (DoseFollows(t[1..]) || (StartsWith(t[1..], "물") && DoseFollows(t[2..])))
    case Disorder =>
      StartsWith(t, "우울증") || StartsWith(t, "불안장애") || StartsWith(t, "조현병") || StartsWith(t, "양극성")
    case Treatment => StartsWith(t, "치료") && TreatmentFollows(t[2..])
  }

  /** `pattern.search(s)` from position `i` on. */
  function Search(p: MedicalPattern, s: string, i: nat): (r: bool)
    requires i <= |s|
    ensures r <==> exists j | i <= j <= |s| :: PatternAt(p, s[j..])
    decreases |s| - i
  {
    PatternAt(p, s[i..]) || (i < |s| && Search(p, s, i + 1))
  }

  /** Whether one of `ps` is found somewhere in `s`. */
  function AnyPattern(ps: seq<MedicalPattern>, s: string): (r: bool)
    ensures r <==> exists k, j | 0 <= k < |ps| && 0 <= j <= |s| :: PatternAt(ps[k], s[j..])
  {
    if ps == [] then false
    else Search(ps[0], s, 0) || AnyPattern(ps[1..], s)
  }

  /** `has_medical_risk`: one of the patterns is found in the lower-cased text. */
  function HasMedicalRisk(text: string): (r: bool)
    ensures r <==> exists k, j | 0 <= k < |MedicalRiskPatterns| && 0 <= j <= |text|
                      :: PatternAt(MedicalRiskPatterns[k], Lower(text)[j..])
  {
    AnyPattern(MedicalRiskPatterns, Lower(text))
  }

  // ---------------------------------------------------------------------
  // Texts in which no pattern can start
  // ---------------------------------------------------------------------

  /** The characters a match of some pattern can start with. */
  predicate IsLead(c: char) {
    || c == '진' || c == '처' || c == '병' || c == '입' || c == '약'
    || c == '우' || c == '불' || c == '조' || c == '양' || c == '치'
  }

  predicate NoLead(s: string) { forall k | 0 <= k < |s| :: !IsLead(s[k]) }

  /** A necessary condition for a match at `i`: a lead character followed by
      the character(s) some pattern needs after it. */
  predicate ViableAt(s: string, i: nat)
    requires i < |s|
  {
    i + 1 < |s| &&
    match s[i]
    case '진' => s[i + 1] == '단'
    case '처' => s[i + 1] == '방'
    case '병' => s[i + 1] == '명'
    case '입' => s[i + 1] == '원'
    case '약' =>
      s[i + 1] == '물' || IsSpace(s[i + 1]) || s[i + 1] == '복' || s[i + 1] == '드' || s[i + 1] == '먹'
    case '우' => s[i + 1] == '울'
    case '불' => s[i + 1] == '안' && i + 2 < |s| && s[i + 2] == '장'
    case '조' => s[i + 1] == '현'
    case '양' => s[i + 1] == '극'
    case '치' => s[i + 1] == '료'
    case _ => false
  }

  predicate Quiet(s: string) { forall i | 0 <= i < |s| :: !ViableAt(s, i) }

  /** The end of `s` cannot begin a match that continues into what follows:
      the last character is no lead and the one before it is not 불 (the only
      lead whose test looks two characters ahead). */
  predicate TailSafe(s: string) {
    && (|s| >= 1 ==> !IsLead(s[|s| - 1]))
    && (|s| >= 2 ==> s[|s| - 2] != '불')
  }

  /** No match can start in `s`, nor in `s` followed by any `Safe` text. */
  predicate Safe(s: string) { Quiet(s) && TailSafe(s) }

  /** A match of any pattern at `j` passes the necessary condition. */
  lemma PatternNeedsViable(p: MedicalPattern, s: string, j: nat)
    requires j <= |s| && PatternAt(p, s[j..])
    ensures j < |s| && ViableAt(s, j)
  {
    match p
    case Medication => MedicationNeedsViable(s, j);
    case Disorder => WordNeedsViable(s, j, if StartsWith(s[j..], "우울증") then "우울증"
                                           else if StartsWith(s[j..], "불안장애") then "불안장애"
                                           else if StartsWith(s[j..], "조현병") then "조현병" else "양극성");
    case Diagnosis => WordNeedsViable(s, j, "진단");
    case Prescription => WordNeedsViable(s, j, "처방");
    case DiseaseName => WordNeedsViable(s, j, "병명");
    case Hospitalization => WordNeedsViable(s, j, "입원");
    case Treatment => WordNeedsViable(s, j, "치료");
  }

  /** The first two or three characters of the word are where the condition looks. */
  lemma WordNeedsViable(s: string, j: nat, w: string)
    requires w in ["진단", "처방", "병명", "입원", "치료", "우울증", "불안장애", "조현병", "양극성"]
    requires j <= |s| && StartsWith(s[j..], w)
    ensures j < |s| && ViableAt(s, j)
  {
    var t := s[j..];
    assert t[0] == s[j] && t[1] == s[j + 1] && t[0] == w[0] && t[1] == w[1];
    if |w| >= 3 {
      assert t[2] == s[j + 2] && t[2] == w[2];
    }
  }

  lemma MedicationNeedsViable(s: string, j: nat)
    requires j <= |s| && PatternAt(Medication, s[j..])
    ensures j < |s| && ViableAt(s, j)
  {
    var t := s[j..];
    assert t[0] == s[j] && t[0] == '약';
    if DoseFollows(t[1..]) {
      DoseHead(t[1..]);
      assert t[1..][0] == s[j + 1];
    } else {
      assert t[1] == s[j + 1];
    }
  }

  /** After the optional whitespace comes a verb, so the first character is
      whitespace or the verb's first character. */
  lemma DoseHead(u: string)
    requires DoseFollows(u)
    ensures |u| >= 1 && (IsSpace(u[0]) || u[0] == '복' || u[0] == '드' || u[0] == '먹')
  {
    var v := TrimStart(u, Spaces);
    assert v[0] == '복' || v[0] == '드' || v[0] == '먹';
    if !IsSpace(u[0]) {
      assert |u| - |v| == 0;
    }
  }

  /** Lower-casing changes only ASCII letters, which the condition never looks for. */
  lemma ViableLower(s: string, i: nat)
    requires i < |s|
    ensures ViableAt(Lower(s), i) == ViableAt(s, i)
  {
    var l := Lower(s);
    assert l[i] == LowerChar(s[i]);
    if i + 1 < |s| {
      assert l[i + 1] == LowerChar(s[i + 1]);
    }
    if i + 2 < |s| {
      assert l[i + 2] == LowerChar(s[i + 2]);
    }
  }

  /** A text in which no position passes the condition has no medical risk. */
  lemma QuietHasNoRisk(s: string)
    requires Quiet(s)
    ensures !HasMedicalRisk(s)
  {
    var l := Lower(s);
    forall k, j | 0 <= k < |MedicalRiskPatterns| && 0 <= j <= |s|
      ensures !PatternAt(MedicalRiskPatterns[k], l[j..])
    {
      if PatternAt(MedicalRiskPatterns[k], l[j..]) {
        PatternNeedsViable(MedicalRiskPatterns[k], l, j);
        ViableLower(s, j);
        assert false;
      }
    }
  }

  lemma NoLeadSafe(s: string)
    requires NoLead(s)
    ensures Safe(s)
  {
  }

  /** Condition at `i < |a|` in `a + b`, when it only looks inside `a`. */
  lemma ViableInPrefix(a: string, b: string, i: nat)
    requires i + 2 < |a| || (i + 1 < |a| && a[i] != '불')
    ensures ViableAt(a + b, i) == ViableAt(a, i)
  {
    var s := a + b;
    assert s[i] == a[i] && s[i + 1] == a[i + 1];
    if i + 2 < |a| {
      assert s[i + 2] == a[i + 2];
    }
  }

  /** Condition at a position of `b` in `a + b`. */
  lemma ViableInSuffix(a: string, b: string, i: nat)
    requires |a| <= i < |a| + |b|
    ensures ViableAt(a + b, i) == ViableAt(b, i - |a|)
  {
    var s, m := a + b, i - |a|;
    assert s[i] == b[m];
    if m + 1 < |b| {
      assert s[i + 1] == b[m + 1];
    }
    if m + 2 < |b| {
      assert s[i + 2] == b[m + 2];
    }
  }

  /** Safe texts are closed under concatenation. */
  lemma SafeJoin(a: string, b: string)
    requires Safe(a) && Safe(b)
    ensures Safe(a + b)
  {
    var s := a + b;
    forall i | 0 <= i < |s|
      ensures !ViableAt(s, i)
    {
      if i >= |a| {
        ViableInSuffix(a, b, i);
      } else if i + 1 == |a| {
        assert s[i] == a[i];
      } else {
        ViableInPrefix(a, b, i);
      }
    }
    if |b| == 1 && |a| >= 1 {
      assert s[|s| - 2] == a[|a| - 1];
    } else if |b| >= 2 {
      assert s[|s| - 2] == b[|b| - 2];
    }
    if |b| >= 1 {
      assert s[|s| - 1] == b[|b| - 1];
    }
  }

  /** A decimal numeral (the period of an insight) holds no lead character. */
  lemma NumeralNoLead(n: int)
    ensures NoLead(IntToString(n))
  {
  }

  /** Each word a pattern matches on its own is flagged wherever it occurs. */
  const RiskWords: seq<string> := ["진단", "처방", "병명", "입원", "우울증", "불안장애", "조현병", "양극성"]

  lemma RiskWordFlagged(before: string, k: nat, after: string)
    requires k < |RiskWords|
    ensures HasMedicalRisk(before + RiskWords[k] + after)
  {
    var w := RiskWords[k];
    var s := before + w + after;
    var p := if k < 4 then MedicalRiskPatterns[k] else Disorder;
    assert NoAsciiLetter(w);
    ContainsInfix(before, w, after);
    OccursAtLower(s, w, |before|);
    var l := Lower(s);
    assert l[|before|..][..|w|] == l[|before|..|before| + |w|];
    assert PatternAt(p, l[|before|..]);
    assert p == MedicalRiskPatterns[if k < 4 then k else 5];
  }
}
