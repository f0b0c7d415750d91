/**
 * The decision logic of the two endpoints of the backend, `comfort` and
 * `insight`, without HTTP, logging or request ids. The generator is passed in
 * as a function from its arguments to its outcome; the mode is the resolved
 * `llm_mode` setting.
 */
module Endpoints {
  import opened Wrappers
  import opened Text
  import opened Emotions
  import opened Safety
  import opened Messages
  import opened Guardrails
  import opened PiiGuard

  /** The two failures of the generator that the endpoints answer with a fallback. */
  datatype LlmError = NotConfigured | RequestFailed

  // ---------------------------------------------------------------------
  // comfort
  // ---------------------------------------------------------------------

  datatype ComfortResponse = ComfortResponse(category: string, message: string, resources: seq<string>)

  const CrisisMessage: string :=
    "이곳이 담기에는 너무 무거운 이야기일 수 있습니다. "
      + "혼자 버티지 않으셔도 됩니다. 지금 바로 도움을 받을 수 있는 곳에 연락해 주세요."

  /** The hotlines listed with every crisis answer. */
  const Hotlines: seq<string> := ["자살예방상담전화 1393", "정신건강위기상담전화 1577-0199", "생명의전화 1588-9191"]

  /** The body of `comfort`. `generate` stands for `generate_comfort_line`,
      taking the Korean emotion label and the text to answer.

      Crisis keywords in the raw content win over everything else; otherwise
      the answer is the stub line in test mode, and the generator's line (or
      the fallback when it fails) in live mode, and then the guardrail. */
  method Comfort(mode: string, content: string, emotion: Option<Emotion>,
                 generate: (string, string) -> Result<string, LlmError>)
    returns (response: ComfortResponse, fallbackUsed: bool, guardrailTriggered: bool)
    ensures IsCrisisText(content) ==>
      response == ComfortResponse("crisis", CrisisMessage, Hotlines) && !fallbackUsed && !guardrailTriggered
    ensures !IsCrisisText(content) ==>
      response.category == "normal" && response.resources == [] && !HasMedicalRisk(response.message)
    ensures !IsCrisisText(content) && mode == "stub" ==>
      response.message == StubComfortMessage(OrCalm(emotion)) && !fallbackUsed && !guardrailTriggered
    ensures !IsCrisisText(content) && mode != "stub" ==>
      var out := generate(KoLabel(OrCalm(emotion)), Mask(content).maskedText);
      && (fallbackUsed <==> out.Failure? || guardrailTriggered)
      && (guardrailTriggered <==> out.Success? && HasMedicalRisk(out.value))
      && (out.Success? && !guardrailTriggered ==> response.message == out.value)
      && (!(out.Success? && !guardrailTriggered) ==>
            response.message == FallbackComfortMessage(content, emotion))
  {
    var pii := MaskPii(content);
    if IsCrisisText(content) {
      response := ComfortResponse("crisis", CrisisMessage, Hotlines);
      fallbackUsed, guardrailTriggered := false, false;
      return;
    }

    var e := OrCalm(emotion);
    var koLabel := KoLabel(e);
    fallbackUsed, guardrailTriggered := false, false;

    ghost var out0 := generate(koLabel, pii.maskedText);
    assert out0 == generate(KoLabel(OrCalm(emotion)), Mask(content).maskedText);
    var message;
    if mode == "stub" {
      message := StubComfortMessage(e);
      StubComfortSafe(e);
    } else {
      var out := generate(koLabel, pii.maskedText);
      if out.Success? {
        message := out.value;
      } else {
        message := FallbackComfortMessage(content, Some(e));
        fallbackUsed := true;
        FallbackComfortSafe(content, Some(e));
      }
    }

    var guarded := ApplyComfortGuardrail(message, content, e);
    message, guardrailTriggered := guarded.0, guarded.1;
    if guardrailTriggered {
      fallbackUsed := true;
    }
    FallbackAsSome(content, emotion);
    response := ComfortResponse("normal", message, []);
  }

  /** The endpoint resolves the emotion before asking for the fallback; the
      message is the one `fallback_comfort_message` gives the request's own
      emotion. */
  lemma FallbackAsSome(text: string, emotion: Option<Emotion>)
    ensures FallbackComfortMessage(text, Some(OrCalm(emotion))) == FallbackComfortMessage(text, emotion)
  {
  }

  // ---------------------------------------------------------------------
  // insight
  // ---------------------------------------------------------------------

  datatype Date = Date(year: int, month: int, day: int)

  datatype JournalEntry = JournalEntry(date: Date, emotion: Emotion)

  datatype InsightResponse = InsightResponse(periodDays: int, dominantEmotion: string,
                                             emotionCounts: map<string, nat>, comment: string)

  /** `periodDays` outside `{7, 30}` becomes 7. */
  function NormalizePeriod(periodDays: int): (r: int)
    ensures r == 7 || r == 30
    ensures r == periodDays <==> periodDays == 7 || periodDays == 30
  {
    if periodDays != 7 && periodDays != 30 then 7 else periodDays
  }

  /** The keys of a count map: the five emotion values. */
  predicate HasEmotionKeys(counts: map<string, nat>) {
    && (forall e: Emotion :: Value(e) in counts)
    && (forall k | k in counts :: exists e: Emotion :: k == Value(e))
  }

  /** `default_emotion_counter`: every emotion value mapped to 0. */
  function DefaultEmotionCounter(): (counts: map<string, nat>)
    ensures HasEmotionKeys(counts)
    ensures forall e: Emotion :: counts[Value(e)] == 0
  {
    var counts := map["calm" := 0, "sad" := 0, "angry" := 0, "anxious" := 0, "happy" := 0];
    assert forall k | k in counts :: (k == Value(Calm) || k == Value(Sad) || k == Value(Angry)
      || k == Value(Anxious) || k == Value(Happy));
    counts
  }

  /** The number of entries with emotion `e`: none when no entry has it, and
      never more than there are entries. */
  function Occurrences(entries: seq<JournalEntry>, e: Emotion): (r: nat)
    ensures r <= |entries|
    ensures r == 0 <==> forall i | 0 <= i < |entries| :: entries[i].emotion != e
  {
    if entries == [] then 0
    else Occurrences(entries[..|entries| - 1], e) + (if entries[|entries| - 1].emotion == e then 1 else 0)
  }

  /** The counting loop of `insight`: one increment of the entry's emotion
      value per entry. */
  method CountEmotions(entries: seq<JournalEntry>) returns (counts: map<string, nat>)
    ensures HasEmotionKeys(counts)
    ensures forall e: Emotion :: counts[Value(e)] == Occurrences(entries, e)
  {
    counts := DefaultEmotionCounter();
    for i := 0 to |entries|
      invariant HasEmotionKeys(counts)
      invariant forall e: Emotion :: counts[Value(e)] == Occurrences(entries[..i], e)
    {
      var x := entries[i].emotion;
      var v := Value(x);
      KeysAfterIncrement(counts, x);
      counts := counts[v := counts[v] + 1];
      forall e: Emotion
        ensures counts[Value(e)] == Occurrences(entries[..i + 1], e)
      {
        OccurrencesStep(entries, i, e);
        ValueInjective(e, x);
      }
    }
    assert entries[..|entries|] == entries;
  }

  lemma OccurrencesStep(entries: seq<JournalEntry>, i: nat, e: Emotion)
    requires i < |entries|
    ensures Occurrences(entries[..i + 1], e)
      == Occurrences(entries[..i], e) + (if entries[i].emotion == e then 1 else 0)
  {
    assert entries[..i + 1][..i] == entries[..i];
  }

  /** Incrementing the count of an emotion keeps the five keys. */
  lemma KeysAfterIncrement(counts: map<string, nat>, x: Emotion)
    requires HasEmotionKeys(counts)
    ensures HasEmotionKeys(counts[Value(x) := counts[Value(x)] + 1])
  {
  }

  /** `sum(counts.values())` over a map with the five emotion keys. */
  function SumCounts(counts: map<string, nat>): nat
    requires HasEmotionKeys(counts)
  {
    counts[Value(Calm)] + counts[Value(Sad)] + counts[Value(Angry)]
      + counts[Value(Anxious)] + counts[Value(Happy)]
  }

  /** The counts of all emotions add up to the number of entries. */
  lemma {:induction false} OccurrencesSum(entries: seq<JournalEntry>)
    ensures Occurrences(entries, Calm) + Occurrences(entries, Sad) + Occurrences(entries, Angry)
      + Occurrences(entries, Anxious) + Occurrences(entries, Happy) == |entries|
  {
    if entries != [] {
      OccurrencesSum(entries[..|entries| - 1]);
    }
  }

  /** `total` is the number of entries. */
  lemma TotalIsLength(entries: seq<JournalEntry>, counts: map<string, nat>)
    requires HasEmotionKeys(counts)
    requires forall e: Emotion :: counts[Value(e)] == Occurrences(entries, e)
    ensures SumCounts(counts) == |entries|
  {
    OccurrencesSum(entries);
  }

  /** `max` over the first `n` emotions in declaration order by count: a later
      emotion replaces the one held only when its count is strictly larger.
      This is what `Counter.most_common(1)` does over a dict whose keys were
      inserted in declaration order. */
  function FirstMax(counts: map<string, nat>, n: nat): (r: Emotion)
    requires HasEmotionKeys(counts)
    requires 1 <= n <= |Declared|
    ensures Rank(r) < n
    ensures forall k | 0 <= k < n :: counts[Value(Declared[k])] <= counts[Value(r)]
    ensures forall k | 0 <= k < Rank(r) :: counts[Value(Declared[k])] < counts[Value(r)]
  {
    if n == 1 then Declared[0]
    else
      var best := FirstMax(counts, n - 1);
      var next := Declared[n - 1];
      if counts[Value(next)] > counts[Value(best)] then next else best
  }

  /** `most_common(1)[0][0]` on the count map. */
  function MostCommon(counts: map<string, nat>): (r: Emotion)
    requires HasEmotionKeys(counts)
    ensures forall e: Emotion :: counts[Value(e)] <= counts[Value(r)]
    ensures forall e: Emotion :: Rank(e) < Rank(r) ==> counts[Value(e)] < counts[Value(r)]
  {
    var r := FirstMax(counts, |Declared|);
    forall e: Emotion
      ensures counts[Value(e)] <= counts[Value(r)]
      ensures Rank(e) < Rank(r) ==> counts[Value(e)] < counts[Value(r)]
    {
      assert Declared[Rank(e)] == e;
    }
    r
  }

  /** The dominant emotion: "none" without records, the most common value otherwise. */
  function Dominant(counts: map<string, nat>): (d: string)
    requires HasEmotionKeys(counts)
    ensures d == "none" <==> SumCounts(counts) == 0
    ensures d != "none" ==> d == Value(MostCommon(counts))
  {
    if SumCounts(counts) == 0 then "none" else Value(MostCommon(counts))
  }

  /** The body of `insight`. `generate` stands for `generate_period_comment`,
      taking the period, the count map and the total. */
  method Insight(mode: string, periodDays: int, entries: seq<JournalEntry>,
                 generate: (int, map<string, nat>, int) -> Result<string, LlmError>)
    returns (response: InsightResponse, fallbackUsed: bool, guardrailTriggered: bool)
    ensures response.periodDays == NormalizePeriod(periodDays)
    ensures HasEmotionKeys(response.emotionCounts)
    ensures forall e: Emotion :: response.emotionCounts[Value(e)] == Occurrences(entries, e)
    ensures response.dominantEmotion == Dominant(response.emotionCounts)
    ensures response.dominantEmotion == "none" <==> entries == []
    ensures !HasMedicalRisk(response.comment)
    ensures mode == "stub" ==>
      && response.comment == StubInsightComment(response.periodDays, response.dominantEmotion, |entries|)
      && !fallbackUsed && !guardrailTriggered
    ensures mode != "stub" ==>
      var out := generate(response.periodDays, response.emotionCounts, |entries|);
      var fallback := FallbackInsightComment(response.periodDays, response.dominantEmotion, |entries|);
      && (fallbackUsed <==> out.Failure? || guardrailTriggered)
      && (guardrailTriggered <==> out.Success? && HasMedicalRisk(out.value))
      && (out.Success? && !guardrailTriggered ==> response.comment == out.value)
      && (!(out.Success? && !guardrailTriggered) ==> response.comment == fallback)
  {
    var period := NormalizePeriod(periodDays);
    var counts := CountEmotions(entries);
    var total := SumCounts(counts);
    TotalIsLength(entries, counts);
    var dominant := Dominant(counts);
    assert dominant == "none" <==> entries == [] by {
      assert total == 0 <==> entries == [];
    }

    fallbackUsed, guardrailTriggered := false, false;

    ghost var out0 := generate(period, counts, total);
    assert out0 == generate(NormalizePeriod(periodDays), counts, |entries|);
    var comment;
    if mode == "stub" {
      comment := StubInsightComment(period, dominant, total);
      DominantNoLead(MostCommon(counts));
      StubInsightSafe(period, dominant, total);
    } else {
      var out := generate(period, counts, total);
      if out.Success? {
        comment := out.value;
      } else {
        comment := FallbackInsightComment(period, dominant, total);
        fallbackUsed := true;
        FallbackInsightSafe(period, dominant, total);
      }
    }

    var guarded := ApplyInsightGuardrail(comment, period, dominant, total);
    comment, guardrailTriggered := guarded.0, guarded.1;
    if guardrailTriggered {
      fallbackUsed := true;
    }
    response := InsightResponse(period, dominant, counts, comment);
  }

  /** The dominant emotion of a period with records is exactly the emotion
      whose count is maximal and strictly above that of every emotion declared
      before it. */
  lemma DominantCharacterized(counts: map<string, nat>, e: Emotion)
    requires HasEmotionKeys(counts) && SumCounts(counts) > 0
    ensures Dominant(counts) == Value(e) <==>
      (forall f: Emotion :: counts[Value(f)] <= counts[Value(e)])
      && (forall f: Emotion :: Rank(f) < Rank(e) ==> counts[Value(f)] < counts[Value(e)])
  {
    var r := MostCommon(counts);
    ValueInjective(r, e);
    if r != e {
      assert Rank(r) != Rank(e);
    }
  }

  /** Entries that all record the same emotion make it the dominant one. */
  lemma DominantOfUniform(entries: seq<JournalEntry>, counts: map<string, nat>, e: Emotion)
    requires entries != [] && forall i | 0 <= i < |entries| :: entries[i].emotion == e
    requires HasEmotionKeys(counts)
    requires forall f: Emotion :: counts[Value(f)] == Occurrences(entries, f)
    ensures Dominant(counts) == Value(e)
  {
    UniformOccurrences(entries, e);
    DominantOfSingle(counts, e);
  }

  /** Only one emotion counted: it is the dominant one. */
  lemma DominantOfSingle(counts: map<string, nat>, e: Emotion)
    requires HasEmotionKeys(counts) && counts[Value(e)] > 0
    requires forall f: Emotion :: f != e ==> counts[Value(f)] == 0
    ensures Dominant(counts) == Value(e)
  {
    DominantCharacterized(counts, e);
  }

  lemma {:induction false} UniformOccurrences(entries: seq<JournalEntry>, e: Emotion)
    requires forall i | 0 <= i < |entries| :: entries[i].emotion == e
    ensures forall f: Emotion :: Occurrences(entries, f) == if f == e then |entries| else 0
  {
    if entries != [] {
      UniformOccurrences(entries[..|entries| - 1], e);
    }
  }
}
