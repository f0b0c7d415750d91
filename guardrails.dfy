/**
 * The two guardrails that replace a message in a medical tone by a fixed
 * fallback, and the facts that make them work: none of the fixed texts
 * matches a medical-risk pattern.
 *
 * Each fixed sentence is shown `Safe` on its own, as written in the
 * `Messages` module, and the whole texts follow by `SafeJoin`.
 */
module Guardrails {
  import opened Wrappers
  import opened Text
  import opened Emotions
  import opened Safety
  import opened Messages
  import opened FixedTexts

  /** `apply_comfort_guardrail`: the message and `False` when it has no
      medical risk, the fallback comfort message and `True` otherwise. The
      message it returns never has medical risk. */
  function ApplyComfortGuardrail(message: string, text: string, emotion: Emotion): (r: (string, bool))
    ensures r.1 == HasMedicalRisk(message)
    ensures !r.1 ==> r.0 == message
    ensures r.1 ==> r.0 == FallbackComfortMessage(text, Some(emotion))
    ensures !HasMedicalRisk(r.0)
  {
    FallbackComfortSafe(text, Some(emotion));
    if !HasMedicalRisk(message) then (message, false)
    else (FallbackComfortMessage(text, Some(emotion)), true)
  }

  /** `apply_insight_guardrail`, the same for a period comment. */
  function ApplyInsightGuardrail(comment: string, periodDays: int, dominant: string, total: int): (r: (string, bool))
    ensures r.1 == HasMedicalRisk(comment)
    ensures !r.1 ==> r.0 == comment
    ensures r.1 ==> r.0 == FallbackInsightComment(periodDays, dominant, total)
    ensures !HasMedicalRisk(r.0)
  {
    FallbackInsightSafe(periodDays, dominant, total);
    if !HasMedicalRisk(comment) then (comment, false)
    else (FallbackInsightComment(periodDays, dominant, total), true)
  }

  /** A guarded message passes the guardrail again untouched. */
  lemma ComfortGuardrailIdempotent(message: string, text: string, emotion: Emotion)
    ensures var g := ApplyComfortGuardrail(message, text, emotion);
            ApplyComfortGuardrail(g.0, text, emotion) == (g.0, false)
  {
  }

  lemma InsightGuardrailIdempotent(comment: string, periodDays: int, dominant: string, total: int)
    ensures var g := ApplyInsightGuardrail(comment, periodDays, dominant, total);
            ApplyInsightGuardrail(g.0, periodDays, dominant, total) == (g.0, false)
  {
  }

  // ---------------------------------------------------------------------
  // Fallback comfort messages
  // ---------------------------------------------------------------------

  /** No fallback comfort message has medical risk. */
  lemma FallbackComfortSafe(text: string, emotion: Option<Emotion>)
    ensures !HasMedicalRisk(FallbackComfortMessage(text, emotion))
  {
    LineMessageSafe(OrCalm(emotion), |Strip(text)| % 2);
  }

  /** Either line of an emotion followed by the closing sentence. */
  lemma LineMessageSafe(e: Emotion, k: nat)
    requires k < 2
    ensures !HasMedicalRisk(FallbackLines(e)[k] + Closing)
  {
    LineSafe(e, k);
    ClosingSafe();
    SafeJoin(FallbackLines(e)[k], Closing);
    QuietHasNoRisk(FallbackLines(e)[k] + Closing);
  }

  lemma LineSafe(e: Emotion, k: nat)
    requires k < 2
    ensures Safe(FallbackLines(e)[k])
  {
    LinesSafe(e);
    if k == 0 { } else { }
  }

  /** Both lines of every emotion are Safe. */
  lemma LinesSafe(e: Emotion)
    ensures Safe(FallbackLines(e)[0]) && Safe(FallbackLines(e)[1])
  {
    match e
    case Calm =>
      CalmLines();
      NoLeadSafe("지금의 고요함을 잘 지켜내고 계시네요.");
      Join2("조용한 숨 하나가 ", "마음을 단단하게 붙잡아줄 거예요.");
    case Sad =>
      SadLines();
      Join2("슬픔을 말로 꺼내는 데 ", "이미 큰 용기가 필요했을 거예요.");
      Join2("오늘은 버틴 자신을 조금 ", "더 부드럽게 대해주셔도 됩니다.");
    case Angry =>
      AngryLines();
      AngryLinesLeads();
      Join2("화가 올라온 마음에는 ", "그만한 이유가 있었을 거예요.");
      Join3("잠깐 멈춰 선 지금이, ", "마음을 다치지 않게 ", "지키는 시간입니다.");
    case Anxious =>
      AnxiousLines();
      Join2("불안한 마음을 ", "혼자 붙잡고 있지 않아도 괜찮습니다.");
      Join2("지금 이 순간 하나만 ", "천천히 건너가도 충분합니다.");
    case Happy =>
      HappyLines();
      Join2("기쁜 마음을 오래 붙잡고 ", "싶은 하루였겠네요.");
      Join2("지금의 밝은 감정이 ", "오래 남아 주면 좋겠습니다.");
  }

  /** `SafeJoin` for pieces that are Safe or free of lead characters. */
  lemma Join2(a: string, b: string)
    requires Safe(a) || NoLead(a)
    requires Safe(b) || NoLead(b)
    ensures Safe(a + b)
  {
    if NoLead(a) { NoLeadSafe(a); }
    if NoLead(b) { NoLeadSafe(b); }
    SafeJoin(a, b);
  }

  lemma Join3(a: string, b: string, c: string)
    requires Safe(a) || NoLead(a)
    requires Safe(b) || NoLead(b)
    requires Safe(c) || NoLead(c)
    ensures Safe(a + b + c)
  {
    Join2(a, b);
    if NoLead(c) { NoLeadSafe(c); }
    SafeJoin(a + b, c);
  }

  lemma ClosingSafe()
    ensures Safe(Closing)
  {
    ClosingPieces();
    Join2(" 지금 여기까지 오신 ", "것만으로도 충분히 잘하고 계십니다.");
  }

  // ---------------------------------------------------------------------
  // Fallback insight comments
  // ---------------------------------------------------------------------

  /** No fallback insight comment has medical risk. */
  lemma FallbackInsightSafe(periodDays: int, dominant: string, total: int)
    ensures !HasMedicalRisk(FallbackInsightComment(periodDays, dominant, total))
  {
    var r := FallbackInsightComment(periodDays, dominant, total);
    if total == 0 {
      NoRecordsPieces();
      Join2("기록이 없어 해석을 만들 수 없습니다. ", "짧은 한 줄부터 시작해 보셔도 좋습니다.");
    } else if IsDraining(dominant) {
      ExhaustedSafe(periodDays);
    } else {
      RecoverySafe(periodDays);
    }
    QuietHasNoRisk(r);
  }

  /** "최근 " followed by a period. */
  lemma RecentSafe(periodDays: int)
    ensures Safe("최근 " + IntToString(periodDays))
  {
    ExhaustedPieces();
    NumeralNoLead(periodDays);
    Join2("최근 ", IntToString(periodDays));
  }

  lemma ExhaustedSafe(periodDays: int)
    ensures Safe(ExhaustedComment(periodDays))
  {
    RecentSafe(periodDays);
    ExhaustedPieces();
    Extend5("최근 " + IntToString(periodDays), "일은 소진 감정이 ", "상대적으로 많았습니다. ",
            "해야 할 일을 줄이고, ", "회복 루틴을 먼저 ", "챙기는 것이 도움이 됩니다.");
  }

  lemma RecoverySafe(periodDays: int)
    ensures Safe(RecoveryComment(periodDays))
  {
    RecentSafe(periodDays);
    RecoveryPieces();
    Extend4("최근 " + IntToString(periodDays), "일은 버티는 힘과 ", "회복 감정이 함께 보입니다. ",
            "잘 맞았던 휴식 방식은 ", "다음 주에도 이어가 보세요.");
  }

  /** A Safe text followed by pieces that are Safe or free of lead characters. */
  lemma Extend4(h: string, a: string, b: string, c: string, d: string)
    requires Safe(h)
    requires Safe(a) || NoLead(a)
    requires Safe(b) || NoLead(b)
    requires Safe(c) || NoLead(c)
    requires Safe(d) || NoLead(d)
    ensures Safe(h + a + b + c + d)
  {
    Join2(h, a);
    Join2(h + a, b);
    Join2(h + a + b, c);
    Join2(h + a + b + c, d);
  }

  lemma Extend5(h: string, a: string, b: string, c: string, d: string, e: string)
    requires Safe(h)
    requires Safe(a) || NoLead(a)
    requires Safe(b) || NoLead(b)
    requires Safe(c) || NoLead(c)
    requires Safe(d) || NoLead(d)
    requires Safe(e) || NoLead(e)
    ensures Safe(h + a + b + c + d + e)
  {
    Extend4(h, a, b, c, d);
    Join2(h + a + b + c + d, e);
  }

  // ---------------------------------------------------------------------
  // Stub texts
  // ---------------------------------------------------------------------

  /** No stub comfort message has medical risk, so in test mode the comfort
      guardrail never fires. */
  lemma StubComfortSafe(e: Emotion)
    ensures !HasMedicalRisk(StubComfortMessage(e))
  {
    StubTailSafe(e);
    StubPrefixPiece();
    SafeJoin(StubPrefix, StubComfortTail(e));
    QuietHasNoRisk(StubPrefix + StubComfortTail(e));
  }

  lemma StubTailSafe(e: Emotion)
    ensures Safe(StubComfortTail(e))
  {
    StubComfortPieces();
    StubComfortPiecesMore();
    match e
    case Calm => Join2(" 지금의 차분함을 ", "그대로 지켜도 괜찮습니다.");
    case Sad => Join2(" 오늘의 무거움을 ", "잠시 내려놓아도 괜찮습니다.");
    case Angry => Join2(" 올라온 감정을 여기서 ", "잠깐 비워내셔도 됩니다.");
    case Anxious => Join2(" 불안이 큰 날일수록 ", "한 호흡씩 천천히 가도 됩니다.");
    case Happy => Join2(" 오늘의 밝은 감정을 ", "충분히 느끼셔도 좋습니다.");
  }

  /** No stub insight comment has medical risk when the dominant emotion named
      in it holds no lead character, as every emotion value and "none" do. */
  lemma StubInsightSafe(periodDays: int, dominant: string, total: int)
    requires NoLead(dominant)
    ensures !HasMedicalRisk(StubInsightComment(periodDays, dominant, total))
  {
    var r := StubInsightComment(periodDays, dominant, total);
    var recent := " 최근 " + IntToString(periodDays);
    StubInsightPieces();
    NumeralNoLead(periodDays);
    Join2(" 최근 ", IntToString(periodDays));
    var tail;
    if total == 0 {
      tail := " 기록이 없어 분석 " + "코멘트를 만들 수 없습니다.";
      Join2(" 기록이 없어 분석 ", "코멘트를 만들 수 없습니다.");
    } else if dominant == "none" {
      tail := recent + "일 감정 흐름을 다시 모아보세요.";
      Join2(recent, "일 감정 흐름을 다시 모아보세요.");
    } else {
      tail := recent + "일의 대표 감정은 " + dominant + "입니다.";
      Join3(recent, "일의 대표 감정은 ", dominant);
      SafeJoin(recent + "일의 대표 감정은 " + dominant, "입니다.");
    }
    assert r == StubPrefix + tail;
    StubPrefixPiece();
    SafeJoin(StubPrefix, tail);
    QuietHasNoRisk(r);
  }

  /** The emotion values and "none" are ASCII words. */
  lemma DominantNoLead(e: Emotion)
    ensures NoLead(Value(e)) && NoLead("none")
  {
  }
}
