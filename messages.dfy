/**
 * The fixed texts of the backend: the fallback comfort lines and insight
 * comments used when the generator fails or writes in a medical tone, and
 * the stub texts of the test mode.
 */
module Messages {
  import opened Wrappers
  import opened Text
  import opened Emotions

  // ---------------------------------------------------------------------
  // Fallback comfort
  // ---------------------------------------------------------------------

  // The longer texts are written as concatenations of short pieces, cut at
  // word boundaries; the values are the texts of the source.

  /** `FALLBACK_COMFORT`: two lines per emotion, each a sentence ending in a
      full stop. */
  function FallbackLines(e: Emotion): (lines: seq<string>)
    ensures |lines| == 2
    ensures forall k | 0 <= k < 2 :: EndsWith(lines[k], ".")
  {
    match e
    case Calm => ["지금의 고요함을 잘 지켜내고 계시네요.",
                  "조용한 숨 하나가 " + "마음을 단단하게 붙잡아줄 거예요."]
    case Sad => ["슬픔을 말로 꺼내는 데 " + "이미 큰 용기가 필요했을 거예요.",
                 "오늘은 버틴 자신을 조금 " + "더 부드럽게 대해주셔도 됩니다."]
    case Angry => ["화가 올라온 마음에는 " + "그만한 이유가 있었을 거예요.",
                   "잠깐 멈춰 선 지금이, " + "마음을 다치지 않게 " + "지키는 시간입니다."]
    case Anxious => ["불안한 마음을 " + "혼자 붙잡고 있지 않아도 괜찮습니다.",
                     "지금 이 순간 하나만 " + "천천히 건너가도 충분합니다."]
    case Happy => ["기쁜 마음을 오래 붙잡고 " + "싶은 하루였겠네요.",
                   "지금의 밝은 감정이 " + "오래 남아 주면 좋겠습니다."]
  }

  /** The sentence every fallback comfort message ends with. */
  const Closing: string := " 지금 여기까지 오신 " + "것만으로도 충분히 잘하고 계십니다."

  /** `fallback_comfort_message`: the line of the emotion (calm when missing)
      picked by the length of the stripped text, then the closing sentence. */
  function FallbackComfortMessage(text: string, emotion: Option<Emotion>): (r: string)
    ensures EndsWith(r, Closing)
    ensures r[..|r| - |Closing|] == FallbackLines(OrCalm(emotion))[|Strip(text)| % 2]
  {
    var lines := FallbackLines(OrCalm(emotion));
    var index := |Strip(text)| % |lines|;
    SplitAtClosing(lines[index]);
    lines[index] + Closing
  }

  lemma SplitAtClosing(line: string)
    ensures var r := line + Closing; |r| >= |Closing| && r[|r| - |Closing|..] == Closing && r[..|r| - |Closing|] == line
  {
    var r := line + Closing;
    assert r[|line|..] == Closing;
    assert r[..|line|] == line;
  }

  /** A missing emotion is answered like calm. */
  lemma FallbackMissingIsCalm(text: string)
    ensures FallbackComfortMessage(text, None) == FallbackComfortMessage(text, Some(Calm))
  {
  }

  /** The line depends on the text only through the parity of its stripped
      length: texts of equal parity get the same message and texts of
      different parity get different ones. */
  lemma FallbackByParity(t1: string, t2: string, emotion: Option<Emotion>)
    ensures FallbackComfortMessage(t1, emotion) == FallbackComfortMessage(t2, emotion)
        <==> |Strip(t1)| % 2 == |Strip(t2)| % 2
  {
    LinesDiffer(OrCalm(emotion));
    PickByParity(FallbackLines(OrCalm(emotion)), |Strip(t1)|, |Strip(t2)|);
  }

  lemma PickByParity(lines: seq<string>, n1: nat, n2: nat)
    requires |lines| == 2 && lines[0] != lines[1]
    ensures lines[n1 % 2] + Closing == lines[n2 % 2] + Closing <==> n1 % 2 == n2 % 2
  {
    var a, b := lines[n1 % 2] + Closing, lines[n2 % 2] + Closing;
    SplitAtClosing(lines[n1 % 2]);
    SplitAtClosing(lines[n2 % 2]);
  }

  /** The two lines of an emotion already differ in their first character. */
  lemma LinesDiffer(e: Emotion)
    ensures FallbackLines(e)[0] != FallbackLines(e)[1]
  {
    match e
    case Calm => assert FallbackLines(Calm)[0][0] == '지' && FallbackLines(Calm)[1][0] == '조';
    case Sad => assert FallbackLines(Sad)[0][0] == '슬' && FallbackLines(Sad)[1][0] == '오';
    case Angry => assert FallbackLines(Angry)[0][0] == '화' && FallbackLines(Angry)[1][0] == '잠';
    case Anxious => assert FallbackLines(Anxious)[0][0] == '불' && FallbackLines(Anxious)[1][0] == '지';
    case Happy => assert FallbackLines(Happy)[0][0] == '기' && FallbackLines(Happy)[1][0] == '지';
  }

  // ---------------------------------------------------------------------
  // Fallback insight
  // ---------------------------------------------------------------------

  const NoRecordsComment: string := "기록이 없어 해석을 만들 수 없습니다. " + "짧은 한 줄부터 시작해 보셔도 좋습니다."

  /** The opening both period comments share: "최근 N일은 ". */
  function PeriodOpening(periodDays: int): string {
    "최근 " + IntToString(periodDays) + "일은 "
  }

  /** The comment for a period dominated by a draining emotion. It names the
      period first. */
  function ExhaustedComment(periodDays: int): (r: string)
    ensures StartsWith(r, PeriodOpening(periodDays))
  {
    var r := "최근 " + IntToString(periodDays) + "일은 소진 감정이 " + "상대적으로 많았습니다. "
      + "해야 할 일을 줄이고, " + "회복 루틴을 먼저 " + "챙기는 것이 도움이 됩니다.";
    assert r[..|PeriodOpening(periodDays)|] == PeriodOpening(periodDays);
    r
  }

  /** The comment for any other period with records. It names the period first. */
  function RecoveryComment(periodDays: int): (r: string)
    ensures StartsWith(r, PeriodOpening(periodDays))
  {
    var r := "최근 " + IntToString(periodDays) + "일은 버티는 힘과 " + "회복 감정이 함께 보입니다. "
      + "잘 맞았던 휴식 방식은 " + "다음 주에도 이어가 보세요.";
    assert r[..|PeriodOpening(periodDays)|] == PeriodOpening(periodDays);
    r
  }

  /** The dominant emotions `{"anxious", "sad", "angry"}` that count as draining. */
  predicate IsDraining(dominant: string) {
    dominant == "anxious" || dominant == "sad" || dominant == "angry"
  }

  /** `fallback_insight_comment`. */
  function FallbackInsightComment(periodDays: int, dominant: string, total: int): (r: string)
    ensures total == 0 ==> r == NoRecordsComment
    ensures total != 0 ==> (r == ExhaustedComment(periodDays) <==> IsDraining(dominant))
    ensures total != 0 ==> (r == RecoveryComment(periodDays) <==> !IsDraining(dominant))
  {
    ExhaustedIsNotRecovery(periodDays);
    if total == 0 then NoRecordsComment
    else if IsDraining(dominant) then ExhaustedComment(periodDays)
    else RecoveryComment(periodDays)
  }

  /** The two comments part right after the shared opening. */
  lemma ExhaustedIsNotRecovery(periodDays: int)
    ensures ExhaustedComment(periodDays) != RecoveryComment(periodDays)
  {
    var n := IntToString(periodDays);
    var k := 3 + |n| + 3;
    assert ExhaustedComment(periodDays)[k] == '소';
    assert RecoveryComment(periodDays)[k] == '버';
  }

  // ---------------------------------------------------------------------
  // Stub texts
  // ---------------------------------------------------------------------

  /** The sentence every test-mode text opens with. */
  const StubPrefix: string := "테스트 모드 응답입니다."

  /** What follows the prefix in each entry of `STUB_COMFORT`: a space, then
      a sentence ending in a full stop. */
  function StubComfortTail(e: Emotion): (r: string)
    ensures |r| >= 2 && r[0] == ' ' && !IsSpace(r[1])
    ensures EndsWith(r, ".")
  {
    match e
    case Calm => " 지금의 차분함을 " + "그대로 지켜도 괜찮습니다."
    case Sad => " 오늘의 무거움을 " + "잠시 내려놓아도 괜찮습니다."
    case Angry => " 올라온 감정을 여기서 " + "잠깐 비워내셔도 됩니다."
    case Anxious => " 불안이 큰 날일수록 " + "한 호흡씩 천천히 가도 됩니다."
    case Happy => " 오늘의 밝은 감정을 " + "충분히 느끼셔도 좋습니다."
  }

  /** `STUB_COMFORT` / `stub_comfort_message`. */
  function StubComfortMessage(e: Emotion): (r: string)
    ensures StartsWith(r, StubPrefix)
  {
    assert (StubPrefix + StubComfortTail(e))[..|StubPrefix|] == StubPrefix;
    StubPrefix + StubComfortTail(e)
  }

  /** `stub_insight_comment`. */
  function StubInsightComment(periodDays: int, dominant: string, total: int): (r: string)
    ensures StartsWith(r, StubPrefix)
  {
    var tail :=
      if total == 0 then " 기록이 없어 분석 " + "코멘트를 만들 수 없습니다."
      else if dominant == "none" then " 최근 " + IntToString(periodDays) + "일 감정 흐름을 다시 모아보세요."
      else " 최근 " + IntToString(periodDays) + "일의 대표 감정은 " + dominant + "입니다.";
    assert (StubPrefix + tail)[..|StubPrefix|] == StubPrefix;
    StubPrefix + tail
  }
}
