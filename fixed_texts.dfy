/**
 * Each piece of the backend's fixed texts, exactly as the `Messages` module
 * writes it, holds no position where a medical-risk match could start. The
 * facts are kept apart from the functions that use the pieces, so that each
 * is checked on the literals alone.
 */
module FixedTexts {
  import opened Safety

  lemma CalmLines()
    ensures NoLead("지금의 고요함을 잘 지켜내고 계시네요.")
    ensures Safe("조용한 숨 하나가 ") && NoLead("마음을 단단하게 붙잡아줄 거예요.")
  {
  }

  lemma SadLines()
    ensures NoLead("슬픔을 말로 꺼내는 데 ") && NoLead("이미 큰 용기가 필요했을 거예요.")
    ensures Safe("오늘은 버틴 자신을 조금 ") && NoLead("더 부드럽게 대해주셔도 됩니다.")
  {
  }

  lemma AngryLines()
    ensures NoLead("화가 올라온 마음에는 ") && NoLead("그만한 이유가 있었을 거예요.")
  {
  }

  lemma AngryLinesLeads()
    ensures NoLead("잠깐 멈춰 선 지금이, ") && Safe("마음을 다치지 않게 ") && Safe("지키는 시간입니다.")
  {
  }

  lemma AnxiousLines()
    ensures Safe("불안한 마음을 ") && NoLead("혼자 붙잡고 있지 않아도 괜찮습니다.")
    ensures NoLead("지금 이 순간 하나만 ") && NoLead("천천히 건너가도 충분합니다.")
  {
  }

  lemma HappyLines()
    ensures NoLead("기쁜 마음을 오래 붙잡고 ") && NoLead("싶은 하루였겠네요.")
    ensures NoLead("지금의 밝은 감정이 ") && NoLead("오래 남아 주면 좋겠습니다.")
  {
  }

  lemma ClosingPieces()
    ensures NoLead(" 지금 여기까지 오신 ") && NoLead("것만으로도 충분히 잘하고 계십니다.")
  {
  }

  lemma NoRecordsPieces()
    ensures NoLead("기록이 없어 해석을 만들 수 없습니다. ") && NoLead("짧은 한 줄부터 시작해 보셔도 좋습니다.")
  {
  }

  lemma ExhaustedPieces()
    ensures NoLead("최근 ") && Safe("일은 소진 감정이 ") && NoLead("상대적으로 많았습니다. ")
    ensures NoLead("해야 할 일을 줄이고, ") && NoLead("회복 루틴을 먼저 ") && NoLead("챙기는 것이 도움이 됩니다.")
  {
  }

  lemma RecoveryPieces()
    ensures NoLead("일은 버티는 힘과 ") && Safe("회복 감정이 함께 보입니다. ")
    ensures NoLead("잘 맞았던 휴식 방식은 ") && NoLead("다음 주에도 이어가 보세요.")
  {
  }

  lemma StubPrefixPiece()
    ensures Safe("테스트 모드 응답입니다.")
  {
  }

  lemma StubComfortPieces()
    ensures NoLead(" 지금의 차분함을 ") && NoLead("그대로 지켜도 괜찮습니다.")
    ensures NoLead(" 오늘의 무거움을 ") && NoLead("잠시 내려놓아도 괜찮습니다.")
    ensures NoLead(" 올라온 감정을 여기서 ") && NoLead("잠깐 비워내셔도 됩니다.")
  {
  }

  lemma StubComfortPiecesMore()
    ensures Safe(" 불안이 큰 날일수록 ") && NoLead("한 호흡씩 천천히 가도 됩니다.")
    ensures NoLead(" 오늘의 밝은 감정을 ") && NoLead("충분히 느끼셔도 좋습니다.")
  {
  }

  lemma StubInsightPieces()
    ensures NoLead(" 기록이 없어 분석 ") && NoLead("코멘트를 만들 수 없습니다.")
    ensures NoLead(" 최근 ") && NoLead("일 감정 흐름을 다시 모아보세요.")
    ensures NoLead("일의 대표 감정은 ") && Safe("입니다.")
  {
  }
}
