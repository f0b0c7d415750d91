/**
 * The five emotions of the backend, in their declaration order, with the
 * string values the API uses and the Korean labels handed to the generator.
 */
module Emotions {
  import opened Wrappers

  datatype Emotion = Calm | Sad | Angry | Anxious | Happy

  /** The declaration order, which is also the iteration order of `Emotion`. */
  const Declared: seq<Emotion> := [Calm, Sad, Angry, Anxious, Happy]

  /** The enum's string value. */
  function Value(e: Emotion): string {
    match e
    case Calm => "calm"
    case Sad => "sad"
    case Angry => "angry"
    case Anxious => "anxious"
    case Happy => "happy"
  }

  /** The position of `e` in the declaration order. */
  function Rank(e: Emotion): (r: nat)
    ensures r < |Declared| && Declared[r] == e
  {
    match e
    case Calm => 0
    case Sad => 1
    case Angry => 2
    case Anxious => 3
    case Happy => 4
  }

  predicate IsHangulSyllable(c: char) { '\U{AC00}' <= c <= '\U{D7A3}' }

  /** `EMOTION_KO_LABEL`: a word of Hangul syllables for each emotion. */
  function KoLabel(e: Emotion): (r: string)
    ensures |r| >= 2 && forall k | 0 <= k < |r| :: IsHangulSyllable(r[k])
  {
    match e
    case Calm => "괜찮음"
    case Sad => "슬픔"
    case Angry => "화남"
    case Anxious => "불안"
    case Happy => "기쁨"
  }

  /** `emotion or Emotion.calm`: a missing emotion counts as calm. */
  function OrCalm(e: Option<Emotion>): (r: Emotion)
    ensures e.Some? ==> r == e.value
    ensures e.None? ==> r == Calm
  {
    if e.Some? then e.value else Calm
  }

  /** Distinct emotions have distinct Korean labels. */
  lemma KoLabelInjective(e: Emotion, f: Emotion)
    ensures KoLabel(e) == KoLabel(f) <==> e == f
  {
    if e != f {
      assert KoLabel(e)[0] != KoLabel(f)[0];
    }
  }

  /** Distinct emotions have distinct values, so a value names one emotion. */
  lemma ValueInjective(e: Emotion, f: Emotion)
    ensures Value(e) == Value(f) <==> e == f
  {
    if e != f {
      assert Value(e)[0] != Value(f)[0] || |Value(e)| != |Value(f)|;
    }
  }

  /** Every emotion appears exactly once in the declaration order. */
  lemma DeclaredOnce(e: Emotion, k: nat)
    requires k < |Declared|
    ensures Declared[k] == e <==> k == Rank(e)
  {
  }
}
