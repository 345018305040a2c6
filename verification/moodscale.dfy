/** The fixed tables keyed by mood score: the three `mood_scale`
    dictionaries (console and light desktop share one, the dark desktop
    splits label and emoji, the PDF exporter drops the emoji), the
    average-to-emoji thresholds and the canned recommendations. */
module MoodScale {

  const VerySadEmoji: string := "\U{1F622}"
  const SadEmoji: string := "\U{1F61E}"
  const NeutralEmoji: string := "\U{1F610}"
  const HappyEmoji: string := "\U{1F60A}"
  const VeryHappyEmoji: string := "\U{1F604}"

  /** Scores the scales accept. */
  predicate ValidScore(score: int) {
    1 <= score <= 5
  }

  /** `mood_scale` of the console and light desktop front ends. */
  const ConsoleScale: map<int, string> := map[
    1 := "Very Sad \U{1F622}",
    2 := "Sad \U{1F61E}",
    3 := "Neutral \U{1F610}",
    4 := "Happy \U{1F60A}",
    5 := "Very Happy \U{1F604}"]

  /** One entry of the dark desktop's `mood_scale`. */
  datatype Mood = Mood(name: string, emoji: string)

  /** `mood_scale` of the dark desktop front end. */
  const ProfessionalScale: map<int, Mood> := map[
    1 := Mood("Very Low", "\U{1F622}"),
    2 := Mood("Low", "\U{1F61E}"),
    3 := Mood("Neutral", "\U{1F610}"),
    4 := Mood("High", "\U{1F60A}"),
    5 := Mood("Very High", "\U{1F604}")]

  /** `mood_scale` of the PDF exporter. */
  const ReportScale: map<int, string> := map[
    1 := "Very Sad",
    2 := "Sad",
    3 := "Neutral",
    4 := "Happy",
    5 := "Very Happy"]

  /** The emojis from saddest to happiest. */
  const EmojiLadder: seq<string> := [VerySadEmoji, SadEmoji, NeutralEmoji, HappyEmoji, VeryHappyEmoji]

  /** All three scales are defined on exactly the scores 1..5, and the
      console label is the report label, a space and the dark desktop's
      emoji for that score, which is the score's rung of the ladder. */
  lemma ScalesAgree()
    ensures forall s :: s in ConsoleScale.Keys <==> ValidScore(s)
    ensures forall s :: s in ProfessionalScale.Keys <==> ValidScore(s)
    ensures forall s :: s in ReportScale.Keys <==> ValidScore(s)
    ensures forall s | ValidScore(s) ::
              ConsoleScale[s] == ReportScale[s] + " " + ProfessionalScale[s].emoji
    ensures forall s | ValidScore(s) :: ProfessionalScale[s].emoji == EmojiLadder[s - 1]
  {
  }

  /** Different scores carry different labels in every scale. */
  lemma ScalesAreInjective()
    ensures forall s, t | ValidScore(s) && ValidScore(t) && s != t ::
              ConsoleScale[s] != ConsoleScale[t]
              && ProfessionalScale[s].name != ProfessionalScale[t].name
              && ReportScale[s] != ReportScale[t]
  {
    assert ReportScale[1] != ReportScale[5] by {
      assert |ReportScale[1]| == 8 && |ReportScale[5]| == 10;
    }
    assert ConsoleScale[1] != ConsoleScale[5] by {
      assert |ConsoleScale[1]| == 10 && |ConsoleScale[5]| == 12;
    }
  }

  /** `get_mood_emoji`: the emoji for a (possibly averaged) score,
      thresholds 4.5, 3.5, 2.5 and 1.5 inclusive. */
  function MoodEmoji(score: real): (e: string)
    ensures e in EmojiLadder
    ensures e == VeryHappyEmoji <==> score >= 4.5
    ensures e == HappyEmoji <==> 3.5 <= score < 4.5
    ensures e == NeutralEmoji <==> 2.5 <= score < 3.5
    ensures e == SadEmoji <==> 1.5 <= score < 2.5
    ensures e == VerySadEmoji <==> score < 1.5
  {
    EmojisDistinct();
    if score >= 4.5 then VeryHappyEmoji
    else if score >= 3.5 then HappyEmoji
    else if score >= 2.5 then NeutralEmoji
    else if score >= 1.5 then SadEmoji
    else VerySadEmoji
  }

  /** Position of an emoji on the ladder. */
  function EmojiRank(e: string): nat {
    if e == VeryHappyEmoji then 4
    else if e == HappyEmoji then 3
    else if e == NeutralEmoji then 2
    else if e == SadEmoji then 1
    else 0
  }

  lemma EmojisDistinct()
    ensures forall i, j | 0 <= i < j < |EmojiLadder| :: EmojiLadder[i] != EmojiLadder[j]
  {
    assert VerySadEmoji[0] != SadEmoji[0];
    assert VerySadEmoji[0] != NeutralEmoji[0];
    assert VerySadEmoji[0] != HappyEmoji[0];
    assert VerySadEmoji[0] != VeryHappyEmoji[0];
    assert SadEmoji[0] != NeutralEmoji[0];
    assert SadEmoji[0] != HappyEmoji[0];
    assert SadEmoji[0] != VeryHappyEmoji[0];
    assert NeutralEmoji[0] != HappyEmoji[0];
    assert NeutralEmoji[0] != VeryHappyEmoji[0];
    assert HappyEmoji[0] != VeryHappyEmoji[0];
  }

  /** A higher average never shows a sadder emoji. */
  lemma MoodEmojiMonotone(x: real, y: real)
    requires x <= y
    ensures EmojiRank(MoodEmoji(x)) <= EmojiRank(MoodEmoji(y))
  {
    EmojisDistinct();
  }

  /** On the whole scores 1..5 the thresholds pick the emoji of that score's
      `mood_scale` entry. */
  lemma MoodEmojiMatchesScale(score: int)
    requires ValidScore(score)
    ensures MoodEmoji(score as real) == ProfessionalScale[score].emoji
    ensures MoodEmoji(score as real) == EmojiLadder[score - 1]
    ensures EmojiRank(MoodEmoji(score as real)) == score - 1
  {
    EmojisDistinct();
  }

  const VeryHappyAdvice: seq<string> := [
    "\U{1F680} Perfect time for creative projects and brainstorming",
    "\U{1F4DE} Reach out to colleagues for collaboration opportunities",
    "\U{1F3AF} Tackle your most challenging task while energy is high",
    "\U{1F4DD} Document your current strategies - you're in a great headspace!"]

  const HappyAdvice: seq<string> := [
    "\U{26A1} Great energy for productive work sessions",
    "\U{1F91D} Schedule important meetings or presentations",
    "\U{1F4DA} Learn something new - you're in a receptive mindset",
    "\U{1F3A8} Balance focused work with creative activities"]

  const NeutralAdvice: seq<string> := [
    "\U{2696}\U{FE0F} Perfect for routine tasks and organization",
    "\U{1F4CB} Create to-do lists and plan upcoming projects",
    "\U{1F504} Review and refine existing work",
    "\U{1F4AA} Gradually build momentum with small wins"]

  const SadAdvice: seq<string> := [
    "\U{1F9D8} Focus on self-care and stress management",
    "\U{1F343} Take regular breaks and get some fresh air",
    "\U{1F4DE} Connect with supportive friends or colleagues",
    "\U{2705} Stick to simple, achievable tasks today"]

  const VerySadAdvice: seq<string> := [
    "\U{1F499} Prioritize mental health and well-being",
    "\U{1F917} Reach out to someone you trust for support",
    "\U{1F331} Focus on very basic, nurturing activities",
    "\U{23F0} Consider postponing major decisions until you feel better"]

  /** The advice lists by score, from 1 (Very Sad) to 5 (Very Happy). */
  const AdviceLadder: seq<seq<string>> :=
    [VerySadAdvice, SadAdvice, NeutralAdvice, HappyAdvice, VeryHappyAdvice]

  /** `generate_mood_based_recommendations(mood_score, avg_mood)`: the list
      for 5, 4, 3 or 2, and the "Very Sad" list for every other score
      (1 included); `avg_mood` is accepted and never read. The result is the
      chosen list cut to four items. */
  function Recommendations(moodScore: int, avgMood: real): (r: seq<string>)
    ensures |r| == 4
    ensures r in {VeryHappyAdvice, HappyAdvice, NeutralAdvice, SadAdvice, VerySadAdvice}
    ensures moodScore !in {2, 3, 4, 5} ==> r == VerySadAdvice
    ensures ValidScore(moodScore) ==> r == AdviceLadder[moodScore - 1]
  {
    var chosen :=
      if moodScore == 5 then VeryHappyAdvice
      else if moodScore == 4 then HappyAdvice
      else if moodScore == 3 then NeutralAdvice
      else if moodScore == 2 then SadAdvice
      else VerySadAdvice;
    assert chosen[..4] == chosen;
    chosen[..4]
  }

  /** The average mood has no influence on the advice. */
  lemma RecommendationsIgnoreAverage(moodScore: int, a: real, b: real)
    ensures Recommendations(moodScore, a) == Recommendations(moodScore, b)
  {
  }

  /** The five scores get five different lists, so the advice determines
      the score. */
  lemma RecommendationsDistinguishScores(s: int, t: int, avg: real)
    requires ValidScore(s) && ValidScore(t) && s != t
    ensures Recommendations(s, avg) != Recommendations(t, avg)
  {
    assert |VeryHappyAdvice[0]| == 54;
    assert |HappyAdvice[0]| == 43;
    assert |NeutralAdvice[0]| == 45;
    assert |SadAdvice[0]| == 42;
    assert |VerySadAdvice[0]| == 41;
  }
}
