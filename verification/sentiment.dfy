/** `analyze_sentiment`, identical in the console, light and dark front
    ends. The polarity comes from a third-party classifier, given here as a
    parameter: `classifier(text)` is `Some(p)` when it returns polarity `p`
    and `None` when it raises. */
module SentimentAnalysis {
  import opened Wrappers
  import opened Entries
  import Text

  /** Thresholds at plus and minus 0.1; both boundaries are Neutral. */
  function Label(polarity: real): (l: Sentiment)
    ensures l == Positive <==> polarity > 0.1
    ensures l == Negative <==> polarity < -0.1
    ensures l == Neutral <==> -0.1 <= polarity <= 0.1
  {
    if polarity > 0.1 then Positive
    else if polarity < -0.1 then Negative
    else Neutral
  }

  /** Negative < Neutral < Positive. */
  function Rank(l: Sentiment): nat {
    match l
    case Negative => 0
    case Neutral => 1
    case Positive => 2
  }

  /** A higher polarity never gets a lower label. */
  lemma LabelMonotone(p: real, q: real)
    requires p <= q
    ensures Rank(Label(p)) <= Rank(Label(q))
  {
  }

  /** (score, label) for a note. Empty or whitespace-only text, and a
      classifier that raises, give (0.0, Neutral). */
  function AnalyzeSentiment(text: string, classifier: string -> Option<real>): (r: (real, Sentiment))
    ensures r.1 == Label(r.0)
    ensures Text.IsBlank(text) ==> r == (0.0, Neutral)
    ensures !Text.IsBlank(text) && classifier(text).Some? ==> r.0 == classifier(text).value
    ensures classifier(text).None? ==> r == (0.0, Neutral)
  {
    if Text.Strip(text) == "" then (0.0, Neutral)
    else match classifier(text)
      case None => (0.0, Neutral)
      case Some(p) => (p, Label(p))
  }

  /** Blank text never reaches the classifier: any two classifiers agree. */
  lemma BlankTextSkipsClassifier(text: string, c1: string -> Option<real>, c2: string -> Option<real>)
    requires Text.IsBlank(text)
    ensures AnalyzeSentiment(text, c1) == AnalyzeSentiment(text, c2)
  {
  }

  /** The label depends on the classifier's polarity alone. */
  lemma LabelDependsOnPolarityOnly(t1: string, t2: string, c1: string -> Option<real>, c2: string -> Option<real>)
    requires AnalyzeSentiment(t1, c1).0 == AnalyzeSentiment(t2, c2).0
    ensures AnalyzeSentiment(t1, c1).1 == AnalyzeSentiment(t2, c2).1
  {
  }
}
