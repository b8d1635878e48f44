/** The three values a phishing feature can take, by the convention of the
    training data the classifier was fitted on. */
module Scores {

  const Suspicious: int := -1
  const Neutral: int := 0
  const Legitimate: int := 1

  /** The values of the features that are actually measured. */
  type Binary = r: int | r == Suspicious || r == Legitimate witness Legitimate

  /** The score of a two-valued heuristic: suspicious when the condition holds. */
  function Flag(suspicious: bool): (r: Binary)
    ensures r == Suspicious <==> suspicious
    ensures r == Legitimate <==> !suspicious
  {
    if suspicious then Suspicious else Legitimate
  }
}
