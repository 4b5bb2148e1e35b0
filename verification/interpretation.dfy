/** How the controller reads the classifier's `{prediction, confidence}`
    pair (app.js, lines 189-190). */
module Interpretation {

  datatype EmotionalState = Normal | Depression

  /** Severity tiers, ordered by `Rank`. */
  datatype Severity = Low | Moderate | High

  /** The label the controller stores and displays for each tier. */
  function SeverityLabel(s: Severity): string {
    match s
    case Low => "Low"
    case Moderate => "Moderate"
    case High => "High"
  }

  /** Confidence strictly above this is High. */
  const HighThreshold: real := 0.8
  /** Confidence strictly above this (and not High) is Moderate. */
  const ModerateThreshold: real := 0.6

  /** `prediction === 1` selects Depression; every other value is Normal. */
  function EmotionalStateOf(prediction: real): (e: EmotionalState)
    ensures e == Depression <==> prediction == 1.0
    ensures e == Normal <==> prediction != 1.0
  {
    if prediction == 1.0 then Depression else Normal
  }

  /** The tier of a confidence value; both thresholds are strict, so a value
      exactly on a threshold falls to the lower tier. Total: there is no
      range check on the confidence. */
  function SeverityOf(confidence: real): (s: Severity)
    ensures s == High <==> confidence > 0.8
    ensures s == Moderate <==> 0.6 < confidence <= 0.8
    ensures s == Low <==> confidence <= 0.6
  {
    if confidence > HighThreshold then High
    else if confidence > ModerateThreshold then Moderate
    else Low
  }

  /** Position of a tier in the order Low < Moderate < High. */
  function Rank(s: Severity): nat {
    match s
    case Low => 0
    case Moderate => 1
    case High => 2
  }

  /** Both thresholds, lowest first. */
  const Thresholds: seq<real> := [ModerateThreshold, HighThreshold]

  /** How many of `ts` the confidence lies strictly above. */
  function CountExceeded(ts: seq<real>, confidence: real): nat {
    if ts == [] then 0
    else (if confidence > ts[0] then 1 else 0) + CountExceeded(ts[1..], confidence)
  }

  /** Reference definition of the tier: the tier is exactly the number of
      thresholds the confidence exceeds. */
  lemma SeverityCountsThresholds(confidence: real)
    ensures Rank(SeverityOf(confidence)) == CountExceeded(Thresholds, confidence)
  {
    var rest := Thresholds[1..];
    assert rest == [HighThreshold] && rest[1..] == [];
    assert CountExceeded(rest, confidence) == if confidence > HighThreshold then 1 else 0;
  }

  /** A higher confidence never gives a lower tier. */
  lemma SeverityMonotone(c1: real, c2: real)
    requires c1 <= c2
    ensures Rank(SeverityOf(c1)) <= Rank(SeverityOf(c2))
  {
  }

  /** The boundary cases: 0.6 is Low, 0.8 is Moderate, 0.81 is High. */
  lemma SeverityBoundaries()
    ensures SeverityOf(0.6) == Low && SeverityOf(0.8) == Moderate
    ensures SeverityOf(0.61) == Moderate && SeverityOf(0.81) == High
    ensures SeverityOf(0.95) == High && SeverityOf(0.5) == Low
  {
  }
}
