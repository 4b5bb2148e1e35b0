/** The controller's fixed table of support resources and the lookup that
    picks one list of it (app.js, lines 8-51 and 154-156). */
module Recommendations {
  import opened Interpretation

  /** One support resource; `kind` is the source's `type` field. */
  datatype Resource = Resource(title: string, description: string, kind: string, url: string)

  const LowResources: seq<Resource> := [
    Resource("Mindfulness Meditation Apps",
             "Headspace, Calm, or Insight Timer for daily meditation",
             "self-help", "https://www.headspace.com"),
    Resource("Mental Health First Aid",
             "Learn about mental health basics and self-care",
             "education", "https://www.mentalhealthfirstaid.org")
  ]

  const ModerateResources: seq<Resource> := [
    Resource("Online Therapy Platforms",
             "BetterHelp, Talkspace, or Psychology Today",
             "therapy", "https://www.psychologytoday.com"),
    Resource("Support Groups",
             "Local or online peer support communities",
             "support", "https://www.nami.org/Support-Education/Support-Groups")
  ]

  const HighResources: seq<Resource> := [
    Resource("National Suicide Prevention Lifeline",
             "Call 988 for immediate help",
             "crisis", "tel:988"),
    Resource("Crisis Text Line",
             "Text HOME to 741741 for immediate support",
             "crisis", "sms:741741")
  ]

  /** The table's own keys, all lower-case. */
  const TableKeys: set<string> := {"low", "moderate", "high"}

  /** `resources[key] || resources.low`: the list stored under `key`, or the
      low list for any key the table does not hold. Key matching is exact and
      case-sensitive. */
  function GenerateRecommendations(key: string): (r: seq<Resource>)
    ensures key == "moderate" ==> r == ModerateResources
    ensures key == "high" ==> r == HighResources
    ensures key != "moderate" && key != "high" ==> r == LowResources
    ensures |r| == 2
  {
    if key == "moderate" then ModerateResources
    else if key == "high" then HighResources
    else LowResources
  }

  /** The crisis lines are selected only by the exact key "high". */
  lemma CrisisLinesOnlyForHighKey(key: string)
    ensures GenerateRecommendations(key) == HighResources <==> key == "high"
  {
  }

  /** The tier labels the controller produces are capitalised ("High",
      "Moderate", "Low"), so looking one of them up always falls back to the
      low list. */
  lemma SeverityLabelSelectsLowList(s: Severity)
    ensures SeverityLabel(s) !in TableKeys
    ensures GenerateRecommendations(SeverityLabel(s)) == LowResources
  {
  }
}
