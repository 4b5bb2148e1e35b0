/** The feedback buttons' handler (`sendFeedback`, app.js, lines 550-574).
    The POST itself is not modelled: whether it came back ok is an input,
    and the user id (read from or written to local storage) is a parameter. */
module Feedback {
  import opened Wrappers
  import opened History

  /** The body of a feedback POST. */
  datatype FeedbackRequest = FeedbackRequest(analysisId: string, helpful: bool, userId: string)

  /** A record feedback can be tied to: it carries a server-side id, and that
      id is not the empty string (which JavaScript treats as false). */
  predicate Correlatable(a: Analysis) {
    a.apiAnalysisId.Some? && a.apiAnalysisId.value != []
  }

  /** The request `sendFeedback` would issue for the most recent record, if
      any: none when the history is empty or its head cannot be correlated. */
  function FeedbackRequestFor(h: seq<Analysis>, helpful: bool, userId: string): (r: Option<FeedbackRequest>)
    ensures r.None? <==> h == [] || !Correlatable(h[0])
    ensures r.Some? ==> r.value.analysisId == h[0].apiAnalysisId.value
    ensures r.Some? ==> r.value.helpful == helpful && r.value.userId == userId
  {
    if h != [] && Correlatable(h[0])
    then Some(FeedbackRequest(h[0].apiAnalysisId.value, helpful, userId))
    else None
  }

  const NothingToRate := "Analyze something first"
  const FeedbackThanks := "Thanks for your feedback!"
  const FeedbackFailed := "Failed to send feedback"

  /** The request issued, if any, and the status text shown once the click
      has been handled (before the three-second reset). */
  datatype FeedbackOutcome = FeedbackOutcome(request: Option<FeedbackRequest>, status: string)

  /** `sendFeedback(helpful)`: the guard reports that there is nothing to
      rate and sends nothing; otherwise the request goes out and the status
      says whether it was `delivered`. Local state is never changed. */
  function SendFeedback(h: seq<Analysis>, helpful: bool, userId: string, delivered: bool): (r: FeedbackOutcome)
    ensures r.request == FeedbackRequestFor(h, helpful, userId)
    ensures r.request.None? <==> r.status == NothingToRate
    ensures r.request.Some? ==> (r.status == FeedbackThanks <==> delivered)
    ensures r.request.Some? ==> (r.status == FeedbackFailed <==> !delivered)
  {
    match FeedbackRequestFor(h, helpful, userId)
    case None => FeedbackOutcome(None, NothingToRate)
    case Some(req) => FeedbackOutcome(Some(req), if delivered then FeedbackThanks else FeedbackFailed)
  }
}
