/** The analyze call as the controller sees it (app.js, lines 131-143).
    The transport itself is not modelled: what came back is an input. */
module Backend {
  import opened Wrappers

  /** The fields of a successful `/analyze` body the controller reads, plus
      the optional `analysis_id` a backend may attach. */
  datatype AnalyzeResponse = AnalyzeResponse(
    prediction: real,
    confidence: real,
    aiResponse: string,
    analysisId: Option<string>)

  /** What the `fetch` produced. */
  datatype AnalyzeReply =
    /** `resp.ok` and the body parsed as JSON. */
    | Delivered(body: AnalyzeResponse)
    /** `!resp.ok`; `errorField` is the parsed body's `error` field, or the
        status text when the body was not JSON. */
    | HttpError(errorField: Option<string>)
    /** `fetch` rejected, or an ok body was not JSON: an `Error` with this
        message reaches the caller unchanged. */
    | Thrown(message: string)

  /** Message thrown when a non-ok reply carries no usable error text. */
  const DefaultFailureMessage := "Analysis request failed"

  /** `callBackendAnalyze`: the body of a delivered reply, or the message of
      the error it throws. A non-ok reply never yields a body, and its message
      is the `error` text when that is non-empty, else the default. */
  function CallBackendAnalyze(reply: AnalyzeReply): (r: Result<AnalyzeResponse, string>)
    ensures r.Ok? <==> reply.Delivered?
    ensures r.Ok? ==> r.value == reply.body
    ensures reply.HttpError? ==> r.Err? && r.error != []
    ensures reply.HttpError? && reply.errorField.Some? && reply.errorField.value != []
            ==> r.error == reply.errorField.value
    ensures reply.HttpError? && (reply.errorField.None? || reply.errorField.value == [])
            ==> r.error == DefaultFailureMessage
    ensures reply.Thrown? ==> r == Err(reply.message)
  {
    match reply
    case Delivered(body) => Ok(body)
    case HttpError(field) =>
      if field.Some? && field.value != [] then Err(field.value) else Err(DefaultFailureMessage)
    case Thrown(message) => Err(message)
  }
}
