/** The controller's analysis lifecycle (`MindCareAI` in app.js) as pure
    transitions over an immutable state record. Presentation calls become
    `Effect` values; the network reply, the clock and the confirmation
    dialog's answer are inputs. */
module Session {
  import opened Wrappers
  import opened JsString
  import opened Interpretation
  import opened History
  import opened Backend

  /** The state the lifecycle reads and writes: the history (most recent
      first) and the in-progress flag. */
  datatype Controller = Controller(history: seq<Analysis>, isAnalyzing: bool)

  /** The state right after construction. */
  const Initial := Controller([], false)

  /** Clock readings taken when a reply is turned into a record:
      `Date.now()` becomes the id, `new Date().toISOString()` the timestamp. */
  datatype Clock = Clock(now: int, iso: string)

  /** What a transition asks the page to do, in order. */
  datatype Effect =
    | ShowError(message: string)
    | SetLoading(on: bool)
    | AnalyzeRequest(text: string)
    | DisplayResults(analysis: Analysis)
    | ClearInput
    | FillInput(text: string)

  /** A transition's new state and its effects. */
  datatype Step = Step(state: Controller, effects: seq<Effect>)

  /** No loading-state change and no request among the effects. */
  predicate Quiet(effects: seq<Effect>) {
    forall i :: 0 <= i < |effects| ==> !effects[i].SetLoading? && !effects[i].AnalyzeRequest?
  }

  // ---------------------------------------------------------------------
  // Input validation (app.js, lines 168-178)

  datatype InputError = EmptyInput | TooShort

  /** Fewest UTF-16 code units an accepted text may have. */
  const MinLength: nat := 5

  function InputErrorMessage(e: InputError): string {
    match e
    case EmptyInput => "Please enter some text to analyze."
    case TooShort => "Please enter at least 5 characters for analysis."
  }

  /** The trimmed text if it is non-empty and at least `MinLength` code
      units long; otherwise which check rejected it. */
  function Validate(raw: string): (r: Result<string, InputError>)
    ensures r.Ok? ==> r.value == Trim(raw) && Utf16Length(r.value) >= MinLength
    ensures r == Err(EmptyInput) <==> Trim(raw) == []
    ensures r == Err(TooShort) <==> Trim(raw) != [] && Utf16Length(Trim(raw)) < MinLength
  {
    var text := Trim(raw);
    if text == [] then Err(EmptyInput)
    else if Utf16Length(text) < MinLength then Err(TooShort)
    else Ok(text)
  }

  /** The emptiness check only chooses the message: acceptance depends on
      the trimmed length alone, and an all-whitespace input is never accepted. */
  lemma ValidateAcceptsExactly(raw: string)
    ensures Validate(raw).Ok? <==> Utf16Length(Trim(raw)) >= MinLength
    ensures (forall k :: 0 <= k < |raw| ==> IsWhitespace(raw[k])) ==> Validate(raw) == Err(EmptyInput)
  {
  }

  /** A two-letter input is too short. */
  lemma TwoLettersTooShort()
    ensures Validate("hi") == Err(TooShort)
  {
  }

  /** Blank input is empty. */
  lemma BlankInputEmpty()
    ensures Validate(" \t\n") == Err(EmptyInput)
  {
  }

  /** Padding is trimmed before the length check and from the sent text. */
  lemma PaddedInputTrimmed()
    ensures Validate("  hello ") == Ok("hello")
  {
    assert SliceWithWhitespaceAround("  hello ", "hello", 2);
    TrimUnique("  hello ", "hello", 2);
  }

  /** Three emoji pass: JavaScript counts each as two code units. */
  lemma ThreeEmojiAccepted()
    ensures Validate("\U{1F600}\U{1F600}\U{1F600}").Ok?
  {
  }

  /** Three letters and one emoji are four characters but five code units,
      which is exactly the minimum: accepted. */
  lemma FiveCodeUnitsAccepted()
    ensures Validate("abc\U{1F600}").Ok?
  {
    var e := "abc\U{1F600}";
    assert SliceWithWhitespaceAround(e, e, 0);
    TrimUnique(e, e, 0);
    assert e == "abc" + "\U{1F600}";
    Utf16LengthAppend("abc", "\U{1F600}");
  }

  // ---------------------------------------------------------------------
  // Loading flag and result record (app.js, lines 189-202 and 227-229)

  /** `setLoadingState`: sets the flag (and, on the page, the button's
      disabled state); the history is untouched. */
  function SetLoadingState(s: Controller, on: bool): (r: Controller)
    ensures r.isAnalyzing == on
    ensures r.history == s.history
  {
    s.(isAnalyzing := on)
  }

  /** The record built from a delivered reply: the prediction and confidence
      are interpreted, the trimmed text is kept as the input, the clock gives
      id and timestamp, keywords and recommendations start empty, and any
      server-side `analysis_id` in the reply is dropped. */
  function BuildAnalysis(body: AnalyzeResponse, text: string, clock: Clock): (a: Analysis)
    ensures a.emotionalState == Depression <==> body.prediction == 1.0
    ensures a.severity == SeverityOf(body.confidence)
    ensures a.confidence == body.confidence && a.explanation == body.aiResponse
    ensures a.input == text
    ensures a.id == clock.now && a.timestamp == clock.iso
    ensures a.keywords == [] && a.recommendations == []
    ensures a.apiAnalysisId.None?
  {
    Analysis(
      id := clock.now,
      input := text,
      emotionalState := EmotionalStateOf(body.prediction),
      severity := SeverityOf(body.confidence),
      confidence := body.confidence,
      explanation := body.aiResponse,
      keywords := [],
      recommendations := [],
      timestamp := clock.iso,
      apiAnalysisId := None)
  }

  // ---------------------------------------------------------------------
  // One submission (`handleAnalysis`, app.js, lines 158-225), split at the
  // `await` into the part before the request and the part after the reply.

  /** The state after the synchronous part, and the text sent if any. */
  datatype Started = Started(step: Step, request: Option<string>)

  /** The text field's value was read and passed validation. */
  predicate Accepted(field: Option<string>) {
    field.Some? && Validate(field.value).Ok?
  }

  /** Up to the `await`: with no text field, nothing happens; an input that
      fails validation only shows its message; an accepted input raises the
      flag and sends the trimmed text. */
  function Begin(s: Controller, field: Option<string>): (r: Started)
    ensures r.request.Some? <==> Accepted(field)
    ensures !Accepted(field) ==> r.step.state == s && Quiet(r.step.effects)
    ensures field.None? ==> r.step.effects == []
    ensures field.Some? && Validate(field.value).Err? ==>
              r.step.effects == [ShowError(InputErrorMessage(Validate(field.value).error))]
    ensures Accepted(field) ==>
              && r.request.value == Trim(field.value)
              && r.step.state == Controller(s.history, true)
              && r.step.effects == [SetLoading(true), AnalyzeRequest(r.request.value)]
  {
    match field
    case None => Started(Step(s, []), None)
    case Some(raw) =>
      match Validate(raw)
      case Err(e) => Started(Step(s, [ShowError(InputErrorMessage(e))]), None)
      case Ok(text) =>
        Started(Step(SetLoadingState(s, true), [SetLoading(true), AnalyzeRequest(text)]), Some(text))
  }

  /** After the reply: a delivered reply prepends its record to whatever the
      history is now; a failure leaves the history alone and reports the
      thrown message. Either way the `finally` lowers the flag last. */
  function Finish(s: Controller, text: string, reply: AnalyzeReply, clock: Clock): (r: Step)
    ensures !r.state.isAnalyzing
    ensures reply.Delivered? ==> r.state.history == [BuildAnalysis(reply.body, text, clock)] + s.history
    ensures !reply.Delivered? ==> r.state.history == s.history
    ensures |r.effects| >= 2 && r.effects[|r.effects| - 1] == SetLoading(false)
    ensures forall i :: 0 <= i < |r.effects| - 1 ==> !r.effects[i].SetLoading? && !r.effects[i].AnalyzeRequest?
    ensures reply.Delivered? ==> r.effects == [DisplayResults(r.state.history[0]), ClearInput, SetLoading(false)]
    ensures !reply.Delivered? ==>
              r.effects[0] == ShowError("Analysis failed: " + CallBackendAnalyze(reply).error)
  {
    match CallBackendAnalyze(reply)
    case Ok(body) =>
      var a := BuildAnalysis(body, text, clock);
      var recorded := s.(history := [a] + s.history);
      Step(SetLoadingState(recorded, false), [DisplayResults(a), ClearInput, SetLoading(false)])
    case Err(message) =>
      Step(SetLoadingState(s, false), [ShowError("Analysis failed: " + message), SetLoading(false)])
  }

  /** A submit event run to completion. The event only reaches the handler
      while no analysis is in progress: the shortcut checks the flag and the
      button is disabled while it is set. */
  function SubmitEvent(s: Controller, field: Option<string>, reply: AnalyzeReply, clock: Clock): (r: Step)
    requires !s.isAnalyzing
    ensures !r.state.isAnalyzing
    ensures !Accepted(field) ==> r.state == s && Quiet(r.effects)
    ensures Accepted(field) ==>
              && |r.effects| >= 4
              && r.effects[0] == SetLoading(true)
              && r.effects[1] == AnalyzeRequest(Trim(field.value))
              && r.effects[|r.effects| - 1] == SetLoading(false)
    ensures Accepted(field) && reply.Delivered? ==>
              && |r.state.history| == |s.history| + 1
              && r.state.history[1..] == s.history
              && r.state.history[0].input == Trim(field.value)
              && r.state.history[0].confidence == reply.body.confidence
              && r.state.history[0].severity == SeverityOf(reply.body.confidence)
              && (r.state.history[0].emotionalState == Depression <==> reply.body.prediction == 1.0)
              && r.state.history[0].id == clock.now
    ensures Accepted(field) && !reply.Delivered? ==> r.state.history == s.history
  {
    var started := Begin(s, field);
    match started.request
    case None => started.step
    case Some(text) =>
      var done := Finish(started.step.state, text, reply, clock);
      Step(done.state, started.step.effects + done.effects)
  }

  /** A rejected submission makes no request, so its outcome does not depend
      on any reply or clock reading. */
  lemma RejectionIgnoresReply(s: Controller, field: Option<string>,
                              reply1: AnalyzeReply, clock1: Clock,
                              reply2: AnalyzeReply, clock2: Clock)
    requires !s.isAnalyzing && !Accepted(field)
    ensures SubmitEvent(s, field, reply1, clock1) == SubmitEvent(s, field, reply2, clock2)
  {
  }

  /** Whether Ctrl+Enter dispatches a submit event (app.js, lines 120-125):
      only while no analysis is in progress and the form exists. */
  function ShortcutDispatches(s: Controller, ctrlKey: bool, key: string, formPresent: bool): (r: bool)
    ensures r ==> !s.isAnalyzing
    ensures r <==> ctrlKey && key == "Enter" && formPresent && !s.isAnalyzing
  {
    ctrlKey && key == "Enter" && !s.isAnalyzing && formPresent
  }

  // ---------------------------------------------------------------------
  // History operations (app.js, lines 403-422)

  /** `viewHistoryItem`: shows the first record with the id and, when the
      text field exists, puts its input back into it; no match shows nothing.
      The state is never changed. */
  function ViewHistoryItem(s: Controller, id: int, fieldPresent: bool): (r: Step)
    ensures r.state == s
    ensures r.effects == [] <==> forall i :: 0 <= i < |s.history| ==> s.history[i].id != id
    ensures r.effects != [] ==>
              exists i :: 0 <= i < |s.history|
                && r.effects[0] == DisplayResults(s.history[i])
                && s.history[i].id == id
                && forall j :: 0 <= j < i ==> s.history[j].id != id
    ensures r.effects != [] ==>
              if fieldPresent then |r.effects| == 2 && r.effects[1] == FillInput(r.effects[0].analysis.input)
              else |r.effects| == 1
  {
    match FindById(s.history, id)
    case None => Step(s, [])
    case Some(a) =>
      Step(s, [DisplayResults(a)] + (if fieldPresent then [FillInput(a.input)] else []))
  }

  /** `clearHistory`: with the user's confirmation the history becomes
      empty; without it nothing changes. The flag is never touched. */
  function ClearHistory(s: Controller, confirmed: bool): (r: Controller)
    ensures r.isAnalyzing == s.isAnalyzing
    ensures confirmed ==> r.history == []
    ensures !confirmed ==> r == s
  {
    if confirmed then s.(history := []) else s
  }

  /** Clearing twice is clearing once. */
  lemma ClearHistoryIdempotent(s: Controller, confirmed: bool)
    ensures ClearHistory(ClearHistory(s, confirmed), confirmed) == ClearHistory(s, confirmed)
  {
  }
}
