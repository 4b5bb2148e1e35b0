/** The controller as an event-driven machine: a submission is split at its
    `await`, so other events (viewing, clearing) may happen while the reply
    is outstanding. Shows that the flag tracks the outstanding submission,
    that every reply lowers it, and that no record the controller builds
    can ever be rated through the feedback buttons. */
module Lifecycle {
  import opened Wrappers
  import opened JsString
  import opened History
  import opened Backend
  import opened Session
  import opened Feedback

  /** The controller and the trimmed text of the submission awaiting its
      reply, if one is. */
  datatype Machine = Machine(ctrl: Controller, pending: Option<string>)

  const Start := Machine(Initial, None)

  datatype Event =
    /** The analyze button or Ctrl+Enter, with the text field's value. */
    | Submit(field: Option<string>)
    /** The awaited reply arrives. */
    | Respond(reply: AnalyzeReply, clock: Clock)
    /** A history entry is clicked; `fieldPresent` says whether the text field exists. */
    | ViewItem(id: int, fieldPresent: bool)
    /** The clear button, with the confirmation dialog's answer. */
    | ClearRequested(confirmed: bool)

  /** One event. A submit while the flag is set does nothing: the button is
      disabled and the shortcut checks the flag, so the event never reaches
      the handler. A reply with nothing outstanding cannot occur and is
      ignored. */
  function Next(m: Machine, e: Event): (r: Machine)
    ensures e.Submit? && m.ctrl.isAnalyzing ==> r == m
    ensures e.Respond? && m.pending.Some? ==> !r.ctrl.isAnalyzing && r.pending.None?
    ensures e.ViewItem? ==> r == m
    ensures e.ClearRequested? ==> r.pending == m.pending && r.ctrl.isAnalyzing == m.ctrl.isAnalyzing
  {
    match e
    case Submit(field) =>
      if m.ctrl.isAnalyzing then m
      else
        var started := Begin(m.ctrl, field);
        Machine(started.step.state, started.request)
    case Respond(reply, clock) =>
      (match m.pending
       case None => m
       case Some(text) => Machine(Finish(m.ctrl, text, reply, clock).state, None))
    case ViewItem(id, fieldPresent) => Machine(ViewHistoryItem(m.ctrl, id, fieldPresent).state, m.pending)
    case ClearRequested(confirmed) => Machine(ClearHistory(m.ctrl, confirmed), m.pending)
  }

  /** The machine after a sequence of events. */
  function Run(m: Machine, es: seq<Event>): Machine
    decreases |es|
  {
    if es == [] then m else Run(Next(m, es[0]), es[1..])
  }

  /** Running two sequences one after the other is running their concatenation. */
  lemma {:induction false} RunAppend(m: Machine, es1: seq<Event>, es2: seq<Event>)
    ensures Run(m, es1 + es2) == Run(Run(m, es1), es2)
    decreases |es1|
  {
    if es1 == [] {
      assert es1 + es2 == es2;
    } else {
      assert (es1 + es2)[0] == es1[0];
      assert (es1 + es2)[1..] == es1[1..] + es2;
      RunAppend(Next(m, es1[0]), es1[1..], es2);
    }
  }

  /** Running two events is applying them in turn. */
  lemma RunPair(m: Machine, e1: Event, e2: Event)
    ensures Run(m, [e1, e2]) == Next(Next(m, e1), e2)
  {
    var es := [e1, e2];
    assert es[1..] == [e2] && es[1..][1..] == [];
    calc {
      Run(m, es);
      Run(Next(m, e1), [e2]);
      Run(Next(Next(m, e1), e2), []);
    }
  }

  /** The flag is set exactly while a submission is outstanding, and no
      record in the history carries a server-side id. */
  ghost predicate Consistent(m: Machine) {
    && (m.ctrl.isAnalyzing <==> m.pending.Some?)
    && forall i :: 0 <= i < |m.ctrl.history| ==> m.ctrl.history[i].apiAnalysisId.None?
  }

  /** Every event keeps the machine consistent. */
  lemma NextConsistent(m: Machine, e: Event)
    requires Consistent(m)
    ensures Consistent(Next(m, e))
  {
  }

  /** Every sequence of events keeps the machine consistent. */
  lemma {:induction false} RunConsistent(m: Machine, es: seq<Event>)
    requires Consistent(m)
    ensures Consistent(Run(m, es))
    decreases |es|
  {
    if es != [] {
      NextConsistent(m, es[0]);
      RunConsistent(Next(m, es[0]), es[1..]);
    }
  }

  /** Whatever the user does, the feedback guard fires: records built by the
      controller never carry a server-side id, so no feedback request is
      ever issued and the status always says there is nothing to rate. */
  lemma FeedbackNeverSent(es: seq<Event>, helpful: bool, userId: string, delivered: bool)
    ensures SendFeedback(Run(Start, es).ctrl.history, helpful, userId, delivered)
            == FeedbackOutcome(None, NothingToRate)
  {
    RunConsistent(Start, es);
  }

  /** Whatever the user does, an outstanding submission's reply returns the
      controller to idle. */
  lemma ReplyAlwaysIdles(es: seq<Event>, reply: AnalyzeReply, clock: Clock)
    ensures !Run(Start, es + [Respond(reply, clock)]).ctrl.isAnalyzing
  {
    RunConsistent(Start, es);
    RunAppend(Start, es, [Respond(reply, clock)]);
  }

  /** Submitting and then receiving the reply with nothing in between is the
      same as running the whole submission at once. */
  lemma SplitMatchesWhole(m: Machine, field: Option<string>, reply: AnalyzeReply, clock: Clock)
    requires Consistent(m) && !m.ctrl.isAnalyzing
    ensures Run(m, [Submit(field), Respond(reply, clock)]).ctrl == SubmitEvent(m.ctrl, field, reply, clock).state
  {
    RunPair(m, Submit(field), Respond(reply, clock));
  }

  /** Ctrl+Enter only dispatches when nothing is outstanding, and the submit
      it dispatches is exactly the start of a submission: a dispatched submit
      always meets `SubmitEvent`'s precondition. */
  lemma ShortcutStartsSubmission(m: Machine, ctrlKey: bool, key: string, formPresent: bool, field: Option<string>)
    requires Consistent(m)
    requires ShortcutDispatches(m.ctrl, ctrlKey, key, formPresent)
    ensures m.pending.None? && !m.ctrl.isAnalyzing
    ensures Next(m, Submit(field)).ctrl == Begin(m.ctrl, field).step.state
    ensures Next(m, Submit(field)).pending == Begin(m.ctrl, field).request
  {
  }

  /** One successful submission: the typed text and the reply it got. */
  datatype Round = Round(raw: string, body: AnalyzeResponse, clock: Clock)

  /** The events of a sequence of rounds, each a submit followed by its reply. */
  function RoundEvents(rs: seq<Round>): seq<Event> {
    if rs == [] then []
    else [Submit(Some(rs[0].raw)), Respond(Delivered(rs[0].body), rs[0].clock)] + RoundEvents(rs[1..])
  }

  /** The records of a sequence of rounds, oldest first. */
  function Records(rs: seq<Round>): (r: seq<Analysis>)
    ensures |r| == |rs|
  {
    if rs == [] then [] else [RoundRecord(rs[0])] + Records(rs[1..])
  }

  function Reverse<T>(s: seq<T>): (r: seq<T>)
    ensures |r| == |s|
    ensures forall i :: 0 <= i < |s| ==> r[i] == s[|s| - 1 - i]
  {
    if s == [] then [] else Reverse(s[1..]) + [s[0]]
  }

  /** The record one round adds. */
  function RoundRecord(r: Round): Analysis {
    BuildAnalysis(r.body, Trim(r.raw), r.clock)
  }

  /** One accepted, successful round from idle prepends its record and
      returns to idle. */
  lemma OneRound(m: Machine, r: Round)
    requires Consistent(m) && !m.ctrl.isAnalyzing
    requires Validate(r.raw).Ok?
    ensures var m1 := Run(m, [Submit(Some(r.raw)), Respond(Delivered(r.body), r.clock)]);
            Consistent(m1) && !m1.ctrl.isAnalyzing && m1.ctrl.history == [RoundRecord(r)] + m.ctrl.history
  {
    var e1, e2 := Submit(Some(r.raw)), Respond(Delivered(r.body), r.clock);
    RunPair(m, e1, e2);
    SplitMatchesWhole(m, Some(r.raw), Delivered(r.body), r.clock);
    NextConsistent(m, e1);
    NextConsistent(Next(m, e1), e2);
  }

  /** Reversing a sequence puts its first element last, so reversing and
      then prepending to `h` moves that element next to `h`. */
  lemma ReverseCons<T>(x: T, s: seq<T>, h: seq<T>)
    ensures Reverse([x] + s) + h == Reverse(s) + ([x] + h)
  {
  }

  /** After any number of accepted, successful submissions the history
      lists their records newest first, ahead of everything it held before. */
  lemma {:induction false} RoundsNewestFirst(m: Machine, rs: seq<Round>)
    requires Consistent(m) && !m.ctrl.isAnalyzing
    requires forall i :: 0 <= i < |rs| ==> Validate(rs[i].raw).Ok?
    ensures Consistent(Run(m, RoundEvents(rs)))
    ensures Run(m, RoundEvents(rs)).ctrl.history == Reverse(Records(rs)) + m.ctrl.history
    ensures !Run(m, RoundEvents(rs)).ctrl.isAnalyzing
    decreases |rs|
  {
    if rs == [] {
      assert Reverse(Records(rs)) == [];
    } else {
      var r := rs[0];
      var two := [Submit(Some(r.raw)), Respond(Delivered(r.body), r.clock)];
      assert RoundEvents(rs) == two + RoundEvents(rs[1..]);
      RunAppend(m, two, RoundEvents(rs[1..]));
      OneRound(m, r);
      var m1 := Run(m, two);
      assert forall i :: 0 <= i < |rs[1..]| ==> Validate(rs[1..][i].raw).Ok? by {
        forall i | 0 <= i < |rs[1..]| ensures Validate(rs[1..][i].raw).Ok? {
          assert rs[1..][i] == rs[i + 1];
        }
      }
      RoundsNewestFirst(m1, rs[1..]);
      assert Records(rs) == [RoundRecord(r)] + Records(rs[1..]);
      ReverseCons(RoundRecord(r), Records(rs[1..]), m.ctrl.history);
    }
  }
}
