/** What holds of every operation in every reachable state, over every interleaving. */
module AdapterSafety {
  import opened Errors
  import opened Json
  import opened Descriptors
  import opened TreeSemantics
  import opened FlatDecode
  import opened CodecTheorems
  import opened Projection
  import opened EncodingSpec
  import opened Wire
  import opened NativeContext
  import opened Requests
  import opened Adapter

  // ---- Outcomes tell the truth about dispatch ----

  /** The future gave a response object, not a null pointer. */
  predicate HasAnswer(op: Op) {
    op.fetched.Some? && op.fetched.value.Some?
  }

  /** The answer holds something JSON cannot carry. */
  ghost predicate Unprojectable(loaded: Option<Loaded>, answer: Option<Response>): (r: bool)
    ensures r ==> answer.Some? && answer.value.Some?
  {
    && loaded.Some? && answer.Some? && answer.value.Some? && ValidResponse(loaded.value, answer.value)
    && var l := loaded.value;
    !MessageProjects(l.ts, l.response, MessageAt(l.ts, l.response, answer.value.value))
  }

  /** The outcome class and code say whether the side effect may have happened. */
  ghost predicate Truthful(op: Op, o: Outcome) {
    && op.dispatches <= 1
    && (o.Success? ==> op.dispatches == 1 && o.report == ReportOf(op.plan, op.subscribers, op.answer))
    && (o.Failure? && o.cls == Uncertain ==> op.dispatches == 1)
    && (o.Failure? && (o.cls == Cancelled || o.cls == Deadline || o.cls == Rejected || o.cls == ResourceExhausted
                       || o.code == SubscriberUnavailable || o.code == ServiceUnavailable)
        ==> op.dispatches == 0)
    && (op.dispatches == 1 && op.kind.Publish? ==>
          if op.raised.None? then o.Success? || o == Failure(Uncertain, OperationResultTooLarge)
          else o == Failure(Uncertain, PublishOutcomeUnknown))
    && (op.dispatches == 1 && op.kind.Service? ==>
          if op.raised.Some? then o == Failure(Transient, InternalError)
          else if Unprojectable(op.loaded, op.fetched) then o.Failure? && o.cls == Permanent && op.answered == 1
          else o.Success? || o.cls == Uncertain)
    && (Unprojectable(op.loaded, op.fetched) ==> op.dispatches == 1 && op.kind.Service? && op.raised.None?)
  }

  /** Nothing has been sent. */
  predicate Unsent(op: Op) {
    && op.dispatches == 0 && op.pending == {} && op.requestId.None? && op.response.None?
    && op.answered == 0 && op.removed == 0 && op.raised.None? && op.fetched.None? && op.replyPolls == 0
    && op.sent.None? && op.replyDeadlinePoll.None?
  }

  /** The request is in the client's table, or has been answered; never both, never neither. */
  predicate InFlight(op: Op) {
    && op.requestId.Some? && op.removed == 0
    && if op.response.None? then op.pending == {op.requestId.value} && op.answered == 0
       else op.pending == {} && op.answered == 1
  }

  /** An operation that is over has nothing in its client's table; a request that was sent was
      either answered or removed, not both. */
  predicate Settled(op: Op) {
    && op.pending == {}
    && (if op.requestId.Some? then op.answered + op.removed == 1 else op.answered == 0 && op.removed == 0)
    && (op.requestId.Some? ==> op.dispatches == 1)
  }

  predicate IsAfterDispatch(pc: Pc) {
    IsReplying(pc) || IsFinishing(pc)
  }

  ghost predicate History(op: Op) {
    if op.pc.Done? then Truthful(op, op.pc.outcome) && Settled(op)
    else if IsAfterDispatch(op.pc) then
      && op.dispatches == 1 && op.raised.None?
      && (if op.kind.Publish? then
            op.pc.Reporting? && op.requestId.None? && op.pending == {} && op.answered == 0 && op.removed == 0
            && op.fetched.None?
          else
            && InFlight(op) && (IsFinishing(op.pc) ==> op.response.Some?)
            && op.fetched == (if op.pc.Projecting? || op.pc.Reporting? then op.response else None))
    else Unsent(op)
  }

  /** What libraries delivered is well-formed. */
  ghost predicate Delivered(op: Op) {
    && (op.loaded.Some? ==> ValidLoaded(op.loaded.value))
    && (Stage(op.pc) >= 3 ==> op.loaded.Some?)
    && (op.response.Some? ==> op.loaded.Some? && ValidResponse(op.loaded.value, op.response.value))
    && (op.fetched.Some? ==> op.fetched == op.response)
    && (op.pc.Projecting? ==> HasAnswer(op))
    && (HasProjected(op) ==>
          HasAnswer(op) && !Unprojectable(op.loaded, op.fetched) && IsProjected(op.loaded, op.fetched, op.answer))
  }

  ghost predicate IsProjected(loaded: Option<Loaded>, fetched: Option<Response>, answer: Option<Json>) {
    answer.Some? && ProjectResponse(loaded, fetched) == Ok(answer.value)
  }

  /** The answer has been turned into JSON. */
  predicate HasProjected(op: Op) {
    op.kind.Service? && (op.pc.Reporting? || (op.pc.Done? && op.pc.outcome.Success?))
  }

  /** How far an operation has come: admitted, validated, prepared, counted, polled for
      cancellation, polled for its deadline. */
  function Stage(pc: Pc): nat {
    match pc
    case Entered => 0
    case Done(_) => 0
    case Admitted => 1
    case EarlyCancel => 2
    case EarlyDeadline => 2
    case Preparing => 2
    case Waiting => 3
    case WaitClock => 3
    case WaitCancel => 3
    case WaitDeadline => 3
    case WaitExpired => 3
    case Sleeping(_) => 3
    case Counting => 3
    case LastCancel => 4
    case LastDeadline => 5
    case _ => 6
  }

  // ---- Dispatch is guarded ----

  /** The message is the whole message of the plan, decoded against the loaded descriptors. */
  ghost predicate IsPrepared(plan: Option<Plan>, loaded: Option<Loaded>, message: Option<Memory>) {
    && plan.Some? && loaded.Some? && ValidLoaded(loaded.value) && message.Some?
    && DecodeMessage(loaded.value.ts, loaded.value.k, plan.value.Body(), false) == Ok(message.value)
  }

  /** Every guard an operation has passed once it has come to the given stage. */
  ghost predicate PassedTo(env: Environment, c: Context, op: Op, stage: nat) {
    && (stage >= 1 ==> op.admitted.Some? && Enabled(op.admitted.value, op.kind))
    && (stage >= 2 ==> op.plan.Some? && Validate(env, c, op.kind, op.request) == Ok(op.plan.value))
    && (stage >= 3 ==> IsPrepared(op.plan, op.loaded, op.message))
    && (stage >= 4 && op.kind.Publish? && WaitNanos(op) > 0 ==> op.subscribers > 0)
    && (stage >= 5 ==> op.lastCancelPoll == Some(false))
    && (stage >= 6 ==> op.lastDeadlinePoll.Some? && op.lastDeadlinePoll.value < op.request.context.deadline)
  }

  ghost predicate Guarded(env: Environment, c: Context, op: Op) {
    && (op.plan.Some? ==> Validate(env, c, op.kind, op.request) == Ok(op.plan.value))
    && PassedTo(env, c, op, Stage(op.pc))
    && (op.dispatches >= 1 ==> op.sent == op.message && PassedTo(env, c, op, 6))
  }

  // ---- Waiting is bounded ----

  function WaitStep(tick: nat, op: Op): nat {
    if op.kind.Publish? then POLL else tick
  }

  ghost predicate WaitBounded(tick: nat, steady: nat, op: Op) {
    var step, n := WaitStep(tick, op), op.waitPolls;
    && (0 < n ==> Stride(step, n - 1) < WaitNanos(op))
    && (Stage(op.pc) < 3 && !op.pc.Done? ==> n == 0)
    && (op.pc.Sleeping? ==> 0 < n && op.waitStart + Stride(step, n - 1) <= op.pc.since <= steady)
    && (IsWaiting(op.pc) && !op.pc.Sleeping? && !op.pc.Counting? ==> op.waitStart + Stride(step, n) <= steady)
    && (op.kind.Publish? && (op.pc.WaitCancel? || op.pc.WaitDeadline?) ==> Stride(step, n) < WaitNanos(op))
    && (op.pc.WaitExpired? ==> op.kind.Service?)
  }

  predicate ReplyBounded(steady: nat, op: Op) {
    var n := op.replyPolls;
    && (0 < n ==> (n - 1) * POLL < CallNanos(op))
    && (!IsAfterDispatch(op.pc) && !op.pc.Done? ==> n == 0)
    && (op.pc.Starting? ==> op.kind.Service?)
    && (op.pc.Dispatching? && op.kind.Service? ==> op.callStarted <= steady)
    && (op.pc.AwaitingReply? ==> op.callStarted + n * POLL <= op.pc.since <= steady && n * POLL < CallNanos(op))
    && (op.pc.ReplyCancel? || op.pc.ReplyTime? ==> op.callStarted + n * POLL <= steady)
  }

  // ---- Outcomes have the cause they name ----

  /** A poll for the reply found the call or the work out of time. */
  predicate TimedOut(steady: nat, op: Op) {
    || op.callStarted + CallNanos(op) <= steady
    || (op.replyDeadlinePoll.Some? && op.request.context.deadline <= op.replyDeadlinePoll.value)
  }

  /** The request itself is refused, with this error. */
  ghost predicate IsRefused(p: Process, op: Op, e: Error) {
    && op.admitted.Some? && op.plan.None?
    && (if op.kind.Publish? then IsPublishRefused(p.env, p.context, op.request, e)
        else IsCallRefused(p.env, p.context, op.request, e))
  }

  /** The message does not decode: the type cannot be instantiated or the message does not conform. */
  ghost predicate IsMalformed(plan: Option<Plan>, loaded: Option<Loaded>, initThrew: bool, code: Code) {
    && plan.Some? && loaded.Some? && ValidLoaded(loaded.value)
    && var l, body := loaded.value, plan.value.Body();
    && IsRejected(l.ts, l.k, body, initThrew, PermanentError(code))
    && !(Constructible(l.ts, l.k) && ConformsMessage(l.ts, l.k, DefaultMessage(l.ts, l.k), body))
  }

  /** The answer cannot be projected, for this reason. */
  ghost predicate FailsToProject(loaded: Option<Loaded>, answer: Option<Response>, e: Error) {
    && loaded.Some? && answer.Some? && answer.value.Some? && ValidResponse(loaded.value, answer.value)
    && var l := loaded.value;
    MessageFailsToEncode(l.ts, l.response, MessageAt(l.ts, l.response, answer.value.value), e)
  }

  /** Decoding the message threw: its initialiser did, or the JSON library. */
  ghost predicate DecodingThrew(plan: Option<Plan>, loaded: Option<Loaded>, initThrew: bool) {
    && plan.Some? && loaded.Some? && ValidLoaded(loaded.value)
    && var l, body := loaded.value, plan.value.Body();
    && ReachesConstruction(l.ts, l.k, body)
    && (initThrew || ThrowsMessage(l.ts, l.k, DefaultMessage(l.ts, l.k), body))
  }

  /** A library call, the JSON parser or decoding threw an untyped exception. */
  ghost predicate ThrewUntyped(p: Process, op: Op) {
    || op.raised == Some(UntypedException)
    || IsRefused(p, op, UntypedException)
    || DecodingThrew(op.plan, op.loaded, op.initThrew)
  }

  /** What the class and code of an outcome name has happened. */
  ghost predicate HasCause(p: Process, steady: nat, op: Op, o: Outcome) {
    if o.Success? then op.resultSize.Some? && op.resultSize.value <= ResponseLimit(p.env, op.kind)
    else
      match o.cls
      case Cancelled =>
        op.cancelRequested && o.code == (if op.kind.Publish? then PublishCancelled else ServiceCallCancelled)
      case Deadline =>
        && op.lastDeadlinePoll.Some? && op.request.context.deadline <= op.lastDeadlinePoll.value
        && (if op.kind.Publish? then o.code == PublishDeadlineElapsed
            else o.code == ServiceWaitDeadlineElapsed || o.code == ServiceCallDeadlineElapsed)
      case Rejected =>
        && op.admitted.None?
        && o.code == (if op.kind.Publish? then PublishCapabilityDisabled else ServiceCapabilityDisabled)
      case ResourceExhausted =>
        o.code == RequestTooLarge && IsRefused(p, op, ToolsError(ResourceExhausted, RequestTooLarge))
      case Transient =>
        || (o.code == InternalError && ThrewUntyped(p, op))
        || (o.code == SubscriberUnavailable && op.kind.Publish? && 0 < WaitNanos(op))
        || (o.code == ServiceUnavailable && op.kind.Service? && op.waitStart + WaitNanos(op) <= steady)
      case Uncertain =>
        || (o.code == PublishOutcomeUnknown && op.kind.Publish? && op.dispatches == 1
            && op.raised == Some(UntypedException))
        || (o.code == ServiceOutcomeUnknownAfterCancel && op.kind.Service? && op.cancelRequested)
        || (o.code == ServiceOutcomeUnknownAfterTimeout && op.kind.Service? && TimedOut(steady, op))
        || (o.code == ServiceResponseMissing && op.kind.Service? && op.fetched == Some(None))
        || (o.code == OperationResultTooLarge
            && op.resultSize.Some? && ResponseLimit(p.env, op.kind) < op.resultSize.value)
      case Permanent =>
        || IsRefused(p, op, PermanentError(o.code))
        || op.raised == Some(PermanentError(o.code))
        || IsMalformed(op.plan, op.loaded, op.initThrew, o.code)
        || FailsToProject(op.loaded, op.fetched, PermanentError(o.code))
  }

  ghost predicate Explained(p: Process, steady: nat, op: Op) {
    && (op.pc.Entered? ==> op.admitted.None? && op.plan.None?)
    && (Stage(op.pc) == 1 ==> op.admitted.Some? && op.plan.None?)
    && (op.pc.EarlyCancel? || op.pc.EarlyDeadline? || op.pc.WaitClock? || op.pc.Counting? ==> op.kind.Publish?)
    && (op.pc.WaitExpired? || IsReplying(op.pc) || op.pc.Getting? ==> op.kind.Service?)
    && (op.pc.RemovingCancelled? ==> op.cancelRequested)
    && (op.pc.RemovingTimedOut? ==> TimedOut(steady, op))
    && (op.pc.Done? ==> HasCause(p, steady, op, op.pc.outcome))
  }

  /** What has been sent, answered and reported. */
  ghost predicate Recorded(op: Op) {
    History(op) && Delivered(op)
  }

  /** How long it has waited and polled. */
  ghost predicate Timed(tick: nat, steady: nat, op: Op) {
    WaitBounded(tick, steady, op) && ReplyBounded(steady, op)
  }

  ghost predicate OpInv(p: Process, steady: nat, op: Op) {
    Recorded(op) && Guarded(p.env, p.context, op) && Timed(p.tick, steady, op) && Explained(p, steady, op)
  }

  // ---- Every step keeps it ----

  /** Decoding fails with a typed permanent error on a malformed message, or because something threw. */
  lemma DecodeFailsTyped(l: Loaded, plan: Plan, initThrows: bool)
    requires ValidLoaded(l)
    ensures var r := DecodeMessage(l.ts, l.k, plan.Body(), initThrows);
      && (r.Err? ==>
            || (IsCodecError(r.error) && IsMalformed(Some(plan), Some(l), initThrows, r.error.code))
            || (r.error == UntypedException && DecodingThrew(Some(plan), Some(l), initThrows)))
      && (r.Ok? ==> IsPrepared(Some(plan), Some(l), Some(r.value)))
  {
    DecodeMessageExact(l.ts, l.k, plan.Body(), initThrows);
    var r := DecodeMessage(l.ts, l.k, plan.Body(), initThrows);
    if r.Err? {
      DecodeRejectsExactly(l.ts, l.k, plan.Body(), initThrows, r.error);
    }
  }

  ghost predicate ProjectionIsExact(op: Op) {
    var projected := ProjectResponse(op.loaded, op.fetched);
    && (projected.Err? <==> Unprojectable(op.loaded, op.fetched))
    && (projected.Err? ==> IsCodecError(projected.error) && FailsToProject(op.loaded, op.fetched, projected.error))
    && (projected.Ok? ==> IsProjected(op.loaded, op.fetched, Some(projected.value)))
  }

  /** Projecting an answer fails exactly when it holds something JSON cannot carry, and then with a
      typed permanent error. */
  lemma ProjectionExact(op: Op)
    requires Delivered(op) && op.pc.Projecting?
    ensures ProjectionIsExact(op)
  {
    var l := op.loaded.value;
    var v := MessageAt(l.ts, l.response, op.fetched.value.value);
    EncodesExactly(l.ts, l.response, v);
    if EncodeMessage(l.ts, l.response, v).Err? {
      EncodeTypedMessage(l.ts, l.response, v);
      MessageFailsExactly(l.ts, l.response, v, EncodeMessage(l.ts, l.response, v).error);
    }
  }

  /** Past the wait, the wait's bound no longer depends on the step. */
  lemma WaitIsOver(tick: nat, steady: nat, op: Op, after: Op)
    requires WaitBounded(tick, steady, op)
    requires after.kind == op.kind && after.plan == op.plan && after.waitPolls == op.waitPolls
    requires !IsWaiting(after.pc) && (after.pc.Done? || Stage(after.pc) >= 3)
    ensures WaitBounded(tick, steady, after)
  {
    hide Stride;
  }

  /** Before the dispatch there have been no reply polls. */
  lemma NoReplyYet(steady: nat, op: Op, after: Op)
    requires ReplyBounded(steady, op) && op.replyPolls == 0 && after.replyPolls == 0
    requires !IsReplying(after.pc) && !after.pc.Starting? && !after.pc.Dispatching?
    ensures ReplyBounded(steady, after)
  {
  }

  lemma AdmissionRecords(p: Process, sh: Shared, op: Op)
    requires Recorded(op) && IsAdmission(op.pc)
    ensures Recorded(StepAdmission(p.env, p.context, sh, op))
  {
    hide Recorded, StepAdmission;
    if op.pc.Entered? || op.pc.Admitted? {
      EntryRecords(p, sh, op);
    } else {
      EarlyPollRecords(p, sh, op);
    }
  }

  lemma EntryRecords(p: Process, sh: Shared, op: Op)
    requires Recorded(op) && (op.pc.Entered? || op.pc.Admitted?)
    ensures Recorded(StepAdmission(p.env, p.context, sh, op))
  {
    hide Validate, ValidLoaded, ValidResponse, DecodeMessage, ProjectResponse, Unprojectable, IsMalformed,
      DecodingThrew, IsPrepared, IsRefused, FailsToProject, IsProjected, ReportOf;
  }

  lemma EarlyPollRecords(p: Process, sh: Shared, op: Op)
    requires Recorded(op) && (op.pc.EarlyCancel? || op.pc.EarlyDeadline?)
    ensures Recorded(StepAdmission(p.env, p.context, sh, op))
  {
    hide Validate, ValidLoaded, ValidResponse, DecodeMessage, ProjectResponse, Unprojectable, IsMalformed,
      DecodingThrew, IsPrepared, IsRefused, FailsToProject, IsProjected, ReportOf;
  }

  lemma AdmissionGuards(p: Process, sh: Shared, op: Op)
    requires History(op) && Guarded(p.env, p.context, op) && IsAdmission(op.pc)
    ensures Guarded(p.env, p.context, StepAdmission(p.env, p.context, sh, op))
  {
    hide Validate, ValidLoaded, ValidResponse, DecodeMessage, ProjectResponse, Unprojectable, IsMalformed,
      DecodingThrew, IsPrepared, IsRefused, FailsToProject, IsProjected, ReportOf;
  }

  lemma AdmissionBounds(p: Process, sh: Shared, op: Op)
    requires History(op) && Guarded(p.env, p.context, op) && Timed(p.tick, sh.steady, op) && IsAdmission(op.pc)
    ensures Timed(p.tick, sh.steady, StepAdmission(p.env, p.context, sh, op))
  {
    hide Validate, ValidLoaded, ValidResponse, DecodeMessage, ProjectResponse, Unprojectable, IsMalformed,
      DecodingThrew, IsPrepared, IsRefused, FailsToProject, IsProjected, ReportOf, ReplyBounded, Guarded, Stride;
    NoReplyYet(sh.steady, op, StepAdmission(p.env, p.context, sh, op));
  }

  lemma RefusalIsExplained(p: Process, op: Op)
    ensures var v := Validate(p.env, p.context, op.kind, op.request);
      v.Err? && op.admitted.Some? && op.plan.None? ==> IsRefused(p, op, v.error)
  {
    hide ValidatePublish, ValidateService, IsPublishRefused, IsCallRefused;
    var v := Validate(p.env, p.context, op.kind, op.request);
    if v.Err? {
      PublishRefusedExactly(p.env, p.context, op.request, v.error);
      CallRefusedExactly(p.env, p.context, op.request, v.error);
    }
  }

  /** A refusal stays the refusal of the same request. */
  lemma SameRefusal(p: Process, op: Op, after: Op, e: Error)
    requires SameRequest(op, after) && after.plan == op.plan && IsRefused(p, op, e)
    ensures IsRefused(p, after, e)
  {
    hide IsPublishRefused, IsCallRefused;
  }

  lemma AdmissionExplains(p: Process, sh: Shared, op: Op)
    requires Recorded(op) && Timed(p.tick, sh.steady, op) && Explained(p, sh.steady, op) && IsAdmission(op.pc)
    ensures Explained(p, sh.steady, StepAdmission(p.env, p.context, sh, op))
  {
    hide Validate, ValidLoaded, ValidResponse, DecodeMessage, ProjectResponse, Unprojectable, IsMalformed,
      DecodingThrew, IsPrepared, IsRefused, FailsToProject, IsProjected, ReportOf, Recorded, Timed, TimedOut;
    RefusalIsExplained(p, op);
    var v := Validate(p.env, p.context, op.kind, op.request);
    if op.pc.Admitted? && v.Err? {
      SameRefusal(p, op, StepAdmission(p.env, p.context, sh, op), v.error);
    }
  }

  lemma PreparingRecords(p: Process, sh: Shared, op: Op, ev: Event)
    requires Recorded(op) && op.pc.Preparing? && CanStep(p.tick, sh, op, ev)
    ensures Recorded(StepPreparing(sh, op, ev))
  {
    hide Validate, ValidLoaded, ValidResponse, DecodeMessage, ProjectResponse, Unprojectable, IsMalformed,
      DecodingThrew, IsPrepared, IsRefused, FailsToProject, IsProjected, ReportOf;
    if ev.Prepared? && op.plan.Some? {
      DecodeFailsTyped(ev.loaded, op.plan.value, ev.initThrows);
    }
  }

  lemma PreparingGuards(p: Process, sh: Shared, op: Op, ev: Event)
    requires History(op) && Guarded(p.env, p.context, op) && op.pc.Preparing? && CanStep(p.tick, sh, op, ev)
    ensures Guarded(p.env, p.context, StepPreparing(sh, op, ev))
  {
    hide Validate, ValidLoaded, ValidResponse, DecodeMessage, ProjectResponse, Unprojectable, IsMalformed,
      DecodingThrew, IsPrepared, IsRefused, FailsToProject, IsProjected, ReportOf;
    if ev.Prepared? && op.plan.Some? {
      DecodeFailsTyped(ev.loaded, op.plan.value, ev.initThrows);
    }
  }

  lemma PreparingBounds(p: Process, sh: Shared, op: Op, ev: Event)
    requires History(op) && Guarded(p.env, p.context, op) && Timed(p.tick, sh.steady, op) && op.pc.Preparing?
    requires CanStep(p.tick, sh, op, ev)
    ensures Timed(p.tick, sh.steady, StepPreparing(sh, op, ev))
  {
    hide Validate, ValidLoaded, ValidResponse, DecodeMessage, ProjectResponse, Unprojectable, IsMalformed,
      DecodingThrew, IsPrepared, IsRefused, FailsToProject, IsProjected, ReportOf, ReplyBounded, Guarded;
    if ev.Prepared? && op.plan.Some? {
      DecodeFailsTyped(ev.loaded, op.plan.value, ev.initThrows);
    }
    NoReplyYet(sh.steady, op, StepPreparing(sh, op, ev));
  }

  lemma PreparingExplains(p: Process, sh: Shared, op: Op, ev: Event)
    requires Recorded(op) && Timed(p.tick, sh.steady, op) && Explained(p, sh.steady, op) && op.pc.Preparing?
    requires CanStep(p.tick, sh, op, ev)
    ensures Explained(p, sh.steady, StepPreparing(sh, op, ev))
  {
    hide Validate, ValidLoaded, ValidResponse, DecodeMessage, ProjectResponse, Unprojectable, IsMalformed,
      DecodingThrew, IsPrepared, IsRefused, FailsToProject, IsProjected, ReportOf, WaitBounded;
    if ev.Prepared? && op.plan.Some? {
      DecodeFailsTyped(ev.loaded, op.plan.value, ev.initThrows);
    }
  }

  lemma WaitingRecords(p: Process, sh: Shared, op: Op, ev: Event)
    requires Recorded(op) && IsWaiting(op.pc) && CanStep(p.tick, sh, op, ev)
    ensures Recorded(StepWaiting(sh, op, ev))
  {
    hide History, Delivered, StepWaiting, CanStep;
    WaitingHistory(sh, op, ev);
    WaitingDelivers(sh, op, ev);
  }

  /** Nothing is sent, answered or loaded in between. */
  ghost predicate SameSending(op: Op, after: Op) {
    && after.dispatches == op.dispatches && after.pending == op.pending && after.requestId == op.requestId
    && after.response == op.response && after.answered == op.answered && after.removed == op.removed
    && after.fetched == op.fetched && after.replyPolls == op.replyPolls && after.loaded == op.loaded
    && after.sent == op.sent && after.replyDeadlinePoll == op.replyDeadlinePoll
  }

  /** The operation is over, with an outcome that claims that nothing was sent. */
  predicate EndsEarly(pc: Pc) {
    pc.Done? && pc.outcome.Failure? && pc.outcome.cls != Uncertain
  }

  /** Nothing is sent and nothing is claimed. */
  ghost predicate IsSilent(op: Op, after: Op) {
    && SameSending(op, after)
    && (EndsEarly(after.pc) || (after.raised == op.raised && (IsWaiting(after.pc) || after.pc.LastCancel?)))
  }

  lemma WaitingIsSilent(sh: Shared, op: Op, ev: Event)
    requires IsWaiting(op.pc)
    ensures IsSilent(op, StepWaiting(sh, op, ev))
  {
    hide StepWaiting, IsSilent;
    if op.pc.Waiting? || op.pc.Counting? || op.pc.Sleeping? {
      LibraryCallIsSilent(sh, op, ev);
    } else {
      WaitPollIsSilent(sh, op, ev);
    }
  }

  lemma LibraryCallIsSilent(sh: Shared, op: Op, ev: Event)
    requires op.pc.Waiting? || op.pc.Counting? || op.pc.Sleeping?
    ensures IsSilent(op, StepWaiting(sh, op, ev))
  {
    hide WaitNanos, CancelPoll, DeadlinePoll;
  }

  lemma WaitPollIsSilent(sh: Shared, op: Op, ev: Event)
    requires op.pc.WaitClock? || op.pc.WaitCancel? || op.pc.WaitDeadline? || op.pc.WaitExpired?
    ensures IsSilent(op, StepWaiting(sh, op, ev))
  {
    hide WaitNanos, FailureOf;
  }

  lemma WaitingHistory(sh: Shared, op: Op, ev: Event)
    requires History(op) && IsWaiting(op.pc)
    ensures History(StepWaiting(sh, op, ev))
  {
    hide Validate, ValidLoaded, ValidResponse, DecodeMessage, ProjectResponse, Unprojectable, IsMalformed,
      DecodingThrew, IsPrepared, IsRefused, FailsToProject, IsProjected, ReportOf,
      StepWaiting;
    WaitingIsSilent(sh, op, ev);
  }

  lemma WaitingDelivers(sh: Shared, op: Op, ev: Event)
    requires Delivered(op) && IsWaiting(op.pc)
    ensures Delivered(StepWaiting(sh, op, ev))
  {
    hide Validate, ValidLoaded, ValidResponse, DecodeMessage, ProjectResponse, Unprojectable, IsMalformed,
      DecodingThrew, IsPrepared, IsRefused, FailsToProject, IsProjected, ReportOf,
      StepWaiting;
    WaitingIsSilent(sh, op, ev);
  }

  lemma WaitingGuards(p: Process, sh: Shared, op: Op, ev: Event)
    requires History(op) && Guarded(p.env, p.context, op) && IsWaiting(op.pc) && CanStep(p.tick, sh, op, ev)
    ensures Guarded(p.env, p.context, StepWaiting(sh, op, ev))
  {
    hide Validate, ValidLoaded, ValidResponse, DecodeMessage, IsPrepared, ProjectResponse, Settled, InFlight,
      Truthful, FailureOf;
  }

  lemma WaitingBounds(p: Process, sh: Shared, op: Op, ev: Event)
    requires History(op) && Guarded(p.env, p.context, op) && Timed(p.tick, sh.steady, op) && IsWaiting(op.pc)
    requires CanStep(p.tick, sh, op, ev)
    ensures Timed(p.tick, sh.steady, StepWaiting(sh, op, ev))
  {
    hide Validate, ValidLoaded, ValidResponse, DecodeMessage, ProjectResponse, Unprojectable, IsMalformed,
      DecodingThrew, IsPrepared, IsRefused, FailsToProject, IsProjected, ReportOf, ReplyBounded, WaitBounded, Guarded;
    WaitingWaits(p, sh, op, ev);
    NoReplyYet(sh.steady, op, StepWaiting(sh, op, ev));
  }

  lemma WaitingWaits(p: Process, sh: Shared, op: Op, ev: Event)
    requires WaitBounded(p.tick, sh.steady, op) && IsWaiting(op.pc) && CanStep(p.tick, sh, op, ev)
    ensures WaitBounded(p.tick, sh.steady, StepWaiting(sh, op, ev))
  {
    hide WaitBounded, StepWaiting;
    if op.pc.Sleeping? {
      SleepEnds(p, sh, op, ev);
    } else if op.kind.Publish? {
      PublishWaits(p.tick, sh, op, ev);
    } else {
      ServiceWaits(p.tick, sh, op, ev);
    }
  }

  lemma SleepEnds(p: Process, sh: Shared, op: Op, ev: Event)
    requires WaitBounded(p.tick, sh.steady, op) && op.pc.Sleeping? && CanStep(p.tick, sh, op, ev)
    ensures WaitBounded(p.tick, sh.steady, StepWaiting(sh, op, ev))
  {
    hide Stride, DeadlinePoll, CancelPoll;
    StrideStep(WaitStep(p.tick, op), op.waitPolls - 1);
  }

  lemma PublishWaits(tick: nat, sh: Shared, op: Op, ev: Event)
    requires WaitBounded(tick, sh.steady, op) && IsWaiting(op.pc) && !op.pc.Sleeping? && op.kind.Publish?
    ensures WaitBounded(tick, sh.steady, StepWaiting(sh, op, ev))
  {
    hide Stride;
  }

  lemma ServiceWaits(tick: nat, sh: Shared, op: Op, ev: Event)
    requires WaitBounded(tick, sh.steady, op) && IsWaiting(op.pc) && !op.pc.Sleeping? && op.kind.Service?
    ensures WaitBounded(tick, sh.steady, StepWaiting(sh, op, ev))
  {
    hide Stride;
  }

  lemma WaitingExplains(p: Process, sh: Shared, op: Op, ev: Event)
    requires Recorded(op) && Timed(p.tick, sh.steady, op) && Explained(p, sh.steady, op) && IsWaiting(op.pc)
    requires CanStep(p.tick, sh, op, ev)
    ensures Explained(p, sh.steady, StepWaiting(sh, op, ev))
  {
    hide Recorded, Timed, Explained, StepWaiting, CanStep;
    if op.pc.Waiting? || op.pc.Counting? || op.pc.Sleeping? {
      LibraryCallExplains(p, sh, op, ev);
    } else {
      WaitPollExplains(p, sh, op, ev);
    }
  }

  lemma LibraryCallExplains(p: Process, sh: Shared, op: Op, ev: Event)
    requires Explained(p, sh.steady, op) && (op.pc.Waiting? || op.pc.Counting? || op.pc.Sleeping?)
    requires CanStep(p.tick, sh, op, ev)
    ensures Explained(p, sh.steady, StepWaiting(sh, op, ev))
  {
    hide Validate, ValidLoaded, ValidResponse, DecodeMessage, ProjectResponse, Unprojectable, IsMalformed,
      DecodingThrew, IsPrepared, IsRefused, FailsToProject, IsProjected, ReportOf,
      TimedOut, DeadlinePoll, CancelPoll;
  }

  lemma WaitPollExplains(p: Process, sh: Shared, op: Op, ev: Event)
    requires Explained(p, sh.steady, op)
    requires op.pc.WaitClock? || op.pc.WaitCancel? || op.pc.WaitDeadline? || op.pc.WaitExpired?
    ensures Explained(p, sh.steady, StepWaiting(sh, op, ev))
  {
    hide Validate, ValidLoaded, ValidResponse, DecodeMessage, ProjectResponse, Unprojectable, IsMalformed,
      DecodingThrew, IsPrepared, IsRefused, FailsToProject, IsProjected, ReportOf,
      TimedOut;
  }

  lemma FinalPollRecords(p: Process, sh: Shared, op: Op)
    requires Recorded(op) && IsFinalPoll(op.pc)
    ensures Recorded(StepFinalPoll(sh, op))
  {
    hide Validate, ValidLoaded, ValidResponse, DecodeMessage, ProjectResponse, Unprojectable, IsMalformed,
      DecodingThrew, IsPrepared, IsRefused, FailsToProject, IsProjected, ReportOf;
  }

  lemma FinalPollGuards(p: Process, sh: Shared, op: Op)
    requires History(op) && Guarded(p.env, p.context, op) && IsFinalPoll(op.pc)
    ensures Guarded(p.env, p.context, StepFinalPoll(sh, op))
  {
    hide Validate, ValidLoaded, ValidResponse, DecodeMessage, IsPrepared, ProjectResponse;
  }

  lemma FinalPollBounds(p: Process, sh: Shared, op: Op)
    requires History(op) && Guarded(p.env, p.context, op) && Timed(p.tick, sh.steady, op) && IsFinalPoll(op.pc)
    ensures Timed(p.tick, sh.steady, StepFinalPoll(sh, op))
  {
    hide Validate, ValidLoaded, ValidResponse, DecodeMessage, ProjectResponse, Unprojectable, IsMalformed,
      DecodingThrew, IsPrepared, IsRefused, FailsToProject, IsProjected, ReportOf, History, WaitBounded, Guarded;
    WaitIsOver(p.tick, sh.steady, op, StepFinalPoll(sh, op));
  }

  lemma FinalPollExplains(p: Process, sh: Shared, op: Op)
    requires Recorded(op) && Timed(p.tick, sh.steady, op) && Explained(p, sh.steady, op) && IsFinalPoll(op.pc)
    ensures Explained(p, sh.steady, StepFinalPoll(sh, op))
  {
    hide Validate, ValidLoaded, ValidResponse, DecodeMessage, ProjectResponse, Unprojectable, IsMalformed,
      DecodingThrew, IsPrepared, IsRefused, FailsToProject, IsProjected, ReportOf, WaitBounded;
  }

  lemma DispatchingRecords(p: Process, sh: Shared, op: Op, ev: Event)
    requires Recorded(op) && op.pc.Dispatching? && CanStep(p.tick, sh, op, ev)
    ensures Recorded(StepDispatching(sh, op, ev))
  {
    hide Validate, ValidLoaded, ValidResponse, DecodeMessage, ProjectResponse, Unprojectable, IsMalformed,
      DecodingThrew, IsPrepared, IsRefused, FailsToProject, IsProjected, ReportOf;
  }

  lemma DispatchingGuards(p: Process, sh: Shared, op: Op, ev: Event)
    requires History(op) && Guarded(p.env, p.context, op) && op.pc.Dispatching? && CanStep(p.tick, sh, op, ev)
    ensures Guarded(p.env, p.context, StepDispatching(sh, op, ev))
  {
    hide Validate, ValidLoaded, ValidResponse, DecodeMessage, ProjectResponse, Unprojectable, IsMalformed,
      DecodingThrew, IsPrepared, IsRefused, FailsToProject, IsProjected, ReportOf;
  }

  lemma DispatchingBounds(p: Process, sh: Shared, op: Op, ev: Event)
    requires History(op) && Guarded(p.env, p.context, op) && Timed(p.tick, sh.steady, op) && op.pc.Dispatching?
    requires CanStep(p.tick, sh, op, ev)
    ensures Timed(p.tick, sh.steady, StepDispatching(sh, op, ev))
  {
    hide Validate, ValidLoaded, ValidResponse, DecodeMessage, ProjectResponse, Unprojectable, IsMalformed,
      DecodingThrew, IsPrepared, IsRefused, FailsToProject, IsProjected, ReportOf, History, WaitBounded;
    WaitIsOver(p.tick, sh.steady, op, StepDispatching(sh, op, ev));
  }

  lemma DispatchingExplains(p: Process, sh: Shared, op: Op, ev: Event)
    requires Recorded(op) && Timed(p.tick, sh.steady, op) && Explained(p, sh.steady, op) && op.pc.Dispatching?
    requires CanStep(p.tick, sh, op, ev)
    ensures Explained(p, sh.steady, StepDispatching(sh, op, ev))
  {
    hide Validate, ValidLoaded, ValidResponse, DecodeMessage, ProjectResponse, Unprojectable, IsMalformed,
      DecodingThrew, IsPrepared, IsRefused, FailsToProject, IsProjected, ReportOf, WaitBounded;
  }

  lemma ReplyingRecords(p: Process, sh: Shared, op: Op, ev: Event)
    requires Recorded(op) && IsReplying(op.pc) && CanStep(p.tick, sh, op, ev)
    ensures Recorded(StepReplying(sh, op))
  {
    hide Validate, ValidLoaded, ValidResponse, DecodeMessage, ProjectResponse, Unprojectable, IsMalformed,
      DecodingThrew, IsPrepared, IsRefused, FailsToProject, IsProjected, ReportOf;
  }

  lemma ReplyingGuards(p: Process, sh: Shared, op: Op, ev: Event)
    requires History(op) && Guarded(p.env, p.context, op) && IsReplying(op.pc) && CanStep(p.tick, sh, op, ev)
    ensures Guarded(p.env, p.context, StepReplying(sh, op))
  {
    hide Validate, ValidLoaded, ValidResponse, DecodeMessage, ProjectResponse, Unprojectable, IsMalformed,
      DecodingThrew, IsPrepared, IsRefused, FailsToProject, IsProjected, ReportOf;
  }

  lemma ReplyingBounds(p: Process, sh: Shared, op: Op, ev: Event)
    requires History(op) && Guarded(p.env, p.context, op) && Timed(p.tick, sh.steady, op) && IsReplying(op.pc)
    requires CanStep(p.tick, sh, op, ev)
    ensures Timed(p.tick, sh.steady, StepReplying(sh, op))
  {
    hide Validate, ValidLoaded, ValidResponse, DecodeMessage, ProjectResponse, Unprojectable, IsMalformed,
      DecodingThrew, IsPrepared, IsRefused, FailsToProject, IsProjected, ReportOf, History, WaitBounded, Guarded;
    WaitIsOver(p.tick, sh.steady, op, StepReplying(sh, op));
  }

  lemma ReplyingExplains(p: Process, sh: Shared, op: Op)
    requires Recorded(op) && Timed(p.tick, sh.steady, op) && Explained(p, sh.steady, op) && IsReplying(op.pc)
    ensures Explained(p, sh.steady, StepReplying(sh, op))
  {
    hide Validate, ValidLoaded, ValidResponse, DecodeMessage, ProjectResponse, Unprojectable, IsMalformed,
      DecodingThrew, IsPrepared, IsRefused, FailsToProject, IsProjected, ReportOf, Recorded, Timed;
  }

  lemma FinishingRecords(p: Process, sh: Shared, op: Op, ev: Event)
    requires Recorded(op) && IsFinishing(op.pc) && CanStep(p.tick, sh, op, ev)
    ensures Recorded(StepFinishing(p.env, op, ev))
  {
    hide History, Delivered, StepFinishing, CanStep;
    if op.pc.Projecting? {
      ProjectionExact(op);
    }
    FinishingHistory(p, sh, op, ev);
    FinishingDelivers(p, sh, op, ev);
  }

  lemma FinishingHistory(p: Process, sh: Shared, op: Op, ev: Event)
    requires Recorded(op) && IsFinishing(op.pc) && CanStep(p.tick, sh, op, ev)
    requires op.pc.Projecting? ==> ProjectionIsExact(op)
    ensures History(StepFinishing(p.env, op, ev))
  {
    hide History, Delivered, StepFinishing, CanStep, ProjectionIsExact;
    if op.pc.Getting? {
      GettingHistory(p, sh, op, ev);
    } else if op.pc.Projecting? {
      ProjectingHistory(p, sh, op, ev);
    } else {
      ReportingHistory(p, sh, op, ev);
    }
  }

  lemma GettingHistory(p: Process, sh: Shared, op: Op, ev: Event)
    requires Recorded(op) && op.pc.Getting? && CanStep(p.tick, sh, op, ev)
    ensures History(StepFinishing(p.env, op, ev))
  {
    hide Validate, ValidLoaded, ValidResponse, DecodeMessage, ProjectResponse, Unprojectable, IsMalformed,
      DecodingThrew, IsPrepared, IsRefused, FailsToProject, IsProjected, ReportOf;
  }

  lemma ProjectingHistory(p: Process, sh: Shared, op: Op, ev: Event)
    requires Recorded(op) && op.pc.Projecting? && CanStep(p.tick, sh, op, ev)
    requires ProjectionIsExact(op)
    ensures History(StepFinishing(p.env, op, ev))
  {
    hide Validate, ValidLoaded, ValidResponse, DecodeMessage, ProjectResponse, Unprojectable, IsMalformed,
      DecodingThrew, IsPrepared, IsRefused, FailsToProject, IsProjected, ReportOf;
  }

  lemma ReportingHistory(p: Process, sh: Shared, op: Op, ev: Event)
    requires Recorded(op) && op.pc.Reporting? && CanStep(p.tick, sh, op, ev)
    ensures History(StepFinishing(p.env, op, ev))
  {
    hide Validate, ValidLoaded, ValidResponse, DecodeMessage, ProjectResponse, Unprojectable, IsMalformed,
      DecodingThrew, IsPrepared, IsRefused, FailsToProject, IsProjected, ReportOf;
  }

  lemma FinishingDelivers(p: Process, sh: Shared, op: Op, ev: Event)
    requires Recorded(op) && IsFinishing(op.pc) && CanStep(p.tick, sh, op, ev)
    requires op.pc.Projecting? ==> ProjectionIsExact(op)
    ensures Delivered(StepFinishing(p.env, op, ev))
  {
    hide Validate, ValidLoaded, ValidResponse, DecodeMessage, ProjectResponse, Unprojectable, IsMalformed,
      DecodingThrew, IsPrepared, IsRefused, FailsToProject, IsProjected, ReportOf, InFlight, Settled, Truthful;
  }

  lemma FinishingGuards(p: Process, sh: Shared, op: Op, ev: Event)
    requires History(op) && Guarded(p.env, p.context, op) && IsFinishing(op.pc) && CanStep(p.tick, sh, op, ev)
    ensures Guarded(p.env, p.context, StepFinishing(p.env, op, ev))
  {
    hide Validate, ValidLoaded, ValidResponse, DecodeMessage, ProjectResponse, Unprojectable, IsMalformed,
      DecodingThrew, IsPrepared, IsRefused, FailsToProject, IsProjected, ReportOf;
  }

  lemma FinishingBounds(p: Process, sh: Shared, op: Op, ev: Event)
    requires History(op) && Guarded(p.env, p.context, op) && Timed(p.tick, sh.steady, op) && IsFinishing(op.pc)
    requires CanStep(p.tick, sh, op, ev)
    ensures Timed(p.tick, sh.steady, StepFinishing(p.env, op, ev))
  {
    hide Validate, ValidLoaded, ValidResponse, DecodeMessage, ProjectResponse, Unprojectable, IsMalformed,
      DecodingThrew, IsPrepared, IsRefused, FailsToProject, IsProjected, ReportOf, History, WaitBounded, Guarded;
    WaitIsOver(p.tick, sh.steady, op, StepFinishing(p.env, op, ev));
  }

  lemma FinishingExplains(p: Process, sh: Shared, op: Op, ev: Event)
    requires Recorded(op) && Timed(p.tick, sh.steady, op) && Explained(p, sh.steady, op) && IsFinishing(op.pc)
    requires CanStep(p.tick, sh, op, ev)
    ensures Explained(p, sh.steady, StepFinishing(p.env, op, ev))
  {
    hide History, Delivered, Timed, Explained, StepFinishing, CanStep, ProjectionIsExact;
    if op.pc.Projecting? {
      ProjectionExact(op);
      ProjectingExplains(p, sh, op, ev);
    } else if op.pc.Getting? {
      GettingExplains(p, sh, op, ev);
    } else {
      ReportingExplains(p, sh, op, ev);
    }
  }

  lemma ProjectingExplains(p: Process, sh: Shared, op: Op, ev: Event)
    requires op.pc.Projecting? && ProjectionIsExact(op)
    ensures Explained(p, sh.steady, StepFinishing(p.env, op, ev))
  {
    hide Validate, ValidLoaded, ValidResponse, DecodeMessage, ProjectResponse, Unprojectable, IsMalformed,
      DecodingThrew, IsPrepared, IsRefused, FailsToProject, IsProjected, ReportOf;
  }

  lemma GettingExplains(p: Process, sh: Shared, op: Op, ev: Event)
    requires History(op) && Explained(p, sh.steady, op) && op.pc.Getting?
    ensures Explained(p, sh.steady, StepFinishing(p.env, op, ev))
  {
    hide Validate, ValidLoaded, ValidResponse, DecodeMessage, ProjectResponse, Unprojectable, IsMalformed,
      DecodingThrew, IsPrepared, IsRefused, FailsToProject, IsProjected, ReportOf,
      TimedOut, InFlight, Settled, Truthful;
  }

  lemma ReportingExplains(p: Process, sh: Shared, op: Op, ev: Event)
    requires op.pc.Reporting?
    ensures Explained(p, sh.steady, StepFinishing(p.env, op, ev))
  {
    hide Validate, ValidLoaded, ValidResponse, DecodeMessage, ProjectResponse, Unprojectable, IsMalformed,
      DecodingThrew, IsPrepared, IsRefused, FailsToProject, IsProjected, ReportOf,
      TimedOut;
  }

  /** Every step of an operation keeps everything above. */
  lemma {:induction false} StepKeeps(p: Process, sh: Shared, op: Op, ev: Event)
    requires OpInv(p, sh.steady, op) && CanStep(p.tick, sh, op, ev)
    ensures OpInv(p, sh.steady, StepOp(p.env, p.context, sh, op, ev))
  {
    hide History, Delivered, Guarded, Timed, Explained, CanStep, StepAdmission, StepPreparing, StepWaiting,
      StepFinalPoll, StepDispatching, StepReplying, StepFinishing;
    if IsAdmission(op.pc) {
      AdmissionRecords(p, sh, op);
      AdmissionGuards(p, sh, op);
      AdmissionBounds(p, sh, op);
      AdmissionExplains(p, sh, op);
    } else if op.pc.Preparing? {
      PreparingRecords(p, sh, op, ev);
      PreparingGuards(p, sh, op, ev);
      PreparingBounds(p, sh, op, ev);
      PreparingExplains(p, sh, op, ev);
    } else if IsWaiting(op.pc) {
      WaitingRecords(p, sh, op, ev);
      WaitingGuards(p, sh, op, ev);
      WaitingBounds(p, sh, op, ev);
      WaitingExplains(p, sh, op, ev);
    } else if IsFinalPoll(op.pc) {
      FinalPollRecords(p, sh, op);
      FinalPollGuards(p, sh, op);
      FinalPollBounds(p, sh, op);
      FinalPollExplains(p, sh, op);
    } else if op.pc.Dispatching? {
      DispatchingRecords(p, sh, op, ev);
      DispatchingGuards(p, sh, op, ev);
      DispatchingBounds(p, sh, op, ev);
      DispatchingExplains(p, sh, op, ev);
    } else if IsReplying(op.pc) {
      ReplyingRecords(p, sh, op, ev);
      ReplyingGuards(p, sh, op, ev);
      ReplyingBounds(p, sh, op, ev);
      ReplyingExplains(p, sh, op);
    } else if IsFinishing(op.pc) {
      FinishingRecords(p, sh, op, ev);
      FinishingGuards(p, sh, op, ev);
      FinishingBounds(p, sh, op, ev);
      FinishingExplains(p, sh, op, ev);
    }
  }
}
