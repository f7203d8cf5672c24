/** How operations end, and what they send and report: decided in the state in which they take their
    last step. */
module AdapterEnds {
  import opened Errors
  import opened Descriptors
  import opened TreeSemantics
  import opened FlatDecode
  import opened CodecTheorems
  import opened EncodingSpec
  import opened Requests
  import opened Adapter
  import opened AdapterSafety
  import opened AdapterTheorems

  // ---- The last step ----

  /** Somewhere in the run, in a state with the shared part `sh`, the operation is `op`, is not over,
      takes the step `ev`, and is over with the outcome `o`. */
  ghost predicate EndsAt(p: Process, s: State, run: seq<Action>, id: nat, sh: Shared, op: Op, ev: Event, o: Outcome)
    requires IsRun(p, s, run)
    decreases |run|
  {
    run != [] &&
      (|| (run[0] == Step(id, ev) && s.shared == sh && s.ops[id] == op && !op.pc.Done?
           && StepOp(p.env, p.context, sh, op, ev).pc == Done(o))
       || EndsAt(p, Act(p, s, run[0]), run[1..], id, sh, op, ev, o))
  }

  lemma ActEnds(p: Process, s: State, a: Action, id: nat)
    requires CanAct(p, s, a) && id in Act(p, s, a).ops && Act(p, s, a).ops[id].pc.Done?
    requires id in s.ops ==> !s.ops[id].pc.Done?
    ensures a.Step? && a.id == id && id in s.ops
    ensures Act(p, s, a).ops[id] == StepOp(p.env, p.context, s.shared, s.ops[id], a.ev)
  {
    hide StepOp, CanStep, StepCallback, ValidResponse;
  }

  /** An operation that is over has taken its last step, from a state in which the invariant held. */
  lemma {:induction false} LastStep(p: Process, s: State, run: seq<Action>, id: nat)
    returns (sh: Shared, op: Op, ev: Event)
    requires StateInv(p, s) && IsRun(p, s, run) && (id in s.ops ==> !s.ops[id].pc.Done?)
    requires id in After(p, s, run).ops && After(p, s, run).ops[id].pc.Done?
    ensures EndsAt(p, s, run, id, sh, op, ev, After(p, s, run).ops[id].pc.outcome)
    ensures OpInv(p, sh.steady, op) && CanStep(p.tick, sh, op, ev) && !op.pc.Done?
    ensures StepOp(p.env, p.context, sh, op, ev).pc == After(p, s, run).ops[id].pc
    decreases |run|
  {
    hide StepOp, OpInv, CanStep;
    var next := Act(p, s, run[0]);
    ActKeeps(p, s, run[0]);
    if id in next.ops && next.ops[id].pc.Done? {
      ActEnds(p, s, run[0], id);
      sh, op, ev := s.shared, s.ops[id], run[0].ev;
      StaysOver(p, next, run[1..], id);
    } else {
      sh, op, ev := LastStep(p, next, run[1..], id);
    }
  }

  lemma {:induction false} StaysOver(p: Process, s: State, run: seq<Action>, id: nat)
    requires StateInv(p, s) && IsRun(p, s, run) && id in s.ops && s.ops[id].pc.Done?
    ensures id in After(p, s, run).ops && After(p, s, run).ops[id].pc == s.ops[id].pc
  {
    OverIsSettled(p, s.shared.steady, s.ops[id]);
    OutcomeIsFinal(p, s, run, id);
  }

  lemma OverIsSettled(p: Process, steady: nat, op: Op)
    requires OpInv(p, steady, op) && op.pc.Done?
    ensures op.pending == {}
  {
    hide Delivered, Guarded, Timed, Explained, Truthful;
  }

  // ---- What decides the outcome ----

  function LimitOf(p: Process, kind: Kind): nat {
    if kind.Publish? then p.env.publish.limits.responseBytes else p.env.service.limits.responseBytes
  }

  /** The step meets the error: the request is refused, preparing fails, the loaded type rejects the
      message, a library call throws, or the answer has no JSON. */
  ghost predicate Meets(p: Process, op: Op, ev: Event, e: Error) {
    match op.pc
    case Admitted => IsRefused(p, op, e)
    case Preparing =>
      || ev == PrepareFails(e)
      || (ev.Prepared? && op.plan.Some? && ValidLoaded(ev.loaded)
          && IsRejected(ev.loaded.ts, ev.loaded.k, op.plan.value.Body(), ev.initThrows, e))
    case Projecting => FailsToProject(op.loaded, op.response, e)
    case Dispatching => op.kind.Service? && ev == Throws && e == UntypedException
    case _ => ev == Throws && e == UntypedException
  }

  /** What a step and the state it is taken in have to be for the operation to end with an outcome. */
  ghost predicate Decides(p: Process, sh: Shared, op: Op, ev: Event, o: Outcome) {
    if o.Success? then
      && op.pc.Reporting? && ev.Reported? && ev.size <= LimitOf(p, op.kind)
      && o.report == ReportOf(op.plan, op.subscribers, op.answer)
    else
      match o.cls
      case Cancelled =>
        && op.cancelRequested && (op.pc.EarlyCancel? || op.pc.WaitCancel? || op.pc.LastCancel?)
        && o.code == (if op.kind.Publish? then PublishCancelled else ServiceCallCancelled)
      case Deadline =>
        && op.request.context.deadline <= sh.system
        && (op.pc.EarlyDeadline? || op.pc.WaitDeadline? || op.pc.LastDeadline?)
        && o.code == (if op.kind.Publish? then PublishDeadlineElapsed
                      else if op.pc.WaitDeadline? then ServiceWaitDeadlineElapsed else ServiceCallDeadlineElapsed)
      case Rejected =>
        && op.pc.Entered? && !(if op.kind.Publish? then sh.flags.publish else sh.flags.service)
        && o.code == (if op.kind.Publish? then PublishCapabilityDisabled else ServiceCapabilityDisabled)
      case ResourceExhausted => op.pc.Admitted? && Meets(p, op, ev, ToolsError(ResourceExhausted, o.code))
      case Transient =>
        || (o.code == InternalError && Meets(p, op, ev, UntypedException))
        || (o.code == SubscriberUnavailable && op.pc.Counting? && ev == Count(0)
            && op.plan.Some? && 0 < op.plan.value.waitMs)
        || (o.code == ServiceUnavailable && op.pc.WaitExpired?
            && op.waitStart + (if op.plan.Some? then op.plan.value.waitMs * 1000000 else 0) <= sh.steady)
      case Uncertain =>
        || (o.code == PublishOutcomeUnknown && op.kind.Publish? && op.pc.Dispatching? && ev == Throws)
        || (o.code == ServiceOutcomeUnknownAfterCancel && op.pc.RemovingCancelled?)
        || (o.code == ServiceOutcomeUnknownAfterTimeout && op.pc.RemovingTimedOut?)
        || (o.code == ServiceResponseMissing && op.pc.Getting? && ev.Go? && op.response == Some(None))
        || (o.code == OperationResultTooLarge && op.pc.Reporting? && ev.Reported? && LimitOf(p, op.kind) < ev.size)
      case Permanent => Meets(p, op, ev, PermanentError(o.code))
  }

  lemma EntryDecides(p: Process, sh: Shared, op: Op, ev: Event, o: Outcome)
    requires Explained(p, sh.steady, op) && CanStep(p.tick, sh, op, ev) && IsAdmission(op.pc)
    ensures StepAdmission(p.env, p.context, sh, op).pc == Done(o) <==> Decides(p, sh, op, ev, o)
  {
    hide Explained, CanStep, Decides, StepAdmission;
    if op.pc.Admitted? {
      RefusalDecides(p, sh, op, ev, o);
    } else {
      EntryPollDecides(p, sh, op, ev, o);
    }
  }

  lemma EntryPollDecides(p: Process, sh: Shared, op: Op, ev: Event, o: Outcome)
    requires Explained(p, sh.steady, op) && CanStep(p.tick, sh, op, ev)
    requires op.pc.Entered? || op.pc.EarlyCancel? || op.pc.EarlyDeadline?
    ensures StepAdmission(p.env, p.context, sh, op).pc == Done(o) <==> Decides(p, sh, op, ev, o)
  {
    hide Validate, HasCause, ReportOf, FailureOf;
  }

  lemma RefusalDecides(p: Process, sh: Shared, op: Op, ev: Event, o: Outcome)
    requires Explained(p, sh.steady, op) && CanStep(p.tick, sh, op, ev) && op.pc.Admitted?
    ensures StepAdmission(p.env, p.context, sh, op).pc == Done(o) <==> Decides(p, sh, op, ev, o)
  {
    hide HasCause, IsRefused, Validate, ReportOf;
    assert op.admitted.Some? && op.plan.None?;
    if o.Failure? {
      RefusedExactly(p, op, ToolsError(o.cls, o.code));
      RefusedExactly(p, op, UntypedException);
    }
    RequestErrors(p, op);
  }

  lemma RefusedExactly(p: Process, op: Op, e: Error)
    requires op.admitted.Some? && op.plan.None?
    ensures Validate(p.env, p.context, op.kind, op.request) == Err(e) <==> IsRefused(p, op, e)
  {
    hide ValidatePublish, ValidateService, IsPublishRefused, IsCallRefused;
    PublishRefusedExactly(p.env, p.context, op.request, e);
    CallRefusedExactly(p.env, p.context, op.request, e);
  }

  lemma RequestErrors(p: Process, op: Op)
    ensures var v := Validate(p.env, p.context, op.kind, op.request);
      v.Err? && v.error.ToolsError? ==> v.error.cls.Permanent? || v.error.cls.ResourceExhausted?
  {
    hide Validate;
  }

  lemma PreparingDecides(p: Process, sh: Shared, op: Op, ev: Event, o: Outcome)
    requires op.pc.Preparing? && op.plan.Some? && CanStep(p.tick, sh, op, ev)
    ensures StepPreparing(sh, op, ev).pc == Done(o) <==> Decides(p, sh, op, ev, o)
  {
    hide ValidLoaded, DecodeMessage, ReportOf, IsRejected;
    if ev.Prepared? {
      PreparedDecides(op, ev, o);
    }
  }

  /** Decoding fails with typed permanent errors and untyped exceptions. */
  lemma PreparedDecides(op: Op, ev: Event, o: Outcome)
    requires op.plan.Some? && ev.Prepared? && ValidLoaded(ev.loaded)
    ensures var l := ev.loaded;
      var r := DecodeMessage(l.ts, l.k, op.plan.value.Body(), ev.initThrows);
      && (r.Err? ==> IsPermanent(r.error) || r.error == UntypedException)
      && (o.Failure? ==>
            && (r == Err(PermanentError(o.code)) <==>
                  IsRejected(l.ts, l.k, op.plan.value.Body(), ev.initThrows, PermanentError(o.code)))
            && (r == Err(UntypedException) <==>
                  IsRejected(l.ts, l.k, op.plan.value.Body(), ev.initThrows, UntypedException)))
  {
    hide DecodeMessage, IsRejected, IsMalformed, DecodingThrew, IsPrepared;
    var l, body := ev.loaded, op.plan.value.Body();
    DecodeFailsTyped(l, op.plan.value, ev.initThrows);
    if o.Failure? {
      DecodeRejectsExactly(l.ts, l.k, body, ev.initThrows, PermanentError(o.code));
      DecodeRejectsExactly(l.ts, l.k, body, ev.initThrows, UntypedException);
    }
  }

  lemma PreparingHasPlan(p: Process, op: Op)
    requires Guarded(p.env, p.context, op) && op.pc.Preparing?
    ensures op.plan.Some?
  {
    hide Validate, IsPrepared;
  }

  lemma WaitingDecides(p: Process, sh: Shared, op: Op, ev: Event, o: Outcome)
    requires Explained(p, sh.steady, op) && CanStep(p.tick, sh, op, ev) && IsWaiting(op.pc)
    ensures StepWaiting(sh, op, ev).pc == Done(o) <==> Decides(p, sh, op, ev, o)
  {
    hide HasCause, CanStep, Decides, StepWaiting;
    if op.pc.Waiting? || op.pc.Counting? || op.pc.Sleeping? {
      LibraryCallDecides(p, sh, op, ev, o);
    } else {
      WaitPollDecides(p, sh, op, ev, o);
    }
  }

  lemma LibraryCallDecides(p: Process, sh: Shared, op: Op, ev: Event, o: Outcome)
    requires op.pc.Waiting? || op.pc.Sleeping? || op.pc.Counting?
    requires CanStep(p.tick, sh, op, ev)
    ensures StepWaiting(sh, op, ev).pc == Done(o) <==> Decides(p, sh, op, ev, o)
  {
    hide ValidLoaded, CancelPoll, DeadlinePoll, ReportOf;
  }

  lemma WaitPollDecides(p: Process, sh: Shared, op: Op, ev: Event, o: Outcome)
    requires op.pc.WaitClock? || op.pc.WaitCancel? || op.pc.WaitDeadline? || op.pc.WaitExpired?
    requires CanStep(p.tick, sh, op, ev)
    ensures StepWaiting(sh, op, ev).pc == Done(o) <==> Decides(p, sh, op, ev, o)
  {
    hide FailureOf, ReportOf;
  }

  lemma FinalPollDecides(p: Process, sh: Shared, op: Op, ev: Event, o: Outcome)
    requires CanStep(p.tick, sh, op, ev) && IsFinalPoll(op.pc)
    ensures StepFinalPoll(sh, op).pc == Done(o) <==> Decides(p, sh, op, ev, o)
  {
    hide ValidLoaded, ReportOf, LimitOf, WaitNanos, Raise, FailureOf;
  }

  lemma DispatchingDecides(p: Process, sh: Shared, op: Op, ev: Event, o: Outcome)
    requires CanStep(p.tick, sh, op, ev) && op.pc.Dispatching?
    ensures StepDispatching(sh, op, ev).pc == Done(o) <==> Decides(p, sh, op, ev, o)
  {
    hide ReportOf;
  }

  lemma ReplyingDecides(p: Process, sh: Shared, op: Op, ev: Event, o: Outcome)
    requires CanStep(p.tick, sh, op, ev) && IsReplying(op.pc)
    ensures StepReplying(sh, op).pc == Done(o) <==> Decides(p, sh, op, ev, o)
  {
    hide Decides, StepReplying;
    if op.pc.RemovingCancelled? || op.pc.RemovingTimedOut? {
      RemovalDecides(p, sh, op, ev, o);
    } else {
      ReplyPollDecides(p, sh, op, ev, o);
    }
  }

  lemma RemovalDecides(p: Process, sh: Shared, op: Op, ev: Event, o: Outcome)
    requires CanStep(p.tick, sh, op, ev) && (op.pc.RemovingCancelled? || op.pc.RemovingTimedOut?)
    ensures StepReplying(sh, op).pc == Done(o) <==> Decides(p, sh, op, ev, o)
  {
    hide ReportOf, RemovePending, CallNanos, LimitOf;
  }

  lemma ReplyPollDecides(p: Process, sh: Shared, op: Op, ev: Event, o: Outcome)
    requires CanStep(p.tick, sh, op, ev) && (op.pc.AwaitingReply? || op.pc.ReplyCancel? || op.pc.ReplyTime?)
    ensures StepReplying(sh, op).pc == Done(o) <==> Decides(p, sh, op, ev, o)
  {
    hide ReportOf, RemovePending, CallNanos, LimitOf;
  }

  lemma FinishingDecides(p: Process, sh: Shared, op: Op, ev: Event, o: Outcome)
    requires Recorded(op) && CanStep(p.tick, sh, op, ev) && IsFinishing(op.pc)
    ensures StepFinishing(p.env, op, ev).pc == Done(o) <==> Decides(p, sh, op, ev, o)
  {
    hide Recorded, Decides, StepFinishing, CanStep;
    FinishingHasResponse(op);
    if op.pc.Projecting? {
      ProjectingDecides(p, sh, op, ev, o);
    } else if op.pc.Getting? {
      GettingDecides(p, sh, op, ev, o);
    } else {
      ReportingDecides(p, sh, op, ev, o);
    }
  }

  lemma FinishingHasResponse(op: Op)
    requires Recorded(op)
    ensures op.pc.Getting? ==> op.response.Some?
    ensures op.pc.Projecting? ==> op.fetched == op.response && HasAnswer(op)
    ensures op.pc.Projecting? ==> op.loaded.Some? && ValidResponse(op.loaded.value, op.response.value)
  {
    hide ValidLoaded, ValidResponse, IsProjected, Unprojectable;
  }

  lemma GettingDecides(p: Process, sh: Shared, op: Op, ev: Event, o: Outcome)
    requires CanStep(p.tick, sh, op, ev) && op.pc.Getting? && op.response.Some?
    ensures StepFinishing(p.env, op, ev).pc == Done(o) <==> Decides(p, sh, op, ev, o)
  {
    hide ProjectResponse, ReportOf, ResponseLimit, LimitOf;
  }

  lemma ReportingDecides(p: Process, sh: Shared, op: Op, ev: Event, o: Outcome)
    requires CanStep(p.tick, sh, op, ev) && op.pc.Reporting?
    ensures StepFinishing(p.env, op, ev).pc == Done(o) <==> Decides(p, sh, op, ev, o)
  {
    hide ProjectResponse, ReportOf, Raise, FailureOf, WaitNanos, FailsToProject, IsRejected, IsRefused;
  }

  lemma ProjectingDecides(p: Process, sh: Shared, op: Op, ev: Event, o: Outcome)
    requires CanStep(p.tick, sh, op, ev) && op.pc.Projecting? && op.fetched == op.response && HasAnswer(op)
    requires op.loaded.Some? && ValidResponse(op.loaded.value, op.response.value)
    ensures StepFinishing(p.env, op, ev).pc == Done(o) <==> Decides(p, sh, op, ev, o)
  {
    hide ProjectResponse, FailsToProject, ReportOf, ValidResponse, HasAnswer;
    if o.Failure? {
      ProjectsExactly(op, PermanentError(o.code));
      ProjectsExactly(op, UntypedException);
    } else {
      ProjectsExactly(op, UntypedException);
    }
  }

  /** Projecting an answer ends in an error if and only if that is why the answer has no JSON. */
  lemma ProjectsExactly(op: Op, e: Error)
    requires op.fetched == op.response && HasAnswer(op)
    requires op.loaded.Some? && ValidResponse(op.loaded.value, op.response.value)
    ensures var r := ProjectResponse(op.loaded, op.response);
      && (r == Err(e) <==> FailsToProject(op.loaded, op.response, e))
      && (r.Err? ==> IsPermanent(r.error))
  {
    hide EncodeMessage, MessageFailsToEncode, MessageAt;
    var l := op.loaded.value;
    var v := MessageAt(l.ts, l.response, op.response.value.value);
    MessageFailsExactly(l.ts, l.response, v, e);
    if EncodeMessage(l.ts, l.response, v).Err? {
      EncodeTypedMessage(l.ts, l.response, v);
    }
  }

  /** A step ends an operation with an outcome if and only if the step and the state it is taken in
      decide so. */
  lemma StepEndsExactly(p: Process, sh: Shared, op: Op, ev: Event, o: Outcome)
    requires OpInv(p, sh.steady, op) && CanStep(p.tick, sh, op, ev) && !op.pc.Done?
    ensures StepOp(p.env, p.context, sh, op, ev).pc == Done(o) <==> Decides(p, sh, op, ev, o)
  {
    hide History, Delivered, Guarded, Timed, Explained, CanStep, Decides, StepAdmission, StepPreparing,
      StepWaiting, StepFinalPoll, StepDispatching, StepReplying, StepFinishing;
    if IsAdmission(op.pc) {
      EntryDecides(p, sh, op, ev, o);
    } else if op.pc.Preparing? {
      PreparingHasPlan(p, op);
      PreparingDecides(p, sh, op, ev, o);
    } else if IsWaiting(op.pc) {
      WaitingDecides(p, sh, op, ev, o);
    } else if IsFinalPoll(op.pc) {
      FinalPollDecides(p, sh, op, ev, o);
    } else if op.pc.Dispatching? {
      DispatchingDecides(p, sh, op, ev, o);
    } else if IsReplying(op.pc) {
      ReplyingDecides(p, sh, op, ev, o);
    } else if IsFinishing(op.pc) {
      FinishingDecides(p, sh, op, ev, o);
    }
  }

  /** Every outcome is decided by the last step and the state it is taken in.  A rejected operation
      read its flag unset; a cancelled one was cancelled; one past its deadline read a clock at or past
      it; a publish without a subscriber read a count of zero last, having been asked to wait; a
      success reported within the limit and a result that is too large beyond it. */
  lemma OutcomesAreDecided(p: Process, steady: nat, system: int, run: seq<Action>, id: nat)
    returns (sh: Shared, op: Op, ev: Event)
    requires IsRun(p, Initial(steady, system), run)
    requires id in After(p, Initial(steady, system), run).ops
    requires After(p, Initial(steady, system), run).ops[id].pc.Done?
    ensures var o := After(p, Initial(steady, system), run).ops[id].pc.outcome;
      EndsAt(p, Initial(steady, system), run, id, sh, op, ev, o) && Decides(p, sh, op, ev, o)
  {
    hide IsRun, After, EndsAt, Decides, OpInv, CanStep, StepOp;
    sh, op, ev := LastStep(p, Initial(steady, system), run, id);
    StepEndsExactly(p, sh, op, ev, After(p, Initial(steady, system), run).ops[id].pc.outcome);
  }

  // ---- What is sent and what is reported ----

  /** What an operation dispatches is the default message of its type with the request's message laid
      over it. */
  lemma SentMessageExactly(p: Process, s: State, id: nat)
    requires Reachable(p, s) && id in s.ops && s.ops[id].dispatches == 1
    ensures var op := s.ops[id];
      && op.loaded.Some? && op.plan.Some? && op.sent.Some?
      && ValidLoaded(op.loaded.value) && |op.sent.value| == op.loaded.value.ts.descs[op.loaded.value.k].size
      && var l := op.loaded.value;
         MessageAt(l.ts, l.k, op.sent.value) ==
         OverlayMessage(l.ts, l.k, DefaultMessage(l.ts, l.k), op.plan.value.Body())
  {
    hide Reachable, OpInv;
    ReachableOp(p, s, id);
    SentIsPrepared(p, s.shared.steady, s.ops[id]);
    var l := s.ops[id].loaded.value;
    DecodeMessageExact(l.ts, l.k, s.ops[id].plan.value.Body(), false);
  }

  lemma SentIsPrepared(p: Process, steady: nat, op: Op)
    requires OpInv(p, steady, op) && op.dispatches == 1
    ensures IsPrepared(op.plan, op.loaded, op.sent)
  {
    hide Recorded, Timed, Explained, IsPrepared, Validate;
  }

  /** A successful publish reports the topic, the type and the last subscriber count it read; a
      successful call reports the JSON that says what the service answered. */
  lemma SuccessReports(p: Process, s: State, id: nat)
    requires Reachable(p, s) && id in s.ops && s.ops[id].pc.Done? && s.ops[id].pc.outcome.Success?
    ensures s.ops[id].plan.Some? && Describes(p.env, s.ops[id].request, s.ops[id].plan.value)
    ensures var op, report := s.ops[id], s.ops[id].pc.outcome.report;
      match op.plan.value
      case PublishPlan(topic, messageType, _, _, _, _, _) => report == Published(topic, messageType, op.subscribers)
      case ServicePlan(service, serviceType, _, _, _) =>
        && op.loaded.Some? && ValidLoaded(op.loaded.value)
        && HasAnswer(op) && ValidResponse(op.loaded.value, op.fetched.value)
        && report.Answered? && report.service == service && report.serviceType == serviceType
        && report.response.Some?
        && var l := op.loaded.value;
           UniqueNames(l.ts) ==>
             SaysMessage(l.ts, l.response, MessageAt(l.ts, l.response, op.fetched.value.value), report.response.value)
  {
    hide Reachable, OpInv;
    ReachableOp(p, s, id);
    var op := s.ops[id];
    SuccessFacts(p, s.shared.steady, op);
    DispatchIsGuarded(p, s, id);
    if op.plan.value.ServicePlan? {
      var l, j := op.loaded.value, op.pc.outcome.report.response.value;
      if UniqueNames(l.ts) {
        EncodesAs(l.ts, l.response, MessageAt(l.ts, l.response, op.fetched.value.value), j);
      }
    }
  }

  lemma SuccessFacts(p: Process, steady: nat, op: Op)
    requires OpInv(p, steady, op) && op.pc.Done? && op.pc.outcome.Success?
    ensures op.dispatches == 1 && op.pc.outcome.report == ReportOf(op.plan, op.subscribers, op.answer)
    ensures op.kind.Service? ==>
      && HasAnswer(op) && op.fetched == op.response && IsProjected(op.loaded, op.fetched, op.answer)
      && op.loaded.Some? && ValidResponse(op.loaded.value, op.fetched.value)
  {
    hide Guarded, Timed, Explained, IsProjected, ValidResponse, ReportOf;
  }
}
