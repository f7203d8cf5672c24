/** What runs say about operations without looking at what the operations record: the states in which
    they take their steps decide. */
module AdapterRuns {
  import opened Errors
  import opened FlatDecode
  import opened Wire
  import opened Requests
  import opened Adapter
  import opened AdapterSafety
  import opened AdapterTheorems

  // ---- Claims that every step keeps, unless it is excused ----

  /** `budget` bounds sleeps and reply polls; `since` is an earlier reading of the steady clock. */
  datatype Claim =
    | BeforeFlag                                       // nothing sent, and the flag not yet read
    | BeforeEarlyCancelPoll                            // a publish has loaded nothing before this poll
    | BeforeEarlyDeadlinePoll                          // nor before this one
    | NotReady                                         // a call has not met a ready service
    | BeforeCancelPoll                                 // nothing sent before the last cancellation poll
    | BeforeDeadlinePoll                               // nothing sent before the last deadline poll
    | FreshWait(since: nat)                            // the wait is measured from no earlier than this
    | FreshCall(since: nat)                            // and so is the call
    | NoneSeen                                         // no subscriber has been seen
    | NotCounted(n: nat)                               // no subscriber count to report has been this
    | CancelledSoon(budget: nat)                       // a cancelled operation hardly goes on
    | LateSoon(budget: nat)                            // nor does one past its deadline
    | MustCancel                                       // cancelled, and about to find out
    | MustExpire                                       // past its deadline, and about to find out
    | MustFetch                                        // its response is there, and about to be found
    | WaitIsOver(polls: nat)                           // it has seen whom it waits for, after so many sleeps

  predicate NotPast(op: Op, stage: nat) {
    op.dispatches == 0 && Stage(op.pc) <= stage
  }

  predicate IsUnavailable(pc: Pc) {
    pc == Done(Failure(Transient, ServiceUnavailable)) || pc == Done(Failure(Transient, SubscriberUnavailable))
  }

  /** How many more sleeps or reply polls a cancelled operation can come to. */
  function CancelSlack(pc: Pc): nat {
    if pc.WaitDeadline? || pc.WaitExpired? || pc.LastDeadline? || pc.Starting? || pc.Dispatching?
       || pc.AwaitingReply? || pc.ReplyTime? then 1 else 0
  }

  /** The same for one that only sees clocks at or past its deadline. */
  function LateSlack(pc: Pc): nat {
    if pc.WaitExpired? || pc.Starting? || pc.Dispatching? || pc.AwaitingReply? then 1 else 0
  }

  /** A cancelled operation at a poll for cancellation is over once it has polled. */
  predicate IsCancelling(op: Op) {
    match op.pc
    case EarlyCancel => op.kind.Publish? && op.dispatches == 0
    case WaitCancel => op.dispatches == 0
    case LastCancel => op.dispatches == 0
    case ReplyCancel => 0 < op.dispatches
    case RemovingCancelled => 0 < op.dispatches
    case Done(o) =>
      o == if 0 < op.dispatches then Failure(Uncertain, ServiceOutcomeUnknownAfterCancel)
           else Failure(Cancelled, if op.kind.Publish? then PublishCancelled else ServiceCallCancelled)
    case _ => false
  }

  /** So is a late one at a comparison with its deadline. */
  predicate IsExpiring(op: Op) {
    match op.pc
    case EarlyDeadline => op.dispatches == 0
    case WaitDeadline => op.dispatches == 0
    case LastDeadline => op.dispatches == 0
    case ReplyTime => 0 < op.dispatches
    case RemovingTimedOut => 0 < op.dispatches
    case Done(o) =>
      if 0 < op.dispatches then o == Failure(Uncertain, ServiceOutcomeUnknownAfterTimeout)
      else o.Failure? && o.cls == ErrorClass.Deadline
    case _ => false
  }

  /** And one whose response is there when it looks for it reads the response. */
  predicate IsFetching(op: Op) {
    && op.response.Some?
    && (op.pc.AwaitingReply? || IsFinishing(op.pc) || op.pc.Done?)
    && op.pc != Done(Failure(Uncertain, ServiceOutcomeUnknownAfterCancel))
    && op.pc != Done(Failure(Uncertain, ServiceOutcomeUnknownAfterTimeout))
  }

  /** It has seen its subscribers or its service, and sleeps no more. */
  predicate IsPastWait(op: Op, polls: nat) {
    && op.waitPolls == polls
    && (op.pc.Counting? || 4 <= Stage(op.pc) || (op.pc.Done? && op.pc != Done(Failure(Transient, ServiceUnavailable))))
  }

  predicate Holds(claim: Claim, steady: nat, op: Op) {
    match claim
    case BeforeFlag => NotPast(op, 0)
    case BeforeEarlyCancelPoll =>
      op.kind.Publish? ==> op.loaded.None? && (Stage(op.pc) <= 1 || op.pc.EarlyCancel?)
    case BeforeEarlyDeadlinePoll =>
      op.kind.Publish? ==> op.loaded.None? && (Stage(op.pc) <= 1 || op.pc.EarlyCancel? || op.pc.EarlyDeadline?)
    case NotReady => op.kind.Service? ==> NotPast(op, 3) && !op.pc.WaitClock? && !op.pc.Counting?
    case MustCancel => op.cancelRequested && IsCancelling(op)
    case MustExpire => IsExpiring(op)
    case MustFetch => IsFetching(op)
    case WaitIsOver(polls) => IsPastWait(op, polls)
    case BeforeCancelPoll => NotPast(op, 4)
    case BeforeDeadlinePoll => NotPast(op, 5)
    case FreshWait(since) =>
      && since <= steady
      && if op.message.None? then !IsUnavailable(op.pc) && Stage(op.pc) < 3
         else since <= op.waitStart && op.plan.Some?
    case FreshCall(since) =>
      && since <= steady
      && (op.dispatches > 0 || op.pc.Dispatching? ==> since <= op.callStarted || op.kind.Publish?)
      && (op.replyDeadlinePoll.Some? ==> op.replyDeadlinePoll.value < op.request.context.deadline)
    case NoneSeen =>
      && (op.pc.Counting? ==> op.waitStart + WaitNanos(op) <= steady)
      && (op.pc == Done(Failure(Transient, SubscriberUnavailable)) ==> op.waitStart + WaitNanos(op) <= steady)
    case NotCounted(n) => op.kind.Publish? && (0 < op.dispatches || 4 <= Stage(op.pc)) ==> op.subscribers != n
    case CancelledSoon(budget) => op.cancelRequested && op.waitPolls + op.replyPolls + CancelSlack(op.pc) <= budget
    case LateSoon(budget) => op.waitPolls + op.replyPolls + LateSlack(op.pc) <= budget
  }

  /** The one kind of step that may end a claim. */
  predicate Excuses(claim: Claim, sh: Shared, op: Op, ev: Event) {
    match claim
    case BeforeFlag => op.pc.Entered? && (if op.kind.Publish? then sh.flags.publish else sh.flags.service)
    case BeforeEarlyCancelPoll => op.pc.EarlyCancel? && !op.cancelRequested
    case BeforeEarlyDeadlinePoll => op.pc.EarlyDeadline? && sh.system < op.request.context.deadline
    case NotReady => op.pc.Waiting? && ev == Ready(true)
    case BeforeCancelPoll => op.pc.LastCancel? && !op.cancelRequested
    case BeforeDeadlinePoll => op.pc.LastDeadline? && sh.system < op.request.context.deadline
    case FreshCall(_) => op.pc.ReplyTime? && op.request.context.deadline <= sh.system
    case NoneSeen => op.pc.Waiting? && ev.Count? && 0 < ev.n
    case NotCounted(n) => op.pc.Counting? && ev == Count(n)
    case LateSoon(_) => sh.system < op.request.context.deadline
    case MustExpire => sh.system < op.request.context.deadline
    case _ => false
  }

  // ---- Every step keeps every claim it does not excuse ----

  predicate IsGate(claim: Claim) {
    claim.BeforeFlag? || claim.BeforeCancelPoll? || claim.BeforeDeadlinePoll?
  }

  /** Claims of operations that have come to a certain point. */
  predicate IsOfPoint(claim: Claim) {
    claim.MustCancel? || claim.MustExpire? || claim.MustFetch? || claim.WaitIsOver?
  }

  lemma AdmissionKeepsClaim(p: Process, sh: Shared, op: Op, ev: Event, claim: Claim)
    requires History(op) && Delivered(op) && CanStep(p.tick, sh, op, ev) && IsAdmission(op.pc)
    requires Holds(claim, sh.steady, op) && !Excuses(claim, sh, op, ev)
    ensures Holds(claim, sh.steady, StepAdmission(p.env, p.context, sh, op))
  {
    hide History, Delivered, Holds, Excuses, CanStep, StepAdmission;
    if op.pc.Entered? || op.pc.Admitted? {
      EntryKeepsClaim(p, sh, op, ev, claim);
    } else {
      EarlyPollKeepsClaim(p, sh, op, ev, claim);
    }
  }

  lemma EntryKeepsClaim(p: Process, sh: Shared, op: Op, ev: Event, claim: Claim)
    requires (op.pc.Entered? || op.pc.Admitted?) && CanStep(p.tick, sh, op, ev)
    requires Holds(claim, sh.steady, op) && !Excuses(claim, sh, op, ev)
    ensures Holds(claim, sh.steady, StepAdmission(p.env, p.context, sh, op))
  {
    hide Validate, ValidLoaded, ValidResponse, DecodeMessage, ProjectResponse, Unprojectable, IsMalformed,
      DecodingThrew, IsPrepared, FailsToProject, IsProjected, ReportOf, ResponseLimit, Truthful, Settled,
      CancelPoll, DeadlinePoll;
  }

  lemma EarlyPollKeepsClaim(p: Process, sh: Shared, op: Op, ev: Event, claim: Claim)
    requires (op.pc.EarlyCancel? || op.pc.EarlyDeadline?) && CanStep(p.tick, sh, op, ev)
    requires Holds(claim, sh.steady, op) && !Excuses(claim, sh, op, ev)
    ensures Holds(claim, sh.steady, StepAdmission(p.env, p.context, sh, op))
  {
    hide Validate, ValidLoaded, ValidResponse, DecodeMessage, ProjectResponse, Unprojectable, IsMalformed,
      DecodingThrew, IsPrepared, FailsToProject, IsProjected, ReportOf, ResponseLimit, Truthful, Settled;
  }

  /** Preparing ends the operation with a permanent or an untyped error, or begins its wait. */
  ghost predicate PreparesTo(steady: nat, op: Op, after: Op) {
    || (after == op.(pc := after.pc, loaded := after.loaded, initThrew := after.initThrew, raised := after.raised)
        && after.pc.Done? && after.pc.outcome.Failure?
        && (after.pc.outcome.cls.Permanent? || after.pc.outcome == Failure(Transient, InternalError)))
    || (after == op.(pc := Waiting, loaded := after.loaded, initThrew := after.initThrew,
                     message := after.message, waitStart := steady)
        && after.message.Some? && op.plan.Some?)
  }

  lemma PreparingLeads(p: Process, sh: Shared, op: Op, ev: Event)
    requires CanStep(p.tick, sh, op, ev) && op.pc.Preparing?
    ensures PreparesTo(sh.steady, op, StepPreparing(sh, op, ev))
  {
    hide ValidLoaded, DecodeMessage, IsMalformed, DecodingThrew, IsPrepared;
    if ev.Prepared? && op.plan.Some? {
      DecodeFailsTyped(ev.loaded, op.plan.value, ev.initThrows);
    }
  }

  lemma PreparedKeepsClaim(sh: Shared, op: Op, ev: Event, after: Op, claim: Claim)
    requires op.pc.Preparing? && PreparesTo(sh.steady, op, after)
    requires Holds(claim, sh.steady, op) && !Excuses(claim, sh, op, ev)
    ensures Holds(claim, sh.steady, after)
  {
    hide CallNanos;
  }

  lemma PreparingKeepsClaim(p: Process, sh: Shared, op: Op, ev: Event, claim: Claim)
    requires CanStep(p.tick, sh, op, ev) && op.pc.Preparing?
    requires Holds(claim, sh.steady, op) && !Excuses(claim, sh, op, ev)
    ensures Holds(claim, sh.steady, StepPreparing(sh, op, ev))
  {
    hide CanStep, StepPreparing, PreparesTo, Holds, Excuses;
    PreparingLeads(p, sh, op, ev);
    PreparedKeepsClaim(sh, op, ev, StepPreparing(sh, op, ev), claim);
  }

  lemma WaitingKeepsClaim(p: Process, sh: Shared, op: Op, ev: Event, claim: Claim)
    requires History(op) && Delivered(op) && CanStep(p.tick, sh, op, ev) && IsWaiting(op.pc)
    requires Holds(claim, sh.steady, op) && !Excuses(claim, sh, op, ev)
    ensures Holds(claim, sh.steady, StepWaiting(sh, op, ev))
  {
    hide History, Delivered, Holds, Excuses, CanStep, StepWaiting;
    if op.pc.Waiting? || op.pc.Counting? || op.pc.Sleeping? {
      LibraryCallKeepsClaim(p, sh, op, ev, claim);
    } else {
      WaitPollKeepsClaim(p, sh, op, ev, claim);
    }
  }

  lemma LibraryCallKeepsClaim(p: Process, sh: Shared, op: Op, ev: Event, claim: Claim)
    requires (op.pc.Waiting? || op.pc.Counting? || op.pc.Sleeping?) && CanStep(p.tick, sh, op, ev)
    requires Holds(claim, sh.steady, op) && !Excuses(claim, sh, op, ev)
    ensures Holds(claim, sh.steady, StepWaiting(sh, op, ev))
  {
    hide Validate, ValidLoaded, ValidResponse, DecodeMessage, ProjectResponse, Unprojectable, IsMalformed,
      DecodingThrew, IsPrepared, FailsToProject, IsProjected, ReportOf, ResponseLimit, Truthful, Settled,
      CancelPoll, DeadlinePoll;
  }

  lemma WaitPollKeepsClaim(p: Process, sh: Shared, op: Op, ev: Event, claim: Claim)
    requires op.pc.WaitClock? || op.pc.WaitCancel? || op.pc.WaitDeadline? || op.pc.WaitExpired?
    requires CanStep(p.tick, sh, op, ev)
    requires Holds(claim, sh.steady, op) && !Excuses(claim, sh, op, ev)
    ensures Holds(claim, sh.steady, StepWaiting(sh, op, ev))
  {
    hide Holds, Excuses, CanStep, StepWaiting;
    if op.pc.WaitClock? || op.pc.WaitCancel? {
      WaitCancelKeepsClaim(sh, op, ev, claim);
    } else if op.pc.WaitDeadline? {
      WaitDeadlineKeepsClaim(sh, op, ev, claim);
    } else {
      WaitLimitKeepsClaim(sh, op, ev, claim);
    }
  }

  lemma WaitCancelKeepsClaim(sh: Shared, op: Op, ev: Event, claim: Claim)
    requires (op.pc.WaitClock? || op.pc.WaitCancel?) && Holds(claim, sh.steady, op) && !Excuses(claim, sh, op, ev)
    ensures Holds(claim, sh.steady, StepWaiting(sh, op, ev))
  {
    hide DeadlinePoll;
  }

  /** Comparing with the deadline ends the operation or only goes on to the next program point. */
  ghost predicate WaitDeadlineLeads(sh: Shared, op: Op, after: Op) {
    if op.request.context.deadline <= sh.system then
      && after == op.(pc := after.pc, lastDeadlinePoll := after.lastDeadlinePoll)
      && after.pc.Done? && after.pc.outcome.Failure? && after.pc.outcome.cls == ErrorClass.Deadline
    else if op.kind.Publish? then
      after == op.(pc := Sleeping(sh.steady), lastDeadlinePoll := after.lastDeadlinePoll, waitPolls := op.waitPolls + 1)
    else after == op.(pc := WaitExpired, lastDeadlinePoll := after.lastDeadlinePoll)
  }

  lemma WaitDeadlineKeepsClaim(sh: Shared, op: Op, ev: Event, claim: Claim)
    requires op.pc.WaitDeadline? && Holds(claim, sh.steady, op) && !Excuses(claim, sh, op, ev)
    ensures Holds(claim, sh.steady, StepWaiting(sh, op, ev))
  {
    hide Holds, Excuses;
    assert WaitDeadlineLeads(sh, op, StepWaiting(sh, op, ev));
    hide StepWaiting, WaitDeadlineLeads;
    PastWaitDeadline(sh, op, ev, StepWaiting(sh, op, ev), claim);
  }

  lemma PastWaitDeadline(sh: Shared, op: Op, ev: Event, after: Op, claim: Claim)
    requires op.pc.WaitDeadline? && WaitDeadlineLeads(sh, op, after)
    requires Holds(claim, sh.steady, op) && !Excuses(claim, sh, op, ev)
    ensures Holds(claim, sh.steady, after)
  {
    hide CallNanos;
  }

  lemma WaitLimitKeepsClaim(sh: Shared, op: Op, ev: Event, claim: Claim)
    requires op.pc.WaitExpired? && Holds(claim, sh.steady, op) && !Excuses(claim, sh, op, ev)
    ensures Holds(claim, sh.steady, StepWaiting(sh, op, ev))
  {
    hide CancelPoll, DeadlinePoll, CallNanos, Raise;
  }

  lemma FinalPollKeepsClaim(p: Process, sh: Shared, op: Op, ev: Event, claim: Claim)
    requires History(op) && Delivered(op) && CanStep(p.tick, sh, op, ev) && IsFinalPoll(op.pc)
    requires Holds(claim, sh.steady, op) && !Excuses(claim, sh, op, ev)
    ensures Holds(claim, sh.steady, StepFinalPoll(sh, op))
  {
    hide History, Delivered, Holds, Excuses, CanStep, StepFinalPoll;
    if op.pc.LastCancel? {
      LastCancelKeepsClaim(sh, op, ev, claim);
    } else {
      LastDeadlineKeepsClaim(sh, op, ev, claim);
    }
  }

  lemma LastCancelKeepsClaim(sh: Shared, op: Op, ev: Event, claim: Claim)
    requires op.pc.LastCancel? && Holds(claim, sh.steady, op) && !Excuses(claim, sh, op, ev)
    ensures Holds(claim, sh.steady, StepFinalPoll(sh, op))
  {
    hide DeadlinePoll;
  }

  lemma LastDeadlineKeepsClaim(sh: Shared, op: Op, ev: Event, claim: Claim)
    requires (op.pc.LastDeadline? || op.pc.Starting?) && Holds(claim, sh.steady, op) && !Excuses(claim, sh, op, ev)
    ensures Holds(claim, sh.steady, StepFinalPoll(sh, op))
  {
    hide CancelPoll, WaitNanos;
  }

  lemma DispatchingKeepsClaim(p: Process, sh: Shared, op: Op, ev: Event, claim: Claim)
    requires History(op) && Delivered(op) && CanStep(p.tick, sh, op, ev) && op.pc.Dispatching?
    requires Holds(claim, sh.steady, op) && !Excuses(claim, sh, op, ev)
    ensures Holds(claim, sh.steady, StepDispatching(sh, op, ev))
  {
    hide Validate, ValidLoaded, ValidResponse, DecodeMessage, ProjectResponse, Unprojectable, IsMalformed,
      DecodingThrew, IsPrepared, FailsToProject, IsProjected, ReportOf, ResponseLimit, Truthful, Settled;
  }

  lemma ReplyingKeepsClaim(p: Process, sh: Shared, op: Op, ev: Event, claim: Claim)
    requires CanStep(p.tick, sh, op, ev) && IsReplying(op.pc)
    requires Holds(claim, sh.steady, op) && !Excuses(claim, sh, op, ev)
    ensures Holds(claim, sh.steady, StepReplying(sh, op))
  {
    hide Holds, Excuses, CanStep, StepReplying;
    if op.pc.RemovingCancelled? || op.pc.RemovingTimedOut? {
      RemovalKeepsClaim(sh, op, ev, claim);
    } else {
      ReplyPollKeepsClaim(sh, op, ev, claim);
    }
  }

  lemma RemovalKeepsClaim(sh: Shared, op: Op, ev: Event, claim: Claim)
    requires op.pc.RemovingCancelled? || op.pc.RemovingTimedOut?
    requires Holds(claim, sh.steady, op) && !Excuses(claim, sh, op, ev)
    ensures Holds(claim, sh.steady, StepReplying(sh, op))
  {
    hide CallNanos, WaitNanos;
  }

  lemma ReplyPollKeepsClaim(sh: Shared, op: Op, ev: Event, claim: Claim)
    requires op.pc.AwaitingReply? || op.pc.ReplyCancel? || op.pc.ReplyTime?
    requires Holds(claim, sh.steady, op) && !Excuses(claim, sh, op, ev)
    ensures Holds(claim, sh.steady, StepReplying(sh, op))
  {
    hide WaitNanos, RemovePending;
  }

  lemma FinishingKeepsClaim(p: Process, sh: Shared, op: Op, ev: Event, claim: Claim)
    requires History(op) && Delivered(op) && CanStep(p.tick, sh, op, ev) && IsFinishing(op.pc)
    requires Holds(claim, sh.steady, op) && !Excuses(claim, sh, op, ev)
    ensures Holds(claim, sh.steady, StepFinishing(p.env, op, ev))
  {
    hide History, Delivered, Holds, Excuses, CanStep, StepFinishing, ProjectionIsExact;
    if op.pc.Projecting? {
      ProjectionExact(op);
      ProjectingKeepsClaim(p, sh, op, ev, claim);
    } else {
      ReportingKeepsClaim(p, sh, op, ev, claim);
    }
  }

  lemma ProjectingKeepsClaim(p: Process, sh: Shared, op: Op, ev: Event, claim: Claim)
    requires op.pc.Projecting? && ProjectionIsExact(op)
    requires Holds(claim, sh.steady, op) && !Excuses(claim, sh, op, ev)
    ensures Holds(claim, sh.steady, StepFinishing(p.env, op, ev))
  {
    hide ProjectResponse, FailsToProject, IsProjected, Unprojectable, WaitNanos, ReportOf;
  }

  lemma ReportingKeepsClaim(p: Process, sh: Shared, op: Op, ev: Event, claim: Claim)
    requires (op.pc.Getting? || op.pc.Reporting?) && Holds(claim, sh.steady, op) && !Excuses(claim, sh, op, ev)
    ensures Holds(claim, sh.steady, StepFinishing(p.env, op, ev))
  {
    hide ProjectResponse, ReportOf, WaitNanos, ResponseLimit;
  }

  lemma StepKeepsClaim(p: Process, sh: Shared, op: Op, ev: Event, claim: Claim)
    requires OpInv(p, sh.steady, op) && CanStep(p.tick, sh, op, ev)
    requires Holds(claim, sh.steady, op) && !Excuses(claim, sh, op, ev)
    ensures Holds(claim, sh.steady, StepOp(p.env, p.context, sh, op, ev))
  {
    hide History, Delivered, Guarded, Timed, Explained, CanStep, Holds, Excuses, StepAdmission, StepPreparing,
      StepWaiting, StepFinalPoll, StepDispatching, StepReplying, StepFinishing;
    if IsAdmission(op.pc) {
      AdmissionKeepsClaim(p, sh, op, ev, claim);
    } else if op.pc.Preparing? {
      PreparingKeepsClaim(p, sh, op, ev, claim);
    } else if IsWaiting(op.pc) {
      WaitingKeepsClaim(p, sh, op, ev, claim);
    } else if IsFinalPoll(op.pc) {
      FinalPollKeepsClaim(p, sh, op, ev, claim);
    } else if op.pc.Dispatching? {
      DispatchingKeepsClaim(p, sh, op, ev, claim);
    } else if IsReplying(op.pc) {
      ReplyingKeepsClaim(p, sh, op, ev, claim);
    } else if IsFinishing(op.pc) {
      FinishingKeepsClaim(p, sh, op, ev, claim);
    }
  }

  // ---- Runs ----

  /** The claim holds of the operation, or of every operation that has not begun yet. */
  predicate HoldsIn(claim: Claim, s: State, id: nat) {
    if id in s.ops then Holds(claim, s.shared.steady, s.ops[id])
    else
      match claim
      case FreshWait(since) => since <= s.shared.steady
      case FreshCall(since) => since <= s.shared.steady
      case CancelledSoon(_) => false
      case _ => !IsOfPoint(claim)
  }

  /** Somewhere in the run the operation takes a step that excuses the claim. */
  ghost predicate RunExcuses(p: Process, s: State, run: seq<Action>, id: nat, claim: Claim)
    requires IsRun(p, s, run)
    decreases |run|
  {
    run != [] &&
      (|| (run[0].Step? && run[0].id == id && Excuses(claim, s.shared, s.ops[id], run[0].ev))
       || RunExcuses(p, Act(p, s, run[0]), run[1..], id, claim))
  }

  lemma NewOpKeepsClaim(claim: Claim, steady: nat, kind: Kind, request: OperationRequest)
    requires !claim.CancelledSoon? && !IsOfPoint(claim)
    requires claim.FreshWait? || claim.FreshCall? ==> claim.since <= steady
    ensures Holds(claim, steady, NewOp(kind, request))
  {
  }

  /** Nothing but its own steps changes what is claimed of an operation, except for the worse only a
      later clock and a cancellation. */
  lemma SameClaim(claim: Claim, steady: nat, later: nat, op: Op, after: Op)
    requires Holds(claim, steady, op) && steady <= later
    requires after == op || after == op.(cancelRequested := true)
      || after == op.(pending := after.pending, response := after.response, answered := after.answered)
    requires op.response.Some? ==> after.response.Some?
    ensures Holds(claim, later, after)
  {
  }

  lemma ActKeepsClaim(p: Process, s: State, a: Action, id: nat, claim: Claim)
    requires StateInv(p, s) && CanAct(p, s, a) && HoldsIn(claim, s, id)
    requires a.Step? && a.id == id ==> !Excuses(claim, s.shared, s.ops[id], a.ev)
    ensures HoldsIn(claim, Act(p, s, a), id)
  {
    hide OpInv, CanStep, StepOp, StepCallback, ValidResponse, Holds, Excuses;
    var after := Act(p, s, a);
    if id !in s.ops {
      if a.Begin? && a.id == id {
        NewOpKeepsClaim(claim, s.shared.steady, a.kind, a.request);
      }
    } else if a.Step? && a.id == id {
      StepKeepsClaim(p, s.shared, s.ops[id], a.ev, claim);
    } else {
      SameClaim(claim, s.shared.steady, after.shared.steady, s.ops[id], after.ops[id]);
    }
  }

  /** A claim holds to the end of every run that has no excuse for it. */
  lemma {:induction false} RunKeepsClaim(p: Process, s: State, run: seq<Action>, id: nat, claim: Claim)
    requires StateInv(p, s) && IsRun(p, s, run) && HoldsIn(claim, s, id)
    requires !RunExcuses(p, s, run, id, claim)
    ensures HoldsIn(claim, After(p, s, run), id)
    decreases |run|
  {
    hide CanAct, Act, HoldsIn, StateInv, Excuses;
    if run != [] {
      ActKeepsClaim(p, s, run[0], id, claim);
      ActKeeps(p, s, run[0]);
      RunKeepsClaim(p, Act(p, s, run[0]), run[1..], id, claim);
    }
  }

  lemma ReachesInvariant(p: Process, s: State)
    requires Reachable(p, s)
    ensures StateInv(p, s)
  {
    forall id | id in s.ops ensures OpInv(p, s.shared.steady, s.ops[id]) {
      ReachableOp(p, s, id);
    }
  }

  lemma {:induction false} OpsStay(p: Process, s: State, run: seq<Action>, id: nat)
    requires IsRun(p, s, run) && id in s.ops
    ensures id in After(p, s, run).ops
    decreases |run|
  {
    hide StepOp, StepCallback, CanStep, ValidResponse;
    if run != [] {
      OpsStay(p, Act(p, s, run[0]), run[1..], id);
    }
  }

  // ---- What every dispatch has passed ----

  /** Whatever the run, an operation that dispatched took a step at which it found its flag set, a
      step past the last poll at which it was not cancelled, and one at which the system clock had
      not reached its deadline. */
  lemma DispatchPassesPolls(p: Process, steady: nat, system: int, run: seq<Action>, id: nat)
    requires IsRun(p, Initial(steady, system), run)
    requires id in After(p, Initial(steady, system), run).ops
    requires 1 <= After(p, Initial(steady, system), run).ops[id].dispatches
    ensures RunExcuses(p, Initial(steady, system), run, id, BeforeFlag)
    ensures RunExcuses(p, Initial(steady, system), run, id, BeforeCancelPoll)
    ensures RunExcuses(p, Initial(steady, system), run, id, BeforeDeadlinePoll)
  {
    hide IsRun, After, RunExcuses;
    var s := Initial(steady, system);
    forall claim | IsGate(claim) ensures RunExcuses(p, s, run, id, claim) {
      if !RunExcuses(p, s, run, id, claim) {
        RunKeepsClaim(p, s, run, id, claim);
      }
    }
    assert IsGate(BeforeFlag) && IsGate(BeforeCancelPoll) && IsGate(BeforeDeadlinePoll);
  }

  /** A publish that has loaded its message type took a step past its first poll at which it was not
      cancelled, and one at which the system clock had not reached its deadline. */
  lemma LoadingPassesPolls(p: Process, steady: nat, system: int, run: seq<Action>, id: nat)
    requires IsRun(p, Initial(steady, system), run)
    requires id in After(p, Initial(steady, system), run).ops
    requires var op := After(p, Initial(steady, system), run).ops[id]; op.kind.Publish? && op.loaded.Some?
    ensures RunExcuses(p, Initial(steady, system), run, id, BeforeEarlyCancelPoll)
    ensures RunExcuses(p, Initial(steady, system), run, id, BeforeEarlyDeadlinePoll)
  {
    hide IsRun, After, RunExcuses;
    var s := Initial(steady, system);
    if !RunExcuses(p, s, run, id, BeforeEarlyCancelPoll) {
      RunKeepsClaim(p, s, run, id, BeforeEarlyCancelPoll);
    }
    if !RunExcuses(p, s, run, id, BeforeEarlyDeadlinePoll) {
      RunKeepsClaim(p, s, run, id, BeforeEarlyDeadlinePoll);
    }
  }

  /** A call that was sent met a ready service when it last looked. */
  lemma CallsMeetTheService(p: Process, steady: nat, system: int, run: seq<Action>, id: nat)
    requires IsRun(p, Initial(steady, system), run)
    requires id in After(p, Initial(steady, system), run).ops
    requires var op := After(p, Initial(steady, system), run).ops[id]; op.kind.Service? && 1 <= op.dispatches
    ensures RunExcuses(p, Initial(steady, system), run, id, NotReady)
  {
    hide IsRun, After, RunExcuses;
    var s := Initial(steady, system);
    if !RunExcuses(p, s, run, id, NotReady) {
      RunKeepsClaim(p, s, run, id, NotReady);
    }
  }

  lemma {:induction false} CancelledNeverPasses(p: Process, s: State, run: seq<Action>, id: nat)
    requires IsRun(p, s, run) && id in s.ops && s.ops[id].cancelRequested
    ensures !RunExcuses(p, s, run, id, BeforeCancelPoll)
    decreases |run|
  {
    hide StepOp, StepCallback, CanStep, ValidResponse;
    if run != [] {
      StepKeepsCancel(p, s, run[0], id);
      CancelledNeverPasses(p, Act(p, s, run[0]), run[1..], id);
    }
  }

  lemma StepKeepsCancel(p: Process, s: State, a: Action, id: nat)
    requires CanAct(p, s, a) && id in s.ops && s.ops[id].cancelRequested
    ensures id in Act(p, s, a).ops && Act(p, s, a).ops[id].cancelRequested
  {
    hide CanStep, StepCallback, ValidResponse, Validate, DecodeMessage, ProjectResponse, ReportOf, ValidLoaded,
      WaitNanos, CallNanos, FailureOf, ResponseLimit;
  }

  /** An operation that is cancelled before its last poll never dispatches. */
  lemma CancelledNeverDispatches(p: Process, s: State, run: seq<Action>, id: nat)
    requires Reachable(p, s) && IsRun(p, s, run) && id in s.ops
    requires s.ops[id].cancelRequested && s.ops[id].dispatches == 0 && Stage(s.ops[id].pc) <= 4
    ensures id in After(p, s, run).ops && After(p, s, run).ops[id].dispatches == 0
  {
    hide IsRun, After, RunExcuses, Reachable, StateInv;
    ReachesInvariant(p, s);
    OpsStay(p, s, run, id);
    CancelledNeverPasses(p, s, run, id);
    RunKeepsClaim(p, s, run, id, BeforeCancelPoll);
  }

  /** The operation only ever takes steps at clocks at or past its deadline. */
  ghost predicate SeesOnlyLateClocks(p: Process, s: State, run: seq<Action>, id: nat)
    requires IsRun(p, s, run)
  {
    !RunExcuses(p, s, run, id, LateSoon(0))
  }

  lemma {:induction false} LateNeverExcuses(p: Process, s: State, run: seq<Action>, id: nat, claim: Claim)
    requires IsRun(p, s, run) && SeesOnlyLateClocks(p, s, run, id)
    requires claim.BeforeDeadlinePoll? || claim.LateSoon? || claim.MustExpire?
    ensures !RunExcuses(p, s, run, id, claim)
    decreases |run|
  {
    hide StepOp, StepCallback, CanStep, ValidResponse;
    if run != [] {
      LateNeverExcuses(p, Act(p, s, run[0]), run[1..], id, claim);
    }
  }

  /** An operation that has not made its last deadline poll and sees no clock before its deadline any
      more never dispatches. */
  lemma LateNeverDispatches(p: Process, s: State, run: seq<Action>, id: nat)
    requires Reachable(p, s) && IsRun(p, s, run) && id in s.ops
    requires s.ops[id].dispatches == 0 && Stage(s.ops[id].pc) <= 5 && SeesOnlyLateClocks(p, s, run, id)
    ensures id in After(p, s, run).ops && After(p, s, run).ops[id].dispatches == 0
  {
    hide IsRun, After, RunExcuses, SeesOnlyLateClocks, Reachable, StateInv;
    ReachesInvariant(p, s);
    OpsStay(p, s, run, id);
    LateNeverExcuses(p, s, run, id, BeforeDeadlinePoll);
    RunKeepsClaim(p, s, run, id, BeforeDeadlinePoll);
  }

  // ---- Cancellation and deadlines are met promptly ----

  function Rounds(op: Op): nat {
    op.waitPolls + op.replyPolls
  }

  /** Once cancelled, an operation sleeps or polls for its reply once more at most. */
  lemma CancelIsPrompt(p: Process, s: State, run: seq<Action>, id: nat)
    requires Reachable(p, s) && IsRun(p, s, run) && id in s.ops && s.ops[id].cancelRequested
    ensures id in After(p, s, run).ops && Rounds(After(p, s, run).ops[id]) <= Rounds(s.ops[id]) + 1
  {
    hide IsRun, After, Reachable, RunExcuses, StateInv, Holds, Rounds;
    ReachesInvariant(p, s);
    OpsStay(p, s, run, id);
    var claim := CancelledSoon(Rounds(s.ops[id]) + 1);
    NoExcuse(p, s, run, id, claim);
    OneMoreRound(s.shared.steady, s.ops[id]);
    RunKeepsClaim(p, s, run, id, claim);
    WithinBudget(claim, After(p, s, run).shared.steady, After(p, s, run).ops[id]);
  }

  lemma OneMoreRound(steady: nat, op: Op)
    ensures op.cancelRequested ==> Holds(CancelledSoon(Rounds(op) + 1), steady, op)
    ensures Holds(LateSoon(Rounds(op) + 1), steady, op)
  {
  }

  lemma WithinBudget(claim: Claim, steady: nat, op: Op)
    requires (claim.CancelledSoon? || claim.LateSoon?) && Holds(claim, steady, op)
    ensures Rounds(op) <= claim.budget
  {
  }

  lemma {:induction false} NoExcuse(p: Process, s: State, run: seq<Action>, id: nat, claim: Claim)
    requires IsRun(p, s, run)
    requires claim.CancelledSoon? || claim.FreshWait? || claim.MustCancel? || claim.MustFetch? || claim.WaitIsOver?
    ensures !RunExcuses(p, s, run, id, claim)
    decreases |run|
  {
    hide StepOp, StepCallback, CanStep, ValidResponse;
    if run != [] {
      NoExcuse(p, Act(p, s, run[0]), run[1..], id, claim);
    }
  }

  /** Once it only sees clocks at or past its deadline, likewise. */
  lemma LateIsPrompt(p: Process, s: State, run: seq<Action>, id: nat)
    requires Reachable(p, s) && IsRun(p, s, run) && id in s.ops && SeesOnlyLateClocks(p, s, run, id)
    ensures id in After(p, s, run).ops && Rounds(After(p, s, run).ops[id]) <= Rounds(s.ops[id]) + 1
  {
    hide IsRun, After, Reachable, RunExcuses, SeesOnlyLateClocks, StateInv, Holds, Rounds;
    ReachesInvariant(p, s);
    OpsStay(p, s, run, id);
    var claim := LateSoon(Rounds(s.ops[id]) + 1);
    LateNeverExcuses(p, s, run, id, claim);
    OneMoreRound(s.shared.steady, s.ops[id]);
    RunKeepsClaim(p, s, run, id, claim);
    WithinBudget(claim, After(p, s, run).shared.steady, After(p, s, run).ops[id]);
  }

  // ---- Every poll is heeded ----

  /** An operation that polls for cancellation while cancelled takes no other course: before dispatch
      it ends as cancelled, after dispatch as one whose outcome is unknown after its cancellation. */
  lemma CancelIsHeeded(p: Process, s: State, run: seq<Action>, id: nat)
    requires Reachable(p, s) && IsRun(p, s, run) && id in s.ops && s.ops[id].cancelRequested
    requires var pc := s.ops[id].pc; pc.EarlyCancel? || pc.WaitCancel? || pc.LastCancel? || pc.ReplyCancel?
    ensures id in After(p, s, run).ops && IsCancelling(After(p, s, run).ops[id])
  {
    hide IsRun, After, Reachable, RunExcuses, StateInv, OpInv;
    ReachesInvariant(p, s);
    OpsStay(p, s, run, id);
    InvariantAt(p, s, id);
    SentAtPoll(p, s.shared.steady, s.ops[id]);
    NoExcuse(p, s, run, id, MustCancel);
    RunKeepsClaim(p, s, run, id, MustCancel);
  }

  /** Likewise one that compares the system clock with its deadline and only sees clocks at or past it. */
  lemma DeadlineIsHeeded(p: Process, s: State, run: seq<Action>, id: nat)
    requires Reachable(p, s) && IsRun(p, s, run) && id in s.ops && SeesOnlyLateClocks(p, s, run, id)
    requires var pc := s.ops[id].pc; pc.EarlyDeadline? || pc.WaitDeadline? || pc.LastDeadline? || pc.ReplyTime?
    ensures id in After(p, s, run).ops && IsExpiring(After(p, s, run).ops[id])
  {
    hide IsRun, After, Reachable, RunExcuses, SeesOnlyLateClocks, StateInv, OpInv;
    ReachesInvariant(p, s);
    OpsStay(p, s, run, id);
    InvariantAt(p, s, id);
    SentAtPoll(p, s.shared.steady, s.ops[id]);
    LateNeverExcuses(p, s, run, id, MustExpire);
    RunKeepsClaim(p, s, run, id, MustExpire);
  }

  /** A response that is there when the call looks for it is read, however late or cancelled the call. */
  lemma AnswersAreFetched(p: Process, s: State, run: seq<Action>, id: nat)
    requires Reachable(p, s) && IsRun(p, s, run) && id in s.ops
    requires s.ops[id].pc.AwaitingReply? && s.ops[id].response.Some?
    ensures id in After(p, s, run).ops && IsFetching(After(p, s, run).ops[id])
  {
    hide IsRun, After, Reachable, RunExcuses, StateInv;
    ReachesInvariant(p, s);
    OpsStay(p, s, run, id);
    NoExcuse(p, s, run, id, MustFetch);
    RunKeepsClaim(p, s, run, id, MustFetch);
  }

  /** A publish that reads a count above zero, and a call that finds its service ready, wait no longer. */
  lemma SeenEndsTheWait(p: Process, s: State, run: seq<Action>, id: nat)
    requires Reachable(p, s) && IsRun(p, s, run) && run != [] && id in s.ops && s.ops[id].pc.Waiting?
    requires run[0] == Step(id, Ready(true)) || (run[0].Step? && run[0].id == id && run[0].ev.Count? && 0 < run[0].ev.n)
    ensures id in After(p, s, run).ops && IsPastWait(After(p, s, run).ops[id], s.ops[id].waitPolls)
  {
    hide Reachable, RunExcuses, StateInv, OpInv, Holds, Excuses;
    ReachesInvariant(p, s);
    ActKeeps(p, s, run[0]);
    var next, claim := Act(p, s, run[0]), WaitIsOver(s.ops[id].waitPolls);
    SeenIsPastWait(p, s.shared, s.ops[id], run[0].ev);
    OpsStay(p, next, run[1..], id);
    NoExcuse(p, next, run[1..], id, claim);
    RunKeepsClaim(p, next, run[1..], id, claim);
    PastWait(claim, After(p, s, run).shared.steady, After(p, s, run).ops[id]);
  }

  lemma SeenIsPastWait(p: Process, sh: Shared, op: Op, ev: Event)
    requires CanStep(p.tick, sh, op, ev) && op.pc.Waiting? && (ev == Ready(true) || (ev.Count? && 0 < ev.n))
    ensures Holds(WaitIsOver(op.waitPolls), sh.steady, StepOp(p.env, p.context, sh, op, ev))
  {
  }

  lemma PastWait(claim: Claim, steady: nat, op: Op)
    requires claim.WaitIsOver? && Holds(claim, steady, op)
    ensures IsPastWait(op, claim.polls)
  {
  }

  lemma InvariantAt(p: Process, s: State, id: nat)
    requires StateInv(p, s) && id in s.ops
    ensures OpInv(p, s.shared.steady, s.ops[id])
  {
  }

  lemma SentAtPoll(p: Process, steady: nat, op: Op)
    requires OpInv(p, steady, op)
    ensures op.pc.EarlyCancel? || op.pc.EarlyDeadline? || IsWaiting(op.pc) || IsFinalPoll(op.pc) ==> op.dispatches == 0
    ensures IsReplying(op.pc) ==> op.dispatches == 1
    ensures op.pc.EarlyCancel? ==> op.kind.Publish?
  {
    hide Delivered, Guarded, Timed, HasCause;
  }

  // ---- Waits and calls are given their time ----

  /** The operation has not begun, or has decoded nothing yet and is not over. */
  predicate IsYetToWait(s: State, id: nat) {
    id in s.ops ==> !s.ops[id].pc.Done? && Stage(s.ops[id].pc) < 3 && s.ops[id].message.None?
  }

  /** The operation has not begun, or has sent nothing yet and is not over. */
  predicate IsYetToSend(s: State, id: nat) {
    id in s.ops ==> !s.ops[id].pc.Done? && Stage(s.ops[id].pc) <= 5
  }

  /** A service is reported unavailable, and a subscriber likewise unless one was seen and lost, no
      sooner than the whole wait after any moment before the wait began. */
  lemma WaitsAreServed(p: Process, s: State, run: seq<Action>, id: nat)
    requires Reachable(p, s) && IsRun(p, s, run) && IsYetToWait(s, id) && id in After(p, s, run).ops
    ensures var later := After(p, s, run);
      var op := later.ops[id];
      && (op.pc == Done(Failure(Transient, ServiceUnavailable)) ==>
            op.plan.Some? && s.shared.steady + op.plan.value.waitMs * 1000000 <= later.shared.steady)
      && (op.pc == Done(Failure(Transient, SubscriberUnavailable)) ==>
            || RunExcuses(p, s, run, id, NoneSeen)
            || (op.plan.Some? && s.shared.steady + op.plan.value.waitMs * 1000000 <= later.shared.steady))
  {
    hide IsRun, After, Reachable, RunExcuses, OpInv, StateInv;
    var later, claim := After(p, s, run), FreshWait(s.shared.steady);
    ReachesInvariant(p, s);
    NoExcuse(p, s, run, id, claim);
    RunKeepsClaim(p, s, run, id, claim);
    RunKeeps(p, s, run);
    if later.ops[id].pc.Done? {
      OutcomeIsExplained(p, later, id);
      if !RunExcuses(p, s, run, id, NoneSeen) {
        RunKeepsClaim(p, s, run, id, NoneSeen);
      }
    }
  }

  lemma OutcomeIsExplained(p: Process, s: State, id: nat)
    requires StateInv(p, s) && id in s.ops && s.ops[id].pc.Done?
    ensures HasCause(p, s.shared.steady, s.ops[id], s.ops[id].pc.outcome)
  {
    hide Recorded, Guarded, Timed;
  }

  /** A call is given up for its timeout no sooner than the whole timeout after any moment before it
      was sent, unless a poll for the reply found the work's own deadline passed. */
  lemma CallsAreServed(p: Process, s: State, run: seq<Action>, id: nat)
    requires Reachable(p, s) && IsRun(p, s, run) && IsYetToSend(s, id) && id in After(p, s, run).ops
    ensures var later := After(p, s, run);
      var op := later.ops[id];
      op.pc == Done(Failure(Uncertain, ServiceOutcomeUnknownAfterTimeout)) ==>
        || RunExcuses(p, s, run, id, FreshCall(s.shared.steady))
        || (op.plan.Some? && op.plan.value.ServicePlan?
            && s.shared.steady + op.plan.value.callMs * 1000000 <= later.shared.steady)
  {
    hide IsRun, After, Reachable, RunExcuses, OpInv;
    var later, claim := After(p, s, run), FreshCall(s.shared.steady);
    ReachesInvariant(p, s);
    if id in s.ops {
      NothingPolled(p, s.shared.steady, s.ops[id]);
    }
    RunKeeps(p, s, run);
    if !RunExcuses(p, s, run, id, claim)
       && later.ops[id].pc == Done(Failure(Uncertain, ServiceOutcomeUnknownAfterTimeout)) {
      RunKeepsClaim(p, s, run, id, claim);
      OutcomeIsExplained(p, later, id);
      TimedOutHasPlan(p, later.shared.steady, later.ops[id]);
    }
  }

  lemma NothingPolled(p: Process, steady: nat, op: Op)
    requires OpInv(p, steady, op) && !op.pc.Done? && Stage(op.pc) <= 5
    ensures op.dispatches == 0 && op.replyDeadlinePoll.None?
  {
    hide Delivered, Guarded, Timed, Explained;
  }

  lemma TimedOutHasPlan(p: Process, steady: nat, op: Op)
    requires OpInv(p, steady, op) && op.pc == Done(Failure(Uncertain, ServiceOutcomeUnknownAfterTimeout))
    ensures op.dispatches == 1 && op.kind.Service?
    ensures op.plan.Some? && op.plan.value.ServicePlan?
  {
    hide Delivered, Timed, IsPrepared, IsRefused, IsMalformed, FailsToProject, DecodingThrew, Unprojectable,
      ValidatePublish, ValidateService;
  }

  /** A successful publish reports the subscriber count it read before the last polls. */
  lemma ReportedCountWasRead(p: Process, steady: nat, system: int, run: seq<Action>, id: nat)
    requires IsRun(p, Initial(steady, system), run)
    requires id in After(p, Initial(steady, system), run).ops
    ensures var op := After(p, Initial(steady, system), run).ops[id];
      op.kind.Publish? && op.pc.Done? && op.pc.outcome.Success? ==>
        && op.pc.outcome.report.Published?
        && RunExcuses(p, Initial(steady, system), run, id, NotCounted(op.pc.outcome.report.subscribers))
  {
    hide IsRun, After, RunExcuses, OpInv;
    var s := Initial(steady, system);
    var op := After(p, s, run).ops[id];
    RunKeeps(p, s, run);
    if op.kind.Publish? && op.pc.Done? && op.pc.outcome.Success? {
      PublishReports(p, After(p, s, run).shared.steady, op);
      if !RunExcuses(p, s, run, id, NotCounted(op.subscribers)) {
        RunKeepsClaim(p, s, run, id, NotCounted(op.subscribers));
      }
    }
  }

  lemma PublishReports(p: Process, steady: nat, op: Op)
    requires OpInv(p, steady, op) && op.kind.Publish? && op.pc.Done? && op.pc.outcome.Success?
    ensures op.dispatches == 1
    ensures op.pc.outcome.report.Published? && op.pc.outcome.report.subscribers == op.subscribers
  {
    hide Delivered, Timed, Explained, IsPrepared, ValidatePublish, ValidateService;
  }
}
