/** The promises about operations, for every run of the system. */
module AdapterTheorems {
  import opened Errors
  import opened Descriptors
  import opened TreeSemantics
  import opened FlatDecode
  import opened CodecTheorems
  import opened Projection
  import opened Wire
  import opened Requests
  import opened Adapter
  import opened AdapterSafety

  ghost predicate StateInv(p: Process, s: State) {
    forall id :: id in s.ops ==> OpInv(p, s.shared.steady, s.ops[id])
  }

  // ---- Steps of the environment ----

  lemma NewOpHolds(p: Process, steady: nat, kind: Kind, request: OperationRequest)
    ensures OpInv(p, steady, NewOp(kind, request))
  {
  }

  lemma CancelKeeps(p: Process, steady: nat, op: Op)
    requires OpInv(p, steady, op)
    ensures OpInv(p, steady, op.(cancelRequested := true))
  {
    hide Recorded, Guarded, Timed;
    CancelRecords(p, steady, op);
    CancelBounds(p, steady, op);
  }

  lemma CancelRecords(p: Process, steady: nat, op: Op)
    requires OpInv(p, steady, op)
    ensures Recorded(op.(cancelRequested := true))
  {
    hide ValidLoaded, ValidResponse, ProjectResponse, Guarded, Timed;
  }

  lemma CancelBounds(p: Process, steady: nat, op: Op)
    requires OpInv(p, steady, op)
    ensures Guarded(p.env, p.context, op.(cancelRequested := true))
    ensures Timed(p.tick, steady, op.(cancelRequested := true))
    ensures Explained(p, steady, op.(cancelRequested := true))
  {
    hide Validate, IsPrepared, Stride, Recorded;
  }

  lemma TickKeeps(p: Process, steady: nat, later: nat, op: Op)
    requires OpInv(p, steady, op) && steady <= later
    ensures OpInv(p, later, op)
  {
    hide Validate, ValidLoaded, ValidResponse, IsPrepared, Stride, History, Delivered, Guarded, ResponseLimit;
  }

  /** A response can only arrive for a request that is in flight. */
  lemma ResponseKeeps(p: Process, steady: nat, op: Op, requestId: nat, response: Response)
    requires OpInv(p, steady, op) && requestId in op.pending
    requires op.loaded.Some? && ValidResponse(op.loaded.value, response)
    ensures OpInv(p, steady, DeliverResponse(op, requestId, response))
  {
    hide Validate, ValidLoaded, ValidResponse, IsPrepared, Stride;
  }

  lemma {:induction false} ActKeeps(p: Process, s: State, a: Action)
    requires StateInv(p, s) && CanAct(p, s, a)
    ensures StateInv(p, Act(p, s, a))
  {
    hide OpInv, CanStep, StepOp, StepCallback, ValidResponse;
    var s' := Act(p, s, a);
    forall id | id in s'.ops ensures OpInv(p, s'.shared.steady, s'.ops[id]) {
      match a
      case Begin(id', kind, request) => NewOpHolds(p, s.shared.steady, kind, request);
      case Step(id', ev) =>
        if id' == id {
          StepKeeps(p, s.shared, s.ops[id], ev);
        }
      case RequestCancel(id') =>
        if id' == id {
          CancelKeeps(p, s.shared.steady, s.ops[id]);
        }
      case Respond(id', requestId, response) =>
        if id' == id {
          ResponseKeeps(p, s.shared.steady, s.ops[id], requestId, response);
        }
      case Tick(elapsed) => TickKeeps(p, s.shared.steady, s'.shared.steady, s.ops[id]);
      case SetSystemClock(_) =>
      case BeginCallback(_, _) =>
      case StepThread(_) =>
    }
  }

  lemma {:induction false} RunKeeps(p: Process, s: State, run: seq<Action>)
    requires StateInv(p, s) && IsRun(p, s, run)
    ensures StateInv(p, After(p, s, run))
    decreases |run|
  {
    if run != [] {
      ActKeeps(p, s, run[0]);
      RunKeeps(p, Act(p, s, run[0]), run[1..]);
    }
  }

  /** A state some run from a freshly constructed process leads to. */
  ghost predicate Reachable(p: Process, s: State) {
    exists steady: nat, system: int, run: seq<Action> ::
      IsRun(p, Initial(steady, system), run) && After(p, Initial(steady, system), run) == s
  }

  /** In every reachable state, every operation, wherever it is, satisfies the invariant. */
  lemma ReachableOp(p: Process, s: State, id: nat)
    requires Reachable(p, s) && id in s.ops
    ensures OpInv(p, s.shared.steady, s.ops[id])
  {
    var steady: nat, system: int, run: seq<Action> :|
      IsRun(p, Initial(steady, system), run) && After(p, Initial(steady, system), run) == s;
    RunKeeps(p, Initial(steady, system), run);
  }

  // ---- Outcomes ----

  /** Whatever the interleaving with cancellation, timeouts, readiness and lifecycle callbacks, the
      reported class tells whether the side effect may have happened. */
  lemma OutcomeTellsTheTruth(p: Process, s: State, id: nat)
    requires Reachable(p, s) && id in s.ops && s.ops[id].pc.Done?
    ensures Truthful(s.ops[id], s.ops[id].pc.outcome)
  {
    ReachableOp(p, s, id);
  }

  /** An outcome names what happened: a cancelled operation had been asked to stop, one past its
      deadline had read a clock at or past it, an unavailable service had been waited for in full,
      a result that is too large exceeds the limit, and a success is within it. */
  lemma OutcomeHasItsCause(p: Process, s: State, id: nat)
    requires Reachable(p, s) && id in s.ops && s.ops[id].pc.Done?
    ensures HasCause(p, s.shared.steady, s.ops[id], s.ops[id].pc.outcome)
  {
    ReachableOp(p, s, id);
  }

  /** A publish was dispatched exactly when it reports success or uncertain. */
  lemma PublishOutcomeExactly(p: Process, s: State, id: nat)
    requires Reachable(p, s) && id in s.ops && s.ops[id].pc.Done? && s.ops[id].kind.Publish?
    ensures var o := s.ops[id].pc.outcome;
      s.ops[id].dispatches == 1 <==> o.Success? || o.cls == Uncertain
  {
    ReachableOp(p, s, id);
  }

  /** A call reports success or uncertain if and only if it was dispatched, no library call threw
      while the request was handed over or the answer fetched, and the answer fetched, if any, holds
      nothing JSON cannot carry.  Otherwise a dispatched call reads as transient or permanent
      although the service may have acted. */
  lemma ServiceOutcomeExactly(p: Process, s: State, id: nat)
    requires Reachable(p, s) && id in s.ops && s.ops[id].pc.Done? && s.ops[id].kind.Service?
    ensures var op, o := s.ops[id], s.ops[id].pc.outcome;
      var stuck := Unprojectable(op.loaded, op.fetched);
      && (o.Success? || o.cls == Uncertain <==> op.dispatches == 1 && op.raised.None? && !stuck)
      && (op.dispatches == 1 && op.raised.Some? ==> o == Failure(Transient, InternalError))
      && (op.dispatches == 1 && op.raised.None? ==> (stuck <==> o.Failure? && o.cls == Permanent))
      && (o.Success? ==> HasAnswer(op) && !stuck)
  {
    ReachableOp(p, s, id);
  }

  /** If the response type contains no wide string, no long double and no incomplete member, which
      can be looked up before the call, no dispatched call reads as permanent: it reports success or
      uncertain exactly when no library call threw. */
  lemma PlainResponsesNeverReadPermanent(p: Process, s: State, id: nat)
    requires Reachable(p, s) && id in s.ops && s.ops[id].pc.Done? && s.ops[id].kind.Service?
    requires s.ops[id].dispatches == 1
    ensures s.ops[id].loaded.Some?
    ensures var op, l, o := s.ops[id], s.ops[id].loaded.value, s.ops[id].pc.outcome;
      AlwaysProjects(l.ts, l.response) ==>
        && !(o.Failure? && o.cls == Permanent)
        && (o.Success? || o.cls == Uncertain <==> op.raised.None?)
  {
    ServiceOutcomeExactly(p, s, id);
    DispatchIsGuarded(p, s, id);
    var op := s.ops[id];
    if Unprojectable(op.loaded, op.fetched) && AlwaysProjects(op.loaded.value.ts, op.loaded.value.response) {
      var l := op.loaded.value;
      PlainMessageProjects(l.ts, l.response, MessageAt(l.ts, l.response, op.fetched.value.value));
    }
  }

  /** Nothing an operation that is over reports or owns differs between the two. */
  predicate SameEnd(now: Op, later: Op) {
    && later.pc == now.pc && later.dispatches == now.dispatches
    && later.pending == now.pending == {}
    && later.answered == now.answered && later.removed == now.removed
  }

  lemma ActKeepsEnd(p: Process, s: State, a: Action, id: nat)
    requires CanAct(p, s, a) && id in s.ops && s.ops[id].pc.Done? && s.ops[id].pending == {}
    ensures id in Act(p, s, a).ops && SameEnd(s.ops[id], Act(p, s, a).ops[id])
  {
    hide StepOp, StepCallback, ValidResponse;
  }

  /** An operation that is over stays over: same outcome, same dispatch count, empty table. */
  lemma {:induction false} OutcomeIsFinal(p: Process, s: State, run: seq<Action>, id: nat)
    requires IsRun(p, s, run) && id in s.ops && s.ops[id].pc.Done? && s.ops[id].pending == {}
    ensures id in After(p, s, run).ops && SameEnd(s.ops[id], After(p, s, run).ops[id])
    decreases |run|
  {
    hide CanAct, Act;
    if run != [] {
      ActKeepsEnd(p, s, run[0], id);
      OutcomeIsFinal(p, Act(p, s, run[0]), run[1..], id);
    }
  }

  // ---- Pending requests ----

  /** When a call is over its client's table is empty, and the request it sent was either answered
      or removed: once, by one of the two, even when the response races with the timeout. */
  lemma PendingConserved(p: Process, s: State, id: nat)
    requires Reachable(p, s) && id in s.ops
    ensures var op := s.ops[id];
      && op.answered + op.removed <= 1
      && (op.requestId.Some? ==> op.answered + op.removed + |op.pending| == 1)
      && (op.requestId.None? ==> op.pending == {})
      && (op.pc.Done? ==> op.pending == {})
      && (op.requestId.Some? && op.pc.Done? ==> op.answered + op.removed == 1)
  {
    hide Delivered, Guarded, Timed, Truthful;
    ReachableOp(p, s, id);
  }

  // ---- Dispatch ----

  function EndpointOf(p: Process, kind: Kind): Endpoint {
    if kind.Publish? then p.env.publish else p.env.service
  }

  /** An operation dispatches at most once, and then only after admission, for a request that is
      addressed to it and describes its plan, with a message all of which has been decoded; its last cancellation poll
      was negative and its last deadline poll in time; a publish that waited had a subscriber. */
  lemma DispatchIsGuarded(p: Process, s: State, id: nat)
    requires Reachable(p, s) && id in s.ops
    ensures s.ops[id].dispatches <= 1
    ensures s.ops[id].dispatches == 1 ==>
      var op := s.ops[id];
      && op.admitted.Some? && Enabled(op.admitted.value, op.kind)
      && IsAddressedTo(p.context, op.request, EndpointOf(p, op.kind))
      && op.loaded.Some? && op.plan.Some? && op.plan.value.PublishPlan? == op.kind.Publish?
      && Describes(p.env, op.request, op.plan.value)
      && ValidLoaded(op.loaded.value)
      && ConformsMessage(op.loaded.value.ts, op.loaded.value.k,
           DefaultMessage(op.loaded.value.ts, op.loaded.value.k), op.plan.value.Body())
      && op.lastCancelPoll == Some(false)
      && op.lastDeadlinePoll.Some? && op.lastDeadlinePoll.value < op.request.context.deadline
      && (op.kind.Publish? && op.plan.value.waitMs > 0 ==> op.subscribers > 0)
      && (op.pc.Done? && op.pc.outcome.Success? ==>
            op.pc.outcome.report == ReportOf(op.plan, op.subscribers, op.answer))
  {
    ReachableOp(p, s, id);
    var op := s.ops[id];
    AtMostOnce(p, s.shared.steady, op);
    if op.dispatches == 1 {
      DispatchedFacts(p, s.shared.steady, op);
    }
  }

  lemma AtMostOnce(p: Process, steady: nat, op: Op)
    requires OpInv(p, steady, op)
    ensures op.dispatches <= 1
    ensures op.pc.Done? && op.pc.outcome.Success? ==>
      op.pc.outcome.report == ReportOf(op.plan, op.subscribers, op.answer)
  {
    hide Delivered, Guarded, Timed;
  }

  lemma {:induction false} DispatchedFacts(p: Process, steady: nat, op: Op)
    requires OpInv(p, steady, op) && op.dispatches == 1
    ensures PassedTo(p.env, p.context, op, 6)
    ensures IsAddressedTo(p.context, op.request, EndpointOf(p, op.kind))
    ensures op.loaded.Some? && op.plan.Some? && ValidLoaded(op.loaded.value)
    ensures op.plan.value.PublishPlan? == op.kind.Publish? && Describes(p.env, op.request, op.plan.value)
    ensures ConformsMessage(op.loaded.value.ts, op.loaded.value.k,
      DefaultMessage(op.loaded.value.ts, op.loaded.value.k), op.plan.value.Body())
  {
    hide Delivered, Timed, History, ValidatePublish, ValidateService, DecodeMessage, DescribesPublish, DescribesCall;
    assert PassedTo(p.env, p.context, op, 6);
    var l, plan := op.loaded.value, op.plan.value;
    PublishPlannedExactly(p.env, p.context, op.request, plan);
    CallPlannedExactly(p.env, p.context, op.request, plan);
    DecodeMessageExact(l.ts, l.k, plan.Body(), false);
  }

  // ---- Waiting ----

  function CeilDiv(a: nat, b: nat): nat
    requires 0 < b
  {
    (a + b - 1) / b
  }

  const MAXIMUM_POLLS: nat := 15000

  /** A publish sleeps at most ceil(wait / 20 ms) times, a call polls for its reply at most
      ceil(timeout / 20 ms) times without one, and so at most 15000 times each. */
  lemma PollsAreBounded(p: Process, s: State, id: nat)
    requires Reachable(p, s) && id in s.ops
    ensures var op := s.ops[id];
      && (op.kind.Publish? && op.plan.Some? ==> op.waitPolls <= CeilDiv(op.plan.value.waitMs, 20))
      && (op.kind.Service? && op.plan.Some? && op.plan.value.ServicePlan? ==>
            op.replyPolls <= CeilDiv(op.plan.value.callMs, 20))
      && (op.kind.Publish? ==> op.waitPolls <= MAXIMUM_POLLS && op.replyPolls == 0)
      && op.replyPolls <= MAXIMUM_POLLS
  {
    ReachableOp(p, s, id);
    var op := s.ops[id];
    PlanIsValid(p, s.shared.steady, op);
    if op.kind.Publish? {
      StrideIsPoll(op.waitPolls);
    }
  }

  lemma StrideIsPoll(n: nat)
    ensures 0 < n ==> Stride(POLL, n - 1) == (n - 1) * 20000000
  {
  }

  /** The plan, once there is one, is within the request limits. */
  lemma PlanIsValid(p: Process, steady: nat, op: Op)
    requires OpInv(p, steady, op)
    ensures op.plan.Some? ==> op.plan.value.waitMs <= MAXIMUM_WAIT_MS
    ensures op.plan.Some? && op.plan.value.ServicePlan? ==> op.plan.value.callMs <= MAXIMUM_WAIT_MS
  {
  }

  /** A service wait ends whatever the readiness does: if every round takes at least `tick`, the
      rounds before the last fit in the wait. */
  lemma ServiceWaitEnds(p: Process, s: State, id: nat)
    requires Reachable(p, s) && id in s.ops && s.ops[id].kind.Service? && 0 < p.tick
    ensures 0 < s.ops[id].waitPolls ==>
      && s.ops[id].plan.Some?
      && (s.ops[id].waitPolls - 1) * p.tick < s.ops[id].plan.value.waitMs * NANOS_PER_MS
  {
    ReachableOp(p, s, id);
  }
}
