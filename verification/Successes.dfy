/** That the promises are not kept by never succeeding: for every acceptable request there is a run
    that ends well. */
module Successes {
  import opened Errors
  import opened Json
  import opened Descriptors
  import opened TreeSemantics
  import opened FlatDecode
  import opened CodecTheorems
  import opened EncodingSpec
  import opened Wire
  import opened NativeContext
  import opened Capabilities
  import opened Requests
  import opened Adapter
  import opened AdapterTheorems
  import opened Limits

  /** The loaded type can be instantiated and the message conforms to it. */
  ghost predicate Accepts(l: Loaded, message: Json)
    requires ValidLoaded(l)
  {
    Constructible(l.ts, l.k) && ConformsMessage(l.ts, l.k, DefaultMessage(l.ts, l.k), message)
  }

  lemma AcceptedDecodes(l: Loaded, message: Json)
    requires ValidLoaded(l) && Accepts(l, message)
    ensures DecodeMessage(l.ts, l.k, message, false).Ok?
  {
    DecodeMessageExact(l.ts, l.k, message, false);
  }

  /** A publish whose request is valid and whose message has been decoded. */
  lemma ReachPublishing(p: Process, spec: InstanceSpec, grant: EnabledCapability, request: OperationRequest,
      plan: Plan, l: Loaded)
    returns (s: State)
    requires FromInstanceSpec(p.env, spec) == Ok(p.context) && GrantMatches(grant, p.env.publish)
    requires ValidatePublish(p.env, p.context, request) == Ok(plan)
    requires ValidLoaded(l) && DecodeMessage(l.ts, l.k, plan.Body(), false).Ok?
    ensures Reachable(p, s) && 0 in s.ops && s.shared.system < request.context.deadline
    ensures var op := s.ops[0];
      op.pc == Waiting && op.kind == Publish && op.request == request && !op.cancelRequested
      && op.dispatches == 0 && op.plan == Some(plan)
  {
    hide Reachable, FromInstanceSpec, GrantMatches, ValidatePublish, ValidLoaded, DecodeMessage;
    s := ReachEnabled(p, Publish, spec, grant, request.context.deadline - 1);
    s := ReachNext(p, s, Begin(0, Publish, request));
    assert s.ops[0] == NewOp(Publish, request);
    s := ReachEarlyPolls(p, s, plan);
    s := ReachStep(p, s, 0, Prepared(l, false));
  }

  lemma ReachEarlyPolls(p: Process, before: State, plan: Plan) returns (s: State)
    requires Reachable(p, before) && 0 in before.ops && before.shared.flags.publish
    requires before.ops[0] == NewOp(Publish, before.ops[0].request)
    requires ValidatePublish(p.env, p.context, before.ops[0].request) == Ok(plan)
    requires before.shared.system < before.ops[0].request.context.deadline
    ensures Reachable(p, s) && s.shared == before.shared && 0 in s.ops
    ensures var op := s.ops[0];
      op.pc == Preparing && op.kind == Publish && op.request == before.ops[0].request && !op.cancelRequested
      && op.dispatches == 0 && op.plan == Some(plan)
  {
    hide Reachable, ValidatePublish;
    s := ReachStep(p, before, 0, Go);
    s := ReachStep(p, s, 0, Go);
    s := ReachPreparing(p, s);
  }

  lemma ReachPreparing(p: Process, before: State) returns (s: State)
    requires Reachable(p, before) && 0 in before.ops && before.ops[0].pc == EarlyCancel
    requires !before.ops[0].cancelRequested && before.shared.system < before.ops[0].request.context.deadline
    ensures Reachable(p, s) && s.shared == before.shared && 0 in s.ops
    ensures s.ops[0] == before.ops[0].(pc := Preparing, lastDeadlinePoll := Some(before.shared.system))
  {
    hide Reachable;
    s := ReachStep(p, before, 0, Go);
    s := ReachStep(p, s, 0, Go);
  }

  /** From a count of subscribers to the report of that count. */
  lemma ReachPublished(p: Process, before: State, plan: Plan, n: nat) returns (s: State)
    requires Reachable(p, before) && 0 in before.ops && before.shared.system < before.ops[0].request.context.deadline
    requires var op := before.ops[0];
      op.pc == Waiting && op.kind == Publish && !op.cancelRequested && op.dispatches == 0 && op.plan == Some(plan)
    requires plan.PublishPlan? && 0 < n
    ensures Reachable(p, s) && 0 in s.ops && s.ops[0].dispatches == 1
    ensures s.ops[0].pc == Done(Success(Published(plan.topic, plan.messageType, n)))
  {
    hide Reachable;
    s := ReachCounted(p, before, n);
    s := ReachStep(p, s, 0, Go);
    s := ReachStep(p, s, 0, Go);
    s := ReachSent(p, s, plan, n);
  }

  lemma ReachSent(p: Process, before: State, plan: Plan, n: nat) returns (s: State)
    requires Reachable(p, before) && 0 in before.ops && plan.PublishPlan?
    requires var op := before.ops[0];
      op.pc == Dispatching && op.kind == Publish && op.dispatches == 0 && op.plan == Some(plan) && op.subscribers == n
    ensures Reachable(p, s) && 0 in s.ops && s.ops[0].dispatches == 1
    ensures s.ops[0].pc == Done(Success(Published(plan.topic, plan.messageType, n)))
  {
    hide Reachable;
    s := ReachStep(p, before, 0, Go);
    s := ReachStep(p, s, 0, Reported(0));
  }

  lemma ReachCounted(p: Process, before: State, n: nat) returns (s: State)
    requires Reachable(p, before) && 0 in before.ops && before.ops[0].pc == Waiting && before.ops[0].kind == Publish
    requires 0 < n
    ensures Reachable(p, s) && s.shared == before.shared && 0 in s.ops
    ensures s.ops[0] == before.ops[0].(pc := LastCancel, subscribers := n)
  {
    hide Reachable;
    s := ReachStep(p, before, 0, Count(n));
    s := ReachStep(p, s, 0, Count(n));
  }

  /** Every acceptable publish can succeed, and then reports the number of subscribers there were. */
  lemma PublishCanSucceed(p: Process, spec: InstanceSpec, grant: EnabledCapability, request: OperationRequest,
      plan: Plan, l: Loaded, n: nat)
    returns (s: State)
    requires FromInstanceSpec(p.env, spec) == Ok(p.context) && GrantMatches(grant, p.env.publish)
    requires IsAddressedTo(p.context, request, p.env.publish)
    requires DescribesPublish(p.env, request.input.text.value.fields, plan)
    requires ValidLoaded(l) && Accepts(l, plan.message) && 0 < n
    ensures Reachable(p, s) && 0 in s.ops && s.ops[0].dispatches == 1
    ensures s.ops[0].pc == Done(Success(Published(plan.topic, plan.messageType, n)))
  {
    hide Reachable, FromInstanceSpec, GrantMatches, ValidatePublish, ValidLoaded, DecodeMessage, Accepts;
    PublishPlannedExactly(p.env, p.context, request, plan);
    AcceptedDecodes(l, plan.message);
    s := ReachPublishing(p, spec, grant, request, plan, l);
    s := ReachPublished(p, s, plan, n);
  }

  /** Every acceptable call can succeed with every answer that has a JSON value, and then reports it. */
  lemma CallCanSucceed(p: Process, spec: InstanceSpec, grant: EnabledCapability, request: OperationRequest,
      plan: Plan, l: Loaded, response: Memory, j: Json)
    returns (s: State)
    requires FromInstanceSpec(p.env, spec) == Ok(p.context) && GrantMatches(grant, p.env.service)
    requires IsAddressedTo(p.context, request, p.env.service)
    requires DescribesCall(p.env, request.input.text.value.fields, plan)
    requires ValidLoaded(l) && Accepts(l, plan.request) && UniqueNames(l.ts)
    requires ValidResponse(l, Some(response))
    requires SaysMessage(l.ts, l.response, MessageAt(l.ts, l.response, response), j)
    ensures Reachable(p, s) && 0 in s.ops && s.ops[0].dispatches == 1
    ensures s.ops[0].pc == Done(Success(Answered(plan.service, plan.serviceType, Some(j))))
  {
    hide Reachable, FromInstanceSpec, GrantMatches, ValidateService, ValidLoaded, DecodeMessage, Accepts;
    CallPlannedExactly(p.env, p.context, request, plan);
    AcceptedDecodes(l, plan.request);
    AnswerEncodes(l, response, j);
    s := ReachSending(p, spec, grant, request, l);
    s := ReachAnswered(p, s, Some(response));
    s := ReachReported(p, s, l, response, plan, j);
  }

  lemma AnswerEncodes(l: Loaded, response: Memory, j: Json)
    requires ValidResponse(l, Some(response)) && UniqueNames(l.ts)
    requires SaysMessage(l.ts, l.response, MessageAt(l.ts, l.response, response), j)
    ensures EncodeMessage(l.ts, l.response, MessageAt(l.ts, l.response, response)) == Ok(j)
  {
    EncodesAs(l.ts, l.response, MessageAt(l.ts, l.response, response), j);
  }

  lemma ReachReported(p: Process, before: State, l: Loaded, response: Memory, plan: Plan, j: Json) returns (s: State)
    requires Reachable(p, before) && 0 in before.ops && plan.ServicePlan?
    requires ValidResponse(l, Some(response))
    requires EncodeMessage(l.ts, l.response, MessageAt(l.ts, l.response, response)) == Ok(j)
    requires var op := before.ops[0];
      op.pc == Projecting && op.kind == Service && op.dispatches == 1 && op.loaded == Some(l)
      && op.plan == Some(plan) && op.fetched == Some(Some(response))
    ensures Reachable(p, s) && 0 in s.ops && s.ops[0].dispatches == 1
    ensures s.ops[0].pc == Done(Success(Answered(plan.service, plan.serviceType, Some(j))))
  {
    hide Reachable, EncodeMessage, MessageAt, ValidResponse;
    assert ProjectResponse(before.ops[0].loaded, before.ops[0].fetched) == Ok(j);
    hide ProjectResponse;
    s := ReachStep(p, before, 0, Go);
    s := ReachStep(p, s, 0, Reported(0));
  }

  /** Every library call of an operation may throw, and give any count, readiness or descriptors. */
  lemma LibraryCallsMayThrow(tick: nat, sh: Shared, op: Op)
    ensures op.pc.Waiting? || op.pc.Sleeping? || op.pc.Counting? || op.pc.Dispatching? || op.pc.Getting? ==>
      CanStep(tick, sh, op, Throws)
    ensures op.pc.Preparing? ==> CanStep(tick, sh, op, PrepareFails(UntypedException))
    ensures forall l: Loaded, throws: bool ::
      op.pc.Preparing? && ValidLoaded(l) ==> CanStep(tick, sh, op, Prepared(l, throws))
    ensures forall n: nat :: op.kind.Publish? && (op.pc.Waiting? || op.pc.Counting?) ==> CanStep(tick, sh, op, Count(n))
    ensures forall b: bool :: op.kind.Service? && op.pc.Waiting? ==> CanStep(tick, sh, op, Ready(b))
  {
  }
}
