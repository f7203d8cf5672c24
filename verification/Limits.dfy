/** Where the promises stop: runs in which a hypothesis fails and the promise with it. */
module Limits {
  import opened Errors
  import opened FloatingPoint
  import opened Json
  import opened Descriptors
  import opened TreeSemantics
  import opened FlatDecode
  import opened CodecTheorems
  import opened Projection
  import opened Wire
  import opened NativeContext
  import opened Capabilities
  import opened Requests
  import opened Adapter
  import opened AdapterTheorems
  import opened Lifecycle

  lemma {:induction false} AppendAction(p: Process, s: State, run: seq<Action>, a: Action)
    requires IsRun(p, s, run) && CanAct(p, After(p, s, run), a)
    ensures IsRun(p, s, run + [a])
    ensures After(p, s, run + [a]) == Act(p, After(p, s, run), a)
    decreases |run|
  {
    hide CanAct, Act;
    if run == [] {
      assert run + [a] == [a];
      assert [a][1..] == [];
    } else {
      assert (run + [a])[1..] == run[1..] + [a];
      AppendAction(p, Act(p, s, run[0]), run[1..], a);
    }
  }

  lemma ReachNext(p: Process, s: State, a: Action) returns (s': State)
    requires Reachable(p, s) && CanAct(p, s, a)
    ensures Reachable(p, s') && s' == Act(p, s, a)
  {
    hide CanAct, Act;
    s' := Act(p, s, a);
    var steady: nat, system: int, run: seq<Action> :|
      IsRun(p, Initial(steady, system), run) && After(p, Initial(steady, system), run) == s;
    AppendAction(p, Initial(steady, system), run, a);
    assert IsRun(p, Initial(steady, system), run + [a]);
  }

  /** Thread `t` takes the next step of its callback. */
  lemma ReachThread(p: Process, s: State, t: nat) returns (s': State)
    requires Reachable(p, s) && t in s.callbacks
    ensures Reachable(p, s') && s' == ActThread(p, s, t)
  {
    hide ActThread;
    s' := ReachNext(p, s, StepThread(t));
  }

  /** The flags can be reached in which one capability is enabled and nothing else is going on. */
  lemma ReachEnabled(p: Process, kind: Kind, spec: InstanceSpec, grant: EnabledCapability, system: int)
    returns (s: State)
    requires FromInstanceSpec(p.env, spec) == Ok(p.context)
    requires GrantMatches(grant, if kind.Publish? then p.env.publish else p.env.service)
    ensures Reachable(p, s) && s.callbacks == map[] && s.ops == map[]
    ensures s.shared == Shared(SetFlag(Flags(true, false, false), kind, true), 0, system)
  {
    hide Reachable, FromInstanceSpec, GrantMatches;
    s := ReachLoaded(p, kind, spec, grant, system);
    s := ReachThread(p, s, 0);
    assert s.callbacks == map[];
  }

  /** The same, one step earlier: the start has seen the applied spec but not claimed the flag. */
  lemma ReachLoaded(p: Process, kind: Kind, spec: InstanceSpec, grant: EnabledCapability, system: int)
    returns (s: State)
    requires FromInstanceSpec(p.env, spec) == Ok(p.context)
    requires GrantMatches(grant, if kind.Publish? then p.env.publish else p.env.service)
    ensures Reachable(p, s) && s.callbacks == map[0 := Claiming(kind)] && s.ops == map[]
    ensures s.shared == Shared(Flags(true, false, false), 0, system)
  {
    hide FromInstanceSpec, GrantMatches;
    s := Initial(0, system);
    assert IsRun(p, s, []) && After(p, s, []) == s;
    s := ReachNext(p, s, BeginCallback(0, Applying(spec)));
    s := ReachThread(p, s, 0);
    assert s.callbacks == map[];
    s := ReachNext(p, s, BeginCallback(0, Loading(kind, spec, grant)));
    s := ReachThread(p, s, 0);
  }

  /** Without serialisation the flags can disagree: a clear that runs between the two halves of a
      start leaves the capability enabled with no spec applied.  This happens in every process
      that has an acceptable spec and grant. */
  lemma OverlappingClearBreaksAdmission(p: Process, kind: Kind, spec: InstanceSpec, grant: EnabledCapability)
    returns (s: State)
    requires FromInstanceSpec(p.env, spec) == Ok(p.context)
    requires GrantMatches(grant, if kind.Publish? then p.env.publish else p.env.service)
    ensures Reachable(p, s) && !EnabledImpliesApplied(s.shared.flags)
  {
    hide Reachable, FromInstanceSpec, GrantMatches;
    s := ReachLoaded(p, kind, spec, grant, 0);
    s := ReachNext(p, s, BeginCallback(1, ClearingPublish));
    s := ReachThread(p, s, 1);
    s := ReachThread(p, s, 1);
    s := ReachThread(p, s, 1);
    s := ReachThread(p, s, 0);
  }

  /** The overlap is exactly what has to be excluded: from every reachable state in which a clear is
      in progress together with a start that has passed its checks, or will, the process can go on to
      a state with a capability enabled and no spec applied. */
  lemma OverlapBreaksAdmission(p: Process, before: State, clear: nat, start: nat) returns (s: State)
    requires Reachable(p, before) && clear in before.callbacks && start in before.callbacks
    requires IsClear(before.callbacks[clear])
    requires WillClaim(p, before.shared.flags, before.callbacks[start])
    ensures Reachable(p, s) && !EnabledImpliesApplied(s.shared.flags)
  {
    hide Reachable, FromInstanceSpec, GrantMatches;
    s := before;
    if s.callbacks[start].Loading? {
      s := ReachThread(p, s, start);
    }
    s := ReachCleared(p, s, clear, start);
    s := ReachThread(p, s, start);
  }

  /** The start has passed its checks, or will if it goes on now. */
  predicate WillClaim(p: Process, f: Flags, cb: Callback) {
    || cb.Claiming?
    || (cb.Loading? && f.applied && FromInstanceSpec(p.env, cb.spec) == Ok(p.context)
        && GrantMatches(cb.grant, if cb.kind.Publish? then p.env.publish else p.env.service))
  }

  /** A clear in progress runs to its end. */
  lemma ReachCleared(p: Process, before: State, clear: nat, other: nat) returns (s: State)
    requires Reachable(p, before) && clear in before.callbacks && other in before.callbacks && other != clear
    requires IsClear(before.callbacks[clear])
    ensures Reachable(p, s) && !s.shared.flags.applied
    ensures other in s.callbacks && s.callbacks[other] == before.callbacks[other]
    decreases StepsLeft(before.callbacks[clear])
  {
    hide Reachable, FromInstanceSpec, GrantMatches;
    s := ReachThread(p, before, clear);
    if !before.callbacks[clear].ClearingApplied? {
      s := ReachCleared(p, s, clear, other);
    }
  }

  /** Operation `id` takes a step. */
  lemma ReachStep(p: Process, s: State, id: nat, ev: Event) returns (s': State)
    requires Reachable(p, s) && id in s.ops && CanStep(p.tick, s.shared, s.ops[id], ev)
    ensures Reachable(p, s') && s'.shared == s.shared && id in s'.ops
    ensures s'.ops[id] == StepOp(p.env, p.context, s.shared, s.ops[id], ev)
  {
    hide StepOp, CanStep;
    s' := ReachNext(p, s, Step(id, ev));
  }

  /** A call whose request is valid and whose message has been decoded. */
  lemma ReachPrepared(p: Process, spec: InstanceSpec, grant: EnabledCapability, request: OperationRequest, l: Loaded)
    returns (s: State)
    requires FromInstanceSpec(p.env, spec) == Ok(p.context) && GrantMatches(grant, p.env.service)
    requires ValidateService(p.env, p.context, request).Ok? && ValidLoaded(l)
    requires DecodeMessage(l.ts, l.k, ValidateService(p.env, p.context, request).value.Body(), false).Ok?
    ensures Reachable(p, s) && 0 in s.ops && s.shared.system < request.context.deadline
    ensures var op := s.ops[0];
      op.pc == Waiting && op.kind == Service && op.request == request && !op.cancelRequested
      && op.dispatches == 0 && op.pending == {} && op.loaded == Some(l) && op.response == None
      && op.plan == Some(ValidateService(p.env, p.context, request).value)
  {
    hide Reachable, FromInstanceSpec, GrantMatches, ValidateService, ValidLoaded, DecodeMessage;
    s := ReachEnabled(p, Service, spec, grant, request.context.deadline - 1);
    s := ReachNext(p, s, Begin(0, Service, request));
    assert s.ops[0] == NewOp(Service, request);
    s := ReachStep(p, s, 0, Go);
    s := ReachStep(p, s, 0, Go);
    s := ReachStep(p, s, 0, Prepared(l, false));
  }

  /** A call that is ready to be sent: every guard passed, nothing dispatched. */
  lemma ReachSending(p: Process, spec: InstanceSpec, grant: EnabledCapability, request: OperationRequest, l: Loaded)
    returns (s: State)
    requires FromInstanceSpec(p.env, spec) == Ok(p.context) && GrantMatches(grant, p.env.service)
    requires ValidateService(p.env, p.context, request).Ok? && ValidLoaded(l)
    requires DecodeMessage(l.ts, l.k, ValidateService(p.env, p.context, request).value.Body(), false).Ok?
    ensures Reachable(p, s) && 0 in s.ops
    ensures var op := s.ops[0];
      op.pc == Dispatching && op.kind == Service && op.dispatches == 0 && op.pending == {} && op.loaded == Some(l)
      && op.plan == Some(ValidateService(p.env, p.context, request).value)
  {
    hide Reachable, FromInstanceSpec, GrantMatches, ValidateService, ValidLoaded, DecodeMessage;
    s := ReachPrepared(p, spec, grant, request, l);
    s := ReachStep(p, s, 0, Ready(true));
    s := ReachPolled(p, s);
  }

  /** The last two polls and the start of the call clock. */
  lemma ReachPolled(p: Process, before: State) returns (s: State)
    requires Reachable(p, before) && 0 in before.ops
    requires var op := before.ops[0];
      op.pc == LastCancel && op.kind == Service && !op.cancelRequested
      && before.shared.system < op.request.context.deadline
    ensures Reachable(p, s) && 0 in s.ops
    ensures var op, was := s.ops[0], before.ops[0];
      op.pc == Dispatching && op.kind == Service && op.dispatches == was.dispatches && op.pending == was.pending
      && op.loaded == was.loaded && op.plan == was.plan
  {
    hide Reachable;
    s := ReachStep(p, before, 0, Go);
    s := ReachStep(p, s, 0, Go);
    s := ReachStep(p, s, 0, Go);
  }

  /** If handing the request over throws, the request may have reached the service, and yet the
      call reads as transient: for every valid request of every process. */
  lemma ThrowingSendReadsTransient(p: Process, spec: InstanceSpec, grant: EnabledCapability,
      request: OperationRequest, l: Loaded)
    returns (s: State)
    requires FromInstanceSpec(p.env, spec) == Ok(p.context) && GrantMatches(grant, p.env.service)
    requires ValidateService(p.env, p.context, request).Ok? && ValidLoaded(l)
    requires DecodeMessage(l.ts, l.k, ValidateService(p.env, p.context, request).value.Body(), false).Ok?
    ensures Reachable(p, s) && 0 in s.ops && s.ops[0].dispatches == 1
    ensures s.ops[0].pc == Done(Failure(Transient, InternalError))
  {
    hide Reachable, FromInstanceSpec, GrantMatches, ValidateService, ValidLoaded, DecodeMessage;
    s := ReachSending(p, spec, grant, request, l);
    s := ReachStep(p, s, 0, Throws);
  }

  /** If the service answers with a message that has no JSON, the call reads as permanent although
      the service acted. */
  lemma UnprojectableResponseReadsPermanent(p: Process, spec: InstanceSpec, grant: EnabledCapability,
      request: OperationRequest, l: Loaded, response: Memory)
    returns (s: State)
    requires FromInstanceSpec(p.env, spec) == Ok(p.context) && GrantMatches(grant, p.env.service)
    requires ValidateService(p.env, p.context, request).Ok? && ValidLoaded(l)
    requires DecodeMessage(l.ts, l.k, ValidateService(p.env, p.context, request).value.Body(), false).Ok?
    requires ValidResponse(l, Some(response))
    requires EncodeMessage(l.ts, l.response, MessageAt(l.ts, l.response, response)).Err?
    ensures Reachable(p, s) && 0 in s.ops && s.ops[0].dispatches == 1
    ensures s.ops[0].pc.Done? && s.ops[0].pc.outcome.Failure? && s.ops[0].pc.outcome.cls == Permanent
  {
    hide Reachable, FromInstanceSpec, GrantMatches, ValidateService, ValidLoaded, ValidResponse, DecodeMessage,
      EncodeMessage, MessageAt, ProjectResponse, CanStep, StepOp;
    s := ReachSending(p, spec, grant, request, l);
    s := ReachAnswered(p, s, Some(response));
    var op := s.ops[0];
    ProjectionFails(p, s.shared, op, l, response);
    s := ReachStep(p, s, 0, Go);
  }

  /** Whenever the response type contains, at any depth, a wide string, a long double or an
      incomplete member, the service can answer so that the call reads as permanent. */
  lemma StuckResponsesCanReadPermanent(p: Process, spec: InstanceSpec, grant: EnabledCapability,
      request: OperationRequest, l: Loaded)
    returns (s: State)
    requires FromInstanceSpec(p.env, spec) == Ok(p.context) && GrantMatches(grant, p.env.service)
    requires ValidateService(p.env, p.context, request).Ok? && ValidLoaded(l)
    requires DecodeMessage(l.ts, l.k, ValidateService(p.env, p.context, request).value.Body(), false).Ok?
    requires !AlwaysProjects(l.ts, l.response)
    ensures Reachable(p, s) && 0 in s.ops && s.ops[0].dispatches == 1
    ensures s.ops[0].pc.Done? && s.ops[0].pc.outcome.Failure? && s.ops[0].pc.outcome.cls == Permanent
  {
    hide Reachable, FromInstanceSpec, GrantMatches, ValidateService, DecodeMessage, EncodeMessage;
    var path :| LeadsToStuck(l.ts, l.response, path);
    var response := UnprojectableMessage(l.ts, l.response, path);
    EncodesExactly(l.ts, l.response, MessageAt(l.ts, l.response, response));
    s := UnprojectableResponseReadsPermanent(p, spec, grant, request, l, response);
  }

  lemma ProjectionFails(p: Process, sh: Shared, op: Op, l: Loaded, response: Memory)
    requires op.pc.Projecting? && op.loaded == Some(l) && op.fetched == Some(Some(response))
    requires ValidResponse(l, Some(response))
    requires EncodeMessage(l.ts, l.response, MessageAt(l.ts, l.response, response)).Err?
    ensures CanStep(p.tick, sh, op, Go)
    ensures var after := StepOp(p.env, p.context, sh, op, Go);
      && after.dispatches == op.dispatches
      && after.pc.Done? && after.pc.outcome.Failure? && after.pc.outcome.cls == Permanent
  {
    EncodeTypedMessage(l.ts, l.response, MessageAt(l.ts, l.response, response));
  }

  /** From the dispatch to the moment the answer is about to be projected. */
  lemma ReachAnswered(p: Process, before: State, answer: Response) returns (s: State)
    requires Reachable(p, before) && 0 in before.ops && answer.Some?
    requires var op := before.ops[0];
      op.pc == Dispatching && op.kind == Service && op.dispatches == 0 && op.pending == {}
      && op.loaded.Some? && ValidResponse(op.loaded.value, answer)
    ensures Reachable(p, s) && 0 in s.ops
    ensures var op := s.ops[0];
      op.pc == Projecting && op.kind == Service && op.dispatches == 1 && op.loaded == before.ops[0].loaded
      && op.plan == before.ops[0].plan && op.fetched == Some(answer)
  {
    hide Reachable, ValidResponse;
    s := ReachStep(p, before, 0, Sent(0));
    s := ReachNext(p, s, Respond(0, 0, answer));
    s := ReachGot(p, s);
  }

  lemma ReachGot(p: Process, before: State) returns (s: State)
    requires Reachable(p, before) && 0 in before.ops && before.ops[0].pc.AwaitingReply?
    requires before.ops[0].response.Some? && before.ops[0].response.value.Some?
    ensures Reachable(p, s) && 0 in s.ops
    ensures s.ops[0] == before.ops[0].(pc := Projecting, fetched := before.ops[0].response)
  {
    hide Reachable;
    s := ReachStep(p, before, 0, Go);
    s := ReachStep(p, s, 0, Go);
  }

  // ---- The hypotheses can be met ----

  function SampleEndpoint(id: string): Endpoint {
    Endpoint(id, 1, "digest", "call", Schema(1, "in", 1, 7), Schema(2, "out", 1, 7), 30000, 300000,
      Limits(8388608, 8388608, 16, 0, 0, 0))
  }

  function SampleProcess(fp: Platform): Process {
    var any := (s: string) => true;
    Process(
      Environment(fp, SampleEndpoint("xgc.ros2.topic.publish"), SampleEndpoint("xgc.ros2.service.call"),
        Schema(4301, "context", 1, 7), any, any, any, any, any),
      SAMPLE_CONTEXT, POLL)
  }

  const SAMPLE_CONTEXT := Context(0, "", "key")

  const SAMPLE_SCOPE := Scope(SCOPE_KIND, "key", map[DOMAIN_ATTRIBUTE := "0"])

  const SAMPLE_SPEC := InstanceSpec(
    Some(Payload(true, Some(Schema(4301, "context", 1, 7)), 0,
      Strict(Obj(map[DOMAIN_FIELD := Int(0), RMW_FIELD := Str("")])))),
    0, Some(SAMPLE_SCOPE))

  const SAMPLE_INPUT: map<string, Json> :=
    map["service" := Str("/s"), "serviceType" := Str("t"), "request" := Obj(map[]),
        "waitForServiceMs" := Int(0), "callTimeoutMs" := Int(1)]

  const SAMPLE_REQUEST := OperationRequest(
    WorkContext("xgc.ros2.service.call", 1, "digest", "call", 1, Some(SAMPLE_SCOPE)),
    Payload(true, Some(Schema(1, "in", 1, 7)), 0, Strict(Obj(SAMPLE_INPUT))))

  /** A request and response type with a single wide-string field. */
  function SampleLoaded(fp: Platform): Loaded {
    var text := Member("text", TWString, 0, 0, false, false, 0, false, 0, false, false, false, false, false, false);
    Loaded(Types([MessageDesc([text], 1, 1, [P(PWide(""))], true, true)], fp), 0, 0)
  }

  lemma SampleNames()
    ensures "service" != "request" && "serviceType" != "callTimeoutMs"
    ensures |"waitForServiceMs"| == 16 && |"serviceType"| == 11 && |"callTimeoutMs"| == 13
  {
    assert "service"[0] != "request"[0];
  }

  lemma SampleIsValid(fp: Platform)
    ensures var p := SampleProcess(fp);
      && FromInstanceSpec(p.env, SAMPLE_SPEC) == Ok(p.context)
      && ValidateService(p.env, p.context, SAMPLE_REQUEST) == Ok(ServicePlan("/s", "t", Obj(map[]), 0, 1))
  {
    SampleScopeMatches();
    SampleSpecIsValid(fp);
    SampleRequestIsValid(fp);
  }

  lemma SampleScopeMatches()
    ensures AttributesMatch(SAMPLE_CONTEXT, SAMPLE_SCOPE.attributes)
  {
    assert Decimal(0) == "0";
    AttributesExact(SAMPLE_CONTEXT, SAMPLE_SCOPE.attributes);
  }

  lemma SampleSpecIsValid(fp: Platform)
    requires AttributesMatch(SAMPLE_CONTEXT, SAMPLE_SCOPE.attributes)
    ensures FromInstanceSpec(SampleProcess(fp).env, SAMPLE_SPEC) == Ok(SAMPLE_CONTEXT)
  {
    hide AttributesMatch;
    AttributeNamesDiffer();
  }

  lemma SampleRequestIsValid(fp: Platform)
    requires AttributesMatch(SAMPLE_CONTEXT, SAMPLE_SCOPE.attributes)
    ensures ValidateService(SampleProcess(fp).env, SAMPLE_CONTEXT, SAMPLE_REQUEST)
      == Ok(ServicePlan("/s", "t", Obj(map[]), 0, 1))
  {
    hide AttributesMatch;
    SampleNames();
    assert SubjectAccepted(SAMPLE_CONTEXT, SAMPLE_REQUEST.context);
  }

  const SAMPLE_RESPONSE: Memory := [P(PWide(['\U{00e9}']))]

  lemma SampleIsLoaded(fp: Platform)
    ensures var l := SampleLoaded(fp);
      && ValidLoaded(l)
      && DecodeMessage(l.ts, l.k, Obj(map[]), false).Ok?
      && ValidResponse(l, Some(SAMPLE_RESPONSE))
      && EncodeMessage(l.ts, l.response, MessageAt(l.ts, l.response, SAMPLE_RESPONSE)).Err?
  {
    var l := SampleLoaded(fp);
    var ts, d := l.ts, l.ts.descs[0];
    var text := d.members[0];
    assert DescLayout(ts, d);
    assert Layout(ts);
    SampleField(ts, d.defaults);
    SampleField(ts, SAMPLE_RESPONSE);
    assert HasMessageType(ts, 0, DefaultMessage(ts, 0));
    DecodeMessageExact(ts, 0, Obj(map[]), false);
    var field := Leaf(SAMPLE_RESPONSE[0].p);
    assert field.p.w[0] as int == 0xe9;
    assert EncodeMember(ts, text, field).Err?;
    assert EncodeFields(ts, 0, Msg([field]), 0, map[]).Err?;
  }

  /** What a single wide-string slot stands for. */
  lemma SampleField(ts: Types, s: Memory)
    requires Layout(ts) && ts.descs == SampleLoaded(ts.fp).ts.descs
    requires |s| == 1 && s[0].P? && s[0].p.PWide?
    ensures LoadFields(ts, 0, s) == [Leaf(s[0].p)]
    ensures HasMessageType(ts, 0, MessageAt(ts, 0, s))
  {
    var text := ts.descs[0].members[0];
    assert Slot(ts, text, s) == s;
    assert LoadMember(ts, text, s) == Leaf(s[0].p);
    assert LoadFields(ts, 0, s) == [Leaf(s[0].p)];
    assert HasType(ts, text, Leaf(s[0].p));
  }

  /** Both kinds of run exist, from a freshly constructed process, for one concrete request. */
  lemma DispatchedCallsCanReadOtherwise(fp: Platform) returns (s: State, t: State)
    ensures var p := SampleProcess(fp);
      && Reachable(p, s) && 0 in s.ops && s.ops[0].dispatches == 1
      && s.ops[0].pc == Done(Failure(Transient, InternalError))
      && Reachable(p, t) && 0 in t.ops && t.ops[0].dispatches == 1
      && t.ops[0].pc.Done? && t.ops[0].pc.outcome.Failure? && t.ops[0].pc.outcome.cls == Permanent
  {
    var p, l := SampleProcess(fp), SampleLoaded(fp);
    var grant := EnabledCapability("xgc.ros2.service.call", 1, "digest", ["call"]);
    SampleIsValid(fp);
    SampleIsLoaded(fp);
    assert GrantMatches(grant, p.env.service);
    hide FromInstanceSpec, ValidateService, ValidLoaded, ValidResponse, DecodeMessage, EncodeMessage, MessageAt,
      Reachable;
    s := ThrowingSendReadsTransient(p, SAMPLE_SPEC, grant, SAMPLE_REQUEST, l);
    t := UnprojectableResponseReadsPermanent(p, SAMPLE_SPEC, grant, SAMPLE_REQUEST, l, SAMPLE_RESPONSE);
  }
}
