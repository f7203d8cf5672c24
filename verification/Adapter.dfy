/** The adapter as a transition system: any number of operations in flight, lifecycle callbacks,
    two independent clocks, cancellation and the ROS graph.  One action is one atomic step. */
module Adapter {
  import opened Errors
  import opened Json
  import opened Descriptors
  import opened TreeSemantics
  import opened FlatDecode
  import opened CodecTheorems
  import opened Wire
  import opened NativeContext
  import opened Capabilities
  import opened Requests

  // Clocks count nanoseconds.
  const NANOS_PER_MS: nat := 1000000
  const POLL: nat := 20 * NANOS_PER_MS

  datatype Kind = Publish | Service

  /** The event a successful operation reports. */
  datatype Report =
    | Published(topic: string, messageType: string, subscribers: nat)
    | Answered(service: string, serviceType: string, response: Option<Json>)

  datatype Outcome = Success(report: Report) | Failure(cls: ErrorClass, code: Code)

  /** The class and code an exception is reported with; untyped exceptions read as transient. */
  function FailureOf(e: Error): Outcome {
    if e.ToolsError? then Failure(e.cls, e.code) else Failure(Transient, InternalError)
  }

  // ---- Operations ----

  /** The descriptors a typesupport library supplies: the table, the type of the message to send
      and, for a service, of the response. */
  datatype Loaded = Loaded(ts: Types, k: nat, response: nat)

  ghost predicate ValidLoaded(l: Loaded) {
    && Layout(l.ts) && TypedDefaults(l.ts)
    && l.k < |l.ts.descs| && l.response < |l.ts.descs|
  }

  /** A response as delivered: the memory of a message of the response type, or a null pointer. */
  type Response = Option<Memory>

  ghost predicate ValidResponse(l: Loaded, r: Response) {
    && ValidLoaded(l)
    && (r.Some? ==>
      && |r.value| == l.ts.descs[l.response].size
      && HasMessageType(l.ts, l.response, MessageAt(l.ts, l.response, r.value)))
  }

  /** Program points of Publish and CallService. */
  datatype Pc =
    | Entered                    // about to load the capability flag
    | Admitted                   // about to validate the request
    | EarlyCancel                // publish: first cancellation poll
    | EarlyDeadline              // publish: first deadline poll
    | Preparing                  // load types, decode the message, create the ROS entity
    | Waiting                    // read the subscription count or the service readiness
    | WaitClock                  // publish: compare the steady clock with the wait limit
    | WaitCancel
    | WaitDeadline
    | WaitExpired                // service: compare the steady clock with the wait limit
    | Sleeping(since: nat)
    | Counting                   // publish: read the subscription count that is reported
    | LastCancel                 // the cancellation poll before dispatch
    | LastDeadline               // the deadline poll before dispatch
    | Starting                   // service: start the call clock
    | Dispatching
    | AwaitingReply(since: nat)
    | ReplyCancel
    | RemovingCancelled
    | ReplyTime
    | RemovingTimedOut
    | Getting
    | Projecting
    | Reporting
    | Done(outcome: Outcome)

  /** An operation: its locals, its client's pending-request table, and a record of what it did. */
  datatype Op = Op(
    kind: Kind,
    request: OperationRequest,
    pc: Pc,
    cancelRequested: bool,
    // locals
    plan: Option<Plan>,
    loaded: Option<Loaded>,
    waitStart: nat,
    message: Option<Memory>,
    subscribers: nat,
    callStarted: nat,
    requestId: Option<nat>,
    response: Option<Response>,
    answer: Option<Json>,
    // the client's table of pending requests
    pending: set<nat>,
    // record
    admitted: Option<Flags>,
    lastCancelPoll: Option<bool>,
    lastDeadlinePoll: Option<int>,
    waitPolls: nat,
    replyPolls: nat,
    dispatches: nat,
    sent: Option<Memory>,
    answered: nat,
    removed: nat,
    raised: Option<Error>,                             // by a library call that failed
    initThrew: bool,
    fetched: Option<Response>,                         // what the future gave
    replyDeadlinePoll: Option<int>,
    resultSize: Option<nat>)

  function NewOp(kind: Kind, request: OperationRequest): Op {
    Op(kind, request, Entered, false, None, None, 0, None, 0, 0, None, None, None, {},
       None, None, None, 0, 0, 0, None, 0, 0, None, false, None, None, None)
  }

  datatype Flags = Flags(applied: bool, publish: bool, service: bool)

  datatype Shared = Shared(flags: Flags, steady: nat, system: int)

  function Enabled(f: Flags, kind: Kind): bool {
    if kind.Publish? then f.publish else f.service
  }

  /** What a library call does at a step that makes one. */
  datatype Event =
    | Go
    | Throws                                           // an untyped exception
    | PrepareFails(error: Error)                       // loading, serialising or creating fails
    | Prepared(loaded: Loaded, initThrows: bool)
    | Count(n: nat)
    | Ready(isReady: bool)
    | Sent(id: nat)
    | Reported(size: nat)

  function Validate(env: Environment, c: Context, kind: Kind, request: OperationRequest): (r: Result<Plan>)
    ensures r.Err? ==> IsRequestError(r.error)
    ensures r.Ok? ==> r.value.PublishPlan? == kind.Publish?
    ensures r.Ok? && kind.Service? ==> 1 <= r.value.callMs
  {
    if kind.Publish? then ValidatePublish(env, c, request) else ValidateService(env, c, request)
  }

  function WaitNanos(op: Op): nat {
    if op.plan.Some? then op.plan.value.waitMs * NANOS_PER_MS else 0
  }

  function CallNanos(op: Op): nat {
    if op.plan.Some? && op.plan.value.ServicePlan? then op.plan.value.callMs * NANOS_PER_MS else 0
  }

  function ResponseLimit(env: Environment, kind: Kind): nat {
    if kind.Publish? then env.publish.limits.responseBytes else env.service.limits.responseBytes
  }

  function End(op: Op, o: Outcome): Op {
    op.(pc := Done(o))
  }

  /** A library call ends the operation with an exception. */
  function Raise(op: Op, e: Error): Op {
    End(op.(raised := Some(e)), FailureOf(e))
  }

  function CancelPoll(op: Op, code: Code, next: Pc): Op {
    if op.cancelRequested then End(op, Failure(Cancelled, code)) else op.(pc := next)
  }

  function DeadlinePoll(sh: Shared, op: Op, code: Code, next: Pc): Op {
    var polled := op.(lastDeadlinePoll := Some(sh.system));
    if sh.system >= op.request.context.deadline then End(polled, Failure(Deadline, code))
    else polled.(pc := next)
  }

  /** Which events a step can meet.  Sleeping lasts at least one poll interval for a publish; a
      service wait may end early, but not before `tick` nanoseconds. */
  ghost predicate CanStep(tick: nat, sh: Shared, op: Op, ev: Event) {
    match op.pc
    case Preparing =>
      || (ev.PrepareFails? && (IsPermanent(ev.error) || ev.error == UntypedException))
      || (ev.Prepared? && ValidLoaded(ev.loaded))
    case Waiting => ev.Throws? || (if op.kind.Publish? then ev.Count? else ev.Ready?)
    case Counting => ev.Throws? || ev.Count?
    case Sleeping(since) =>
      ev.Throws? || (ev.Go? && since + (if op.kind.Publish? then POLL else tick) <= sh.steady)
    case Dispatching =>
      ev.Throws? || (if op.kind.Publish? then ev.Go? else ev.Sent? && ev.id !in op.pending)
    case AwaitingReply(since) => ev.Go? && (op.response.Some? || since + POLL <= sh.steady)
    case Getting => ev.Throws? || ev.Go?
    case Reporting => ev.Reported?
    case Done(_) => false
    case _ => ev.Go?
  }

  /** Only admission records what an operation was admitted under, and nothing changes its request. */
  predicate SameRequest(op: Op, after: Op) {
    after.kind == op.kind && after.request == op.request && after.admitted == op.admitted
  }

  predicate IsAdmission(pc: Pc) {
    pc.Entered? || pc.Admitted? || pc.EarlyCancel? || pc.EarlyDeadline?
  }

  ghost function StepAdmission(env: Environment, c: Context, sh: Shared, op: Op): Op
    requires IsAdmission(op.pc)
  {
    if op.pc.Entered? then
      if Enabled(sh.flags, op.kind) then op.(pc := Admitted, admitted := Some(sh.flags))
      else End(op, Failure(Rejected,
        if op.kind.Publish? then PublishCapabilityDisabled else ServiceCapabilityDisabled))
    else if op.pc.Admitted? then
      var plan := Validate(env, c, op.kind, op.request);
      if plan.Err? then End(op, FailureOf(plan.error))
      else op.(pc := if op.kind.Publish? then EarlyCancel else Preparing, plan := Some(plan.value))
    else if op.pc.EarlyCancel? then CancelPoll(op, PublishCancelled, EarlyDeadline)
    else DeadlinePoll(sh, op, PublishDeadlineElapsed, Preparing)
  }

  ghost function StepPreparing(sh: Shared, op: Op, ev: Event): (after: Op)
    requires op.pc.Preparing?
    ensures SameRequest(op, after)
  {
    if ev.Prepared? && ValidLoaded(ev.loaded) && op.plan.Some? then
      var l := ev.loaded;
      var given := op.(loaded := Some(l), initThrew := ev.initThrows);
      var decoded := DecodeMessage(l.ts, l.k, op.plan.value.Body(), ev.initThrows);
      if decoded.Err? then End(given, FailureOf(decoded.error))
      else given.(pc := Waiting, message := Some(decoded.value), waitStart := sh.steady)
    else Raise(op, if ev.PrepareFails? then ev.error else UntypedException)
  }

  predicate IsWaiting(pc: Pc) {
    || pc.Waiting? || pc.WaitClock? || pc.WaitCancel? || pc.WaitDeadline? || pc.WaitExpired?
    || pc.Sleeping? || pc.Counting?
  }

  function StepWaiting(sh: Shared, op: Op, ev: Event): (after: Op)
    requires IsWaiting(op.pc)
    ensures SameRequest(op, after)
  {
    if op.pc.Waiting? then
      if ev.Throws? then Raise(op, UntypedException)
      else if op.kind.Publish? then op.(pc := if ev.Count? && ev.n == 0 then WaitClock else Counting)
      else op.(pc := if ev.Ready? && ev.isReady then LastCancel else WaitCancel)
    else if op.pc.WaitClock? then
      op.(pc := if sh.steady < op.waitStart + WaitNanos(op) then WaitCancel else Counting)
    else if op.pc.WaitCancel? then
      CancelPoll(op, if op.kind.Publish? then PublishCancelled else ServiceCallCancelled, WaitDeadline)
    else if op.pc.WaitDeadline? then
      if op.kind.Publish? then
        var polled := DeadlinePoll(sh, op, PublishDeadlineElapsed, Sleeping(sh.steady));
        if polled.pc.Sleeping? then polled.(waitPolls := op.waitPolls + 1) else polled
      else DeadlinePoll(sh, op, ServiceWaitDeadlineElapsed, WaitExpired)
    else if op.pc.WaitExpired? then
      if sh.steady >= op.waitStart + WaitNanos(op) then End(op, Failure(Transient, ServiceUnavailable))
      else op.(pc := Sleeping(sh.steady), waitPolls := op.waitPolls + 1)
    else if op.pc.Sleeping? then
      if ev.Throws? then Raise(op, UntypedException) else op.(pc := Waiting)
    else if !ev.Count? then Raise(op, UntypedException)
    else if WaitNanos(op) > 0 && ev.n == 0 then End(op, Failure(Transient, SubscriberUnavailable))
    else op.(pc := LastCancel, subscribers := ev.n)
  }

  predicate IsFinalPoll(pc: Pc) {
    pc.LastCancel? || pc.LastDeadline? || pc.Starting?
  }

  function StepFinalPoll(sh: Shared, op: Op): (after: Op)
    requires IsFinalPoll(op.pc)
    ensures SameRequest(op, after)
  {
    if op.pc.LastCancel? then
      CancelPoll(op.(lastCancelPoll := Some(op.cancelRequested)),
        if op.kind.Publish? then PublishCancelled else ServiceCallCancelled, LastDeadline)
    else if op.pc.LastDeadline? then
      DeadlinePoll(sh, op,
        if op.kind.Publish? then PublishDeadlineElapsed else ServiceCallDeadlineElapsed,
        if op.kind.Publish? then Dispatching else Starting)
    else op.(pc := Dispatching, callStarted := sh.steady)
  }

  function StepDispatching(sh: Shared, op: Op, ev: Event): (after: Op)
    requires op.pc.Dispatching?
    ensures SameRequest(op, after)
  {
    var sent := op.(dispatches := op.dispatches + 1, sent := op.message);
    if op.kind.Publish? then
      if ev.Throws? then End(sent.(raised := Some(UntypedException)), Failure(Uncertain, PublishOutcomeUnknown))
      else sent.(pc := Reporting)
    else if ev.Sent? then
      sent.(pc := AwaitingReply(sh.steady), requestId := Some(ev.id), pending := op.pending + {ev.id})
    else Raise(sent, UntypedException)
  }

  predicate IsReplying(pc: Pc) {
    pc.AwaitingReply? || pc.ReplyCancel? || pc.RemovingCancelled? || pc.ReplyTime? || pc.RemovingTimedOut?
  }

  function RemovePending(op: Op): Op {
    if op.requestId.Some? && op.requestId.value in op.pending then
      op.(pending := op.pending - {op.requestId.value}, removed := op.removed + 1)
    else op
  }

  function StepReplying(sh: Shared, op: Op): (after: Op)
    requires IsReplying(op.pc)
    ensures SameRequest(op, after)
  {
    if op.pc.AwaitingReply? then
      if op.response.Some? then op.(pc := Getting)
      else op.(pc := ReplyCancel, replyPolls := op.replyPolls + 1)
    else if op.pc.ReplyCancel? then op.(pc := if op.cancelRequested then RemovingCancelled else ReplyTime)
    else if op.pc.RemovingCancelled? then
      End(RemovePending(op), Failure(Uncertain, ServiceOutcomeUnknownAfterCancel))
    else if op.pc.ReplyTime? then
      if sh.steady >= op.callStarted + CallNanos(op) || sh.system >= op.request.context.deadline then
        op.(pc := RemovingTimedOut, replyDeadlinePoll := Some(sh.system))
      else op.(pc := AwaitingReply(sh.steady))
    else End(RemovePending(op), Failure(Uncertain, ServiceOutcomeUnknownAfterTimeout))
  }

  predicate IsFinishing(pc: Pc) {
    pc.Getting? || pc.Projecting? || pc.Reporting?
  }

  ghost function StepFinishing(env: Environment, op: Op, ev: Event): (after: Op)
    requires IsFinishing(op.pc)
    ensures SameRequest(op, after)
  {
    if op.pc.Getting? then
      if ev.Throws? then Raise(op, UntypedException)
      else if op.response.Some? && op.response.value.Some? then op.(pc := Projecting, fetched := op.response)
      else End(op.(fetched := op.response), Failure(Uncertain, ServiceResponseMissing))
    else if op.pc.Projecting? then
      var projected := ProjectResponse(op.loaded, op.fetched);
      if projected.Err? then End(op, FailureOf(projected.error))
      else op.(pc := Reporting, answer := Some(projected.value))
    else
      var size := if ev.Reported? then ev.size else 0;
      var sized := op.(resultSize := Some(size));
      if size > ResponseLimit(env, op.kind) then End(sized, Failure(Uncertain, OperationResultTooLarge))
      else End(sized, Success(ReportOf(op.plan, op.subscribers, op.answer)))
  }

  /** What a successful operation reports; none reports before it has a plan. */
  function ReportOf(plan: Option<Plan>, subscribers: nat, answer: Option<Json>): Report {
    match plan
    case Some(PublishPlan(topic, messageType, _, _, _, _, _)) => Published(topic, messageType, subscribers)
    case Some(ServicePlan(service, serviceType, _, _, _)) => Answered(service, serviceType, answer)
    case None => Published("", "", subscribers)
  }

  /** The JSON of the response the future gave. */
  ghost function ProjectResponse(loaded: Option<Loaded>, response: Option<Response>): Result<Json> {
    if loaded.Some? && response.Some? && response.value.Some? && ValidResponse(loaded.value, response.value) then
      var l := loaded.value;
      EncodeMessage(l.ts, l.response, MessageAt(l.ts, l.response, response.value.value))
    else Err(UndefinedBehaviour)
  }

  ghost function StepOp(env: Environment, c: Context, sh: Shared, op: Op, ev: Event): Op {
    if IsAdmission(op.pc) then StepAdmission(env, c, sh, op)
    else if op.pc.Preparing? then StepPreparing(sh, op, ev)
    else if IsWaiting(op.pc) then StepWaiting(sh, op, ev)
    else if IsFinalPoll(op.pc) then StepFinalPoll(sh, op)
    else if op.pc.Dispatching? then StepDispatching(sh, op, ev)
    else if IsReplying(op.pc) then StepReplying(sh, op)
    else if IsFinishing(op.pc) then StepFinishing(env, op, ev)
    else op
  }

  // ---- Lifecycle callbacks ----

  /** A callback in progress, at the atomic step it takes next. */
  datatype Callback =
    | Applying(spec: InstanceSpec)
    | ClearingPublish
    | ClearingService
    | ClearingApplied
    | Loading(kind: Kind, spec: InstanceSpec, grant: EnabledCapability)
    | Claiming(kind: Kind)                             // about to compare and exchange the flag
    | Stopping(kind: Kind)

  predicate IsInitial(cb: Callback) {
    cb.Applying? || cb.ClearingPublish? || cb.Loading? || cb.Stopping?
  }

  function SetFlag(f: Flags, kind: Kind, value: bool): Flags {
    if kind.Publish? then f.(publish := value) else f.(service := value)
  }

  /** The flags after the step, the callback's next step if it is not over, and whether a start
      succeeded. */
  function StepCallback(env: Environment, c: Context, f: Flags, cb: Callback): (Flags, Option<Callback>, bool) {
    match cb
    case Applying(spec) => (if FromInstanceSpec(env, spec) == Ok(c) then f.(applied := true) else f, None, false)
    case ClearingPublish => (f.(publish := false), Some(ClearingService), false)
    case ClearingService => (f.(service := false), Some(ClearingApplied), false)
    case ClearingApplied => (f.(applied := false), None, false)
    case Loading(kind, spec, grant) =>
      var expected := if kind.Publish? then env.publish else env.service;
      if f.applied && FromInstanceSpec(env, spec) == Ok(c) && GrantMatches(grant, expected) then
        (f, Some(Claiming(kind)), false)
      else (f, None, false)
    case Claiming(kind) => if Enabled(f, kind) then (f, None, false) else (SetFlag(f, kind, true), None, true)
    case Stopping(kind) => (SetFlag(f, kind, false), None, false)
  }

  // ---- The whole system ----

  /** `starts` counts successful starts, `stops` the stores that turned a set flag off. */
  datatype Counter = Counter(starts: nat, stops: nat)

  datatype State = State(
    shared: Shared,
    ops: map<nat, Op>,
    callbacks: map<nat, Callback>,
    publish: Counter,
    service: Counter)

  datatype Action =
    | Begin(id: nat, kind: Kind, request: OperationRequest)
    | Step(id: nat, ev: Event)
    | RequestCancel(id: nat)
    | Respond(id: nat, requestId: nat, response: Response)
    | Tick(elapsed: nat)
    | SetSystemClock(now: int)
    | BeginCallback(thread: nat, cb: Callback)
    | StepThread(thread: nat)

  /** The process: its context and environment, and the least progress of a service wait. */
  datatype Process = Process(env: Environment, context: Context, tick: nat)

  ghost predicate CanAct(p: Process, s: State, a: Action) {
    match a
    case Begin(id, _, _) => id !in s.ops
    case Step(id, ev) => id in s.ops && CanStep(p.tick, s.shared, s.ops[id], ev)
    case RequestCancel(id) => id in s.ops
    case Respond(id, requestId, response) =>
      && id in s.ops && requestId in s.ops[id].pending
      && s.ops[id].loaded.Some? && ValidResponse(s.ops[id].loaded.value, response)
    case Tick(_) => true
    case SetSystemClock(_) => true
    case BeginCallback(thread, cb) => thread !in s.callbacks && IsInitial(cb)
    case StepThread(thread) => thread in s.callbacks
  }

  /** A response that finds its request id takes it out of the table. */
  function DeliverResponse(op: Op, requestId: nat, response: Response): Op {
    op.(pending := op.pending - {requestId}, response := Some(response), answered := op.answered + 1)
  }

  function Tally(before: bool, after: bool, started: bool, n: Counter): Counter {
    Counter(n.starts + (if started then 1 else 0), n.stops + (if before && !after then 1 else 0))
  }

  function ActThread(p: Process, s: State, thread: nat): State
    requires thread in s.callbacks
  {
    var f := s.shared.flags;
    var cb := s.callbacks[thread];
    var (after, next, started) := StepCallback(p.env, p.context, f, cb);
    s.(shared := s.shared.(flags := after),
       callbacks := if next.Some? then s.callbacks[thread := next.value] else s.callbacks - {thread},
       publish := Tally(f.publish, after.publish, started && cb == Claiming(Publish), s.publish),
       service := Tally(f.service, after.service, started && cb == Claiming(Service), s.service))
  }

  ghost function Act(p: Process, s: State, a: Action): State
    requires CanAct(p, s, a)
  {
    match a
    case Begin(id, kind, request) => s.(ops := s.ops[id := NewOp(kind, request)])
    case Step(id, ev) => s.(ops := s.ops[id := StepOp(p.env, p.context, s.shared, s.ops[id], ev)])
    case RequestCancel(id) => s.(ops := s.ops[id := s.ops[id].(cancelRequested := true)])
    case Respond(id, requestId, response) =>
      s.(ops := s.ops[id := DeliverResponse(s.ops[id], requestId, response)])
    case Tick(elapsed) => s.(shared := s.shared.(steady := s.shared.steady + elapsed))
    case SetSystemClock(now) => s.(shared := s.shared.(system := now))
    case BeginCallback(thread, cb) => s.(callbacks := s.callbacks[thread := cb])
    case StepThread(thread) => ActThread(p, s, thread)
  }

  const NO_FLAGS := Flags(false, false, false)

  /** A process that has just been constructed, at any reading of the clocks. */
  function Initial(steady: nat, system: int): State {
    State(Shared(NO_FLAGS, steady, system), map[], map[], Counter(0, 0), Counter(0, 0))
  }

  /** The actions can be taken one after another from `s`. */
  ghost predicate IsRun(p: Process, s: State, run: seq<Action>)
    decreases |run|
  {
    run != [] ==> CanAct(p, s, run[0]) && IsRun(p, Act(p, s, run[0]), run[1..])
  }

  ghost function After(p: Process, s: State, run: seq<Action>): State
    requires IsRun(p, s, run)
    decreases |run|
  {
    if run == [] then s else After(p, Act(p, s, run[0]), run[1..])
  }
}
