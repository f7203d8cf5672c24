/** Validation of an operation request: everything that is checked before any ROS entity exists. */
module Requests {
  import opened Errors
  import opened FloatingPoint
  import opened Json
  import opened Wire
  import opened NativeContext
  import opened Capabilities

  const MAXIMUM_WAIT_MS: nat := 300000
  const MAXIMUM_NAME_BYTES: nat := 1024
  const MAXIMUM_TYPE_BYTES: nat := 256

  /** What an operation has to do once its request is valid. */
  datatype Plan =
    | PublishPlan(topic: string, messageType: string, message: Json, depth: nat,
                  reliable: bool, transientLocal: bool, waitMs: nat)
    | ServicePlan(service: string, serviceType: string, request: Json, waitMs: nat, callMs: nat)
  {
    function Body(): Json {
      if PublishPlan? then message else request
    }
  }

  /** The only errors validation raises. */
  predicate IsRequestError(e: Error) {
    IsPermanent(e) || e == ToolsError(ResourceExhausted, RequestTooLarge) || e == UntypedException
  }

  function RequiredString(fields: map<string, Json>, name: string): Result<string> {
    if name !in fields || !fields[name].Str? || fields[name].s == "" then Err(PermanentError(InvalidRequest))
    else Ok(fields[name].s)
  }

  /** asInt64 is only reached for values it does not throw on. */
  function RequiredUInt(fp: Platform, fields: map<string, Json>, name: string, lo: nat, hi: nat): (r: Result<nat>)
    ensures r.Ok? ==> lo <= r.value <= hi
    ensures r.Ok? <==>
      name in fields && IsIntegral(fp, fields[name]) && lo <= IntegerOf(fp, fields[name]) <= hi
  {
    if name !in fields || !IsIntegral(fp, fields[name])
       || (!AsInt64Throws(fp, fields[name]) && IntegerOf(fp, fields[name]) < 0) then
      Err(PermanentError(InvalidRequest))
    else
      var n := IntegerOf(fp, fields[name]);
      if n < lo || n > hi then Err(PermanentError(InvalidRequest)) else Ok(n)
  }

  function RequiredObject(fields: map<string, Json>, name: string): Result<Json> {
    if name !in fields || !fields[name].Obj? then Err(PermanentError(InvalidRequest))
    else Ok(fields[name])
  }

  function ValidateGraphName(env: Environment, name: string): Result<()> {
    if name == "" || name[0] != '/' || |name| > MAXIMUM_NAME_BYTES || !env.isTopicName(name) then
      Err(PermanentError(InvalidRosName))
    else Ok(())
  }

  function ValidateType(name: string, matches: string -> bool): Result<()> {
    if |name| > MAXIMUM_TYPE_BYTES || !matches(name) then Err(PermanentError(InvalidRosType)) else Ok(())
  }

  function ParseInput(payload: Payload, expected: Schema, maximumBytes: nat): Result<map<string, Json>> {
    if !payload.isJson || payload.schema != Some(expected) then
      Err(PermanentError(UnsupportedInputContract))
    else if payload.size > maximumBytes then Err(ToolsError(ResourceExhausted, RequestTooLarge))
    else if payload.text.TooDeep? then Err(UntypedException)
    else if payload.text.NotStrict? then Err(PermanentError(InvalidJson))
    else if !payload.text.value.Obj? then Err(PermanentError(InvalidRequest))
    else Ok(payload.text.value.fields)
  }

  function RejectUnknown(fields: map<string, Json>, allowed: set<string>): Result<()> {
    if fields.Keys <= allowed then Ok(()) else Err(PermanentError(InvalidRequest))
  }

  function ParseChoice(value: string, first: string, second: string): Result<bool> {
    if value == first then Ok(true) else if value == second then Ok(false)
    else Err(PermanentError(InvalidRequest))
  }

  function ValidatePublish(env: Environment, c: Context, request: OperationRequest): (r: Result<Plan>)
    ensures r.Err? ==> IsRequestError(r.error)
    ensures r.Ok? ==> r.value.PublishPlan? && r.value.waitMs <= MAXIMUM_WAIT_MS
    ensures r.Ok? ==> SubjectAccepted(c, request.context)
    ensures r.Ok? ==> request.input.schema == Some(env.publish.input)
  {
    var _ :- ValidateInvocationContext(request.context, env.publish);
    var _ :- ValidateSubject(c, request.context);
    var input :- ParseInput(request.input, env.publish.input, env.publish.limits.requestBytes);
    var _ :- RejectUnknown(input, {"topic", "messageType", "message", "qosDepth", "reliability",
                                   "durability", "waitForSubscribersMs"});
    var topic :- RequiredString(input, "topic");
    var messageType :- RequiredString(input, "messageType");
    var _ :- ValidateGraphName(env, topic);
    var _ :- ValidateType(messageType, env.isMessageType);
    var message :- RequiredObject(input, "message");
    var depth :- RequiredUInt(env.fp, input, "qosDepth", 1, 1000);
    var reliability :- RequiredString(input, "reliability");
    var durability :- RequiredString(input, "durability");
    var waitMs :- RequiredUInt(env.fp, input, "waitForSubscribersMs", 0, MAXIMUM_WAIT_MS);
    var reliable :- ParseChoice(reliability, "reliable", "best-effort");
    var isVolatile :- ParseChoice(durability, "volatile", "transient-local");
    Ok(PublishPlan(topic, messageType, message, depth, reliable, !isVolatile, waitMs))
  }

  function ValidateService(env: Environment, c: Context, request: OperationRequest): (r: Result<Plan>)
    ensures r.Err? ==> IsRequestError(r.error)
    ensures r.Ok? ==>
      r.value.ServicePlan? && r.value.waitMs <= MAXIMUM_WAIT_MS && 1 <= r.value.callMs <= MAXIMUM_WAIT_MS
    ensures r.Ok? ==> SubjectAccepted(c, request.context)
    ensures r.Ok? ==> request.input.schema == Some(env.service.input)
  {
    var _ :- ValidateInvocationContext(request.context, env.service);
    var _ :- ValidateSubject(c, request.context);
    var input :- ParseInput(request.input, env.service.input, env.service.limits.requestBytes);
    var _ :- RejectUnknown(input, {"service", "serviceType", "request", "waitForServiceMs", "callTimeoutMs"});
    var service :- RequiredString(input, "service");
    var serviceType :- RequiredString(input, "serviceType");
    var _ :- ValidateGraphName(env, service);
    var _ :- ValidateType(serviceType, env.isServiceType);
    var body :- RequiredObject(input, "request");
    var waitMs :- RequiredUInt(env.fp, input, "waitForServiceMs", 0, MAXIMUM_WAIT_MS);
    var callMs :- RequiredUInt(env.fp, input, "callTimeoutMs", 1, MAXIMUM_WAIT_MS);
    Ok(ServicePlan(service, serviceType, body, waitMs, callMs))
  }

  // ---- What is accepted ----

  predicate IsField(fields: map<string, Json>, name: string, value: Json) {
    name in fields && fields[name] == value
  }

  predicate IsText(fields: map<string, Json>, name: string) {
    name in fields && fields[name].Str? && fields[name].s != ""
  }

  predicate IsObject(fields: map<string, Json>, name: string) {
    name in fields && fields[name].Obj?
  }

  ghost predicate IsCount(fp: Platform, fields: map<string, Json>, name: string, lo: nat, hi: nat, n: nat) {
    name in fields && IsWhole(fp, fields[name], n) && lo <= n <= hi
  }

  predicate IsGraphName(env: Environment, name: string) {
    name != "" && name[0] == '/' && |name| <= 1024 && env.isTopicName(name)
  }

  predicate IsTypeName(name: string, matches: string -> bool) {
    name != "" && |name| <= 256 && matches(name)
  }

  /** The work names this endpoint. */
  predicate IsMeantFor(request: OperationRequest, e: Endpoint) {
    && request.context.capabilityId == e.capabilityId
    && request.context.contractVersion == e.contractVersion
    && request.context.contractDigest == e.contractDigest
    && request.context.endpointId == e.endpointId
  }

  /** The work's subject is the context. */
  predicate IsAbout(c: Context, request: OperationRequest) {
    request.context.subject == Some(CanonicalScope(c))
  }

  /** The input is declared as JSON of the endpoint's schema. */
  predicate IsDeclared(request: OperationRequest, e: Endpoint) {
    request.input.isJson && request.input.schema == Some(e.input)
  }

  /** The work is meant for this endpoint, in this context, and its input is JSON of the endpoint's
      schema and within its limit. */
  predicate IsAddressedTo(c: Context, request: OperationRequest, e: Endpoint) {
    && IsMeantFor(request, e) && IsAbout(c, request) && IsDeclared(request, e)
    && request.input.size <= e.limits.requestBytes
    && request.input.text.Strict? && request.input.text.value.Obj?
  }

  ghost predicate DescribesPublish(env: Environment, fields: map<string, Json>, plan: Plan) {
    && plan.PublishPlan?
    && fields.Keys == {"topic", "messageType", "message", "qosDepth", "reliability",
                       "durability", "waitForSubscribersMs"}
    && IsField(fields, "topic", Str(plan.topic)) && IsGraphName(env, plan.topic)
    && IsField(fields, "messageType", Str(plan.messageType)) && IsTypeName(plan.messageType, env.isMessageType)
    && IsField(fields, "message", plan.message) && plan.message.Obj?
    && IsCount(env.fp, fields, "qosDepth", 1, 1000, plan.depth)
    && IsField(fields, "reliability", Str(if plan.reliable then "reliable" else "best-effort"))
    && IsField(fields, "durability", Str(if plan.transientLocal then "transient-local" else "volatile"))
    && IsCount(env.fp, fields, "waitForSubscribersMs", 0, 300000, plan.waitMs)
  }

  ghost predicate DescribesCall(env: Environment, fields: map<string, Json>, plan: Plan) {
    && plan.ServicePlan?
    && fields.Keys == {"service", "serviceType", "request", "waitForServiceMs", "callTimeoutMs"}
    && IsField(fields, "service", Str(plan.service)) && IsGraphName(env, plan.service)
    && IsField(fields, "serviceType", Str(plan.serviceType)) && IsTypeName(plan.serviceType, env.isServiceType)
    && IsField(fields, "request", plan.request) && plan.request.Obj?
    && IsCount(env.fp, fields, "waitForServiceMs", 0, 300000, plan.waitMs)
    && IsCount(env.fp, fields, "callTimeoutMs", 1, 300000, plan.callMs)
  }

  ghost predicate Describes(env: Environment, request: OperationRequest, plan: Plan) {
    && request.input.text.Strict? && request.input.text.value.Obj?
    && if plan.PublishPlan? then DescribesPublish(env, request.input.text.value.fields, plan)
       else DescribesCall(env, request.input.text.value.fields, plan)
  }

  lemma SubjectExactly(c: Context, request: OperationRequest)
    ensures SubjectAccepted(c, request.context) <==> IsAbout(c, request)
  {
    if request.context.subject.Some? {
      AttributesExact(c, request.context.subject.value.attributes);
    }
  }

  /** A number is read exactly if it stands for an integer within the limits. */
  lemma CountExactly(fp: Platform, fields: map<string, Json>, name: string, lo: nat, hi: nat, n: nat)
    ensures RequiredUInt(fp, fields, name, lo, hi) == Ok(n) <==> IsCount(fp, fields, name, lo, hi, n)
    ensures RequiredUInt(fp, fields, name, lo, hi).Ok? ==>
      IsCount(fp, fields, name, lo, hi, RequiredUInt(fp, fields, name, lo, hi).value)
    ensures RequiredUInt(fp, fields, name, lo, hi).Err? ==>
      RequiredUInt(fp, fields, name, lo, hi) == Err(PermanentError(InvalidRequest))
  {
    if name in fields {
      IntegralExactly(fp, fields[name], n);
      if IsIntegral(fp, fields[name]) {
        IntegralExactly(fp, fields[name], IntegerOf(fp, fields[name]));
      }
    }
  }

  /** A publish is planned exactly as an acceptable request describes it: every field present, no
      other, each of its kind and within its limits. */
  lemma {:induction false} PublishPlannedExactly(env: Environment, c: Context, request: OperationRequest, plan: Plan)
    ensures ValidatePublish(env, c, request) == Ok(plan) <==>
      IsAddressedTo(c, request, env.publish) && DescribesPublish(env, request.input.text.value.fields, plan)
  {
    hide ValidatePublish, DescribesPublish, IsAddressedTo;
    if ValidatePublish(env, c, request) == Ok(plan) {
      PublishPlanDescribes(env, c, request, plan);
    } else if IsAddressedTo(c, request, env.publish)
              && DescribesPublish(env, AddressedFields(c, request, env.publish), plan) {
      DescribedPublishIsPlanned(env, c, request, plan);
    }
  }

  function AddressedFields(c: Context, request: OperationRequest, e: Endpoint): map<string, Json>
    requires IsAddressedTo(c, request, e)
  {
    request.input.text.value.fields
  }

  lemma PublishPlanDescribes(env: Environment, c: Context, request: OperationRequest, plan: Plan)
    requires ValidatePublish(env, c, request) == Ok(plan)
    ensures IsAddressedTo(c, request, env.publish) && DescribesPublish(env, request.input.text.value.fields, plan)
  {
    hide SubjectAccepted, CanonicalScope, RequiredUInt, IsCount;
    SubjectExactly(c, request);
    var fields := request.input.text.value.fields;
    CountExactly(env.fp, fields, "qosDepth", 1, 1000, plan.depth);
    CountExactly(env.fp, fields, "waitForSubscribersMs", 0, 300000, plan.waitMs);
    CountedFieldsPresent(env.fp, fields, plan.depth, plan.waitMs);
  }

  lemma DescribedPublishIsPlanned(env: Environment, c: Context, request: OperationRequest, plan: Plan)
    requires IsAddressedTo(c, request, env.publish) && DescribesPublish(env, request.input.text.value.fields, plan)
    ensures ValidatePublish(env, c, request) == Ok(plan)
  {
    hide SubjectAccepted, CanonicalScope, RequiredUInt, IsCount;
    SubjectExactly(c, request);
    var fields := request.input.text.value.fields;
    CountExactly(env.fp, fields, "qosDepth", 1, 1000, plan.depth);
    CountExactly(env.fp, fields, "waitForSubscribersMs", 0, 300000, plan.waitMs);
    assert |"reliable"| == 8 && |"best-effort"| == 11 && |"volatile"| == 8 && |"transient-local"| == 15;
  }

  lemma CountedFieldsPresent(fp: Platform, fields: map<string, Json>, depth: nat, waitMs: nat)
    ensures IsCount(fp, fields, "qosDepth", 1, 1000, depth) ==> "qosDepth" in fields
    ensures IsCount(fp, fields, "waitForSubscribersMs", 0, 300000, waitMs) ==> "waitForSubscribersMs" in fields
    ensures IsCount(fp, fields, "waitForServiceMs", 0, 300000, depth) ==> "waitForServiceMs" in fields
    ensures IsCount(fp, fields, "callTimeoutMs", 1, 300000, waitMs) ==> "callTimeoutMs" in fields
  {
  }

  lemma {:induction false} CallPlannedExactly(env: Environment, c: Context, request: OperationRequest, plan: Plan)
    ensures ValidateService(env, c, request) == Ok(plan) <==>
      IsAddressedTo(c, request, env.service) && DescribesCall(env, request.input.text.value.fields, plan)
  {
    hide SubjectAccepted, CanonicalScope, RequiredUInt, IsCount;
    SubjectExactly(c, request);
    if IsAddressedTo(c, request, env.service) && plan.ServicePlan? {
      var fields := request.input.text.value.fields;
      CountExactly(env.fp, fields, "waitForServiceMs", 0, 300000, plan.waitMs);
      CountExactly(env.fp, fields, "callTimeoutMs", 1, 300000, plan.callMs);
      CountedFieldsPresent(env.fp, fields, plan.waitMs, plan.callMs);
    }
  }

  // ---- How the others are refused ----

  /** The fields of a publish that come after its names are all there and within their limits. */
  ghost predicate HasPublishBody(fp: Platform, fields: map<string, Json>) {
    && IsObject(fields, "message")
    && (exists n: nat :: IsCount(fp, fields, "qosDepth", 1, 1000, n))
    && (IsField(fields, "reliability", Str("reliable")) || IsField(fields, "reliability", Str("best-effort")))
    && (IsField(fields, "durability", Str("volatile")) || IsField(fields, "durability", Str("transient-local")))
    && (exists n: nat :: IsCount(fp, fields, "waitForSubscribersMs", 0, 300000, n))
  }

  ghost predicate HasCallBody(fp: Platform, fields: map<string, Json>) {
    && IsObject(fields, "request")
    && (exists n: nat :: IsCount(fp, fields, "waitForServiceMs", 0, 300000, n))
    && (exists n: nat :: IsCount(fp, fields, "callTimeoutMs", 1, 300000, n))
  }

  /** How the fields of a publish are refused: invalid_request for an unknown or missing field or one
      out of its limits, unless the topic or the type is no name, which is found out before the
      fields behind them are looked at. */
  ghost predicate ArePublishFieldsRefused(env: Environment, fields: map<string, Json>, e: Error) {
    if !(fields.Keys <= {"topic", "messageType", "message", "qosDepth", "reliability",
                         "durability", "waitForSubscribersMs"})
       || !IsText(fields, "topic") || !IsText(fields, "messageType")
    then e == PermanentError(InvalidRequest)
    else if !IsGraphName(env, fields["topic"].s) then e == PermanentError(InvalidRosName)
    else if !IsTypeName(fields["messageType"].s, env.isMessageType) then e == PermanentError(InvalidRosType)
    else !HasPublishBody(env.fp, fields) && e == PermanentError(InvalidRequest)
  }

  ghost predicate AreCallFieldsRefused(env: Environment, fields: map<string, Json>, e: Error) {
    if !(fields.Keys <= {"service", "serviceType", "request", "waitForServiceMs", "callTimeoutMs"})
       || !IsText(fields, "service") || !IsText(fields, "serviceType")
    then e == PermanentError(InvalidRequest)
    else if !IsGraphName(env, fields["service"].s) then e == PermanentError(InvalidRosName)
    else if !IsTypeName(fields["serviceType"].s, env.isServiceType) then e == PermanentError(InvalidRosType)
    else !HasCallBody(env.fp, fields) && e == PermanentError(InvalidRequest)
  }

  /** How work is refused before its fields are looked at, None if it is not. */
  predicate IsEnvelopeRefused(c: Context, request: OperationRequest, endpoint: Endpoint, e: Error) {
    if !IsMeantFor(request, endpoint) then e == PermanentError(InvalidWorkContext)
    else if !IsAbout(c, request) then e == PermanentError(InvalidSubject)
    else if !IsDeclared(request, endpoint) then e == PermanentError(UnsupportedInputContract)
    else if request.input.size > endpoint.limits.requestBytes then e == ToolsError(ResourceExhausted, RequestTooLarge)
    else if request.input.text.TooDeep? then e == UntypedException
    else if request.input.text.NotStrict? then e == PermanentError(InvalidJson)
    else !request.input.text.value.Obj? && e == PermanentError(InvalidRequest)
  }

  ghost predicate IsPublishRefused(env: Environment, c: Context, request: OperationRequest, e: Error) {
    if IsAddressedTo(c, request, env.publish)
    then ArePublishFieldsRefused(env, request.input.text.value.fields, e)
    else IsEnvelopeRefused(c, request, env.publish, e)
  }

  ghost predicate IsCallRefused(env: Environment, c: Context, request: OperationRequest, e: Error) {
    if IsAddressedTo(c, request, env.service)
    then AreCallFieldsRefused(env, request.input.text.value.fields, e)
    else IsEnvelopeRefused(c, request, env.service, e)
  }

  /** Class and code of every refusal of a publish, by the first thing wrong with the request. */
  lemma {:induction false} PublishRefusedExactly(env: Environment, c: Context, request: OperationRequest, e: Error)
    ensures ValidatePublish(env, c, request) == Err(e) <==> IsPublishRefused(env, c, request, e)
  {
    hide SubjectAccepted, CanonicalScope, RequiredUInt, IsCount;
    SubjectExactly(c, request);
    if IsAddressedTo(c, request, env.publish) {
      var fields := request.input.text.value.fields;
      CountIsThere(env.fp, fields, "qosDepth", 1, 1000);
      CountIsThere(env.fp, fields, "waitForSubscribersMs", 0, 300000);
      assert |"reliable"| == 8 && |"best-effort"| == 11 && |"volatile"| == 8 && |"transient-local"| == 15;
    }
  }

  lemma {:induction false} CallRefusedExactly(env: Environment, c: Context, request: OperationRequest, e: Error)
    ensures ValidateService(env, c, request) == Err(e) <==> IsCallRefused(env, c, request, e)
  {
    hide SubjectAccepted, CanonicalScope, RequiredUInt, IsCount;
    SubjectExactly(c, request);
    if IsAddressedTo(c, request, env.service) {
      var fields := request.input.text.value.fields;
      CountIsThere(env.fp, fields, "waitForServiceMs", 0, 300000);
      CountIsThere(env.fp, fields, "callTimeoutMs", 1, 300000);
    }
  }

  lemma CountIsThere(fp: Platform, fields: map<string, Json>, name: string, lo: nat, hi: nat)
    ensures RequiredUInt(fp, fields, name, lo, hi).Ok? <==> exists n: nat :: IsCount(fp, fields, name, lo, hi, n)
    ensures RequiredUInt(fp, fields, name, lo, hi).Err? ==>
      RequiredUInt(fp, fields, name, lo, hi) == Err(PermanentError(InvalidRequest))
  {
    CountExactly(fp, fields, name, lo, hi, 0);
    if n: nat :| IsCount(fp, fields, name, lo, hi, n) {
      CountExactly(fp, fields, name, lo, hi, n);
    }
  }

  /** Work that is meant for the endpoint and about the context is refused as too large exactly if its
      declared input exceeds the limit. */
  lemma TooLargeExactly(env: Environment, c: Context, request: OperationRequest)
    ensures ValidatePublish(env, c, request) == Err(ToolsError(ResourceExhausted, RequestTooLarge)) <==>
      && IsMeantFor(request, env.publish) && IsAbout(c, request) && IsDeclared(request, env.publish)
      && env.publish.limits.requestBytes < request.input.size
    ensures ValidateService(env, c, request) == Err(ToolsError(ResourceExhausted, RequestTooLarge)) <==>
      && IsMeantFor(request, env.service) && IsAbout(c, request) && IsDeclared(request, env.service)
      && env.service.limits.requestBytes < request.input.size
  {
    hide ValidatePublish, ValidateService, IsAbout, HasPublishBody, HasCallBody, IsGraphName, IsTypeName;
    var e := ToolsError(ResourceExhausted, RequestTooLarge);
    PublishRefusedExactly(env, c, request, e);
    CallRefusedExactly(env, c, request, e);
  }
}
