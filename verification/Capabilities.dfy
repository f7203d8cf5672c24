/** Capability contracts: comparison with what is compiled in, and binding of the callbacks. */
module Capabilities {
  import opened Errors
  import opened Wire

  datatype InteractionMode = Operation | OtherInteraction
  datatype SideEffectClass = NonIdempotent | OtherSideEffect
  datatype IdempotencyMode = Required | OtherIdempotency

  datatype EndpointContract = EndpointContract(
    endpointId: string,
    input: Option<Schema>,
    output: Option<Schema>,
    mode: InteractionMode,
    sideEffect: SideEffectClass,
    idempotency: IdempotencyMode,
    cancellationSupported: bool,
    deadlineRequired: bool,
    defaultTimeoutMs: nat,
    maximumTimeoutMs: nat,
    limits: Limits)

  datatype CapabilityContract = CapabilityContract(
    capabilityId: string,
    contractVersion: nat,
    contractDigest: string,
    endpoints: seq<EndpointContract>)

  /** The one contract a compiled endpoint stands for. */
  function CompiledContract(e: Endpoint): CapabilityContract {
    CapabilityContract(e.capabilityId, e.contractVersion, e.contractDigest, [
      EndpointContract(e.endpointId, Some(e.input), Some(e.output),
        Operation, NonIdempotent, Required, true, true,
        e.defaultTimeoutMs, e.maximumTimeoutMs,
        e.limits.(streams := 0, streamChunkBytes := 0, streamChunkMessages := 0))])
  }

  method FindEndpoint(c: CapabilityContract, id: string) returns (r: Option<EndpointContract>)
    ensures r.None? ==> forall i :: 0 <= i < |c.endpoints| ==> c.endpoints[i].endpointId != id
    ensures r.Some? ==>
      exists i :: 0 <= i < |c.endpoints| && r.value == c.endpoints[i] && r.value.endpointId == id &&
                  forall h :: 0 <= h < i ==> c.endpoints[h].endpointId != id
  {
    for i := 0 to |c.endpoints|
      invariant forall h :: 0 <= h < i ==> c.endpoints[h].endpointId != id
    {
      if c.endpoints[i].endpointId == id {
        return Some(c.endpoints[i]);
      }
    }
    return None;
  }

  /** The field-by-field comparison accepts the compiled contract and nothing else. */
  method ValidateExpectedContract(actual: CapabilityContract, expected: Endpoint) returns (ok: bool)
    ensures ok <==> actual == CompiledContract(expected)
  {
    if actual.capabilityId != expected.capabilityId
       || actual.contractVersion != expected.contractVersion
       || actual.contractDigest != expected.contractDigest
       || |actual.endpoints| != 1 {
      return false;
    }
    var found := FindEndpoint(actual, expected.endpointId);
    if found.None? {
      assert actual.endpoints[0].endpointId != expected.endpointId;
      return false;
    }
    var endpoint := found.value;
    assert actual.endpoints == [endpoint];
    if endpoint.input != Some(expected.input) || endpoint.output != Some(expected.output)
       || endpoint.mode != Operation || endpoint.sideEffect != NonIdempotent
       || endpoint.idempotency != Required
       || !endpoint.cancellationSupported || !endpoint.deadlineRequired {
      return false;
    }
    var limits := endpoint.limits;
    if endpoint.defaultTimeoutMs != expected.defaultTimeoutMs
       || endpoint.maximumTimeoutMs != expected.maximumTimeoutMs
       || limits.requestBytes != expected.limits.requestBytes
       || limits.responseBytes != expected.limits.responseBytes
       || limits.concurrency != expected.limits.concurrency
       || limits.streams != 0 || limits.streamChunkBytes != 0 || limits.streamChunkMessages != 0 {
      return false;
    }
    return true;
  }

  predicate GrantMatches(grant: EnabledCapability, expected: Endpoint) {
    && grant.capabilityId == expected.capabilityId
    && grant.contractVersion == expected.contractVersion
    && grant.contractDigest == expected.contractDigest
    && grant.endpointIds == [expected.endpointId]
  }

  /** A grant matches exactly if it is the compiled capability with its one endpoint enabled. */
  lemma GrantMatchesExactly(grant: EnabledCapability, e: Endpoint)
    ensures GrantMatches(grant, e) <==>
      grant == EnabledCapability(e.capabilityId, e.contractVersion, e.contractDigest, [e.endpointId])
  {
  }

  function ValidateInvocationContext(work: WorkContext, expected: Endpoint): Result<()> {
    if work.capabilityId != expected.capabilityId
       || work.contractVersion != expected.contractVersion
       || work.contractDigest != expected.contractDigest
       || work.endpointId != expected.endpointId
    then Err(PermanentError(InvalidWorkContext))
    else Ok(())
  }

  // ---- Binding ----

  /** Which start, stop and operation functions are bound. */
  datatype Callbacks = PublishCallbacks | ServiceCallbacks

  /** The runtime's client configuration.  `accepts` decides, arbitrarily, which binds succeed. */
  class ClientConfig {
    const capabilities: seq<CapabilityContract>
    const accepts: string -> bool
    var callbacks: map<string, Callbacks>

    constructor (capabilities: seq<CapabilityContract>, accepts: string -> bool)
      ensures this.capabilities == capabilities && this.accepts == accepts && callbacks == map[]
    {
      this.capabilities := capabilities;
      this.accepts := accepts;
      callbacks := map[];
    }

    method BindCapability(id: string, c: Callbacks) returns (ok: bool)
      modifies this
      ensures ok == accepts(id)
      ensures callbacks == if ok then old(callbacks)[id := c] else old(callbacks)
    {
      ok := accepts(id);
      if ok {
        callbacks := callbacks[id := c];
      }
    }
  }

  /** The two supplied contracts are the two compiled ones, in either order. */
  predicate SuppliesBoth(capabilities: seq<CapabilityContract>, env: Environment) {
    || capabilities == [CompiledContract(env.publish), CompiledContract(env.service)]
    || capabilities == [CompiledContract(env.service), CompiledContract(env.publish)]
  }

  /** The first `n` contracts are compiled contracts with distinct ids, and the flags say which. */
  ghost predicate Bound(capabilities: seq<CapabilityContract>, env: Environment, n: nat, publish: bool, service: bool)
    requires n <= |capabilities|
  {
    && (forall i :: 0 <= i < n ==>
          || (publish && capabilities[i] == CompiledContract(env.publish))
          || (service && capabilities[i] == CompiledContract(env.service)))
    && (forall i, h :: 0 <= i < h < n ==> capabilities[i].capabilityId != capabilities[h].capabilityId)
    && (publish ==> exists i :: 0 <= i < n && capabilities[i] == CompiledContract(env.publish))
    && (service ==> exists i :: 0 <= i < n && capabilities[i] == CompiledContract(env.service))
  }

  /** Binding succeeds exactly when the runtime supplies the two compiled contracts, in either
      order, and accepts both binds; then each id is bound to its own callbacks.  The two flags at
      the end of the loop are then necessarily both set. */
  method BindCapabilities(config: ClientConfig?, hasAdapter: bool, env: Environment) returns (ok: bool)
    requires env.publish.capabilityId != env.service.capabilityId
    modifies config
    ensures ok <==>
      && config != null && hasAdapter
      && SuppliesBoth(config.capabilities, env)
      && config.accepts(env.publish.capabilityId) && config.accepts(env.service.capabilityId)
    ensures ok ==> config.callbacks == old(config.callbacks)
      [env.publish.capabilityId := PublishCallbacks][env.service.capabilityId := ServiceCallbacks]
    ensures config != null ==> forall id :: id in config.callbacks ==>
      || (id in old(config.callbacks) && config.callbacks[id] == old(config.callbacks)[id])
      || (id == env.publish.capabilityId && config.callbacks[id] == PublishCallbacks)
      || (id == env.service.capabilityId && config.callbacks[id] == ServiceCallbacks)
  {
    if config == null || !hasAdapter || |config.capabilities| != 2 {
      return false;
    }
    var publishBound, serviceBound := false, false;
    for i := 0 to |config.capabilities|
      invariant Bound(config.capabilities, env, i, publishBound, serviceBound)
      invariant forall h :: 0 <= h < i ==> config.accepts(config.capabilities[h].capabilityId)
      invariant config.callbacks == BoundCallbacks(old(config.callbacks), env, publishBound, serviceBound)
    {
      var contract := config.capabilities[i];
      var isPublish := contract.capabilityId == env.publish.capabilityId;
      if !isPublish && contract.capabilityId != env.service.capabilityId {
        return false;
      }
      var expected := if isPublish then env.publish else env.service;
      if if isPublish then publishBound else serviceBound {
        return false;
      }
      var valid := ValidateExpectedContract(contract, expected);
      if !valid {
        return false;
      }
      var bind := config.BindCapability(contract.capabilityId,
        if isPublish then PublishCallbacks else ServiceCallbacks);
      if !bind {
        return false;
      }
      BoundStep(config.capabilities, env, i, publishBound, serviceBound);
      if isPublish {
        publishBound := true;
      } else {
        serviceBound := true;
      }
    }
    BothBound(config.capabilities, env, publishBound, serviceBound);
    return publishBound && serviceBound;
  }

  function BoundCallbacks(before: map<string, Callbacks>, env: Environment, publish: bool, service: bool)
    : map<string, Callbacks>
  {
    var p := if publish then before[env.publish.capabilityId := PublishCallbacks] else before;
    if service then p[env.service.capabilityId := ServiceCallbacks] else p
  }

  lemma BoundStep(capabilities: seq<CapabilityContract>, env: Environment, n: nat, publish: bool, service: bool)
    requires env.publish.capabilityId != env.service.capabilityId
    requires n < |capabilities| && Bound(capabilities, env, n, publish, service)
    ensures capabilities[n] == CompiledContract(env.publish) && !publish ==>
      Bound(capabilities, env, n + 1, true, service)
    ensures capabilities[n] == CompiledContract(env.service) && !service ==>
      Bound(capabilities, env, n + 1, publish, true)
  {
  }

  /** Two contracts with distinct ids, each one of two: both are there. */
  lemma BothBound(capabilities: seq<CapabilityContract>, env: Environment, publish: bool, service: bool)
    requires env.publish.capabilityId != env.service.capabilityId
    requires |capabilities| == 2 && Bound(capabilities, env, 2, publish, service)
    ensures publish && service && SuppliesBoth(capabilities, env)
  {
    assert capabilities == [capabilities[0], capabilities[1]];
  }
}
