/** The messages the Adapter Runtime exchanges with the adapter, and the contract compiled into it. */
module Wire {
  import opened Errors
  import opened FloatingPoint
  import opened Json

  datatype Schema = Schema(messageId: nat, typeName: string, version: nat, fingerprint: nat)

  /** What the strict parser makes of a payload's bytes: a tree, a rejection, or an exception of the
      JSON library when the nesting is deeper than its limit. */
  datatype Text = Strict(value: Json) | NotStrict | TooDeep

  datatype Payload = Payload(isJson: bool, schema: Option<Schema>, size: nat, text: Text)

  datatype Scope = Scope(kind: string, key: string, attributes: map<string, string>)

  datatype InstanceSpec = InstanceSpec(configuration: Option<Payload>, secrets: nat, scope: Option<Scope>)

  datatype WorkContext = WorkContext(
    capabilityId: string,
    contractVersion: nat,
    contractDigest: string,
    endpointId: string,
    deadline: int,
    subject: Option<Scope>)

  datatype OperationRequest = OperationRequest(context: WorkContext, input: Payload)

  datatype EnabledCapability = EnabledCapability(
    capabilityId: string,
    contractVersion: nat,
    contractDigest: string,
    endpointIds: seq<string>)

  datatype Limits = Limits(
    requestBytes: nat,
    responseBytes: nat,
    concurrency: nat,
    streams: nat,
    streamChunkBytes: nat,
    streamChunkMessages: nat)

  /** An endpoint as compiled in. */
  datatype Endpoint = Endpoint(
    capabilityId: string,
    contractVersion: nat,
    contractDigest: string,
    endpointId: string,
    input: Schema,
    output: Schema,
    defaultTimeoutMs: nat,
    maximumTimeoutMs: nat,
    limits: Limits)

  /** The compiled contract and the name checks of foreign libraries; the checks are arbitrary. */
  datatype Environment = Environment(
    fp: Platform,
    publish: Endpoint,
    service: Endpoint,
    configuration: Schema,
    isTopicName: string -> bool,
    isMessageType: string -> bool,
    isServiceType: string -> bool,
    isRmwName: string -> bool,
    isScopeKey: string -> bool)
}
