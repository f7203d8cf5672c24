# ROS 2 tools adapter: model and proofs

The adapter lets the Adapter Runtime publish one ROS 2 message or call one ROS 2 service. Two parts of it are
modelled here and proved about.

**The JSON codec** walks a runtime type description and writes JSON into raw message memory at nested offsets, or
reads that memory back as JSON.

- `Descriptors` has the type table (types refer to one another by index, so cyclic types exist), the memory a message
  occupies, the layout predicate (members inside their message and disjoint) and the tree a piece of memory stands for.
- `TreeSemantics` says, with no memory in sight, which JSON a type accepts (`ConformsMessage`), the value that results
  (`OverlayMessage`), how everything else is rejected (`RejectsMessage`) and the JSON a value projects to
  (`EncodeMessage`). `ScalarCodec` is the code for one scalar; `ScalarSpec` says in literal limits, and without that
  code, what a field makes of a JSON value and how a value is printed. `EncodingSpec` says which JSON says what a
  message is, and for what reason a message has none.
- `JsonCodec` is the code as it runs: methods that write through an array at an offset, resize sequences and loop over
  members and elements. `FlatDecode` says what those writes do to memory, branch by branch; `Separation` and
  `Refinement` show that this is the tree semantics.
- `CodecLaws`, `CodecTheorems`, `Frame`, `Projection` and `MemberOrder` hold the promises: exact acceptance and exact
  untyped failures, round trip, normal form, frame at every depth, which messages and which types always have a JSON
  value, independence of member order. `DynamicMessage` is the move-only owner of message memory; a ledger that is a
  plain function of the program says what becomes of every buffer.

**The adapter** is a transition system (`Adapter`): any number of publishes and calls in flight, each at a program
point; lifecycle callbacks that interleave at every atomic load, store and exchange; a steady clock that only moves
forward and a system clock that is set at will; cancellation; subscriber counts and readiness that change between any
two reads; responses that race with timeouts; library calls that throw.

- `AdapterSafety` has the invariant of an operation and a lemma per group of steps; `AdapterTheorems` states the
  promises over every reachable state and `AdapterTermination` bounds the steps of an operation. `AdapterRuns` and
  `AdapterEnds` state promises about runs by the states in which steps are taken and not by what operations record.
  `Lifecycle` has the class with the three flags and the promises about them.
- `Limits` shows where a promise stops, with runs that reach the counterexample; `Successes` shows that every acceptable
  request can succeed.
- `NativeContext`, `Capabilities` and `Requests` are the validation in front of it all, each refusal with its class and
  code.

## What the proofs found

- *Two failures after dispatch do not read as uncertain.* A dispatched call reports success or uncertain exactly when no
  library call threw while the request was sent or the answer fetched, and the answer fetched, if any, holds nothing
  JSON cannot carry (`AdapterTheorems.ServiceOutcomeExactly`). In the first case the call reads as transient
  `internal_error`, in the second as permanent. Whether the second can happen is a matter of the response type, which
  can be looked up before the call: never if it contains, at any depth, no wide string, long double or incomplete
  member (`AdapterTheorems.PlainResponsesNeverReadPermanent`), and possible for every valid request if it does
  (`Limits.StuckResponsesCanReadPermanent`). The first can happen to every valid request
  (`Limits.ThrowingSendReadsTransient`), and both do for a concrete one
  (`Limits.DispatchedCallsCanReadOtherwise`). The repository's README says that calls that may have reached ROS but
  lose their response end as uncertain; the model follows the code.
- *"Enabled implies applied" needs clears kept apart from starts.* It holds after every atomic step of every run in which
  no clear is in progress together with a start that has passed its checks (`Lifecycle.AdmissionHolds`); starts, stops
  and applies may overlap freely. From every state with such an overlap the process can go on to a capability enabled
  with no spec applied (`Limits.OverlapBreaksAdmission`), and such states are reached
  (`Limits.OverlappingClearBreaksAdmission`).
- *The round trip holds exactly for well-formed messages* (`CodecTheorems.RoundTripsExactly`): encoding does not look
  for NaN or infinity in float and double fields, and what it then prints is rejected.
- *When the codec rejects JSON it raises a typed permanent error, with one exception:* an integral number of 2^63 or
  more makes the JSON library throw when the field is a signed integer and everything before it was fine. The exact
  condition is `TreeSemantics.ThrowsMessage`; a type without signed integers never meets it
  (`CodecTheorems.UnsignedNeverThrows`). A `domainId` of that size throws too.
- The request schemas allow waits of 60000 ms and timeouts of 120000 ms (`schemas/publish-request.schema.json:12`,
  `schemas/service-call-request.schema.json:9-10`); the code allows 300000 ms (`src/tools_adapter.cpp:29`). The model
  follows the code, so the bound proved is 15000 polls.

## Hypotheses

- Descriptors are laid out as a C++ compiler lays out structs (`Descriptors.Layout`): members inside their message and
  disjoint, and no struct containing itself except through a sequence (`depth`). Initialisers leave typed memory
  (`TypedDefaults`). The round trip and the normal form also need distinct member names, complete access functions and,
  where stated, well-formed defaults.
- Floating-point formats are monotone rounding functions that fix the values they represent, each format contained in
  the next wider one (IEEE 754-2019, sections 4.3 and 7.4).
- In an operation, library calls may throw while preparing (loading types, decoding, serialising, creating the entity),
  at every subscriber or readiness read and every wait, at the dispatch, and when the answer is fetched. A request
  whose sending throws counts as dispatched. Polling the future, removing a pending request and building the result do
  not throw.
- A publish sleeps at least 20 ms of steady time; a poll for the reply that does not find it takes at least 20 ms; a
  service wait takes at least a positive time of the process's choosing (`Process.tick`).
- Lifecycle callbacks interleave at every atomic step. Only the lemmas about admission exclude anything, and only the
  overlap above (`NeverOverlaps`, which follows from keeping clears and starts apart, `IsSerialised`).

## Model

| member | source | states |
|---|---|---|
| ScalarCodec.Wrap | src/json_codec.cpp:68-82 | narrowing to an integer type lands in the type's literal range and changes nothing that was in range |
| ScalarCodec.AssignFloatingExact | src/json_codec.cpp:85-97 | a number is accepted exactly when the nearest double is finite and within the field format's largest finite value; what is stored is finite and both a value of the format and a double |
| ScalarCodec.LimitDecidesRange | src/json_codec.cpp:92-93 | comparing with the maximum converted to double decides the range of every floating-point type, even where that conversion overflows |
| ScalarCodec.AssignPrimExact | src/json_codec.cpp:57-97 | a scalar is accepted exactly when its kind and range conform; the stored value is the one the JSON denotes, with no wrap, and is well-formed; the only untyped failure is a signed field given 2^63 or more |
| ScalarSpec.AssignPrimStores | src/json_codec.cpp:57-229 | a field stores a value if and only if the JSON stands for it within the literal limits of the type: integers exactly, floats as the nearest value of the format, strings within their bound |
| ScalarSpec.AssignPrimRefuses | src/json_codec.cpp:57-229 | and raises an error if and only if the kind is wrong, the type or the characters are unsupported, a signed field is given 2^63 or more, or the value is out of range, each with its own code |
| ScalarSpec.IntegerFieldsExactly | src/json_codec.cpp:171-196 | each integer type accepts exactly the integers between its limits, given in digits |
| ScalarCodec.PrimRoundTrip | src/json_codec.cpp:284-342 | projecting a well-formed scalar succeeds and assigning the projection stores the same scalar, for every width and kind |
| ScalarSpec.ProjectPrimPrints | src/json_codec.cpp:284-342 | a typed scalar is projected to exactly the JSON that is its value, infinities and NaN included, a long double as the nearest double |
| ScalarSpec.ProjectPrimUnprintable | src/json_codec.cpp:294-302 | and fails exactly for a long double that is not finite or beyond double, a wide string that is not ASCII, and an unsupported type, each with its own code |
| JsonCodec.RejectUnknownFields | src/json_codec.cpp:39-55 | succeeds exactly when every key names a member; otherwise the error is unknown_message_field |
| JsonCodec.WidenString | src/json_codec.cpp:214-221 | widens exactly the ASCII strings, unchanged; any other string is unsupported_message_field |
| JsonCodec.NarrowString | src/json_codec.cpp:332-342 | narrows exactly the ASCII wide strings, unchanged; any other is unsupported_message_field |
| JsonCodec.AssignMember | src/json_codec.cpp:102-150 | writes to the slot of the member exactly what the specification says, or fails with exactly its error, and changes no other slot of the memory on either outcome |
| JsonCodec.AssignSequence | src/json_codec.cpp:124-150 | resizes the sequence at a header and assigns its elements as specified, touching that header only |
| JsonCodec.AssignItems | src/json_codec.cpp:133-149 | the element loop leaves the specified elements, or the first element's error, and touches no slot outside them |
| JsonCodec.AssignItem | src/json_codec.cpp:135-148 | both element paths, pointer and assign function, write the same specified element in place |
| JsonCodec.AssignScalar | src/json_codec.cpp:152-247 | writes one scalar or one nested message in place, as specified, touching its slots only |
| JsonCodec.AssignFields | src/json_codec.cpp:234-240 | the member loop leaves the specified message at its offset and touches no slot outside the message |
| JsonCodec.MessageFromJson | src/json_codec.cpp:464-477 | decoding succeeds exactly when the JSON conforms and the type can be instantiated; the new memory reads back as the default message overlaid with the JSON; a rejection is the one the first thing wrong calls for, untyped exactly when the initialiser or the JSON library threw; on success the caller owns the one buffer obtained, on failure unwinding has retired or abandoned it |
| Separation.FieldsSeparate | src/json_codec.cpp:234-240 | decoding an object decodes each member's slot by itself: it succeeds exactly when every slot does, each slot ends as if decoded alone, nothing outside the slots changes, and a failure is that of the first failing slot |
| Separation.ItemsSeparate | src/json_codec.cpp:133-149 | decoding an array decodes each element by itself, and a failure is that of the first failing element |
| Refinement.ResizeKeeps | src/json_codec.cpp:124-127 | after resizing, every kept element is the old one and every new one is the element type's default |
| Refinement.RefineItems | src/json_codec.cpp:133-149 | in-place decoding of elements refines the tree semantics, errors included |
| Refinement.RefineMember | src/json_codec.cpp:102-150 | in-place decoding of a member accepts exactly what conforms, leaves the overlay, and fails with exactly the error the member rejects the JSON with |
| Refinement.RefineScalar | src/json_codec.cpp:152-247 | the same for a scalar or nested message |
| Refinement.RefineFields | src/json_codec.cpp:230-241 | the same for the fields of an object, through every nesting level |
| CodecTheorems.DecodeMessageExact | src/json_codec.cpp:464-477 | acceptance is exactly conformance, the memory left is the default message overlaid with the JSON, a rejection is untyped if and only if the message was constructed by an initialiser that threw or some field threw with every given field before it conforming |
| CodecTheorems.DecodeRejectsExactly | src/json_codec.cpp:464-477 | decoding ends in an error if and only if that is how the type rejects the JSON: class and code by the first thing wrong, at every depth |
| CodecTheorems.HugeCounts | src/json_codec.cpp:39-82 | 2^63 in a one-field message throws if the field is signed, is accepted if it is unsigned, and next to an unknown key is an unknown_message_field error in both |
| CodecTheorems.UnsignedNeverThrows | src/json_codec.cpp:58-68 | on a table of types without signed integers no JSON makes the library throw |
| Frame.DecodeFrame | src/json_codec.cpp:230-241 | a slot that lies on no path the JSON gives keeps its initial value, through nested messages and fixed arrays of messages at every depth |
| Frame.FieldsKeep | src/json_codec.cpp:230-241 | the same for decoding into any message, whatever its memory held |
| Frame.ItemsKeep | src/json_codec.cpp:133-149 | the same for the elements of an array |
| CodecLaws.OverlayMessageWellFormed | src/json_codec.cpp:57-229 | from well-formed defaults decoding leaves a well-formed message: floats finite, strings and sequences within bound, at every depth |
| CodecLaws.EncodeListLaw | src/json_codec.cpp:263-281 | an array projects exactly when every element does, to one item per element in order |
| CodecLaws.EncodeMessageLaw | src/json_codec.cpp:479-488 | a message projects exactly when every member does, to exactly one key per member holding that member's projection |
| CodecLaws.RoundTripMessage | src/json_codec.cpp:252-357 | the JSON of a well-formed message is accepted over any message of the type and rebuilds it there |
| CodecLaws.NormalForm | src/json_codec.cpp:464-488 | decode then encode gives JSON that is accepted, says everything the input said, and is a fixed point |
| CodecTheorems.MemoryRoundTrip | src/json_codec.cpp:464-488 | on memory: a well-formed message encodes, and decoding its JSON builds memory standing for the same message |
| CodecTheorems.RoundTripsExactly | src/json_codec.cpp:288-342 | the round trip gives a message back if and only if it is well-formed |
| CodecTheorems.MemoryNormalForm | src/json_codec.cpp:464-488 | on memory: the decoded message is well-formed, its JSON covers the input, and decoding that JSON builds the same message |
| CodecTheorems.EncodeTypedMessage | src/json_codec.cpp:252-357 | encoding typed memory never reads a slot as something it is not; its only failures are typed permanent errors |
| EncodingSpec.EncodesAs | src/json_codec.cpp:252-357 | a typed message is projected to a JSON value if and only if that value says what the message is, field by field and element by element |
| EncodingSpec.MessageFailsExactly | src/json_codec.cpp:252-357 | encoding a typed message ends in an error if and only if that is the reason of the first field that has no JSON |
| Projection.EncodesExactly | src/json_codec.cpp:252-357 | a typed message encodes if and only if every wide string in it is ASCII, every long double finite and within the range of double, and every function and pointer needed is there |
| Projection.UnprojectableMessage | src/json_codec.cpp:294-342 | every type that contains a wide string, a long double or an incomplete member, at any depth, has a typed message that does not encode |
| Projection.TypeProjectsExactly | src/json_codec.cpp:252-357 | all typed messages of a type encode if and only if the type contains no such member |
| CodecTheorems.CyclicTypesAreCovered | src/json_codec.cpp:99-103 | a type that contains sequences of itself meets every hypothesis, so decoding and encoding terminate on it and the laws apply |
| MemberOrder.FieldsSame | src/json_codec.cpp:230-241 | two orders of the member lists, run over the same memory, leave the same memory |
| MemberOrder.OrderIndependent | src/json_codec.cpp:469-475 | permuting member lists at every type changes neither acceptance nor the decoded memory |
| JsonCodec.MemberToJson | src/json_codec.cpp:252-282 | reading a member's slot yields the projection of the value the slot stands for |
| JsonCodec.ItemsToJson | src/json_codec.cpp:263-281 | the element loop appends the projections in order, through either access path |
| JsonCodec.ScalarToJson | src/json_codec.cpp:284-357 | reading a scalar or nested message yields its projection |
| JsonCodec.MessageToJson | src/json_codec.cpp:479-488 | reading a typed message yields the JSON that says what it is, or the error of its first field that has none |
| JsonCodec.FieldsToJson | src/json_codec.cpp:344-351 | the member loop yields the projection of the message its memory stands for |
| DynamicMessage.Construct | src/json_codec.cpp:361-377 | an incomplete descriptor allocates nothing; a throwing initialiser's buffer is freed and not finalised; otherwise the new message owns the new buffer |
| DynamicMessage.Message.MoveFrom | src/json_codec.cpp:381-385 | the buffer changes owner, the source is left empty, no buffer changes state |
| DynamicMessage.Message.Reset | src/json_codec.cpp:398-405 | the owned buffer, if any, is finalised once and freed once, and the message is empty |
| DynamicMessage.Message.MoveAssign | src/json_codec.cpp:387-396 | retires the old buffer and takes the other's; assigning a message to itself changes nothing |
| DynamicMessage.Message.Destroy | src/json_codec.cpp:379 | retires the owned buffer and the message stops being an owner |
| DynamicMessage.RunCommand | src/json_codec.cpp:361-405 | one construction, move, assignment or end of scope leaves heap and variables exactly as the ledger function says |
| DynamicMessage.RunCommands | src/json_codec.cpp:361-405 | so does every program, and hence every prefix of one |
| DynamicMessage.PrefixesAreWellOwned | src/json_codec.cpp:361-405 | after every prefix of every program each live buffer has exactly one owner and every other buffer has been freed once |
| DynamicMessage.FatesExactly | src/json_codec.cpp:361-405 | moves and assignments decide when a buffer is retired, never what becomes of it: one buffer per construction that allocated, never finalised if its initialiser threw |
| DynamicMessage.RunProgram | src/json_codec.cpp:361-405 | a whole program leaves exactly one buffer for each construction that allocated, freed once, and finalised once if and only if its initialiser completed |
| NativeContext.DecimalExactly | src/tools_adapter.cpp:309 | the domain is printed as the one numeral without leading zeros that reads as it |
| NativeContext.DecimalInjective | src/tools_adapter.cpp:309 | printing the domain in decimal loses nothing |
| NativeContext.ParseDomain | src/tools_adapter.cpp:281-288 | accepts exactly the integral values from 0 to 232, as themselves, and throws exactly on integral values of 2^63 or more |
| NativeContext.SpecGivesExactly | src/tools_adapter.cpp:261-317 | a spec gives a context if and only if its configuration says that context, with no other field and no secret, and its scope is the context's canonical name |
| NativeContext.SpecRefusedExactly | src/tools_adapter.cpp:261-317 | every other spec is refused with the error the first thing wrong with it calls for |
| NativeContext.AttributesExact | src/tools_adapter.cpp:304-315 | two lookups and a size check are equality with the canonical attribute map |
| NativeContext.SpecNamesItsContext | src/tools_adapter.cpp:261-317 | an accepted spec's scope is exactly the kind, key and attributes of the context it gives |
| NativeContext.EqualContextsExactly | src/tools_adapter.cpp:324-328 | two accepted specs give equal contexts if and only if their scope keys and attributes agree |
| NativeContext.SubjectsExactly | src/tools_adapter.cpp:443-465 | the invocation subjects accepted under a spec are exactly that spec's scope |
| Capabilities.FindEndpoint | src/tools_adapter.cpp:137-146 | finds the first endpoint with the id, or there is none |
| Capabilities.ValidateExpectedContract | src/tools_adapter.cpp:165-208 | the field-by-field comparison accepts the compiled contract and nothing else |
| Capabilities.GrantMatchesExactly | src/tools_adapter.cpp:210-224 | a grant is accepted if and only if it is the compiled id, version and digest with the one endpoint enabled |
| Capabilities.BothBound | src/tools_adapter.cpp:718-770 | two contracts with distinct ids, each one of the two compiled ones: the final conjunction is necessarily true |
| Capabilities.BindCapabilities | src/tools_adapter.cpp:708-771 | succeeds exactly when the two compiled contracts are supplied, in either order, and both binds are accepted; each id is bound to its own callbacks and to no others, also on failure |
| Requests.RequiredUInt | src/tools_adapter.cpp:89-102 | accepts exactly the integral values within the limits, never throwing |
| Requests.CountExactly | src/tools_adapter.cpp:89-102 | a number is read if and only if it stands for an integer within the limits |
| Requests.PublishPlannedExactly | src/tools_adapter.cpp:475-503 | a publish is planned if and only if the request is addressed to this endpoint and context and describes that plan: every field present, no other, each of its kind and within its limits |
| Requests.CallPlannedExactly | src/tools_adapter.cpp:581-602 | the same for a call |
| Requests.PublishRefusedExactly | src/tools_adapter.cpp:475-503 | class and code of every refusal of a publish: wrong endpoint, wrong subject, wrong contract, too large, too deep, no strict JSON, a bad name, a bad type, or bad fields, in that order of precedence |
| Requests.CallRefusedExactly | src/tools_adapter.cpp:581-602 | the same for a call |
| Requests.TooLargeExactly | src/tools_adapter.cpp:434-437 | a request is refused as resource-exhausted if and only if it is meant for the endpoint and the context, declares JSON of the compiled schema, and exceeds the limit |
| AdapterSafety.DecodeFailsTyped | src/tools_adapter.cpp:511-513 | decoding a request fails with a permanent codec error on a malformed message, or untyped because the initialiser or the JSON library threw |
| AdapterSafety.ProjectionExact | src/tools_adapter.cpp:650-651 | projecting an answer fails exactly when it holds something JSON cannot carry, and then with a permanent codec error |
| AdapterSafety.StepKeeps | src/tools_adapter.cpp:467-663 | every step of a publish or call keeps the whole invariant: what was sent and answered, the guards passed, the time spent, the cause of the outcome |
| AdapterTheorems.ReachableOp | src/tools_adapter.cpp:467-663 | the invariant holds of every operation in every reachable state, over every interleaving |
| AdapterTheorems.OutcomeTellsTheTruth | src/tools_adapter.cpp:528-571 | cancelled, deadline, rejected, resource-exhausted and unavailable outcomes only when nothing was dispatched; success and uncertain only when something was; the two exceptional classes after dispatch are exactly named |
| AdapterTheorems.OutcomeHasItsCause | src/tools_adapter.cpp:471-663 | class and code of every outcome name what happened; a permanent or resource-exhausted outcome is the error the request is declared to be refused with, a permanent failure of preparation, the error the message is rejected with or the reason the answer has no JSON |
| AdapterTheorems.PublishOutcomeExactly | src/tools_adapter.cpp:552-571 | a publish was dispatched if and only if it reports success or uncertain |
| AdapterTheorems.ServiceOutcomeExactly | src/tools_adapter.cpp:629-663 | a call reports success or uncertain if and only if it was dispatched, no library call threw and the answer fetched, if any, holds nothing JSON cannot carry; a dispatched call that threw reads as transient internal_error, one with such an answer as permanent |
| AdapterTheorems.PlainResponsesNeverReadPermanent | src/tools_adapter.cpp:645-651 | if the response type contains no wide string, long double or incomplete member, no dispatched call reads as permanent |
| AdapterTheorems.OutcomeIsFinal | src/tools_adapter.cpp:629-663 | nothing that happens later changes the outcome, the dispatch count or the empty table of an operation that is over |
| AdapterTheorems.PendingConserved | src/tools_adapter.cpp:629-649 | when a call is over its client's table is empty, and the request was consumed once, by the response or by an effective removal, never by both |
| AdapterTheorems.DispatchIsGuarded | src/tools_adapter.cpp:471-565 | at most one dispatch, only after admission, for a request addressed to this endpoint and context that describes the plan, with a message that conforms as a whole, a negative last cancellation poll and a last deadline poll in time; a publish that was asked to wait had a subscriber and reports that count |
| AdapterTheorems.PollsAreBounded | src/tools_adapter.cpp:528-644 | a publish sleeps at most ceil(wait/20) times, a call polls in vain at most ceil(timeout/20) times, 15000 at most |
| AdapterTheorems.ServiceWaitEnds | src/tools_adapter.cpp:609-621 | for any readiness flapping, all rounds of a service wait but the last fit in the wait limit |
| AdapterTermination.RunSpends | src/tools_adapter.cpp:467-663 | over every interleaving, every step of an operation uses up part of a bound that only sleeps and polls extend |
| AdapterTermination.OperationsEnd | src/tools_adapter.cpp:467-663 | a publish takes at most 90016 steps; a call at most six per readiness wait, three per reply poll and sixteen more, so at most 1845016 if readiness waits last a millisecond |
| AdapterTermination.CanGoOn | src/tools_adapter.cpp:467-663 | an operation that is not over can take another step once enough time has passed, with no library call throwing |
| AdapterTermination.OperationsFinish | src/tools_adapter.cpp:467-663 | in every run an operation takes a bounded number of steps, and where it can take no more, however long it waits, it is over |
| AdapterRuns.RunKeepsClaim | src/tools_adapter.cpp:467-663 | each claim about an operation holds to the end of every run in which no step of the operation excuses it |
| AdapterRuns.DispatchPassesPolls | src/tools_adapter.cpp:471-551 | in every run an operation that dispatched took a step at which its flag was set, one past its last poll at which it was not cancelled, and one at which the system clock had not reached its deadline |
| AdapterRuns.LoadingPassesPolls | src/tools_adapter.cpp:504-513 | a publish that loaded its message type took a step past its first polls at which it was not cancelled, and one at which the clock was before its deadline |
| AdapterRuns.CallsMeetTheService | src/tools_adapter.cpp:608-621 | a call that was sent met a ready service while it waited |
| AdapterRuns.CancelledNeverDispatches | src/tools_adapter.cpp:532-549 | an operation that is cancelled before its last poll never dispatches, whatever happens later |
| AdapterRuns.LateNeverDispatches | src/tools_adapter.cpp:536-551 | nor does one that sees only clocks at or past its deadline before its last deadline poll |
| AdapterRuns.CancelIsPrompt | src/tools_adapter.cpp:530-644 | a cancelled operation sleeps or polls for its reply at most once more |
| AdapterRuns.LateIsPrompt | src/tools_adapter.cpp:530-644 | so does one that sees only clocks at or past its deadline |
| AdapterRuns.CancelIsHeeded | src/tools_adapter.cpp:503-636 | an operation at a poll while cancelled takes no other course: before dispatch it ends as cancelled, after dispatch as unknown after its cancellation |
| AdapterRuns.DeadlineIsHeeded | src/tools_adapter.cpp:507-642 | likewise one that compares late clocks with its deadline: it ends as past its deadline, or after dispatch as unknown after its timeout |
| AdapterRuns.AnswersAreFetched | src/tools_adapter.cpp:630-644 | a response that is there when the call looks for it is read: no later cancellation or deadline makes the outcome unknown |
| AdapterRuns.SeenEndsTheWait | src/tools_adapter.cpp:530-541 | a publish that reads a count above zero, and a call that finds its service ready, sleep no more, and the service is not reported unavailable |
| AdapterRuns.WaitsAreServed | src/tools_adapter.cpp:528-545 | an unavailable service, and an unavailable subscriber unless one was seen and lost, is reported no sooner than the whole wait after any moment before it began |
| AdapterRuns.CallsAreServed | src/tools_adapter.cpp:628-642 | a call is given up for its timeout no sooner than the whole timeout after any moment before it was sent, unless a poll found the deadline passed |
| AdapterRuns.ReportedCountWasRead | src/tools_adapter.cpp:541-567 | a successful publish reports a subscriber count that the run has it read |
| AdapterEnds.StepEndsExactly | src/tools_adapter.cpp:471-711 | a step ends an operation with a class and code if and only if the step and the state say so: the flag is off when read, the request is refused or the message rejected for that reason, a library call throws, the token is set or the clock at or past the deadline at a poll, the count read last is zero after a positive wait, the wait is over, the answer is missing or has no JSON, the result is within or beyond the limit |
| AdapterEnds.OutcomesAreDecided | src/tools_adapter.cpp:471-679 | every outcome of every run was decided so by the last step the operation took |
| AdapterEnds.SentMessageExactly | src/tools_adapter.cpp:512-553 | what is dispatched is the default message of the loaded type with the request's message laid over it |
| AdapterEnds.SuccessReports | src/tools_adapter.cpp:559-567 | a success reports the topic and type or the service and type of its request, with the count read or the JSON that says what was answered |
| Lifecycle.ToolsAdapter.ApplyInstanceSpec | src/tools_adapter.cpp:338-355 | sets the applied flag exactly when the spec gives the process's own context, and nothing else |
| Lifecycle.ToolsAdapter.ClearInstanceSpec | src/tools_adapter.cpp:357-361 | all three flags are off, as after its three atomic stores |
| Lifecycle.ToolsAdapter.StartPublishCapability | src/tools_adapter.cpp:363-387 | succeeds exactly when a spec is applied, the spec and grant match and the capability was off; then it alone is switched on |
| Lifecycle.ToolsAdapter.StopPublishCapability | src/tools_adapter.cpp:389-391 | the publish flag is off and the others are as before |
| Lifecycle.ToolsAdapter.StartServiceCapability | src/tools_adapter.cpp:393-417 | the same for the service capability |
| Lifecycle.ToolsAdapter.StopServiceCapability | src/tools_adapter.cpp:419-421 | the service flag is off and the others are as before |
| Lifecycle.CapabilitiesIndependent | src/tools_adapter.cpp:357-421 | a capability's flag differs at two points of a run only if one of its own start or stop steps, or the clear step of its flag, lies between |
| Lifecycle.ActivationIsExclusive | src/tools_adapter.cpp:372-420 | over every interleaving, successful starts equal effective stops plus one if enabled |
| Lifecycle.ActivationInEveryState | src/tools_adapter.cpp:372-420 | and so in every reachable state |
| Lifecycle.AtMostOneStartWins | src/tools_adapter.cpp:372-410 | among racing starts with no effective stop in between at most one succeeds |
| Lifecycle.AppliedNamesTheContext | src/tools_adapter.cpp:338-355 | only applying a spec whose scope is the process's own sets the applied flag |
| Lifecycle.AdmissionHolds | src/tools_adapter.cpp:338-421 | an enabled capability implies an applied spec after every atomic step, in every run in which no clear overlaps a start that has passed its checks |
| Lifecycle.SerialisedNeverOverlaps | src/tools_adapter.cpp:357-380 | keeping clears and starts apart, which callers can see to, excludes that overlap |
| Lifecycle.DispatchedWasAdmitted | src/tools_adapter.cpp:471-582 | in those runs every operation that ever dispatched was admitted while its capability was enabled and a spec applied, for a subject in the one context |
| Limits.OverlappingClearBreaksAdmission | src/tools_adapter.cpp:357-380 | in every process with an acceptable spec and grant, a run with a clear inside a start reaches a capability enabled with no spec applied |
| Limits.OverlapBreaksAdmission | src/tools_adapter.cpp:357-380 | from every reachable state with such an overlap the process can go on to a capability enabled with no spec applied |
| Limits.ThrowingSendReadsTransient | src/tools_adapter.cpp:684-688 | for every valid request there is a run in which sending throws, the request counts as dispatched and the call reads as transient |
| Limits.UnprojectableResponseReadsPermanent | src/tools_adapter.cpp:650-651 | for every valid request and response with no JSON there is a run in which the service answered and the call reads as permanent |
| Limits.StuckResponsesCanReadPermanent | src/tools_adapter.cpp:645-651 | for every valid request whose response type contains a wide string, a long double or an incomplete member, the service can answer so that the call reads as permanent |
| Limits.DispatchedCallsCanReadOtherwise | src/tools_adapter.cpp:645-663 | both runs for one concrete request against a response with a non-ASCII wide string, so the hypotheses above can be met |
| Successes.PublishCanSucceed | src/tools_adapter.cpp:541-567 | for every acceptable publish, conforming message and number of subscribers a run dispatches once and reports that number |
| Successes.CallCanSucceed | src/tools_adapter.cpp:629-659 | for every acceptable call and answer with a JSON value a run dispatches once and reports that value |

## Left out

- Publish and CallService as one imperative method each: their loops are program points of the transition system, because what matters about them is what happens between their steps.
- Sequence buffers as separate allocations: a sequence owns its buffer as part of its header slot, and decoding elements copies the buffer out and back. Aliasing between two sequences is not expressible.
- JsonCodec.AssignMember: the contents of the member's own slot after a failed write are not described, because the message is then destroyed; that no other slot changed is.
- Byte-level layout and padding: a scalar is one slot. A wide string is its 16-bit code units, a JSON string its bytes; no Unicode decoding.
- Floating-point bit patterns: rounding is an arbitrary monotone function, signed zeros are identified, and a JSON real is rounded to double once.
- A JSON real of exactly 2^63 read into a signed field, which the JSON library's range check lets through to an undefined conversion: the model has it throw, as for larger values.
- Memory exhaustion, in allocation or in resizing.
- Loading typesupport libraries and serialising: an environment that supplies valid descriptors, raises a permanent error or throws.
- The strict JSON parser and writer: a payload carries its tree, its rejection or an over-deep nesting exception; a result carries its written size.
- Regular expressions and the ROS name validator: arbitrary predicates of the environment.
- Error message texts and JSON paths; only class and code are modelled.
- Environment variables, process start and shutdown, signals, logging, the executor's threads, and the Python and packaging tools.
- Memory ordering of the atomics: each load, store and exchange is one sequentially consistent step.
- The duration reported with a service response, and the serialised size reported with a publish.
- The duplicate-name case of encoding: that each key holds what its member is is stated for types with distinct member names.
