/** The error values of the adapter: a typed tools error carries one of seven classes and a code;
    anything else a library throws is an untyped exception. */
module Errors {

  datatype ErrorClass =
    | Permanent
    | Transient
    | Uncertain
    | Cancelled
    | Deadline
    | Rejected
    | ResourceExhausted

  datatype Code =
    // codec
    | TypeSupportInvalid
    | TypeSupportUnavailable
    | InvalidMessage
    | UnknownMessageField
    | InvalidMessageField
    | MessageFieldOutOfRange
    | UnsupportedMessageField
    // configuration, scope and request validation
    | InvalidConfiguration
    | InvalidScope
    | InvalidSubject
    | InvalidWorkContext
    | UnsupportedInputContract
    | RequestTooLarge
    | InvalidJson
    | InvalidRequest
    | InvalidRosName
    | InvalidRosType
    // operations
    | PublishCapabilityDisabled
    | PublishCancelled
    | PublishDeadlineElapsed
    | SubscriberUnavailable
    | PublishOutcomeUnknown
    | ServiceCapabilityDisabled
    | ServiceCallCancelled
    | ServiceWaitDeadlineElapsed
    | ServiceUnavailable
    | ServiceCallDeadlineElapsed
    | ServiceOutcomeUnknownAfterCancel
    | ServiceOutcomeUnknownAfterTimeout
    | ServiceResponseMissing
    | OperationResultTooLarge
    | InternalError

  /** `UntypedException` is any other exception derived from std::exception.  `UndefinedBehaviour`
      marks an execution that reads memory as something it is not; it is a value here so that it
      can be proved never to occur. */
  datatype Error =
    | ToolsError(cls: ErrorClass, code: Code)
    | UntypedException
    | UndefinedBehaviour

  function PermanentError(code: Code): Error {
    ToolsError(Permanent, code)
  }

  predicate IsPermanent(e: Error) {
    e.ToolsError? && e.cls == Permanent
  }

  /** The errors the codec itself raises. */
  predicate IsCodecError(e: Error) {
    && IsPermanent(e)
    && (e.code.TypeSupportInvalid? || e.code.InvalidMessage? || e.code.UnknownMessageField?
        || e.code.InvalidMessageField? || e.code.MessageFieldOutOfRange? || e.code.UnsupportedMessageField?)
  }

  datatype Option<+T> = None | Some(value: T)

  datatype Result<+T> = Ok(value: T) | Err(error: Error) {
    predicate IsFailure() {
      Err?
    }

    function PropagateFailure<U>(): Result<U>
      requires Err?
    {
      Err(error)
    }

    function Extract(): T
      requires Ok?
    {
      value
    }
  }
}
