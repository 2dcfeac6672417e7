/**
 * `AlbaException`: the one exception class of the client. Each place that
 * throws it is a kind of error here.
 */
module Errors {
  import opened Php

  /** Why an operation failed. */
  datatype AlbaError =
    | Transport                              // the HTTP request did not complete
    | Api(message: Json, code: Json)         // the server answered with status "error"
    | MissingParameter(name: string)         // a notification without a required field
    | UnknownService(serviceId: string)      // a notification for an unregistered service
    | BadSignature                           // a notification whose check does not match
    | UnknownCommand(command: Option<string>) // a notification with an unexpected command

  datatype Result<T> = Ok(value: T) | Err(error: AlbaError)

  /** What a `throw new AlbaException(...)` raises: the exception itself, an
      ArgumentCountError when the constructor gets too few arguments, or the
      Error or TypeError PHP raises when a value that cannot become a string
      is used as one on the way. */
  datatype Raised = AlbaException(error: AlbaError) | ArgumentCountError | ConversionError

  /** `new AlbaException(...)` with the given number of arguments: the
      constructor declares two parameters without defaults, so a call with
      fewer raises an ArgumentCountError instead (PHP 7.1 and later). */
  function NewAlbaException(argCount: nat, e: AlbaError): (r: Raised)
    ensures r.AlbaException? <==> argCount >= 2
    ensures r.AlbaException? ==> r.error == e
  {
    if argCount < 2 then ArgumentCountError else AlbaException(e)
  }

  /** The number of arguments each throw site passes: the HTTP errors pass
      a message and a code, the notification errors only a message. */
  function ArgumentsAtThrowSite(e: AlbaError): nat {
    if e.Transport? || e.Api? then 2 else 1
  }

  /** What each throw site raises as written. */
  function RaiseAsWritten(e: AlbaError): Raised {
    NewAlbaException(ArgumentsAtThrowSite(e), e)
  }

  /** As written, every notification error surfaces as the same
      ArgumentCountError: its kind and message are lost. */
  lemma NotificationErrorsAreLost(e: AlbaError)
    requires !e.Transport? && !e.Api?
    ensures RaiseAsWritten(e) == ArgumentCountError
  {
  }

  /** A concrete pair: a bad signature and an unknown service cannot be told
      apart by the caller of `handle`. */
  lemma BadSignatureLooksLikeUnknownService()
    ensures RaiseAsWritten(BadSignature) == RaiseAsWritten(UnknownService("1"))
    ensures BadSignature != UnknownService("1")
  {
    NotificationErrorsAreLost(BadSignature);
    NotificationErrorsAreLost(UnknownService("1"));
  }

  /** The intended throw: every site passes a message and a code, so the
      exception carries the error it was raised for. */
  function Raise(e: AlbaError): (r: Raised)
    ensures r == AlbaException(e)
  {
    NewAlbaException(2, e)
  }
}
