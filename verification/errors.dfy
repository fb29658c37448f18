/** The error values that flow from the controllers and the document mapper
    to the central error middleware.

    An `AppError` is the application's own operational error: a message and
    an optional HTTP status code (the class itself is not part of this
    model, so its `status` text and `isOperational` flag are parameters of
    the error middleware). Every other error (a validation failure, a
    duplicate key, a token-library error, a TypeError) is a `RawError`
    carrying the JavaScript properties the middleware inspects. */
module Errors {
  import opened Common

  /** One entry of a validation error's `errors` object. */
  datatype SubError = SubError(name: string, message: string)

  datatype ErrorRecord =
    | AppError(message: string, statusCode: Option<int>)
    | RawError(
        name: Option<string>,
        message: string,
        stack: Option<string>,
        statusCode: Option<int>,
        status: Option<string>,
        isOperational: bool,
        /** `err.reason?.name` */
        reasonName: Option<string>,
        path: Option<string>,
        value: Option<string>,
        code: Option<int>,
        /** the keys of `err.keyValue`, in order */
        keyValue: seq<string>,
        /** the values of `err.errors`, in order, when the property exists */
        errors: Option<seq<SubError>>)

  /** A failure-compatible result: a value or the error passed to `next`. */
  datatype Result<+T> = Ok(value: T) | Fail(error: ErrorRecord)
  {
    predicate IsFailure() { Fail? }

    function PropagateFailure<U>(): Result<U>
      requires Fail?
    {
      Fail(error)
    }

    function Extract(): T
      requires Ok?
    {
      value
    }
  }

  /** `new AppError(message, statusCode)`. */
  function AppErr(message: string, statusCode: int): ErrorRecord
  {
    AppError(message, Some(statusCode))
  }

  /** A plain JavaScript error with a name and a message and nothing else. */
  function Raw(name: string, message: string): ErrorRecord
  {
    RawError(Some(name), message, None, None, None, false, None, None, None, None, [], None)
  }

  /** The document mapper's validation error: one ValidatorError per failing
      path, in the order given. */
  function ValidationError(messages: seq<string>): (e: ErrorRecord)
    ensures e.RawError? && e.errors.Some? && |e.errors.value| == |messages|
    ensures forall i :: 0 <= i < |messages| ==>
      e.errors.value[i] == SubError("ValidatorError", messages[i])
  {
    var entries := seq(|messages|, i requires 0 <= i < |messages| => SubError("ValidatorError", messages[i]));
    RawError(Some("ValidationError"), "Validation failed: " + Join(messages, ", "), None, None, None, false,
             None, None, None, None, [], Some(entries))
  }

  /** The database's unique-index violation (error code 11000) on one key. */
  function DuplicateKeyError(key: string, value: string): (e: ErrorRecord)
    ensures e.RawError? && e.code == Some(11000) && e.keyValue == [key]
  {
    RawError(Some("MongoServerError"), "E11000 duplicate key error dup key: { " + key + ": \"" + value + "\" }",
             None, None, None, false, None, None, None, Some(11000), [key], None)
  }

  /** The error the token library throws for a token that does not verify. */
  function InvalidTokenError(): ErrorRecord
  {
    Raw("JsonWebTokenError", "invalid signature")
  }

  /** The error the token library throws for a token past its expiry. */
  function ExpiredTokenError(): ErrorRecord
  {
    Raw("TokenExpiredError", "jwt expired")
  }
}
