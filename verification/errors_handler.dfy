/** The central error middleware: verbose rendering in development, and in
    production a fixed chain of rewrites (cast, duplicate key, validation,
    invalid token, expired token) followed by a terse rendering that hides
    everything about non-operational errors. */
module ErrorsHandler {
  import opened Common
  import opened Errors

  /** `process.env.NODE_ENV`: "development", "production", or any other
      value (`OtherEnv` never carries one of those two names). */
  datatype NodeEnv = Development | Production | OtherEnv(name: string)

  /** What the `AppError` class (not part of this model) attaches to its
      instances: whether they are flagged operational, and the `status`
      text it derives from a status code. */
  datatype AppErrorClass = AppErrorClass(operational: bool, statusText: Option<int> -> Option<string>)

  datatype Body =
    | DevBody(devStatus: string, error: ErrorRecord, message: string, stack: Option<string>)
    | ProdBody(status: Option<string>, message: string)

  /** `res.status(code).json(body)`; `code` is None when the error carried
      no status code at all (the cast rewrite in production). Such a
      response is what the handler asks for, not what the client gets:
      `res.status(undefined)` makes the server refuse the status code, and
      the framework's final handler answers 500 instead. */
  datatype Response = Response(code: Option<int>, body: Body)

  const GenericMessage := "Something went wrong"
  const InvalidTokenMessage := "Your login turn is not security, please check and try again"
  const ExpiredTokenMessage := "Your login turn was expired, please login again"

  function StatusCodeOf(e: ErrorRecord): Option<int>
  {
    e.statusCode
  }

  function StatusOf(e: ErrorRecord, cls: AppErrorClass): Option<string>
  {
    if e.AppError? then cls.statusText(e.statusCode) else e.status
  }

  function IsOperational(e: ErrorRecord, cls: AppErrorClass): bool
  {
    if e.AppError? then cls.operational else e.isOperational
  }

  /** `err.statusCode || 500`: an absent or zero status code becomes 500. */
  function DevStatusCode(e: ErrorRecord): (code: int)
    ensures e.statusCode.None? || e.statusCode == Some(0) ==> code == 500
    ensures e.statusCode.Some? && e.statusCode.value != 0 ==> code == e.statusCode.value
  {
    match e.statusCode
    case Some(c) => if c != 0 then c else 500
    case None => 500
  }

  /** `err.status || "error"`: an absent or empty status becomes "error". */
  function DevStatus(e: ErrorRecord, cls: AppErrorClass): (status: string)
    ensures status != ""
    ensures StatusOf(e, cls).None? || StatusOf(e, cls) == Some("") ==> status == "error"
    ensures StatusOf(e, cls).Some? && StatusOf(e, cls).value != "" ==> status == StatusOf(e, cls).value
  {
    match StatusOf(e, cls)
    case Some(s) => if s != "" then s else "error"
    case None => "error"
  }

  /** `errorsDevHandler`: everything about the error goes back to the client. */
  function DevHandler(e: ErrorRecord, cls: AppErrorClass): (r: Response)
    ensures r.code == Some(DevStatusCode(e))
    ensures r.body.DevBody? && r.body.devStatus == DevStatus(e, cls) && r.body.message == e.message
    ensures e.statusCode.None? ==> r.code == Some(500)
    ensures r.body.stack == (if e.RawError? then e.stack else None)
  {
    var code := DevStatusCode(e);
    var status := DevStatus(e, cls);
    var shown := match e
      case AppError(m, _) => AppError(m, Some(code))
      case RawError(_, _, _, _, _, _, _, _, _, _, _, _) => e.(statusCode := Some(code), status := Some(status));
    Response(Some(code), DevBody(status, shown, e.message, if e.RawError? then e.stack else None))
  }

  /** `errorsProdHandler`: an operational error is answered with its own
      code, status and message; anything else with a generic 500. */
  function ProdHandler(e: ErrorRecord, cls: AppErrorClass): (r: Response)
    ensures IsOperational(e, cls) ==>
      r == Response(StatusCodeOf(e), ProdBody(StatusOf(e, cls), e.message))
    ensures !IsOperational(e, cls) ==>
      r == Response(Some(500), ProdBody(Some("error"), GenericMessage))
  {
    if IsOperational(e, cls) then Response(e.statusCode, ProdBody(StatusOf(e, cls), e.message))
    else Response(Some(500), ProdBody(Some("error"), GenericMessage))
  }

  // The five recognisers, each on the error the chain currently holds.

  predicate IsCastError(e: ErrorRecord)
  {
    e.RawError? && e.reasonName == Some("BSONError")
  }

  predicate IsDuplicateKey(e: ErrorRecord)
  {
    e.RawError? && e.code == Some(11000)
  }

  predicate IsValidatorFailure(e: ErrorRecord)
  {
    e.RawError? && e.errors.Some? && |e.errors.value| > 0 && e.errors.value[0].name == "ValidatorError"
  }

  predicate IsInvalidToken(e: ErrorRecord)
  {
    e.RawError? && e.name == Some("JsonWebTokenError")
  }

  predicate IsExpiredToken(e: ErrorRecord)
  {
    e.RawError? && e.name == Some("TokenExpiredError")
  }

  /** The messages of a validation error's entries, in order. */
  function Messages(errs: seq<SubError>): (ms: seq<string>)
    ensures |ms| == |errs|
    ensures forall i :: 0 <= i < |errs| ==> ms[i] == errs[i].message
  {
    seq(|errs|, i requires 0 <= i < |errs| => errs[i].message)
  }

  /** `castErrorHandler`: note that no status code is passed. */
  function CastRewrite(e: ErrorRecord): (r: ErrorRecord)
    requires IsCastError(e)
    ensures r == AppError("Invalid " + Show(e.path) + ": " + Show(e.value), None)
  {
    AppError("Invalid " + Show(e.path) + ": " + Show(e.value), None)
  }

  /** `duplicateErrorHandler`: names the first key of `keyValue`. */
  function DuplicateRewrite(e: ErrorRecord): (r: ErrorRecord)
    requires IsDuplicateKey(e)
    ensures |e.keyValue| > 0 ==> r == AppErr("The " + e.keyValue[0] + " was exists", 400)
    ensures |e.keyValue| == 0 ==> r == AppErr("The undefined was exists", 400)
  {
    if |e.keyValue| > 0 then AppErr("The " + e.keyValue[0] + " was exists", 400)
    else AppErr("The undefined was exists", 400)
  }

  /** `validationErrorHandler`: every validator message, joined by ". ". */
  function ValidationRewrite(e: ErrorRecord): (r: ErrorRecord)
    requires IsValidatorFailure(e)
    ensures r == AppErr(Join(Messages(e.errors.value), ". "), 400)
  {
    AppErr(Join(Messages(e.errors.value), ". "), 400)
  }

  /** The production rewrite chain, written as the source writes it: five
      successive conditional reassignments of the same variable. */
  function ProdChain(e: ErrorRecord): ErrorRecord
  {
    var e1 := if IsCastError(e) then CastRewrite(e) else e;
    var e2 := if IsDuplicateKey(e1) then DuplicateRewrite(e1) else e1;
    var e3 := if IsValidatorFailure(e2) then ValidationRewrite(e2) else e2;
    var e4 := if IsInvalidToken(e3) then AppErr(InvalidTokenMessage, 401) else e3;
    var e5 := if IsExpiredToken(e4) then AppErr(ExpiredTokenMessage, 401) else e4;
    e5
  }

  /** An independent reading of the chain: the first recogniser that
      accepts the ORIGINAL error decides, and nothing else applies. */
  function FirstRewrite(e: ErrorRecord): ErrorRecord
  {
    if IsCastError(e) then CastRewrite(e)
    else if IsDuplicateKey(e) then DuplicateRewrite(e)
    else if IsValidatorFailure(e) then ValidationRewrite(e)
    else if IsInvalidToken(e) then AppErr(InvalidTokenMessage, 401)
    else if IsExpiredToken(e) then AppErr(ExpiredTokenMessage, 401)
    else e
  }

  /** Because every rewrite produces an `AppError`, which no recogniser
      accepts, the sequential chain is a first-match classification, and
      an error that no recogniser accepts passes through unchanged. */
  lemma ChainIsFirstMatch(e: ErrorRecord)
    ensures ProdChain(e) == FirstRewrite(e)
    ensures (!IsCastError(e) && !IsDuplicateKey(e) && !IsValidatorFailure(e)
             && !IsInvalidToken(e) && !IsExpiredToken(e)) ==> ProdChain(e) == e
    ensures IsCastError(e) ==> ProdChain(e).statusCode.None?
    ensures IsDuplicateKey(e) || IsValidatorFailure(e) ==> ProdChain(e).statusCode != Some(401)
  {
  }

  /** The exported middleware. Development renders the error as it is;
      production renders the rewritten error; any other environment
      writes no response at all (None). */
  function Respond(env: NodeEnv, e: ErrorRecord, cls: AppErrorClass): (r: Option<Response>)
    requires env.OtherEnv? ==> env.name != "development" && env.name != "production"
    ensures env.OtherEnv? <==> r.None?
    ensures env == Development ==> r == Some(DevHandler(e, cls))
    ensures env == Production ==> r == Some(ProdHandler(FirstRewrite(e), cls))
  {
    ChainIsFirstMatch(e);
    match env
    case Development => Some(DevHandler(e, cls))
    case Production => Some(ProdHandler(ProdChain(e), cls))
    case OtherEnv(_) => None
  }

  /** In production, a duplicate key is answered 400 with the first key's
      name, provided the error is not also a cast error. */
  lemma ProdDuplicateKey(e: ErrorRecord, cls: AppErrorClass, key: string)
    requires cls.operational
    requires IsDuplicateKey(e) && !IsCastError(e) && |e.keyValue| > 0 && e.keyValue[0] == key
    ensures Respond(Production, e, cls)
      == Some(Response(Some(400), ProdBody(cls.statusText(Some(400)), "The " + key + " was exists")))
  {
  }

  /** In production, a validation failure is answered 400 with every
      validator message joined by ". ", in order. */
  lemma ProdValidation(messages: seq<string>, cls: AppErrorClass)
    requires cls.operational && |messages| > 0
    ensures Respond(Production, ValidationError(messages), cls)
      == Some(Response(Some(400), ProdBody(cls.statusText(Some(400)), Join(messages, ". "))))
  {
    var e := ValidationError(messages);
    var ms := Messages(e.errors.value);
    assert ms == messages;
    assert !IsCastError(e) && !IsDuplicateKey(e) && IsValidatorFailure(e);
    assert FirstRewrite(e) == AppErr(Join(messages, ". "), 400);
  }

  /** In production, both token-library errors are answered 401 with their
      fixed messages. */
  lemma ProdTokenErrors(cls: AppErrorClass)
    requires cls.operational
    ensures Respond(Production, InvalidTokenError(), cls)
      == Some(Response(Some(401), ProdBody(cls.statusText(Some(401)), InvalidTokenMessage)))
    ensures Respond(Production, ExpiredTokenError(), cls)
      == Some(Response(Some(401), ProdBody(cls.statusText(Some(401)), ExpiredTokenMessage)))
  {
  }

  /** In production, a non-operational error that no rewrite recognises
      leaks nothing: 500, "error", "Something went wrong". */
  lemma ProdHidesUnexpected(e: ErrorRecord, cls: AppErrorClass)
    requires e.RawError? && !e.isOperational
    requires !IsCastError(e) && !IsDuplicateKey(e) && !IsValidatorFailure(e)
    requires !IsInvalidToken(e) && !IsExpiredToken(e)
    ensures Respond(Production, e, cls)
      == Some(Response(Some(500), ProdBody(Some("error"), GenericMessage)))
  {
  }
}
