/** The authentication handlers and gates, as transitions of the user
    collection. Each handler takes the collection and the request's fields
    and gives back the collection after its writes and what the client is
    told. Signing a session token, sending email and drawing random values
    are parameters: the token a client receives is identified by the user
    it names, an email is sent or not (`mailOk`), and random draws are
    arguments. */
module AuthController {
  import opened Common
  import opened Errors
  import opened ErrorsHandler
  import opened UserModel

  /** What the client is told. `Token` is `sendJWT`: a session token for
      the user at that position, with that status code. `NoAnswer` is a
      handler that ends without writing a response. */
  datatype Answer =
    | Token(code: int, userId: nat)
    | Sent(code: int, message: string)
    | NoAnswer
    | Failed(error: ErrorRecord)

  datatype Step = Step(users: seq<User>, answer: Answer)

  /** What the token library makes of a token: its payload, or one of the
      two errors it throws. */
  datatype Verdict = Decoded(id: nat, iat: int) | BadSignature | PastExpiry

  const LoginMissing := "Please fill required fill to login"
  const LoginWrong := "Email or password not correct, please check and try again"
  const LoginFirst := "Please login to use this feature"
  const UserDeleted := "This user has been deleted, please contact with us to know detail or signup "
  const PasswordChanged := "This user recently changed password, please login again to get access "
  const NoPermission := "You don't have permission to perform this feature "
  const NotVerified := "You need to verified to perform this feature"
  const ResetEmailMissing := "Please fill your email"
  const ResetEmailInvalid := "Please fill the valid email"
  const ResetEmailUnknown := "Your email is not correct"
  const ResetMailSent := "Sent mail to your email"
  const ResetTokenRejected := "Your token is invalid or expired"
  const CurrentMissing := "Please fill your current password to confirm"
  const CurrentWrong := "Your current password is not correct"
  const VerifyEmailMissing := "Please enter your email to confirm "
  const VerifyEmailUnknown := "Your email is not correct "
  const OtpSent := "Sent otp code to your email"
  const OtpExpired := "Your OTP code is expired"
  const OtpMissing := "Please enter your OTP code to confirm email"
  const OtpWrong := "Your OTP code is not correct"
  const EmailConfirmed := "Your email was confirm"

  /** Stored users that passed the schema's validators when they were
      created: name and email present, email well formed, role known. */
  predicate Registered(u: User, isEmail: string -> bool)
  {
    Present(u.name) && Present(u.email) && isEmail(u.email.value) && u.role in Roles
  }

  /** `signup`: create the user from the request's fields and log it in. */
  function Signup(users: seq<User>, name: Option<string>, email: Option<string>, password: Option<string>,
                  passwordConfirm: Option<string>, passwordChangedAt: Option<int>,
                  now: int, loadTime: int, isEmail: string -> bool): (r: Step)
    ensures r.answer.Token? || r.answer.Failed?
    ensures r.answer.Failed? ==> r.users == users
    ensures r.answer.Token? ==>
      r.answer == Token(200, |users|) && |r.users| == |users| + 1 && r.users[..|users|] == users
    ensures r.answer.Token? ==>
      var u := r.users[|users|];
      u.role == DefaultRole && u.active && !u.emailVerify && u.email == email && u.name == name
      && password.Some? && u.password == Some(Hashed(Bcrypt(password.value))) && u.passwordConfirm.None?
    ensures var d := NewDoc(|users|, NewUser(name, email, password, passwordConfirm, passwordChangedAt, loadTime));
      r.answer.Token? <==> Valid(d, isEmail) && PreSave(d, now).Ok? && !EmailTaken(users, -1, PreSave(d, now).value.email)
    ensures var d := NewDoc(|users|, NewUser(name, email, password, passwordConfirm, passwordChangedAt, loadTime));
      !Valid(d, isEmail) ==> r.answer == Failed(ValidationError(Validate(d, isEmail)))
    ensures var d := NewDoc(|users|, NewUser(name, email, password, passwordConfirm, passwordChangedAt, loadTime));
      Valid(d, isEmail) && !EmailTaken(users, -1, email) ==> r.answer == Token(200, |users|)
  {
    var d := NewDoc(|users|, NewUser(name, email, password, passwordConfirm, passwordChangedAt, loadTime));
    match Save(users, d, now, true, isEmail)
    case Ok(saved) =>
      assert saved[..|users|] == users;
      Step(saved, Token(200, |users|))
    case Fail(e) => Step(users, Failed(e))
  }

  /** `login`: missing fields give 400; an unknown email and a wrong
      password give the same 400; otherwise a token for the user. A
      stored user without a password counts as a mismatch (see `Matches`;
      `Good` rules such a user out). */
  function Login(users: seq<User>, email: Option<string>, password: Option<string>): (r: Step)
    ensures r.users == users
    ensures !Present(email) || !Present(password) ==> r.answer == Failed(AppErr(LoginMissing, 400))
    ensures r.answer.Token? ==>
      r.answer.code == 200 && r.answer.userId < |users| && users[r.answer.userId].active
      && users[r.answer.userId].email == email && Matches(password.value, users[r.answer.userId].password)
    ensures r.answer.Token? || r.answer == Failed(AppErr(LoginMissing, 400))
      || r.answer == Failed(AppErr(LoginWrong, 400))
    ensures Present(email) && Present(password) && FindActive(users, ByEmail(email)).Some?
            && Matches(password.value, users[FindActive(users, ByEmail(email)).value].password) ==>
      r.answer == Token(200, FindActive(users, ByEmail(email)).value)
    ensures Present(email) && Present(password) && FindActive(users, ByEmail(email)).None? ==>
      r.answer == Failed(AppErr(LoginWrong, 400))
  {
    if !Present(email) || !Present(password) then Step(users, Failed(AppErr(LoginMissing, 400)))
    else match FindActive(users, ByEmail(email))
      case None => Step(users, Failed(AppErr(LoginWrong, 400)))
      case Some(i) =>
        assert ByEmail(email)(users[i]);
        if Matches(password.value, users[i].password) then Step(users, Token(200, i))
        else Step(users, Failed(AppErr(LoginWrong, 400)))
  }

  /** A client cannot tell an unknown email from a wrong password. */
  lemma LoginHidesWhichFieldIsWrong(users: seq<User>, email: string, unknown: string, password: string)
    requires Present(Some(email)) && Present(Some(unknown)) && Present(Some(password))
    requires FindActive(users, ByEmail(Some(unknown))).None?
    requires FindActive(users, ByEmail(Some(email))).Some?
    requires !Matches(password, users[FindActive(users, ByEmail(Some(email))).value].password)
    ensures Login(users, Some(unknown), Some(password)).answer == Login(users, Some(email), Some(password)).answer
  {
  }

  /** A user who has just signed up can log in with the same email and
      password. */
  lemma SignupThenLogin(users: seq<User>, name: Option<string>, email: Option<string>, password: Option<string>,
                        passwordConfirm: Option<string>, passwordChangedAt: Option<int>,
                        now: int, loadTime: int, isEmail: string -> bool)
    requires Good(users)
    requires Signup(users, name, email, password, passwordConfirm, passwordChangedAt, now, loadTime, isEmail).answer.Token?
    ensures Login(Signup(users, name, email, password, passwordConfirm, passwordChangedAt, now, loadTime, isEmail).users,
                  email, password).answer == Token(200, |users|)
  {
  }

  /** `req.headers.authorization.split(" ")[1]` after the checks that the
      header is present and starts with "Bearer": None when the client
      must be told to log in. */
  function BearerToken(header: Option<string>): (r: Option<string>)
    ensures r.Some? ==> r.value != "" && ' ' !in r.value
    ensures r.Some? ==> header.Some? && |header.value| >= 6 && header.value[..6] == "Bearer"
  {
    match header
    case None => None
    case Some(h) =>
      if |h| < 6 || h[..6] != "Bearer" then None
      else
        var parts := Split(h, ' ');
        if |parts| < 2 || parts[1] == "" then None else Some(parts[1])
  }

  /** A header "<scheme> <token>" yields the token whenever the scheme
      word starts with "Bearer": the header a client is meant to send,
      "Bearer <token>", and also looser ones such as "Bearers <token>". */
  lemma BearerTokenRoundTrip(scheme: string, token: string)
    requires |scheme| >= 6 && scheme[..6] == "Bearer" && ' ' !in scheme
    requires token != "" && ' ' !in token
    ensures BearerToken(Some(scheme + " " + token)) == Some(token)
  {
    var h := scheme + " " + token;
    var k := |scheme|;
    assert h[..6] == scheme[..6];
    assert h[k] == ' ';
    assert h[..k] == scheme;
    var i := IndexOf(h, ' ');
    assert i == Some(k) by {
      assert h[k] in h[..k + 1];
    }
    assert h[k + 1..] == token;
    assert Split(h, ' ') == [scheme] + Split(token, ' ');
  }

  /** A header without a space carries no token. */
  lemma BearerTokenNeedsSpace(header: string)
    requires ' ' !in header
    ensures BearerToken(Some(header)).None?
  {
  }

  /** `protect`: the user a request acts for, or why it may not proceed. */
  function Protect(users: seq<User>, header: Option<string>, verify: string -> Verdict,
                   changedAfter: (int, int) -> bool): (r: Result<nat>)
    ensures BearerToken(header).None? ==> r == Fail(AppErr(LoginFirst, 401))
    ensures BearerToken(header).Some? && verify(BearerToken(header).value) == BadSignature ==>
      r == Fail(InvalidTokenError())
    ensures BearerToken(header).Some? && verify(BearerToken(header).value) == PastExpiry ==>
      r == Fail(ExpiredTokenError())
    ensures r.Ok? ==>
      BearerToken(header).Some? && verify(BearerToken(header).value) == Decoded(r.value, verify(BearerToken(header).value).iat)
      && r.value < |users| && users[r.value].active
      && !CheckPasswordChangeAfter(users[r.value], verify(BearerToken(header).value).iat, changedAfter)
    ensures BearerToken(header).Some? && verify(BearerToken(header).value).Decoded? ==>
      var v := verify(BearerToken(header).value);
      (r.Ok? <==> v.id < |users| && users[v.id].active && !CheckPasswordChangeAfter(users[v.id], v.iat, changedAfter))
  {
    match BearerToken(header)
    case None => Fail(AppErr(LoginFirst, 401))
    case Some(token) =>
      match verify(token)
      case BadSignature => Fail(InvalidTokenError())
      case PastExpiry => Fail(ExpiredTokenError())
      case Decoded(id, iat) =>
        match FindById(users, id)
        case None => Fail(AppErr(UserDeleted, 401))
        case Some(i) =>
          if CheckPasswordChangeAfter(users[i], iat, changedAfter) then Fail(AppErr(PasswordChanged, 401))
          else Ok(i)
  }

  /** In production every refusal by `protect` reaches the client as a 401
      (given that application errors are flagged operational). */
  lemma ProtectRefusalsAre401(users: seq<User>, header: Option<string>, verify: string -> Verdict,
                              changedAfter: (int, int) -> bool, cls: AppErrorClass)
    requires cls.operational
    requires Protect(users, header, verify, changedAfter).Fail?
    ensures Respond(Production, Protect(users, header, verify, changedAfter).error, cls).value.code == Some(401)
  {
  }

  /** `restrictTo(...roles)`. */
  function RestrictTo(roles: seq<string>, u: User): (r: Result<User>)
    ensures r.Ok? <==> u.role in roles
    ensures r.Ok? ==> r.value == u
    ensures r.Fail? ==> r.error == AppErr(NoPermission, 403)
  {
    if u.role in roles then Ok(u) else Fail(AppErr(NoPermission, 403))
  }

  /** `restricVerified`. */
  function RestrictVerified(u: User): (r: Result<User>)
    ensures r.Ok? <==> u.emailVerify
    ensures r.Ok? ==> r.value == u
    ensures r.Fail? ==> r.error == AppErr(NotVerified, 403)
  {
    if u.emailVerify then Ok(u) else Fail(AppErr(NotVerified, 403))
  }

  /** The query of `resetPassword`: this reset hash, deadline still ahead. */
  function ResetQuery(hash: Hash, now: int): User -> bool
  {
    (u: User) => u.resetToken == Some(hash) && u.resetTimeout.Some? && u.resetTimeout.value > now
  }

  /** `forgotPassword`, with the validation setting of the clean-up save
      (after a failed email) as a parameter. */
  function ForgotPasswordWith(cleanupValidates: bool, users: seq<User>, email: Option<string>, token: string,
                              now: int, mailOk: bool, isEmail: string -> bool): (r: Step)
    ensures !Present(email) ==> r == Step(users, Failed(AppErr(ResetEmailMissing, 400)))
    ensures Present(email) && !isEmail(email.value) ==> r == Step(users, Failed(AppErr(ResetEmailInvalid, 400)))
    ensures Present(email) && isEmail(email.value) && FindActive(users, ByEmail(email)).None? ==>
      r == Step(users, Failed(AppErr(ResetEmailUnknown, 401)))
    ensures |r.users| == |users|
  {
    if !Present(email) then Step(users, Failed(AppErr(ResetEmailMissing, 400)))
    else if !isEmail(email.value) then Step(users, Failed(AppErr(ResetEmailInvalid, 400)))
    else match FindActive(users, ByEmail(email))
      case None => Step(users, Failed(AppErr(ResetEmailUnknown, 401)))
      case Some(i) =>
        var d := CreateResetTokenPwd(LoadDoc(users, i, false), token, now).1;
        match Save(users, d, now, false, isEmail)
        case Fail(e) => Step(users, Failed(e))
        case Ok(withToken) =>
          if mailOk then Step(withToken, Sent(200, ResetMailSent))
          else
            var cleared := d.(user := d.user.(resetToken := None, resetTimeout := None));
            match Save(withToken, cleared, now, cleanupValidates, isEmail)
            case Fail(e) => Step(withToken, Failed(e))
            case Ok(done) => Step(done, NoAnswer)
  }

  /** `forgotPassword` as written: the clean-up save validates. */
  function ForgotPasswordAsWritten(users: seq<User>, email: Option<string>, token: string,
                                   now: int, mailOk: bool, isEmail: string -> bool): (r: Step)
    ensures r == ForgotPasswordWith(true, users, email, token, now, mailOk, isEmail)
    ensures |r.users| == |users|
  {
    ForgotPasswordWith(true, users, email, token, now, mailOk, isEmail)
  }

  /** `forgotPassword` with the clean-up save as the first save is done,
      without validation. */
  function ForgotPassword(users: seq<User>, email: Option<string>, token: string,
                          now: int, mailOk: bool, isEmail: string -> bool): (r: Step)
    ensures r == ForgotPasswordWith(false, users, email, token, now, mailOk, isEmail)
    ensures |r.users| == |users|
  {
    ForgotPasswordWith(false, users, email, token, now, mailOk, isEmail)
  }

  /** When the email goes out, the user's record holds the hash of the
      token and a deadline 12 minutes ahead; nobody else changes. */
  lemma ForgotPasswordStoresHash(users: seq<User>, email: Option<string>, token: string, now: int,
                                 isEmail: string -> bool, i: nat)
    requires Good(users) && Present(email) && isEmail(email.value)
    requires FindActive(users, ByEmail(email)) == Some(i)
    ensures ForgotPassword(users, email, token, now, true, isEmail).answer == Sent(200, ResetMailSent)
    ensures ForgotPassword(users, email, token, now, true, isEmail).users
      == users[i := users[i].(resetToken := Some(Sha256(token)), resetTimeout := Some(now + 720000))]
  {
  }

  /** As written, when the email fails the clean-up save is refused by
      validation (the confirmation is not stored), so the reset hash and
      deadline stay in the record and the client gets a 400-class
      validation error instead. */
  lemma ForgotPasswordCleanupFails(users: seq<User>, email: Option<string>, token: string, now: int,
                                   isEmail: string -> bool, i: nat)
    requires Good(users) && Present(email) && isEmail(email.value)
    requires FindActive(users, ByEmail(email)) == Some(i)
    ensures ForgotPasswordAsWritten(users, email, token, now, false, isEmail).answer.Failed?
    ensures ForgotPasswordAsWritten(users, email, token, now, false, isEmail).answer.error.errors.Some?
    ensures ForgotPasswordAsWritten(users, email, token, now, false, isEmail).users[i].resetToken
      == Some(Sha256(token))
  {
  }

  /** With the clean-up save unvalidated, a failed email leaves the user's
      record without a reset hash or deadline and nobody else changes. */
  lemma ForgotPasswordCleanupClears(users: seq<User>, email: Option<string>, token: string, now: int,
                                    isEmail: string -> bool, i: nat)
    requires Good(users) && Present(email) && isEmail(email.value)
    requires FindActive(users, ByEmail(email)) == Some(i)
    ensures ForgotPassword(users, email, token, now, false, isEmail)
      == Step(users[i := users[i].(resetToken := None, resetTimeout := None)], NoAnswer)
  {
  }

  /** `resetPassword`: find the active user holding this token's hash with
      its deadline ahead, set the new password, drop the reset fields and
      save with validation. */
  /** The document `resetPassword` saves: the holder loaded without its
      password, with the new password and confirmation assigned and both
      reset fields cleared. */
  function ResetDoc(users: seq<User>, i: nat, password: Option<string>, passwordConfirm: Option<string>): (d: Doc)
    requires i < |users|
    ensures !d.isNew && d.id == i && !d.passwordSelected && d.newPassword == Some(password)
    ensures d.user == users[i].(passwordConfirm := passwordConfirm, resetToken := None, resetTimeout := None)
  {
    var d0 := LoadDoc(users, i, false);
    d0.(user := d0.user.(passwordConfirm := passwordConfirm, resetToken := None, resetTimeout := None),
        newPassword := Some(password))
  }

  function ResetPassword(users: seq<User>, token: string, password: Option<string>,
                         passwordConfirm: Option<string>, now: int, isEmail: string -> bool): (r: Step)
    ensures FindActive(users, ResetQuery(Sha256(token), now)).None? ==>
      r == Step(users, Failed(AppErr(ResetTokenRejected, 401)))
    ensures r.answer.Token? ==>
      var i := r.answer.userId;
      r.answer.code == 201 && i < |users| && |r.users| == |users|
      && users[i].resetToken == Some(Sha256(token)) && users[i].resetTimeout.Some? && users[i].resetTimeout.value > now
      && r.users == users[i := r.users[i]]
      && password.Some? && r.users[i].password == Some(Hashed(Bcrypt(password.value)))
      && r.users[i].resetToken.None? && r.users[i].resetTimeout.None?
      && r.users[i].passwordChangedAt == Some(now - 1000)
    ensures r.answer.Token? ==>
      var i := r.answer.userId;
      r.users[i] == users[i].(password := Some(Hashed(Bcrypt(password.value))), passwordConfirm := None,
                              passwordChangedAt := Some(now - 1000), resetToken := None, resetTimeout := None)
    ensures FindActive(users, ResetQuery(Sha256(token), now)).Some? ==>
      var i := FindActive(users, ResetQuery(Sha256(token), now)).value;
      var d := ResetDoc(users, i, password, passwordConfirm);
      (!Valid(d, isEmail) ==> r == Step(users, Failed(ValidationError(Validate(d, isEmail)))))
      && (Valid(d, isEmail) && !EmailTaken(users, i, users[i].email) ==> r.answer == Token(201, i))
    ensures r.answer.Token? || r.answer.Failed?
    ensures r.answer.Failed? ==> r.users == users
  {
    match FindActive(users, ResetQuery(Sha256(token), now))
    case None => Step(users, Failed(AppErr(ResetTokenRejected, 401)))
    case Some(i) =>
      assert ResetQuery(Sha256(token), now)(users[i]);
      var d := ResetDoc(users, i, password, passwordConfirm);
      match Save(users, d, now, true, isEmail)
      case Fail(e) => Step(users, Failed(e))
      case Ok(saved) =>
        ValidateIffValid(d, isEmail);
        Step(saved, Token(201, i))
  }

  /** A reset token works once: after a successful reset, the same token is
      rejected (provided no other user held the same hash). */
  lemma ResetTokenSingleUse(users: seq<User>, token: string, password: Option<string>,
                            passwordConfirm: Option<string>, now: int, later: int, isEmail: string -> bool,
                            password2: Option<string>, passwordConfirm2: Option<string>)
    requires ResetPassword(users, token, password, passwordConfirm, now, isEmail).answer.Token?
    requires forall j :: 0 <= j < |users| && users[j].resetToken == Some(Sha256(token)) ==>
      j == ResetPassword(users, token, password, passwordConfirm, now, isEmail).answer.userId
    ensures ResetPassword(ResetPassword(users, token, password, passwordConfirm, now, isEmail).users,
                          token, password2, passwordConfirm2, later, isEmail)
      .answer == Failed(AppErr(ResetTokenRejected, 401))
  {
  }

  /** The whole reset flow: the emailed token, used before its deadline
      with a valid new password, logs the user in, and from then on the new
      password is the one that works. */
  lemma ForgotThenReset(users: seq<User>, email: Option<string>, token: string, now: int, later: int,
                        password: string, isEmail: string -> bool, i: nat)
    requires Good(users) && Present(email) && isEmail(email.value)
    requires FindActive(users, ByEmail(email)) == Some(i) && Registered(users[i], isEmail)
    requires forall j :: 0 <= j < |users| && j != i ==> users[j].resetToken != Some(Sha256(token))
    requires now <= later < now + 720000 && |password| >= MinPasswordLength
    ensures
      var sent := ForgotPassword(users, email, token, now, true, isEmail);
      var reset := ResetPassword(sent.users, token, Some(password), Some(password), later, isEmail);
      reset.answer == Token(201, i) && Login(reset.users, email, Some(password)).answer == Token(200, i)
  {
    ForgotPasswordStoresHash(users, email, token, now, isEmail, i);
    var sent := ForgotPassword(users, email, token, now, true, isEmail).users;
    assert FindActive(sent, ResetQuery(Sha256(token), later)) == Some(i) by {
      assert ResetQuery(Sha256(token), later)(sent[i]);
      forall j | 0 <= j < i
        ensures !(sent[j].active && ResetQuery(Sha256(token), later)(sent[j]))
      {
        assert sent[j] == users[j];
      }
    }
    OwnEmailFree(users, i);
    assert !EmailTaken(sent, i, sent[i].email) by {
      forall j | 0 <= j < |sent| && j != i
        ensures sent[j].email != sent[i].email
      {
        assert sent[j] == users[j];
      }
    }
    var d0 := LoadDoc(sent, i, false);
    var d := d0.(user := d0.user.(passwordConfirm := Some(password), resetToken := None, resetTimeout := None),
                 newPassword := Some(Some(password)));
    assert Valid(d, isEmail);
    ValidateIffValid(d, isEmail);
    var after := ResetPassword(sent, token, Some(password), Some(password), later, isEmail).users;
    assert after == sent[i := after[i]];
    assert FindActive(after, ByEmail(email)) == Some(i) by {
      assert ByEmail(email)(after[i]);
      forall j | 0 <= j < i
        ensures !(after[j].active && ByEmail(email)(after[j]))
      {
        assert after[j] == users[j];
        assert !(users[j].active && ByEmail(email)(users[j]));
      }
    }
  }

  /** `updatePassword` for the user `protect` let through: the current
      password must be given, at least 8 characters long and correct, in
      that order; then the new password is validated and saved. */
  /** The document `updatePassword` saves: the user loaded with its
      password, with the new password and confirmation assigned. */
  function UpdateDoc(users: seq<User>, i: nat, password: Option<string>, passwordConfirm: Option<string>): (d: Doc)
    requires i < |users|
    ensures !d.isNew && d.id == i && d.passwordSelected && d.newPassword == Some(password)
    ensures d.user == users[i].(passwordConfirm := passwordConfirm)
  {
    var d0 := LoadDoc(users, i, true);
    d0.(user := d0.user.(passwordConfirm := passwordConfirm), newPassword := Some(password))
  }

  /** `updatePassword`: the current password must be given, long enough
      and right; a stored password that is missing counts as wrong (see
      `Matches`; `Good` rules it out). */
  function UpdatePassword(users: seq<User>, userId: nat, currentPassword: Option<string>, password: Option<string>,
                          passwordConfirm: Option<string>, now: int, isEmail: string -> bool): (r: Step)
    ensures !Present(currentPassword) ==> r == Step(users, Failed(AppErr(CurrentMissing, 400)))
    ensures Present(currentPassword) && |currentPassword.value| < MinPasswordLength ==>
      r == Step(users, Failed(AppErr(PasswordTooShort, 400)))
    ensures (Present(currentPassword) && |currentPassword.value| >= MinPasswordLength
             && FindById(users, userId).Some? && !Matches(currentPassword.value, users[userId].password)) ==>
      r == Step(users, Failed(AppErr(CurrentWrong, 401)))
    ensures r.answer.Token? ==>
      r.answer == Token(201, userId) && userId < |users| && |r.users| == |users|
      && Matches(currentPassword.value, users[userId].password)
      && r.users == users[userId := r.users[userId]]
      && password.Some? && r.users[userId].password == Some(Hashed(Bcrypt(password.value)))
      && r.users[userId].passwordChangedAt == Some(now - 1000)
    ensures r.answer.Token? ==>
      r.users[userId] == users[userId].(password := Some(Hashed(Bcrypt(password.value))), passwordConfirm := None,
                                        passwordChangedAt := Some(now - 1000))
    ensures (Present(currentPassword) && |currentPassword.value| >= MinPasswordLength
             && FindById(users, userId).Some? && Matches(currentPassword.value, users[userId].password)) ==>
      var d := UpdateDoc(users, userId, password, passwordConfirm);
      (!Valid(d, isEmail) ==> r == Step(users, Failed(ValidationError(Validate(d, isEmail)))))
      && (Valid(d, isEmail) && PreSave(d, now).Ok? && !EmailTaken(users, userId, users[userId].email) ==>
            r.answer == Token(201, userId))
    ensures r.answer.Token? || r.answer.Failed?
    ensures r.answer.Failed? ==> r.users == users
  {
    if !Present(currentPassword) then Step(users, Failed(AppErr(CurrentMissing, 400)))
    else if |currentPassword.value| < MinPasswordLength then Step(users, Failed(AppErr(PasswordTooShort, 400)))
    else match FindById(users, userId)
      case None => Step(users, Failed(Raw("TypeError", "Cannot read properties of null (reading 'checkPassword')")))
      case Some(i) =>
        if !Matches(currentPassword.value, users[i].password) then Step(users, Failed(AppErr(CurrentWrong, 401)))
        else
          var d := UpdateDoc(users, i, password, passwordConfirm);
          match Save(users, d, now, true, isEmail)
          case Fail(e) => Step(users, Failed(e))
          case Ok(saved) =>
            ValidateIffValid(d, isEmail);
            Step(saved, Token(201, i))
  }

  /** After a password update the new password logs in and the old one no
      longer does. */
  lemma UpdateThenLogin(users: seq<User>, userId: nat, current: string, password: string, now: int,
                        isEmail: string -> bool)
    requires Good(users) && current != password
    requires UpdatePassword(users, userId, Some(current), Some(password), Some(password), now, isEmail).answer.Token?
    ensures
      var after := UpdatePassword(users, userId, Some(current), Some(password), Some(password), now, isEmail).users;
      Login(after, users[userId].email, Some(password)).answer == Token(200, userId)
      && Login(after, users[userId].email, Some(current)).answer.Failed?
  {
  }

  /** A user whose last reset deadline has passed (a forgotten-password
      email never followed up) cannot update the password: the pre-save
      hook refuses it with 401, even with every field correct. */
  lemma UpdateBlockedByStaleReset(users: seq<User>, userId: nat, current: string, password: string, now: int,
                                  isEmail: string -> bool)
    requires userId < |users| && users[userId].active && Registered(users[userId], isEmail)
    requires |current| >= MinPasswordLength && Matches(current, users[userId].password)
    requires |password| >= MinPasswordLength
    requires users[userId].resetTimeout.Some? && users[userId].resetTimeout.value < now
    ensures UpdatePassword(users, userId, Some(current), Some(password), Some(password), now, isEmail)
      == Step(users, Failed(AppErr(TokenExpiredMessage, 401)))
  {
  }

  /** `verifyEmail`: store a fresh one-time code's hash and deadline for the
      user with this email and mail the code; if the mail fails, drop both
      fields again. The code mailed is `OtpCode(draw)`. */
  function VerifyEmail(users: seq<User>, email: Option<string>, draw: int, now: int, mailOk: bool): (r: Step)
    requires 0 <= draw < 9000
    ensures !Present(email) ==> r == Step(users, Failed(AppErr(VerifyEmailMissing, 400)))
    ensures Present(email) && FindActive(users, ByEmail(email)).None? ==>
      r == Step(users, Failed(AppErr(VerifyEmailUnknown, 401)))
    ensures |r.users| == |users|
  {
    if !Present(email) then Step(users, Failed(AppErr(VerifyEmailMissing, 400)))
    else match FindActive(users, ByEmail(email))
      case None => Step(users, Failed(AppErr(VerifyEmailUnknown, 401)))
      case Some(i) =>
        var d := CreateVerifyEmailOtp(LoadDoc(users, i, false), draw, now).1;
        match Save(users, d, now, false, (_: string) => true)
        case Fail(e) => Step(users, Failed(e))
        case Ok(withOtp) =>
          if mailOk then Step(withOtp, Sent(200, OtpSent))
          else
            var cleared := d.(user := d.user.(otp := None, otpTimeout := None));
            match Save(withOtp, cleared, now, false, (_: string) => true)
            case Fail(e) => Step(withOtp, Failed(e))
            case Ok(done) => Step(done, NoAnswer)
  }

  /** The record after `verifyEmail` for user i: the code's hash and a
      deadline 3 minutes ahead if the mail went out, neither if it did
      not; nobody else changes. */
  lemma VerifyEmailOutcome(users: seq<User>, email: Option<string>, draw: int, now: int, mailOk: bool, i: nat)
    requires 0 <= draw < 9000 && Good(users) && Present(email)
    requires FindActive(users, ByEmail(email)) == Some(i)
    ensures mailOk ==>
      VerifyEmail(users, email, draw, now, mailOk)
        == Step(users[i := users[i].(otp := Some(Bcrypt(OtpCode(draw))), otpTimeout := Some(now + 180000))],
                Sent(200, OtpSent))
    ensures !mailOk ==>
      VerifyEmail(users, email, draw, now, mailOk) == Step(users[i := users[i].(otp := None, otpTimeout := None)], NoAnswer)
  {
  }

  /** `findOne({ _id: id, emailVerifyOTPTimeout: { $gt: now } })`. */
  function FindOtpHolder(users: seq<User>, id: nat, now: int): (r: Option<nat>)
    ensures r.Some? <==> id < |users| && users[id].active && users[id].otpTimeout.Some? && users[id].otpTimeout.value > now
    ensures r.Some? ==> r.value == id
  {
    if id < |users| && users[id].active && users[id].otpTimeout.Some? && users[id].otpTimeout.value > now
    then Some(id) else None
  }

  /** `confirmEmail`: an expired or missing deadline is checked (401)
      before the code is looked at (400 when absent, 401 when wrong); the
      right code marks the email verified and drops both fields. */
  function ConfirmEmail(users: seq<User>, id: nat, otp: Option<string>, now: int): (r: Step)
    ensures FindOtpHolder(users, id, now).None? ==> r == Step(users, Failed(AppErr(OtpExpired, 401)))
    ensures FindOtpHolder(users, id, now).Some? && !Present(otp) ==> r == Step(users, Failed(AppErr(OtpMissing, 400)))
    ensures (FindOtpHolder(users, id, now).Some? && Present(otp) && users[id].otp.Some?
             && users[id].otp != Some(Bcrypt(otp.value))) ==> r == Step(users, Failed(AppErr(OtpWrong, 401)))
    ensures (FindOtpHolder(users, id, now).Some? && Present(otp) && users[id].otp.None?) ==>
      r == Step(users, Failed(Raw("Error", "data and hash arguments required")))
    ensures (FindOtpHolder(users, id, now).Some? && Present(otp) && users[id].otp == Some(Bcrypt(otp.value))
             && !EmailTaken(users, id, users[id].email)) ==>
      r == Step(users[id := users[id].(emailVerify := true, otp := None, otpTimeout := None)],
                Sent(201, EmailConfirmed))
    ensures r.answer.Sent? ==>
      r.answer == Sent(201, EmailConfirmed) && id < |users| && users[id].otp == Some(Bcrypt(otp.value))
      && r.users == users[id := users[id].(emailVerify := true, otp := None, otpTimeout := None)]
    ensures r.answer.Sent? || r.answer.Failed?
    ensures r.answer.Failed? ==> r.users == users
  {
    match FindOtpHolder(users, id, now)
    case None => Step(users, Failed(AppErr(OtpExpired, 401)))
    case Some(i) =>
      if !Present(otp) then Step(users, Failed(AppErr(OtpMissing, 400)))
      else match users[i].otp
        case None => Step(users, Failed(Raw("Error", "data and hash arguments required")))
        case Some(h) =>
          if h != Bcrypt(otp.value) then Step(users, Failed(AppErr(OtpWrong, 401)))
          else
            var d0 := LoadDoc(users, i, false);
            var d := d0.(user := d0.user.(emailVerify := true, otp := None, otpTimeout := None));
            match Save(users, d, now, false, (_: string) => true)
            case Fail(e) => Step(users, Failed(e))
            case Ok(saved) => Step(saved, Sent(201, EmailConfirmed))
  }

  /** The whole verification flow: the mailed code, sent back before its
      deadline, verifies the email, after which the verified-only gate
      lets the user through. */
  lemma VerifyThenConfirm(users: seq<User>, email: Option<string>, draw: int, now: int, later: int, i: nat)
    requires 0 <= draw < 9000 && Good(users) && Present(email)
    requires FindActive(users, ByEmail(email)) == Some(i)
    requires now <= later < now + 180000
    ensures
      var sent := VerifyEmail(users, email, draw, now, true);
      var confirmed := ConfirmEmail(sent.users, i, Some(OtpCode(draw)), later);
      confirmed.answer == Sent(201, EmailConfirmed)
      && confirmed.users[i].emailVerify && RestrictVerified(confirmed.users[i]).Ok?
  {
  }
}
