/** The user record, its schema (defaults and validators), its instance
    methods and its two hooks: `pre("save")`, which hashes a newly assigned
    password and stamps `passwordChangedAt`, and `pre(/^find/)`, which hides
    deactivated accounts from every lookup.

    The collection is a sequence of records and a user's id is its
    position. Hash functions are modelled as injective constructors, so
    comparing a candidate with a stored hash is comparing the candidate with
    the hashed text. */
module UserModel {
  import opened Common
  import opened Errors

  /** The output of a hash function over a text. */
  datatype Hash = Bcrypt(plain: string) | Sha256(plain: string)

  /** A password as it sits in a record: the text a client sent, or a hash. */
  datatype Secret = Clear(text: string) | Hashed(hash: Hash)

  datatype User = User(
    name: Option<string>,
    email: Option<string>,
    role: string,
    password: Option<Secret>,
    passwordConfirm: Option<string>,
    passwordChangedAt: Option<int>,
    resetToken: Option<Hash>,
    resetTimeout: Option<int>,
    active: bool,
    emailVerify: bool,
    otp: Option<Hash>,
    otpTimeout: Option<int>)

  /** A document in memory. `user` holds every stored field; the password
      is hidden from the code (and from validation) unless the query asked
      for it (`passwordSelected`). `newPassword` is Some(v) once the code has
      written `user.password = v` (v is None for `undefined`). */
  datatype Doc = Doc(id: nat, user: User, isNew: bool, passwordSelected: bool, newPassword: Option<Option<string> >)

  const Roles: set<string> := {"user", "admin", "seller"}
  const DefaultRole := "user"
  const MinPasswordLength := 8
  /** 12 minutes, in milliseconds. */
  const ResetTokenLifetime := 12 * 60 * 1000
  /** 3 minutes, in milliseconds. */
  const OtpLifetime := 3 * 60 * 1000

  const NameRequired := "User must have a name"
  const EmailRequired := "User must have an email"
  const EmailInvalid := "Please fill correct email"
  const PasswordRequired := "User must have a password"
  const PasswordTooShort := "Password must have at least 8 characters"
  const ConfirmRequired := "Please confim your password"
  const ConfirmMismatch := "Password not in the same please check and fill again"
  const TokenExpiredMessage := "Your token is expired"

  /** The mapper's default message for a failed `enum` validator. */
  function RoleInvalid(role: string): string
  {
    "`" + role + "` is not a valid enum value for path `role`."
  }

  /** The mapper's `required` test for a string: present and not empty. */
  predicate Present(v: Option<string>)
  {
    v.Some? && v.value != ""
  }

  function AsSecret(v: Option<string>): (s: Option<Secret>)
    ensures s.Some? <==> v.Some?
    ensures v.Some? ==> s.value == Clear(v.value)
  {
    match v
    case Some(t) => Some(Clear(t))
    case None => None
  }

  /** `User.create({...})`: a new record with the schema defaults. The
      default `passwordChangedAt` was computed once, when the schema was
      loaded (`loadTime`). */
  function NewUser(name: Option<string>, email: Option<string>, password: Option<string>,
                   passwordConfirm: Option<string>, passwordChangedAt: Option<int>, loadTime: int): (u: User)
    ensures u.role == DefaultRole && u.active && !u.emailVerify
    ensures u.name == name && u.email == email && u.passwordConfirm == passwordConfirm
    ensures u.password == AsSecret(password)
    ensures u.passwordChangedAt == Some(if passwordChangedAt.Some? then passwordChangedAt.value else loadTime)
    ensures u.resetToken.None? && u.resetTimeout.None? && u.otp.None? && u.otpTimeout.None?
  {
    User(name, email, DefaultRole, AsSecret(password), passwordConfirm,
         Some(match passwordChangedAt case Some(t) => t case None => loadTime),
         None, None, true, false, None, None)
  }

  /** The document `User.create` validates and saves. */
  function NewDoc(id: nat, u: User): (d: Doc)
    ensures d.isNew && d.passwordSelected && d.user == u
    ensures d.newPassword == Some(if u.password.Some? && u.password.value.Clear? then Some(u.password.value.text) else None)
  {
    Doc(id, u, true, true, Some(match u.password case Some(Clear(t)) => Some(t) case _ => None))
  }

  /** A stored user as `findOne` hands it back, with or without
      `.select("+password")`. */
  function LoadDoc(users: seq<User>, id: nat, withPassword: bool): (d: Doc)
    requires id < |users|
    ensures d.user == users[id] && d.id == id && !d.isNew && d.newPassword.None?
    ensures d.passwordSelected == withPassword
  {
    Doc(id, users[id], false, withPassword, None)
  }

  /** The password the code sees: the one it assigned, else the stored one
      if it was selected. */
  function VisiblePassword(d: Doc): (p: Option<Secret>)
    ensures d.newPassword.Some? ==> p == AsSecret(d.newPassword.value)
    ensures d.newPassword.None? && !d.passwordSelected ==> p.None?
  {
    match d.newPassword
    case Some(v) => AsSecret(v)
    case None => if d.passwordSelected then d.user.password else None
  }

  // One message list per path; a path reports only its first failing
  // validator (required, then minlength, then the custom validator).

  function NameMessages(u: User): seq<string>
  {
    if Present(u.name) then [] else [NameRequired]
  }

  function EmailMessages(u: User, isEmail: string -> bool): seq<string>
  {
    if !Present(u.email) then [EmailRequired]
    else if !isEmail(u.email.value) then [EmailInvalid]
    else []
  }

  /** The password path is validated when it was selected or assigned. */
  function PasswordMessages(d: Doc): seq<string>
  {
    if !d.passwordSelected && d.newPassword.None? then []
    else match VisiblePassword(d)
      case None => [PasswordRequired]
      case Some(Clear(t)) =>
        if t == "" then [PasswordRequired]
        else if |t| < MinPasswordLength then [PasswordTooShort]
        else []
      case Some(Hashed(_)) => []
  }

  /** `val === this.password`, where `this.password` is the visible one. */
  function ConfirmMessages(d: Doc): seq<string>
  {
    match d.user.passwordConfirm
    case None => [ConfirmRequired]
    case Some(c) =>
      if c == "" then [ConfirmRequired]
      else if |c| < MinPasswordLength then [PasswordTooShort]
      else if VisiblePassword(d) != Some(Clear(c)) then [ConfirmMismatch]
      else []
  }

  function RoleMessages(u: User): seq<string>
  {
    if u.role in Roles then [] else [RoleInvalid(u.role)]
  }

  /** The validator messages of a document, one per failing path. The
      model lists them in schema order, then `role`; the order the
      document mapper reports them in depends on each path's state and is
      not modelled. */
  function Validate(d: Doc, isEmail: string -> bool): seq<string>
  {
    NameMessages(d.user) + EmailMessages(d.user, isEmail) + PasswordMessages(d)
      + ConfirmMessages(d) + RoleMessages(d.user)
  }

  /** The schema's constraints stated directly. */
  predicate Valid(d: Doc, isEmail: string -> bool)
  {
    && Present(d.user.name)
    && Present(d.user.email) && isEmail(d.user.email.value)
    && d.user.role in Roles
    && ((d.passwordSelected || d.newPassword.Some?) ==>
          VisiblePassword(d).Some? &&
          (VisiblePassword(d).value.Clear? ==> |VisiblePassword(d).value.text| >= MinPasswordLength))
    && d.user.passwordConfirm.Some? && |d.user.passwordConfirm.value| >= MinPasswordLength
    && VisiblePassword(d) == Some(Clear(d.user.passwordConfirm.value))
  }

  /** Validation reports nothing exactly when the schema's constraints
      hold. */
  lemma ValidateIffValid(d: Doc, isEmail: string -> bool)
    ensures Validate(d, isEmail) == [] <==> Valid(d, isEmail)
  {
  }

  /** A stored user loaded without its password never passes validation:
      the confirmation is not stored, so its `required` validator fails. */
  lemma StoredUserFailsValidation(users: seq<User>, id: nat, isEmail: string -> bool)
    requires id < |users| && users[id].passwordConfirm.None?
    ensures ConfirmRequired in Validate(LoadDoc(users, id, false), isEmail)
  {
  }

  /** `bcrypt.hash(this.password, 12)` on the assigned value. */
  function HashAssigned(v: Option<string>): (r: Result<Option<Secret>>)
    ensures v.Some? ==> r == Ok(Some(Hashed(Bcrypt(v.value))))
    ensures v.None? ==> r.Fail?
  {
    match v
    case Some(t) => Ok(Some(Hashed(Bcrypt(t))))
    case None => Fail(Raw("Error", "data and salt arguments required"))
  }

  /** The `pre("save")` hook. Nothing happens unless a password was
      assigned. Then the password is hashed and the confirmation dropped;
      a new user is done. An existing user is refused (401) when a reset
      timeout is set and already past, and otherwise gets
      `passwordChangedAt` one second before now. */
  function PreSave(d: Doc, now: int): (r: Result<User>)
    ensures d.newPassword.None? ==> r == Ok(d.user)
    ensures d.newPassword.Some? && d.newPassword.value.Some? && r.Ok? ==>
      r.value.password == Some(Hashed(Bcrypt(d.newPassword.value.value))) && r.value.passwordConfirm.None?
    ensures d.newPassword == Some(None) ==> r.Fail?
    ensures d.newPassword.Some? && d.newPassword.value.Some? && d.isNew ==>
      r.Ok? && r.value.passwordChangedAt == d.user.passwordChangedAt
    ensures d.newPassword.Some? && d.newPassword.value.Some? && !d.isNew ==>
      (r.Fail? <==> d.user.resetTimeout.Some? && d.user.resetTimeout.value < now)
    ensures d.newPassword.Some? && d.newPassword.value.Some? && !d.isNew && r.Fail? ==>
      r.error == AppErr(TokenExpiredMessage, 401)
    ensures d.newPassword.Some? && !d.isNew && r.Ok? ==> r.value.passwordChangedAt == Some(now - 1000)
    ensures r.Ok? ==> r.value.(password := d.user.password, passwordConfirm := d.user.passwordConfirm,
                               passwordChangedAt := d.user.passwordChangedAt) == d.user
  {
    match d.newPassword
    case None => Ok(d.user)
    case Some(v) =>
      var hashed :- HashAssigned(v);
      var u := d.user.(password := hashed, passwordConfirm := None);
      if d.isNew then Ok(u)
      else if u.resetTimeout.Some? && u.resetTimeout.value < now then Fail(AppErr(TokenExpiredMessage, 401))
      else Ok(u.(passwordChangedAt := Some(now - 1000)))
  }

  /** The database's unique index on `email`. */
  predicate EmailTaken(users: seq<User>, except: int, email: Option<string>)
  {
    exists j :: 0 <= j < |users| && j != except && users[j].email == email
  }

  function EmailText(email: Option<string>): string
  {
    match email
    case Some(e) => e
    case None => "null"
  }

  /** `doc.save()`: validation (unless `validateBeforeSave: false`), the
      pre-save hook, the unique index, then the write. A new document is
      appended; an existing one replaces its stored record. */
  function Save(users: seq<User>, d: Doc, now: int, validate: bool, isEmail: string -> bool): (r: Result<seq<User>>)
    requires !d.isNew ==> d.id < |users|
    ensures validate && Validate(d, isEmail) != [] ==> r == Fail(ValidationError(Validate(d, isEmail)))
    ensures r.Ok? ==> (!validate || Valid(d, isEmail)) && PreSave(d, now).Ok?
    ensures r.Ok? ==> !EmailTaken(users, if d.isNew then -1 else d.id, PreSave(d, now).value.email)
    ensures r.Ok? && d.isNew ==> r.value == users + [PreSave(d, now).value]
    ensures r.Ok? && !d.isNew ==> r.value == users[d.id := PreSave(d, now).value]
    ensures ((!validate || Valid(d, isEmail)) && PreSave(d, now).Ok?
             && !EmailTaken(users, if d.isNew then -1 else d.id, PreSave(d, now).value.email)) ==> r.Ok?
  {
    ValidateIffValid(d, isEmail);
    var messages := Validate(d, isEmail);
    if validate && messages != [] then Fail(ValidationError(messages))
    else
      var u :- PreSave(d, now);
      var self := if d.isNew then -1 else d.id;
      if EmailTaken(users, self, u.email) then Fail(DuplicateKeyError("email", EmailText(u.email)))
      else if d.isNew then Ok(users + [u])
      else Ok(users[d.id := u])
  }

  /** Every stored password is a bcrypt hash (never the clear text), no
      confirmation is stored, and no two users share an email. */
  predicate Good(users: seq<User>)
  {
    && (forall i :: 0 <= i < |users| ==>
          users[i].password.Some? && users[i].password.value.Hashed? && users[i].password.value.hash.Bcrypt?)
    && (forall i :: 0 <= i < |users| ==> users[i].passwordConfirm.None?)
    && (forall i, j :: 0 <= i < j < |users| ==> users[i].email != users[j].email)
  }

  /** A save keeps the collection good when it stores a loaded document
      whose confirmation field was not set, or validates an assigned
      password first. */
  lemma SaveKeepsGood(users: seq<User>, d: Doc, now: int, validate: bool, isEmail: string -> bool)
    requires Good(users)
    requires !d.isNew ==> d.id < |users| && d.user.password == users[d.id].password
    requires d.isNew ==> d.newPassword.Some?
    requires d.newPassword.Some? ==> validate
    requires d.newPassword.None? ==> d.user.passwordConfirm.None?
    ensures Save(users, d, now, validate, isEmail).Ok? ==> Good(Save(users, d, now, validate, isEmail).value)
  {
  }

  /** `createResetTokenPwd`: the random token goes to the caller; the
      record keeps only its SHA-256 and a deadline 12 minutes ahead. */
  function CreateResetTokenPwd(d: Doc, token: string, now: int): (r: (string, Doc))
    ensures r.0 == token
    ensures r.1.user.resetToken == Some(Sha256(token))
    ensures r.1.user.resetTimeout == Some(now + 720000)
    ensures r.1 == d.(user := r.1.user)
    ensures r.1.user.(resetToken := d.user.resetToken, resetTimeout := d.user.resetTimeout) == d.user
  {
    (token, d.(user := d.user.(resetToken := Some(Sha256(token)), resetTimeout := Some(now + ResetTokenLifetime))))
  }

  /** The four-digit code `Math.floor(1000 + Math.random() * 9000)` for a
      draw `Math.floor(Math.random() * 9000)` in [0, 9000). */
  function OtpCode(draw: int): (otp: string)
    requires 0 <= draw < 9000
    ensures |otp| == 4 && AllDigits(otp) && otp[0] != '0'
    ensures 1000 <= DigitsValue(otp) <= 9999 && DigitsValue(otp) == 1000 + draw
  {
    DecimalLength(1000 + draw, 3);
    DecimalRoundTrip(1000 + draw);
    NatToDecimal(1000 + draw)
  }

  /** `createVerifyEmailOTP`: the code goes to the caller; the record keeps
      its bcrypt hash and a deadline 3 minutes ahead. */
  function CreateVerifyEmailOtp(d: Doc, draw: int, now: int): (r: (string, Doc))
    requires 0 <= draw < 9000
    ensures |r.0| == 4 && AllDigits(r.0) && 1000 <= DigitsValue(r.0) <= 9999
    ensures r.1.user.otp == Some(Bcrypt(r.0)) && r.1.user.otpTimeout == Some(now + 180000)
    ensures r.1 == d.(user := r.1.user)
    ensures r.1.user.(otp := d.user.otp, otpTimeout := d.user.otpTimeout) == d.user
  {
    var otp := OtpCode(draw);
    (otp, d.(user := d.user.(otp := Some(Bcrypt(otp)), otpTimeout := Some(now + OtpLifetime))))
  }

  /** `checkPassword(candidate, hash)`: `bcrypt.compare`. The library
      rejects a missing hash with an error; callers that compare against a
      stored password rely on `Good`, under which every stored user has
      one, and treat a missing one as a mismatch. */
  predicate Matches(candidate: string, stored: Option<Secret>)
  {
    stored == Some(Hashed(Bcrypt(candidate)))
  }

  /** `checkPasswordChangeAfter(iat)`. The date arithmetic of the source is
      the parameter `changedAfter`; an absent `passwordChangedAt` means the
      password never changed. */
  function CheckPasswordChangeAfter(u: User, iat: int, changedAfter: (int, int) -> bool): (r: bool)
    ensures u.passwordChangedAt.None? ==> !r
    ensures u.passwordChangedAt.Some? ==> r == changedAfter(u.passwordChangedAt.value, iat)
  {
    match u.passwordChangedAt
    case Some(t) => changedAfter(t, iat)
    case None => false
  }

  /** Every `find*` query with the `pre(/^find/)` hook: the first record
      that is active and satisfies the query. */
  function FindActive(users: seq<User>, query: User -> bool): (r: Option<nat>)
    ensures r.Some? ==> r.value < |users| && users[r.value].active && query(users[r.value])
    ensures r.Some? ==> forall j :: 0 <= j < r.value ==> !(users[j].active && query(users[j]))
    ensures r.None? <==> forall j :: 0 <= j < |users| ==> !(users[j].active && query(users[j]))
  {
    FindFrom(users, query, 0)
  }

  function FindFrom(users: seq<User>, query: User -> bool, k: nat): (r: Option<nat>)
    requires k <= |users|
    ensures r.Some? ==> k <= r.value < |users| && users[r.value].active && query(users[r.value])
    ensures r.Some? ==> forall j :: k <= j < r.value ==> !(users[j].active && query(users[j]))
    ensures r.None? <==> forall j :: k <= j < |users| ==> !(users[j].active && query(users[j]))
    decreases |users| - k
  {
    if k == |users| then None
    else if users[k].active && query(users[k]) then Some(k)
    else FindFrom(users, query, k + 1)
  }

  /** The query `{ email }`. */
  function ByEmail(email: Option<string>): User -> bool
  {
    (u: User) => u.email == email
  }

  /** `findById(id)` with the hook: the user at that position, if active. */
  function FindById(users: seq<User>, id: nat): (r: Option<nat>)
    ensures r.Some? <==> id < |users| && users[id].active
    ensures r.Some? ==> r.value == id
  {
    if id < |users| && users[id].active then Some(id) else None
  }

  /** In a good collection a user's own email is not taken by anyone else,
      so saving it back cannot violate the unique index. */
  lemma OwnEmailFree(users: seq<User>, i: nat)
    requires Good(users) && i < |users|
    ensures !EmailTaken(users, i, users[i].email)
  {
  }

  /** A deactivated account is never found, whatever the query. */
  lemma InactiveNeverFound(users: seq<User>, query: User -> bool, i: nat)
    requires i < |users| && !users[i].active
    ensures FindActive(users, query) != Some(i)
  {
  }

  /** In a good collection, an active user is found by its email. */
  lemma FoundByEmail(users: seq<User>, i: nat)
    requires Good(users) && i < |users| && users[i].active && users[i].email.Some?
    ensures FindActive(users, ByEmail(users[i].email)) == Some(i)
  {
  }
}
