/**
 * The mobile API accounts: registration stores a fixed one-time code valid
 * for ten minutes; verifying it marks the phone verified, clears the code and
 * logs the user in; password login revokes every earlier token and issues one;
 * logout revokes the token in use; `me` reports the user's first role.
 * The clock, password hashing and checking, the e-mail syntax check and the
 * minted token secrets are parameters.
 */
module AuthController {
  import opened Wrappers
  import opened Schema
  import opened Ordering
  import opened Validation
  import opened UserModel
  import Reg = RegisterRequest

  /** The code every registration stores (no code is generated or sent). */
  const Otp := "123456"

  /** Ten minutes, in seconds. */
  const OtpLifetime := 600

  // ---------------------------------------------------------------- register

  /** A validated optional string: the string, or null. */
  function StringOrNull(v: Value): Option<string> {
    if v.Str? then Some(v.s) else None
  }

  /** PHP `empty` on a validated password: null, "" and "0" are empty. */
  predicate PasswordGiven(v: Value) {
    v.Str? && v.s != "" && v.s != "0"
  }

  /** The attribute array `register` passes to `User::create`. */
  function RegisteredAttrs(req: Request, now: int, hash: string -> Hash): Attrs {
    var pw := Input(req, Reg.PasswordKey);
    NoAttrs.(
      name := Some(StringOrNull(Input(req, Reg.NameKey))), email := Some(StringOrNull(Input(req, Reg.EmailKey))),
      phone := Some(AsText(Input(req, Reg.PhoneKey))), otpCode := Some(Some(Otp)),
      otpExpiresAt := Some(Some(now + OtpLifetime)), isPhoneVerified := Some(false),
      password := if PasswordGiven(pw) then Some(Some(hash(pw.s))) else None)
  }

  /** The row `register` creates. */
  function Registered(req: Request, now: int, hash: string -> Hash): User {
    Fill(Blank(now), RegisteredAttrs(req, now, hash))
  }

  /**
   * The registered row holds the submitted name, address and phone text, the
   * fixed code expiring ten minutes after `now`, an unverified phone, a hash
   * exactly when a non-empty password was sent, and no verification status.
   */
  lemma RegisteredRow(req: Request, now: int, hash: string -> Hash)
    ensures var u := Registered(req, now, hash);
      && u.name == StringOrNull(Input(req, Reg.NameKey))
      && u.email == StringOrNull(Input(req, Reg.EmailKey))
      && u.phone == AsText(Input(req, Reg.PhoneKey))
      && u.otpCode == Some(Otp) && u.otpExpiresAt == Some(now + OtpLifetime)
      && !u.isPhoneVerified && u.verificationStatus.None? && u.permissions == map[]
      && (u.password.Some? <==> PasswordGiven(Input(req, Reg.PasswordKey)))
      && (u.password.Some? ==> u.password.value == hash(Input(req, Reg.PasswordKey).s))
  {
  }

  /**
   * `register`: 422 when the form request fails (its `Reg.Authorize` admits
   * every request); otherwise the new row, 201, unless the unique indexes
   * refuse the insert, which raises (500) and writes nothing. The rules have
   * checked both numbers, so only a blank e-mail string, which the rules
   * skip, can clash, and only with a stored row holding the same string.
   */
  method Register(db: Database, req: Request, now: int, isEmail: string -> bool, hash: string -> Hash)
    returns (status: nat)
    requires db.Valid()
    modifies db`users, db`nextId
    ensures db.Valid() && db.nextId >= old(db.nextId)
    ensures status == 201 || status == 422 || status == 500
    ensures status == 422 <==> !Reg.Passes(req, old(db.users), isEmail)
    ensures status == 500 <==>
      && Reg.Passes(req, old(db.users), isEmail)
      && (EmailTaken(old(db.users), Registered(req, now, hash).email) || PhoneTaken(old(db.users), Registered(req, now, hash).phone))
    ensures status == 500 ==> Reg.EmailKey in req && BlankText(req[Reg.EmailKey])
    ensures status != 201 ==> db.users == old(db.users)
    ensures status == 201 ==> db.users == old(db.users)[old(db.nextId) := Registered(req, now, hash)]
  {
    if !Reg.Passes(req, db.users, isEmail) {
      return 422;
    }
    var u := Registered(req, now, hash);
    RegisteredRow(req, now, hash);
    if EmailTaken(db.users, u.email) || PhoneTaken(db.users, u.phone) {
      return 500;
    }
    var id := InsertUser(db, u);
    status := 201;
  }

  // ---------------------------------------------------------------- verifyOtp

  const PhoneKey := "phone"
  const OtpKey := "otp"

  /** `phone` and `otp` are both `required|string`. */
  predicate OtpRequestOk(req: Request) {
    Filled(Input(req, PhoneKey)) && req[PhoneKey].Str? && Filled(Input(req, OtpKey)) && req[OtpKey].Str?
  }

  /** The outcome of a code check, in the order the controller tests. */
  datatype OtpCheck = Unprocessable | InvalidOtp | Expired(uid: Id) | Accepted(uid: Id)

  /** `User::where('phone', ..)->first()`. */
  function UserByPhone(users: map<Id, User>, bound: nat, phone: string): (r: Option<Id>)
    ensures r.Some? ==> r.value in users && r.value < bound && users[r.value].phone == Some(phone)
    ensures r.Some? ==> forall k :: k in users && k < r.value ==> users[k].phone != Some(phone)
    ensures r.None? ==> forall k :: k in users && k < bound ==> users[k].phone != Some(phone)
  {
    FirstFrom(users, 0, bound, k => k in users && users[k].phone == Some(phone))
  }

  /**
   * The checks of `verifyOtp`: the request rules, then an unknown phone or a
   * different code (`!==`), then expiry, which holds only when `now` is
   * strictly after the stored instant.
   */
  function CheckOtp(users: map<Id, User>, bound: nat, req: Request, now: int): OtpCheck {
    if !OtpRequestOk(req) then Unprocessable
    else
      match UserByPhone(users, bound, req[PhoneKey].s)
      case None => InvalidOtp
      case Some(uid) =>
        if users[uid].otpCode != Some(req[OtpKey].s) then InvalidOtp
        else if users[uid].otpExpiresAt.Some? && now > users[uid].otpExpiresAt.value then Expired(uid)
        else Accepted(uid)
  }

  /** The response status of each outcome. */
  function OtpStatus(c: OtpCheck): (status: nat)
    ensures status == 200 <==> c.Accepted?
    ensures status == 422 <==> c.Unprocessable?
  {
    match c
    case Unprocessable => 422
    case InvalidOtp => 400
    case Expired(_) => 400
    case Accepted(_) => 200
  }

  /** The row after a successful check; the `verification_status` in the same `update` is not fillable and is lost. */
  function Verified(u: User): User {
    Fill(u, NoAttrs.(isPhoneVerified := Some(true), otpCode := Some(None), otpExpiresAt := Some(None),
                     verificationStatus := Some(Some("verified"))))
  }

  /** Verification sets the flag and clears the code and its expiry; every other column, the status included, stays. */
  lemma VerifiedRow(u: User)
    ensures Verified(u) == u.(isPhoneVerified := true, otpCode := None, otpExpiresAt := None)
  {
  }

  /** `verifyOtp`: on acceptance the row is verified and a 'mobile-login' token is issued. */
  method VerifyOtp(db: Database, req: Request, now: int, secret: string) returns (status: nat)
    requires db.Valid()
    modifies db`users, db`tokens, db`nextId
    ensures db.Valid() && db.nextId >= old(db.nextId)
    ensures status == OtpStatus(CheckOtp(old(db.users), old(db.nextId), req, now))
    ensures status != 200 ==> db.users == old(db.users) && db.tokens == old(db.tokens)
    ensures status == 200 ==> var uid := CheckOtp(old(db.users), old(db.nextId), req, now).uid;
      && db.users == old(db.users)[uid := Verified(old(db.users)[uid])]
      && db.tokens == old(db.tokens)[old(db.nextId) := Token(uid, "mobile-login", secret)]
  {
    var check := CheckOtp(db.users, db.nextId, req, now);
    status := OtpStatus(check);
    if !check.Accepted? {
      return;
    }
    var uid := check.uid;
    VerifiedRow(db.users[uid]);
    UpdateUser(db, uid, Verified(db.users[uid]));
    var tid := InsertToken(db, Token(uid, "mobile-login", secret));
  }

  /** A code is accepted at the very instant it expires. */
  lemma ExpiryInstantAccepted(users: map<Id, User>, bound: nat, req: Request, now: int)
    requires OtpRequestOk(req)
    requires UserByPhone(users, bound, req[PhoneKey].s).Some?
    requires var uid := UserByPhone(users, bound, req[PhoneKey].s).value;
      users[uid].otpCode == Some(req[OtpKey].s) && users[uid].otpExpiresAt == Some(now)
    ensures CheckOtp(users, bound, req, now).Accepted?
  {
  }

  /** A wrong code is reported as invalid, never as expired, however late it is. */
  lemma WrongCodeIsInvalid(users: map<Id, User>, bound: nat, req: Request, now: int)
    requires OtpRequestOk(req)
    requires var uid := UserByPhone(users, bound, req[PhoneKey].s);
      uid.None? || users[uid.value].otpCode != Some(req[OtpKey].s)
    ensures CheckOtp(users, bound, req, now) == InvalidOtp
  {
  }

  /** A code works once: after an accepted check, the same request is invalid at any later time. */
  lemma ReplayFails(users: map<Id, User>, bound: nat, req: Request, now: int, later: int)
    requires CheckOtp(users, bound, req, now).Accepted?
    ensures var uid := CheckOtp(users, bound, req, now).uid;
      CheckOtp(users[uid := Verified(users[uid])], bound, req, later) == InvalidOtp
  {
    var uid := CheckOtp(users, bound, req, now).uid;
    var users' := users[uid := Verified(users[uid])];
    VerifiedRow(users[uid]);
    var phone := req[PhoneKey].s;
    assert UserByPhone(users, bound, phone) == Some(uid);
    assert uid in users' && uid < bound && users'[uid].phone == Some(phone);
    var found := UserByPhone(users', bound, phone);
    assert found.Some?;
    var v := found.value;
    assert v in users;
    assert users[v].phone == users'[v].phone;
    assert !(v < uid);
    assert !(uid < v);
  }

  /** A row inserted under a fresh id, with a phone nobody else has, is the one a code check on that phone finds. */
  lemma FreshPhoneFound(users: map<Id, User>, bound: nat, id: Id, u: User, phone: string)
    requires id !in users && id < bound && u.phone == Some(phone) && !PhoneTaken(users, u.phone)
    ensures UserByPhone(users[id := u], bound, phone) == Some(id)
  {
    var found := UserByPhone(users[id := u], bound, phone);
    assert forall k :: k in users ==> users[k].phone != u.phone;
  }

  /** A fresh registration is accepted with the fixed code at any time up to its expiry. */
  lemma RegisteredCodeAccepted(users: map<Id, User>, bound: nat, id: Id, reg: Request, now: int, hash: string -> Hash,
                               req: Request, later: int)
    requires id !in users && id < bound
    requires Registered(reg, now, hash).phone.Some? && !PhoneTaken(users, Registered(reg, now, hash).phone)
    requires OtpRequestOk(req) && Some(req[PhoneKey].s) == Registered(reg, now, hash).phone && req[OtpKey].s == Otp
    requires later <= now + OtpLifetime
    ensures CheckOtp(users[id := Registered(reg, now, hash)], bound, req, later) == Accepted(id)
  {
    var u := Registered(reg, now, hash);
    RegisteredRow(reg, now, hash);
    FreshPhoneFound(users, bound, id, u, req[PhoneKey].s);
  }

  // ---------------------------------------------------------------- login / logout / me

  /** `User::where('email', ..)->first()`. */
  function UserByEmail(users: map<Id, User>, bound: nat, email: string): (r: Option<Id>)
    ensures r.Some? ==> r.value in users && users[r.value].email == Some(email)
    ensures r.None? ==> forall k :: k in users && k < bound ==> users[k].email != Some(email)
  {
    FirstFrom(users, 0, bound, k => k in users && users[k].email == Some(email))
  }

  /** No user has the address, the user has no password, or the password does not match the hash. */
  predicate BadCredentials(users: map<Id, User>, bound: nat, email: string, password: string, check: (string, Hash) -> bool) {
    match UserByEmail(users, bound, email)
    case None => true
    case Some(uid) => users[uid].password.None? || !check(password, users[uid].password.value)
  }

  /**
   * `login`: 401 with nothing changed for bad credentials; otherwise every
   * token of the user is deleted and one 'api_token' is issued, so the user
   * holds exactly one token; other users' tokens are untouched.
   */
  method Login(db: Database, email: string, password: string, check: (string, Hash) -> bool, secret: string)
    returns (status: nat)
    requires db.Valid()
    modifies db`tokens, db`nextId
    ensures db.Valid() && db.nextId >= old(db.nextId)
    ensures status == 200 || status == 401
    ensures status == 401 <==> BadCredentials(db.users, old(db.nextId), email, password, check)
    ensures status == 401 ==> db.tokens == old(db.tokens)
    ensures status == 200 ==> var uid := UserByEmail(db.users, old(db.nextId), email).value;
      && db.tokens == (old(db.tokens) - TokensOf(old(db.tokens), uid))[old(db.nextId) := Token(uid, "api_token", secret)]
      && TokensOf(db.tokens, uid) == {old(db.nextId)}
      && forall other :: other != uid ==> TokensOf(db.tokens, other) == TokensOf(old(db.tokens), other)
  {
    if BadCredentials(db.users, db.nextId, email, password, check) {
      return 401;
    }
    var uid := UserByEmail(db.users, db.nextId, email).value;
    ghost var before := db.tokens;
    DeleteTokens(db, TokensOf(db.tokens, uid));
    var tid := InsertToken(db, Token(uid, "api_token", secret));
    RevokeAndIssue(before, uid, tid, secret);
    status := 200;
  }

  /** Deleting a user's tokens and issuing one under a fresh id leaves them exactly that one, and others theirs. */
  lemma RevokeAndIssue(tokens: map<Id, Token>, uid: Id, tid: Id, secret: string)
    requires tid !in tokens
    ensures var after := (tokens - TokensOf(tokens, uid))[tid := Token(uid, "api_token", secret)];
      && TokensOf(after, uid) == {tid}
      && forall other :: other != uid ==> TokensOf(after, other) == TokensOf(tokens, other)
  {
    var after := (tokens - TokensOf(tokens, uid))[tid := Token(uid, "api_token", secret)];
    forall other | other != uid ensures TokensOf(after, other) == TokensOf(tokens, other) {
      assert forall k :: k in TokensOf(tokens, other) ==> k != tid && k in after;
    }
  }

  /** `logout`: the token of the current request is deleted and no other. */
  method Logout(db: Database, current: Id) returns (status: nat)
    requires db.Valid()
    modifies db`tokens
    ensures db.Valid() && status == 200
    ensures current !in db.tokens
    ensures forall k :: k != current ==> (k in db.tokens <==> k in old(db.tokens))
    ensures forall k :: k in db.tokens ==> db.tokens[k] == old(db.tokens)[k]
  {
    DeleteTokens(db, {current});
    status := 200;
  }

  /** What `me` returns. */
  datatype Profile = Profile(id: Id, name: Option<string>, email: Option<string>, role: string, verificationStatus: Option<string>)

  /** `$user->roles->first()`: the lowest-keyed existing role linked to the user. */
  function FirstRole(roles: map<Id, Role>, roleUsers: set<Link>, bound: nat, uid: Id): (r: Option<Id>)
    ensures r.Some? ==> r.value in roles && (uid, r.value) in roleUsers
    ensures r.None? ==> forall k :: k in roles && k < bound ==> (uid, k) !in roleUsers
  {
    FirstFrom(roles, 0, bound, k => k in roles && (uid, k) in roleUsers)
  }

  /** `me`: the user's columns and the slug of their first role, or 'user' when they have none. */
  function Me(db: Database, uid: Id): (r: Profile)
    requires uid in db.users
    reads db`users, db`roles, db`roleUsers, db`nextId
    ensures r.id == uid && r.verificationStatus == db.users[uid].verificationStatus
    ensures (forall k :: k in db.roles && k < db.nextId ==> (uid, k) !in db.roleUsers) ==> r.role == "user"
    ensures r.role != "user" ==> exists k :: k in db.roles && (uid, k) in db.roleUsers && db.roles[k].slug == r.role
  {
    var u := db.users[uid];
    var role := match FirstRole(db.roles, db.roleUsers, db.nextId, uid)
      case None => "user"
      case Some(k) => db.roles[k].slug;
    Profile(uid, u.name, u.email, role, u.verificationStatus)
  }
}
