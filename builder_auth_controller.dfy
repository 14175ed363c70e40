/**
 * Builder self-registration on the web panel: a validated form creates the
 * account with the three builder permissions, attaches the 'builder' role
 * when that role exists, stores every KYC upload as an attachment and links
 * the account to exactly those attachments, then redirects to the thank-you
 * page. Password hashing and the e-mail syntax check are parameters; the
 * stored file contents are not modelled, only the attachment rows.
 */
module BuilderAuthController {
  import opened Wrappers
  import opened Schema
  import opened Validation
  import opened UserModel
  import opened Ordering
  import opened Responses

  const NameKey := "name"
  const EmailKey := "email"
  const PasswordKey := "password"
  const KycKey := "kyc_documents"

  /** `mimes:pdf,jpg,png`. */
  const KycExtensions: set<string> := {"pdf", "jpg", "png"}

  /** `max:5120`, in kilobytes. */
  const KycMaxKb := 5120

  const BuilderSlug := "builder"

  /** The permissions every builder account is created with. */
  const BuilderPermissions: map<string, bool> :=
    map["platform.index" := true, "platform.builder.projects" := true, "platform.builder.properties" := true]

  /** `name`: `required|string|max:255`. */
  predicate NameOk(req: Request) {
    Filled(Input(req, NameKey)) && req[NameKey].Str? && |req[NameKey].s| <= 255
  }

  /** `email`: `required|string|email|max:255|unique:users`. */
  predicate EmailOk(req: Request, users: map<Id, User>, isEmail: string -> bool) {
    && Filled(Input(req, EmailKey)) && req[EmailKey].Str?
    && isEmail(req[EmailKey].s) && |req[EmailKey].s| <= 255
    && forall k :: k in users ==> users[k].email != Some(req[EmailKey].s)
  }

  /** `password`: `required|string|min:8|confirmed`. */
  predicate PasswordOk(req: Request) {
    Filled(Input(req, PasswordKey)) && req[PasswordKey].Str? && |req[PasswordKey].s| >= 8 && Confirmed(req, PasswordKey)
  }

  /** `kyc_documents`: `required|array|min:1`, and each element `file|mimes:pdf,jpg,png|max:5120`. */
  predicate KycOk(req: Request) {
    && Filled(Input(req, KycKey)) && req[KycKey].List? && |req[KycKey].items| >= 1
    && forall i :: 0 <= i < |req[KycKey].items| ==> FileOk(req[KycKey].items[i], KycExtensions, KycMaxKb)
  }

  /** The whole rule set of `register`. */
  predicate Passes(req: Request, users: map<Id, User>, isEmail: string -> bool) {
    NameOk(req) && EmailOk(req, users, isEmail) && PasswordOk(req) && KycOk(req)
  }

  /** What the account columns are read from: a string name, e-mail address and password. */
  predicate Shaped(req: Request) {
    NameOk(req) && EmailKey in req && req[EmailKey].Str? && PasswordOk(req)
  }

  /** The uploaded KYC files, in request order. */
  function Uploads(req: Request): (files: seq<Upload>)
    requires KycOk(req)
    ensures |files| == |req[KycKey].items| >= 1
    ensures forall i :: 0 <= i < |files| ==> files[i].extension in KycExtensions && files[i].sizeKb <= KycMaxKb
  {
    seq(|req[KycKey].items|, i requires 0 <= i < |req[KycKey].items| => req[KycKey].items[i].file)
  }

  /** The attribute array `register` passes to `User::create`, `verification_status` 'pending' included. */
  function BuilderAttrs(req: Request, hash: string -> Hash): Attrs
    requires Shaped(req)
  {
    NoAttrs.(
      name := Some(Some(req[NameKey].s)), email := Some(Some(req[EmailKey].s)),
      password := Some(Some(hash(req[PasswordKey].s))), verificationStatus := Some(Some("pending")),
      permissions := Some(BuilderPermissions))
  }

  /** The account `register` creates. */
  function NewBuilder(req: Request, now: int, hash: string -> Hash): User
    requires Shaped(req)
  {
    Fill(Blank(now), BuilderAttrs(req, hash))
  }

  /**
   * The new account has the submitted name and address, the hash of the
   * password, exactly the three builder permissions, no phone and no code;
   * the 'pending' status in the array is not fillable, so the status is null.
   */
  lemma NewBuilderRow(req: Request, now: int, hash: string -> Hash)
    requires Shaped(req)
    ensures var u := NewBuilder(req, now, hash);
      && u.name == Some(req[NameKey].s) && u.email == Some(req[EmailKey].s)
      && u.password == Some(hash(req[PasswordKey].s))
      && u.permissions == BuilderPermissions
      && u.verificationStatus.None?
      && u.phone.None? && u.otpCode.None? && !u.isPhoneVerified && u.createdAt == now
  {
    FillKeepsVerificationStatus(Blank(now), BuilderAttrs(req, hash));
  }

  /** `Role::where('slug', 'builder')->first()`. */
  function BuilderRole(roles: map<Id, Role>, bound: nat): (r: Option<Id>)
    ensures r.Some? ==> r.value in roles && roles[r.value].slug == BuilderSlug
    ensures r.None? ==> forall k :: k in roles && k < bound ==> roles[k].slug != BuilderSlug
  {
    FirstFrom(roles, 0, bound, k => k in roles && roles[k].slug == BuilderSlug)
  }

  /** The role links `addRole` leaves: the builder role added when it exists, nothing otherwise. */
  function WithBuilderRole(roleUsers: set<Link>, roles: map<Id, Role>, bound: nat, uid: Id): set<Link> {
    match BuilderRole(roles, bound)
    case None => roleUsers
    case Some(rid) => roleUsers + {(uid, rid)}
  }

  /**
   * A fresh account holds a role afterwards exactly when it is the role with
   * slug 'builder' `BuilderRole` finds, and every other account keeps exactly
   * its role links.
   */
  lemma NewAccountRoles(roleUsers: set<Link>, roles: map<Id, Role>, bound: nat, uid: Id, rid: Id)
    requires forall l :: l in roleUsers ==> l.0 != uid
    ensures (uid, rid) in WithBuilderRole(roleUsers, roles, bound, uid) <==> BuilderRole(roles, bound) == Some(rid)
    ensures BuilderRole(roles, bound) == Some(rid) ==> rid in roles && roles[rid].slug == BuilderSlug
    ensures forall l :: l in WithBuilderRole(roleUsers, roles, bound, uid) && l.0 != uid <==> l in roleUsers
  {
  }

  /**
   * The upload loop: one new attachment row per file, in order, under
   * consecutive fresh ids.
   */
  method StoreUploads(db: Database, files: seq<Upload>) returns (ids: seq<Id>)
    requires db.Valid()
    modifies db`attachments, db`nextId
    ensures db.Valid() && db.nextId == old(db.nextId) + |files|
    ensures |ids| == |files| && forall i :: 0 <= i < |ids| ==> ids[i] == old(db.nextId) + i
    ensures AsSet(ids) == Span(old(db.nextId), |files|)
    ensures db.attachments == old(db.attachments) + Span(old(db.nextId), |files|)
    ensures forall i :: 0 <= i < |ids| ==> ids[i] !in old(db.attachments)
  {
    ids := [];
    var i := 0;
    while i < |files|
      invariant 0 <= i <= |files| && db.Valid()
      invariant db.nextId == old(db.nextId) + i
      invariant |ids| == i && forall j :: 0 <= j < i ==> ids[j] == old(db.nextId) + j
      invariant AsSet(ids) == Span(old(db.nextId), i)
      invariant db.attachments == old(db.attachments) + Span(old(db.nextId), i)
    {
      var a := NewAttachment(db);
      ids := ids + [a];
      i := i + 1;
    }
  }

  /**
   * The tables after `register` admits account `u` with `n` uploaded files,
   * given the tables before (`0`-suffixed): the account under the next id,
   * its builder role when one exists, and `n` fresh attachments stored and
   * linked to the account and to nothing else.
   */
  ghost predicate Admitted(users0: map<Id, User>, roles0: map<Id, Role>, roleUsers0: set<Link>, attachments0: set<Id>,
                           links0: set<Link>, next0: Id, users: map<Id, User>, roleUsers: set<Link>,
                           attachments: set<Id>, links: set<Link>, next: Id, u: User, n: nat)
  {
    && users == users0[next0 := u]
    && roleUsers == WithBuilderRole(roleUsers0, roles0, next0, next0)
    && next == next0 + 1 + n
    && attachments == attachments0 + Span(next0 + 1, n)
    && (forall a :: a in Span(next0 + 1, n) ==> a !in attachments0)
    && links == Sync(links0, next0, Span(next0 + 1, n))
  }

  /**
   * `register`: redirect back with the errors when the form fails and change
   * nothing; otherwise admit the account and redirect to the thank-you page.
   */
  method Register(db: Database, req: Request, now: int, isEmail: string -> bool, hash: string -> Hash)
    returns (outcome: Outcome)
    requires db.Valid()
    modifies db`users, db`roleUsers, db`attachments, db`userAttachments, db`nextId
    ensures db.Valid()
    ensures outcome == Done || outcome == Invalid
    ensures outcome == Invalid <==> !Passes(req, old(db.users), isEmail)
    ensures outcome == Invalid ==>
      && db.users == old(db.users) && db.roleUsers == old(db.roleUsers) && db.nextId == old(db.nextId)
      && db.attachments == old(db.attachments) && db.userAttachments == old(db.userAttachments)
    ensures outcome == Done ==>
      Admitted(old(db.users), db.roles, old(db.roleUsers), old(db.attachments), old(db.userAttachments), old(db.nextId),
               db.users, db.roleUsers, db.attachments, db.userAttachments, db.nextId,
               NewBuilder(req, now, hash), |Uploads(req)|)
  {
    if !Passes(req, db.users, isEmail) {
      return Invalid;
    }
    NewBuilderRow(req, now, hash);
    var uid := Admit(db, NewBuilder(req, now, hash), Uploads(req));
    outcome := Done;
  }

  /** Steps 2 to 4 of `register` for the account row `u` and the uploaded `files`. */
  method Admit(db: Database, u: User, files: seq<Upload>) returns (uid: Id)
    requires db.Valid() && u.email.Some? && u.phone.None?
    requires forall k :: k in db.users ==> db.users[k].email != u.email
    modifies db`users, db`roleUsers, db`attachments, db`userAttachments, db`nextId
    ensures db.Valid() && uid == old(db.nextId)
    ensures Admitted(old(db.users), db.roles, old(db.roleUsers), old(db.attachments), old(db.userAttachments), old(db.nextId),
                     db.users, db.roleUsers, db.attachments, db.userAttachments, db.nextId, u, |files|)
  {
    uid := CreateAccount(db, u);
    var ids := StoreUploads(db, files);
    db.userAttachments := Sync(db.userAttachments, uid, AsSet(ids));
  }

  /** Steps 2 and 3 of `register`: the account row `u`, then its builder role when that role exists. */
  method CreateAccount(db: Database, u: User) returns (uid: Id)
    requires db.Valid() && u.email.Some? && u.phone.None?
    requires forall k :: k in db.users ==> db.users[k].email != u.email
    modifies db`users, db`roleUsers, db`nextId
    ensures db.Valid() && uid == old(db.nextId) && db.nextId == uid + 1
    ensures db.users == old(db.users)[uid := u]
    ensures db.roleUsers == WithBuilderRole(old(db.roleUsers), old(db.roles), old(db.nextId), uid)
  {
    uid := InsertUser(db, u);
    db.roleUsers := WithBuilderRole(db.roleUsers, db.roles, uid, uid);
  }

  /** The new account is linked to exactly as many documents as were uploaded, and to no older attachment. */
  lemma DocumentsAreTheUploads(links: set<Link>, attachments: set<Id>, uid: Id, n: nat)
    requires forall a :: a in attachments ==> a <= uid
    ensures Targets(Sync(links, uid, Span(uid + 1, n)), uid) == Span(uid + 1, n)
    ensures |Targets(Sync(links, uid, Span(uid + 1, n)), uid)| == n
    ensures Targets(Sync(links, uid, Span(uid + 1, n)), uid) !! attachments
  {
    SyncTargets(links, uid, Span(uid + 1, n), uid);
    SpanSize(uid + 1, n);
  }
}
