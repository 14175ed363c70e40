/**
 * The gate in front of the builder panel. A guest, and any signed-in user
 * without the 'builder' role, passes; a builder passes only when the account's
 * status is exactly 'verified', and is otherwise signed out and sent to the
 * thank-you page without the request reaching the panel.
 */
module EnsureBuilderVerified {
  import opened Wrappers
  import opened Schema
  import Validation
  import BuilderAuthController

  const BuilderSlug := "builder"

  /** The one status that lets a builder in (compared with `!==`, so case matters). */
  const VerifiedStatus := "verified"

  /** What the gate does with the request. */
  datatype Verdict =
    | Next   // hand the request on unchanged
    | Expel  // sign the user out and redirect to the thank-you page

  /** `inRole($slug)`: the user holds a role with this slug. */
  predicate InRole(roles: map<Id, Role>, roleUsers: set<Link>, uid: Id, slug: string) {
    exists l :: l in roleUsers && l.0 == uid && l.1 in roles && roles[l.1].slug == slug
  }

  /**
   * The decision of `handle` for the session's user id (None for a guest; an
   * id whose row is gone signs nobody in).
   */
  function Decide(users: map<Id, User>, roles: map<Id, Role>, roleUsers: set<Link>, user: Option<Id>): Verdict {
    if user.None? || user.value !in users then Next
    else if InRole(roles, roleUsers, user.value, BuilderSlug) then
      if users[user.value].verificationStatus != Some(VerifiedStatus) then Expel else Next
    else Next
  }

  /** The session guard: who is signed in. */
  class Session {
    var user: Option<Id>

    constructor (user: Option<Id>)
      ensures this.user == user
    {
      this.user := user;
    }
  }

  /**
   * `handle`: decides on the signed-in user; an expelled user is signed out
   * (`Auth::logout`), otherwise the session is left alone.
   */
  method Handle(session: Session, db: Database) returns (v: Verdict)
    modifies session
    ensures v == Decide(db.users, db.roles, db.roleUsers, old(session.user))
    ensures v == Expel ==> session.user.None?
    ensures v == Next ==> session.user == old(session.user)
  {
    var user := session.user;
    if user.None? || user.value !in db.users {
      return Next;
    }
    if InRole(db.roles, db.roleUsers, user.value, BuilderSlug) {
      if db.users[user.value].verificationStatus != Some(VerifiedStatus) {
        session.user := None;
        return Expel;
      }
    }
    v := Next;
  }

  /**
   * The gate as one condition: the request is stopped exactly when a
   * signed-in builder's status is anything but 'verified'.
   */
  lemma ExpelExactly(users: map<Id, User>, roles: map<Id, Role>, roleUsers: set<Link>, user: Option<Id>)
    ensures Decide(users, roles, roleUsers, user) == Expel <==>
      && user.Some? && user.value in users
      && (exists l :: l in roleUsers && l.0 == user.value && l.1 in roles && roles[l.1].slug == "builder")
      && users[user.value].verificationStatus != Some("verified")
  {
  }

  /** A guest always passes. */
  lemma GuestPasses(users: map<Id, User>, roles: map<Id, Role>, roleUsers: set<Link>)
    ensures Decide(users, roles, roleUsers, None) == Next
  {
  }

  /** A user without the builder role passes whatever the account's status. */
  lemma NonBuilderPasses(users: map<Id, User>, roles: map<Id, Role>, roleUsers: set<Link>, uid: Id)
    requires forall l :: l in roleUsers && l.0 == uid && l.1 in roles ==> roles[l.1].slug != "builder"
    ensures Decide(users, roles, roleUsers, Some(uid)) == Next
  {
  }

  /** A builder whose status is null, 'pending', 'rejected' or even 'Verified' is stopped. */
  lemma UnverifiedBuilderExpelled(users: map<Id, User>, roles: map<Id, Role>, roleUsers: set<Link>, uid: Id, rid: Id)
    requires uid in users && (uid, rid) in roleUsers && rid in roles && roles[rid].slug == "builder"
    requires users[uid].verificationStatus in {None, Some("pending"), Some("rejected"), Some("Verified")}
    ensures Decide(users, roles, roleUsers, Some(uid)) == Expel
  {
    assert "Verified" != "verified";
  }

  /** A builder whose status is 'verified' passes. */
  lemma VerifiedBuilderPasses(users: map<Id, User>, roles: map<Id, Role>, roleUsers: set<Link>, uid: Id)
    requires uid in users && users[uid].verificationStatus == Some("verified")
    ensures Decide(users, roles, roleUsers, Some(uid)) == Next
  {
  }

  /**
   * A freshly registered builder is stopped at the gate when the 'builder'
   * role exists: registration leaves the account's status null.
   */
  lemma RegisteredBuilderHeldBack(users: map<Id, User>, roles: map<Id, Role>, roleUsers: set<Link>, uid: Id,
                                  req: Validation.Request, now: int, hash: string -> Hash)
    requires BuilderAuthController.Shaped(req)
    requires BuilderAuthController.BuilderRole(roles, uid).Some?
    ensures Decide(users[uid := BuilderAuthController.NewBuilder(req, now, hash)], roles,
                   BuilderAuthController.WithBuilderRole(roleUsers, roles, uid, uid), Some(uid)) == Expel
  {
    BuilderAuthController.NewBuilderRow(req, now, hash);
    var rid := BuilderAuthController.BuilderRole(roles, uid).value;
    assert (uid, rid) in BuilderAuthController.WithBuilderRole(roleUsers, roles, uid, uid);
  }

  /**
   * Without a 'builder' role row, a freshly registered builder holds no role
   * at all and so passes the gate unverified.
   */
  lemma RoleLessBuilderPasses(users: map<Id, User>, roles: map<Id, Role>, roleUsers: set<Link>, uid: Id,
                              req: Validation.Request, now: int, hash: string -> Hash)
    requires BuilderAuthController.Shaped(req)
    requires BuilderAuthController.BuilderRole(roles, uid).None?
    requires forall l :: l in roleUsers ==> l.0 != uid
    ensures Decide(users[uid := BuilderAuthController.NewBuilder(req, now, hash)], roles,
                   BuilderAuthController.WithBuilderRole(roleUsers, roles, uid, uid), Some(uid)) == Next
  {
  }
}
