/**
 * The admin's builder verification queue: every account holding the
 * 'builder' role, newest first, ten per page, each with a status label; and
 * the two actions, which assign `verification_status` directly (so, unlike
 * the mass-assigned write at registration, they take effect).
 */
module AdminBuilderVerification {
  import opened Wrappers
  import opened Schema
  import opened Validation
  import opened UserModel
  import opened Ordering
  import opened Responses
  import EnsureBuilderVerified
  import BuilderAuthController

  const BuilderSlug := "builder"

  /** `$request->input('id') ?? $request->input('user.id')`: the table's key, or the modal's when it is null or absent. */
  function ApproveTarget(req: Request): Value {
    if Input(req, "id") != Null then Input(req, "id") else Input(req, "user.id")
  }

  /** `$request->input('id')`: reject reads no fallback. */
  function RejectTarget(req: Request): (v: Value)
    ensures "id" !in req ==> v == Null
  {
    Input(req, "id")
  }

  /** The account `k` with `verification_status` assigned directly. */
  function WithStatus(users: map<Id, User>, k: Id, status: string): (r: map<Id, User>)
    requires k in users
    ensures r.Keys == users.Keys
  {
    users[k := ForceFill(users[k], NoAttrs.(verificationStatus := Some(Some(status))))]
  }

  /** The assignment changes the status of account `k` to `status` and nothing else, in any row. */
  lemma WithStatusChangesOnlyStatus(users: map<Id, User>, k: Id, status: string)
    requires k in users
    ensures WithStatus(users, k, status) == users[k := users[k].(verificationStatus := Some(status))]
    ensures forall j :: j in users && j != k ==> WithStatus(users, k, status)[j] == users[j]
  {
    ForceFillSetsStatus(users[k], Some(status));
  }

  /** Repeating an action changes nothing further, and of two actions on one account the later one wins. */
  lemma LastActionWins(users: map<Id, User>, k: Id, first: string, second: string)
    requires k in users
    ensures WithStatus(WithStatus(users, k, first), k, second) == WithStatus(users, k, second)
    ensures WithStatus(WithStatus(users, k, second), k, second) == WithStatus(users, k, second)
  {
    WithStatusChangesOnlyStatus(users, k, first);
    WithStatusChangesOnlyStatus(users, k, second);
    WithStatusChangesOnlyStatus(WithStatus(users, k, first), k, second);
    WithStatusChangesOnlyStatus(WithStatus(users, k, second), k, second);
  }

  /**
   * `User::findOrFail($target)`, the direct assignment and `save()`: 404 and
   * no change when the target names no account, else the account's status
   * becomes `status`.
   */
  method SetStatus(db: Database, target: Value, status: string) returns (outcome: Outcome)
    requires db.Valid()
    modifies db`users
    ensures db.Valid()
    ensures outcome == Done || outcome == NotFound
    ensures outcome == NotFound <==> KeyOf(target).None? || KeyOf(target).value !in old(db.users)
    ensures outcome == NotFound ==> db.users == old(db.users)
    ensures outcome == Done ==> db.users == WithStatus(old(db.users), KeyOf(target).value, status)
  {
    var key := KeyOf(target);
    if key.None? || key.value !in db.users {
      return NotFound;
    }
    var k := key.value;
    WithStatusChangesOnlyStatus(db.users, k, status);
    UpdateUser(db, k, WithStatus(db.users, k, status)[k]);
    outcome := Done;
  }

  /** `approveBuilder`: the account named by `id`, or else by `user.id`, becomes 'verified' whatever it was. */
  method Approve(db: Database, req: Request) returns (outcome: Outcome)
    requires db.Valid()
    modifies db`users
    ensures db.Valid()
    ensures outcome == Done || outcome == NotFound
    ensures outcome == NotFound <==> KeyOf(ApproveTarget(req)).None? || KeyOf(ApproveTarget(req)).value !in old(db.users)
    ensures outcome == NotFound ==> db.users == old(db.users)
    ensures outcome == Done ==> db.users == WithStatus(old(db.users), KeyOf(ApproveTarget(req)).value, "verified")
  {
    outcome := SetStatus(db, ApproveTarget(req), "verified");
  }

  /** `rejectBuilder`: the account named by `id` becomes 'rejected' whatever it was. */
  method Reject(db: Database, req: Request) returns (outcome: Outcome)
    requires db.Valid()
    modifies db`users
    ensures db.Valid()
    ensures outcome == Done || outcome == NotFound
    ensures outcome == NotFound <==> KeyOf(RejectTarget(req)).None? || KeyOf(RejectTarget(req)).value !in old(db.users)
    ensures outcome == NotFound ==> db.users == old(db.users)
    ensures outcome == Done ==> db.users == WithStatus(old(db.users), KeyOf(RejectTarget(req)).value, "rejected")
  {
    outcome := SetStatus(db, RejectTarget(req), "rejected");
  }

  /** A reject whose form carries the account only as `user.id` names no account, while approve finds it. */
  lemma RejectIgnoresModalKey(k: nat)
    ensures KeyOf(ApproveTarget(map["user.id" := Int(k)])) == Some(k)
    ensures KeyOf(RejectTarget(map["user.id" := Int(k)])).None?
  {
  }

  /** An approved builder passes the gate; a rejected one is stopped there. */
  lemma ActionDecidesGate(users: map<Id, User>, roles: map<Id, Role>, roleUsers: set<Link>, k: Id, rid: Id)
    requires k in users && (k, rid) in roleUsers && rid in roles && roles[rid].slug == "builder"
    ensures EnsureBuilderVerified.Decide(WithStatus(users, k, "verified"), roles, roleUsers, Some(k)) == EnsureBuilderVerified.Next
    ensures EnsureBuilderVerified.Decide(WithStatus(users, k, "rejected"), roles, roleUsers, Some(k)) == EnsureBuilderVerified.Expel
  {
    WithStatusChangesOnlyStatus(users, k, "verified");
    WithStatusChangesOnlyStatus(users, k, "rejected");
  }

  /** The queue's row condition: the account holds the builder role. */
  predicate IsBuilder(users: map<Id, User>, roles: map<Id, Role>, roleUsers: set<Link>, k: Id) {
    k in users && EnsureBuilderVerified.InRole(roles, roleUsers, k, BuilderSlug)
  }

  /** Every builder below `bound`, newest first. */
  function AllBuilders(users: map<Id, User>, roles: map<Id, Role>, roleUsers: set<Link>, bound: nat): (r: seq<Id>)
    ensures forall k: nat :: k in r <==> k < bound && IsBuilder(users, roles, roleUsers, k)
    ensures SortedBy(r, Latest(users, (u: User) => u.createdAt))
  {
    Select(users, bound, (k: nat) => IsBuilder(users, roles, roleUsers, k), Latest(users, (u: User) => u.createdAt))
  }

  /** `query`: page `page` of the builders, ten per page. */
  function Queue(users: map<Id, User>, roles: map<Id, Role>, roleUsers: set<Link>, bound: nat, page: int): seq<Id> {
    Page(AllBuilders(users, roles, roleUsers, bound), page)
  }

  /** A queue page holds at most ten accounts, each of them holding the builder role. */
  lemma QueueListsBuilders(users: map<Id, User>, roles: map<Id, Role>, roleUsers: set<Link>, bound: nat, page: int)
    ensures |Queue(users, roles, roleUsers, bound, page)| <= 10
    ensures forall k :: k in Queue(users, roles, roleUsers, bound, page) ==>
      k in users && exists l :: l in roleUsers && l.0 == k && l.1 in roles && roles[l.1].slug == "builder"
  {
  }

  /** Within a queue page, an account listed earlier was created no earlier than one listed later. */
  lemma QueueNewestFirst(users: map<Id, User>, roles: map<Id, Role>, roleUsers: set<Link>, bound: nat, page: int, i: nat, j: nat)
    requires i < j < |Queue(users, roles, roleUsers, bound, page)|
    ensures Queue(users, roles, roleUsers, bound, page)[i] in users && Queue(users, roles, roleUsers, bound, page)[j] in users
    ensures users[Queue(users, roles, roleUsers, bound, page)[i]].createdAt >= users[Queue(users, roles, roleUsers, bound, page)[j]].createdAt
  {
    LatestPageOrder(users, (u: User) => u.createdAt, AllBuilders(users, roles, roleUsers, bound), page, i, j);
  }

  /** The status column of the queue. */
  function StatusLabel(status: Option<string>): string {
    match status
    case Some("verified") => "Verified"
    case Some("rejected") => "Rejected"
    case Some("pending") => "Pending"
    case _ => "Not Verified"
  }

  /**
   * Each of the three known statuses has its own label; anything else,
   * null and differently cased spellings included, reads 'Not Verified'.
   */
  lemma StatusLabels(status: Option<string>)
    ensures StatusLabel(Some("verified")) == "Verified" && StatusLabel(Some("rejected")) == "Rejected"
    ensures StatusLabel(Some("pending")) == "Pending"
    ensures StatusLabel(status) == "Not Verified" <==> status !in {Some("verified"), Some("rejected"), Some("pending")}
  {
  }

  /** A self-registered builder shows as 'Not Verified', not 'Pending': registration's 'pending' is dropped. */
  lemma NewBuilderNotVerified(req: Request, now: int, hash: string -> Hash)
    requires BuilderAuthController.Shaped(req)
    ensures StatusLabel(BuilderAuthController.NewBuilder(req, now, hash).verificationStatus) == "Not Verified"
  {
    BuilderAuthController.NewBuilderRow(req, now, hash);
  }
}
