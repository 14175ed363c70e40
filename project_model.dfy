/**
 * The project model: its mass-assignable columns and its three query scopes.
 * `create` and `fill` write only the columns in the fillable list, which holds
 * every column the builder screens send and the owner and both statuses, but
 * not `views_count` (nor the key or the timestamps).
 */
module ProjectModel {
  import opened Wrappers
  import opened Schema
  import opened Ordering

  /**
   * An attribute array for a project: for each column, the value given for it,
   * or None when the array has no such key.
   */
  datatype ProjectAttrs = ProjectAttrs(
    name: Option<string>, location: Option<string>, reraNumber: Option<Option<string>>,
    projectType: Option<string>, status: Option<string>, verificationStatus: Option<VerificationStatus>,
    totalUnits: Option<int>, userId: Option<Id>, viewsCount: Option<int>)

  /** The empty attribute array. */
  const NoProjectAttrs := ProjectAttrs(None, None, None, None, None, None, None, None, None)

  /** The model's `$fillable` list. */
  const Fillable: set<string> :=
    {"name", "location", "rera_number", "project_type", "status", "verification_status", "total_units", "user_id"}

  /** The members of the `projects.status` enum, in declaration order. */
  const Statuses: seq<string> := ["Ongoing", "Completed", "Upcoming"]

  /** One column after the write: the given value when it is given and fillable, else the current one. */
  function Column<T>(given: Option<T>, column: string, current: T): T {
    if given.Some? && column in Fillable then given.value else current
  }

  /** Eloquent `fill`: each given fillable column is written; the rest keep their values. */
  function Fill(p: Project, a: ProjectAttrs): Project {
    Project(
      Column(a.userId, "user_id", p.userId),
      Column(a.name, "name", p.name),
      Column(a.location, "location", p.location),
      Column(a.reraNumber, "rera_number", p.reraNumber),
      Column(a.projectType, "project_type", p.projectType),
      Column(a.status, "status", p.status),
      Column(a.verificationStatus, "verification_status", p.verificationStatus),
      Column(a.totalUnits, "total_units", p.totalUnits),
      Column(a.viewsCount, "views_count", p.viewsCount),
      p.createdAt)
  }

  /**
   * A new row before the array is written: the column defaults of the
   * migration (status 'Upcoming', verification 'Draft', no RERA number, zero
   * units and views); `user_id` has no default and is always in the array.
   */
  function Blank(createdAt: int): Project {
    Project(0, "", "", None, "", "Upcoming", Draft, 0, 0, createdAt)
  }

  /** Mass assignment writes exactly the given columns except `views_count`, which it never changes. */
  lemma FillWritesGivenColumns(p: Project, a: ProjectAttrs)
    ensures Fill(p, a).viewsCount == p.viewsCount && Fill(p, a).createdAt == p.createdAt
    ensures a.userId.Some? ==> Fill(p, a).userId == a.userId.value
    ensures a.userId.None? ==> Fill(p, a).userId == p.userId
    ensures a.verificationStatus.Some? ==> Fill(p, a).verificationStatus == a.verificationStatus.value
    ensures a.verificationStatus.None? ==> Fill(p, a).verificationStatus == p.verificationStatus
    ensures a.reraNumber.Some? ==> Fill(p, a).reraNumber == a.reraNumber.value
    ensures a.reraNumber.None? ==> Fill(p, a).reraNumber == p.reraNumber
    ensures a.totalUnits.Some? ==> Fill(p, a).totalUnits == a.totalUnits.value
    ensures a.totalUnits.None? ==> Fill(p, a).totalUnits == p.totalUnits
    ensures a.name.Some? ==> Fill(p, a).name == a.name.value
    ensures a.location.Some? ==> Fill(p, a).location == a.location.value
    ensures a.status.Some? ==> Fill(p, a).status == a.status.value
    ensures a.status.None? ==> Fill(p, a).status == p.status
  {
    assert "views_count" !in Fillable;
  }

  /** The three query scopes of the model. */
  datatype Scope = ByBuilder(me: Id) | ByCurrentUser(me: Id) | IsVerified

  /**
   * The row condition of a scope: `byBuilder` and `byCurrentUser` both keep
   * the rows owned by the signed-in user, `verified` the rows whose status is
   * exactly `Verified`.
   */
  predicate Holds(scope: Scope, p: Project) {
    match scope
    case ByBuilder(me) => p.userId == me
    case ByCurrentUser(me) => p.userId == me
    case IsVerified => p.verificationStatus == Verified
  }

  /** The keys of the projects a scope keeps, in key order. */
  function Scoped(projects: map<Id, Project>, bound: nat, scope: Scope): (r: seq<Id>)
    ensures forall k :: k in r <==> k in projects && k < bound && Holds(scope, projects[k])
  {
    Keep(Scan(projects, bound), k => k in projects && Holds(scope, projects[k]))
  }

  /** Two row conditions that agree on every row of a sequence keep the same rows in the same order. */
  lemma {:induction false} KeepAgrees(s: seq<nat>, p: nat -> bool, q: nat -> bool)
    requires forall x :: x in s ==> p(x) == q(x)
    ensures Keep(s, p) == Keep(s, q)
  {
    if s != [] {
      assert forall x :: x in s[1..] ==> x in s;
      KeepAgrees(s[1..], p, q);
    }
  }

  /** The two owner scopes return the same rows in the same order, namely the signed-in user's. */
  lemma OwnerScopesAgree(projects: map<Id, Project>, bound: nat, me: Id)
    ensures Scoped(projects, bound, ByBuilder(me)) == Scoped(projects, bound, ByCurrentUser(me))
    ensures forall k :: k in Scoped(projects, bound, ByBuilder(me)) <==> k in projects && k < bound && projects[k].userId == me
  {
    KeepAgrees(Scan(projects, bound), k => k in projects && Holds(ByBuilder(me), projects[k]),
      k => k in projects && Holds(ByCurrentUser(me), projects[k]));
  }

  /** `verified()` keeps a row exactly when its status is `Verified`: a draft, pending or rejected project is never kept. */
  lemma VerifiedScopeKeeps(projects: map<Id, Project>, bound: nat, k: Id)
    requires k in projects && k < bound
    ensures k in Scoped(projects, bound, IsVerified) <==> projects[k].verificationStatus == Verified
    ensures projects[k].verificationStatus in {Draft, Pending, Rejected} ==> k !in Scoped(projects, bound, IsVerified)
  {
  }

  /**
   * No state change introduces a `Pending` project: every project that is
   * pending afterwards was already there and pending before.
   */
  ghost predicate NoNewPending(before: map<Id, Project>, after: map<Id, Project>) {
    forall k :: k in after && after[k].verificationStatus == Pending ==> k in before && before[k].verificationStatus == Pending
  }

  /** A chain of such changes introduces none either. */
  lemma NoNewPendingTrans(p0: map<Id, Project>, p1: map<Id, Project>, p2: map<Id, Project>)
    requires NoNewPending(p0, p1) && NoNewPending(p1, p2)
    ensures NoNewPending(p0, p2)
  {
  }
}
