/**
 * The admin's project verification queue: every project, pending ones first,
 * then drafts, verified and rejected ones, newest first within each status,
 * ten per page; the badge and the buttons each row shows; and the approve
 * and reject actions, which assign `verification_status` directly.
 */
module AdminProjectVerification {
  import opened Wrappers
  import opened Schema
  import opened Validation
  import opened Ordering
  import opened Responses
  import ProjectModel

  /** `FIELD(verification_status, 'Pending', 'Draft', 'Verified', 'Rejected')`. */
  function Rank(s: VerificationStatus): (r: int)
    ensures 1 <= r <= 4
  {
    match s
    case Pending => 1
    case Draft => 2
    case Verified => 3
    case Rejected => 4
  }

  /** The queue's sort key of one row: the status rank, then `latest()`. */
  function RowKey(p: Project): Key {
    [Rank(p.verificationStatus), -p.createdAt]
  }

  /** Row keys order by status rank, then newest first. */
  lemma RowKeyOrder(a: Project, b: Project)
    ensures LexLe(RowKey(a), RowKey(b)) <==>
      Rank(a.verificationStatus) < Rank(b.verificationStatus)
      || (a.verificationStatus == b.verificationStatus && a.createdAt >= b.createdAt)
  {
    assert Rank(a.verificationStatus) == Rank(b.verificationStatus) <==> a.verificationStatus == b.verificationStatus;
    PairKeyOrder(Rank(a.verificationStatus), -a.createdAt, Rank(b.verificationStatus), -b.createdAt);
  }

  function QueueKey(projects: map<Id, Project>): nat -> Key {
    k => if k in projects then RowKey(projects[k]) else []
  }

  /** Every project below `bound` in queue order. */
  function AllProjects(projects: map<Id, Project>, bound: nat): (r: seq<Id>)
    ensures forall k: nat :: k in r <==> k in projects && k < bound
    ensures SortedBy(r, QueueKey(projects))
  {
    Select(projects, bound, (k: nat) => k in projects, QueueKey(projects))
  }

  /** `query`: page `page` of the queue. */
  function Queue(projects: map<Id, Project>, bound: nat, page: int): seq<Id> {
    Page(AllProjects(projects, bound), page)
  }

  /**
   * On a queue page a row listed earlier has a status no later in the order
   * Pending, Draft, Verified, Rejected, and, under the same status, was
   * created no earlier.
   */
  lemma QueueOrder(projects: map<Id, Project>, bound: nat, page: int, i: nat, j: nat)
    requires i < j < |Queue(projects, bound, page)|
    ensures Queue(projects, bound, page)[i] in projects && Queue(projects, bound, page)[j] in projects
    ensures var a, b := projects[Queue(projects, bound, page)[i]], projects[Queue(projects, bound, page)[j]];
      Rank(a.verificationStatus) < Rank(b.verificationStatus)
      || (a.verificationStatus == b.verificationStatus && a.createdAt >= b.createdAt)
  {
    var all := AllProjects(projects, bound);
    var key := QueueKey(projects);
    PageSorted(all, page, key);
    var q := Page(all, page);
    var x, y := q[i], q[j];
    assert x in q && y in q;
    assert x in projects && y in projects;
    assert LexLe(key(x), key(y));
    assert key(x) == RowKey(projects[x]) && key(y) == RowKey(projects[y]);
    RowKeyOrder(projects[x], projects[y]);
  }

  /** A pending project is listed before any project in another status on the same page. */
  lemma PendingFirst(projects: map<Id, Project>, bound: nat, page: int, i: nat, j: nat)
    requires i < j < |Queue(projects, bound, page)|
    requires Queue(projects, bound, page)[j] in projects
    requires projects[Queue(projects, bound, page)[j]].verificationStatus == Pending
    ensures projects[Queue(projects, bound, page)[i]].verificationStatus == Pending
  {
    QueueOrder(projects, bound, page, i, j);
  }

  /** The status badge. */
  function Badge(s: VerificationStatus): string {
    match s
    case Verified => "Verified"
    case Pending => "Pending Action"
    case Rejected => "Rejected"
    case _ => "Draft"
  }

  /** Every status has its own badge, so the badge tells the status. */
  lemma BadgeTellsStatus(s: VerificationStatus, t: VerificationStatus)
    ensures Badge(s) == Badge(t) <==> s == t
  {
  }

  /** A button of the actions column. */
  datatype Action = Approve | Reject

  /** The actions column: a verified project offers only Reject (revoking), any other Approve and Reject. */
  function Actions(s: VerificationStatus): seq<Action> {
    if s == Verified then [Reject] else [Approve, Reject]
  }

  /** Reject is always offered; Approve exactly when the project is not yet verified. */
  lemma ActionsOffered(s: VerificationStatus)
    ensures Reject in Actions(s)
    ensures Approve in Actions(s) <==> s != Verified
  {
  }

  /** Project `k` with `verification_status` assigned directly. */
  function WithVerification(projects: map<Id, Project>, k: Id, s: VerificationStatus): (r: map<Id, Project>)
    requires k in projects
    ensures r.Keys == projects.Keys
  {
    projects[k := projects[k].(verificationStatus := s)]
  }

  /**
   * The assignment changes only the status of project `k`: its owner, RERA
   * number and every other column, and every other project, stay as they were.
   */
  lemma WithVerificationChangesOnlyStatus(projects: map<Id, Project>, k: Id, s: VerificationStatus)
    requires k in projects
    ensures WithVerification(projects, k, s)[k].verificationStatus == s
    ensures WithVerification(projects, k, s)[k].(verificationStatus := projects[k].verificationStatus) == projects[k]
    ensures forall j :: j in projects && j != k ==> WithVerification(projects, k, s)[j] == projects[j]
  {
  }

  /** Repeating an action changes nothing further; of two actions on one project the later one wins. */
  lemma LastActionWins(projects: map<Id, Project>, k: Id, first: VerificationStatus, second: VerificationStatus)
    requires k in projects
    ensures WithVerification(WithVerification(projects, k, first), k, second) == WithVerification(projects, k, second)
  {
  }

  /** Approving or rejecting never makes a project pending. */
  lemma ActionsAddNoPending(projects: map<Id, Project>, k: Id, s: VerificationStatus)
    requires k in projects && s in {Verified, Rejected}
    ensures ProjectModel.NoNewPending(projects, WithVerification(projects, k, s))
  {
  }

  /** An approved project is kept by the `verified()` scope; a rejected one, even if it was verified, is not. */
  lemma ActionDecidesVerifiedScope(projects: map<Id, Project>, bound: nat, k: Id)
    requires k in projects && k < bound
    ensures k in ProjectModel.Scoped(WithVerification(projects, k, Verified), bound, ProjectModel.IsVerified)
    ensures k !in ProjectModel.Scoped(WithVerification(projects, k, Rejected), bound, ProjectModel.IsVerified)
  {
  }

  /**
   * `Project::findOrFail($request->get('id'))`, the assignment and `save()`:
   * 404 and no change when `id` names no project, else its status becomes `s`.
   */
  method SetVerification(db: Database, req: Request, s: VerificationStatus) returns (outcome: Outcome)
    requires db.Valid()
    modifies db`projects
    ensures db.Valid()
    ensures outcome == Done || outcome == NotFound
    ensures outcome == NotFound <==> KeyOf(Input(req, "id")).None? || KeyOf(Input(req, "id")).value !in old(db.projects)
    ensures outcome == NotFound ==> db.projects == old(db.projects)
    ensures outcome == Done ==> db.projects == WithVerification(old(db.projects), KeyOf(Input(req, "id")).value, s)
  {
    var key := KeyOf(Input(req, "id"));
    if key.None? || key.value !in db.projects {
      return NotFound;
    }
    var k := key.value;
    assert !ReraTaken(db.projects, db.projects[k].reraNumber, Some(k));
    UpdateProject(db, k, db.projects[k].(verificationStatus := s));
    outcome := Done;
  }

  /** `approveProject`: the project becomes `Verified` from any status. */
  method ApproveProject(db: Database, req: Request) returns (outcome: Outcome)
    requires db.Valid()
    modifies db`projects
    ensures db.Valid()
    ensures outcome == Done || outcome == NotFound
    ensures outcome == NotFound <==> KeyOf(Input(req, "id")).None? || KeyOf(Input(req, "id")).value !in old(db.projects)
    ensures outcome == NotFound ==> db.projects == old(db.projects)
    ensures outcome == Done ==> db.projects == WithVerification(old(db.projects), KeyOf(Input(req, "id")).value, Verified)
  {
    outcome := SetVerification(db, req, Verified);
  }

  /** `rejectProject`: the project becomes `Rejected` from any status, a verified one included. */
  method RejectProject(db: Database, req: Request) returns (outcome: Outcome)
    requires db.Valid()
    modifies db`projects
    ensures db.Valid()
    ensures outcome == Done || outcome == NotFound
    ensures outcome == NotFound <==> KeyOf(Input(req, "id")).None? || KeyOf(Input(req, "id")).value !in old(db.projects)
    ensures outcome == NotFound ==> db.projects == old(db.projects)
    ensures outcome == Done ==> db.projects == WithVerification(old(db.projects), KeyOf(Input(req, "id")).value, Rejected)
  {
    outcome := SetVerification(db, req, Rejected);
  }
}
