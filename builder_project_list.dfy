/**
 * The builder's project list: the signed-in builder's own projects, newest
 * first, ten per page, and the create form behind it. A created project
 * belongs to the signed-in builder, starts 'Upcoming' and 'Draft' whatever
 * the form says, and is linked to exactly the attachments the form lists.
 * The form's nested `project[...]` inputs are the flat keys `project.name`
 * and so on.
 */
module BuilderProjectList {
  import opened Wrappers
  import opened Schema
  import opened Validation
  import opened Ordering
  import opened Responses
  import ProjectModel

  const NameKey := "project.name"
  const LocationKey := "project.location"
  const TypeKey := "project.project_type"
  const ReraKey := "project.rera_number"
  const UnitsKey := "project.total_units"
  const AttachmentKey := "project.attachment"
  const StatusKey := "project.status"

  /** The keys the form rules name; only these reach the validated data. */
  const RuleKeys: set<string> := {NameKey, LocationKey, TypeKey, ReraKey, UnitsKey, AttachmentKey}

  /**
   * The rules shared by create and edit: name and location `required|string`,
   * project type `required`, RERA number `nullable|string`, total units
   * `numeric`, attachments `array`.
   */
  predicate Passes(req: Request) {
    && Filled(Input(req, NameKey)) && req[NameKey].Str?
    && Filled(Input(req, LocationKey)) && req[LocationKey].Str?
    && Filled(Input(req, TypeKey))
    && (Checked(req, ReraKey, true) ==> req[ReraKey].Str?)
    && (Checked(req, UnitsKey, false) ==> Numeric(req[UnitsKey]))
    && (Checked(req, AttachmentKey, false) ==> req[AttachmentKey].List?)
  }

  /** The RERA number a present key carries: the string, or null. */
  function ReraOf(v: Value): Option<string> {
    if v.Str? then Some(v.s) else None
  }

  /**
   * The validated data as a project attribute array, or None when writing it
   * raises: a project type with no text, or a total-units value the rule
   * skipped (a blank string) that the integer column refuses. A key the
   * request leaves out is left out of the array.
   */
  function Data(req: Request): (a: Option<ProjectModel.ProjectAttrs>)
    requires Passes(req)
    ensures a.Some? ==> a.value.userId.None? && a.value.status.None? && a.value.verificationStatus.None? && a.value.viewsCount.None?
  {
    var kind := AsText(req[TypeKey]);
    if kind.None? || (UnitsKey in req && !Numeric(req[UnitsKey])) then None
    else Some(ProjectModel.ProjectAttrs(
      Some(req[NameKey].s), Some(req[LocationKey].s),
      if ReraKey in req then Some(ReraOf(req[ReraKey])) else None,
      Some(kind.value), None, None,
      if UnitsKey in req then Some(NumberOf(req[UnitsKey])) else None,
      None, None))
  }

  /** `createProject`'s row: the validated data with owner, status and verification set by the screen. */
  function NewRow(req: Request, me: Id, now: int): Option<Project>
    requires Passes(req)
  {
    match Data(req)
    case None => None
    case Some(a) => Some(ProjectModel.Fill(ProjectModel.Blank(now),
      a.(userId := Some(me), status := Some("Upcoming"), verificationStatus := Some(Draft))))
  }

  /**
   * The created project belongs to `me`, is 'Upcoming' and 'Draft', has no
   * views, and carries the submitted name, location and RERA number (null
   * when none is sent) and the submitted unit count (0 when none is sent).
   */
  lemma NewRowColumns(req: Request, me: Id, now: int)
    requires Passes(req) && NewRow(req, me, now).Some?
    ensures var p := NewRow(req, me, now).value;
      && p.userId == me && p.status == "Upcoming" && p.verificationStatus == Draft
      && p.viewsCount == 0 && p.createdAt == now
      && p.name == req[NameKey].s && p.location == req[LocationKey].s
      && p.reraNumber == (if ReraKey in req then ReraOf(req[ReraKey]) else None)
      && p.totalUnits == (if UnitsKey in req then NumberOf(req[UnitsKey]) else 0)
  {
    var a := Data(req).value.(userId := Some(me), status := Some("Upcoming"), verificationStatus := Some(Draft));
    ProjectModel.FillWritesGivenColumns(ProjectModel.Blank(now), a);
  }

  /**
   * Keys outside the rules change neither the verdict nor the row: a form
   * that sends its own owner, status or verification status gets the same
   * project as one that does not.
   */
  lemma OtherKeysIgnored(req: Request, me: Id, now: int, key: string, v: Value)
    requires key !in RuleKeys
    ensures Passes(req[key := v]) == Passes(req)
    ensures Passes(req) ==> NewRow(req[key := v], me, now) == NewRow(req, me, now)
  {
    var r := req[key := v];
    assert forall k :: k in RuleKeys ==> (k in r <==> k in req) && Input(r, k) == Input(req, k);
    assert forall k :: k in RuleKeys && k in req ==> r[k] == req[k];
    assert Checked(r, ReraKey, true) == Checked(req, ReraKey, true);
    assert Checked(r, UnitsKey, false) == Checked(req, UnitsKey, false);
    assert Checked(r, AttachmentKey, false) == Checked(req, AttachmentKey, false);
  }

  /** The attachment ids the form submits: `input('project.attachment', [])`. */
  function Submitted(req: Request): Option<seq<Id>> {
    SubmittedIds(req, AttachmentKey)
  }

  /** Whether `createProject` reaches the insert: the form passes, the row can be written, its RERA number is free. */
  predicate Inserts(req: Request, me: Id, now: int, projects: map<Id, Project>) {
    Passes(req) && NewRow(req, me, now).Some? && !ReraTaken(projects, NewRow(req, me, now).value.reraNumber, None)
  }

  /**
   * `createProject`: validation, the insert, then the attachment sync. There
   * is no transaction: when the sync fails the new project stays, unlinked.
   */
  method CreateProject(db: Database, req: Request, me: Id, now: int) returns (outcome: Outcome)
    requires db.Valid()
    modifies db`projects, db`nextId, db`projectAttachments
    ensures db.Valid()
    ensures outcome == Invalid || outcome == Failed || outcome == Done
    ensures outcome == Invalid <==> !Passes(req)
    ensures !Inserts(req, me, now, old(db.projects)) ==> db.projects == old(db.projects) && db.nextId == old(db.nextId)
    ensures !Inserts(req, me, now, old(db.projects)) ==> outcome != Done
    ensures Inserts(req, me, now, old(db.projects)) ==> db.projects == old(db.projects)[old(db.nextId) := NewRow(req, me, now).value]
    ensures Inserts(req, me, now, old(db.projects)) ==> db.nextId == old(db.nextId) + 1
    ensures Inserts(req, me, now, old(db.projects)) ==>
      (outcome == Done <==> SyncSubmitted(old(db.projectAttachments), old(db.nextId), Submitted(req), db.attachments).Some?)
    ensures outcome == Done ==>
      db.projectAttachments == SyncSubmitted(old(db.projectAttachments), old(db.nextId), Submitted(req), db.attachments).value
    ensures outcome != Done ==> db.projectAttachments == old(db.projectAttachments)
  {
    if !Passes(req) {
      return Invalid;
    }
    var row := NewRow(req, me, now);
    if row.None? || ReraTaken(db.projects, row.value.reraNumber, None) {
      return Failed;
    }
    assert Inserts(req, me, now, db.projects);
    var id := InsertProject(db, row.value);
    var linked := LinkAttachments(db, id, Submitted(req));
    outcome := if linked then Done else Failed;
  }

  /** `$project->attachment()->sync($ids)`: the links after the sync, or an error and no change. */
  method LinkAttachments(db: Database, owner: Id, ids: Option<seq<Id>>) returns (linked: bool)
    requires db.Valid()
    modifies db`projectAttachments
    ensures db.Valid()
    ensures linked <==> SyncSubmitted(old(db.projectAttachments), owner, ids, db.attachments).Some?
    ensures linked ==> db.projectAttachments == SyncSubmitted(old(db.projectAttachments), owner, ids, db.attachments).value
    ensures !linked ==> db.projectAttachments == old(db.projectAttachments)
  {
    var links := SyncSubmitted(db.projectAttachments, owner, ids, db.attachments);
    linked := links.Some?;
    if linked {
      db.projectAttachments := links.value;
    }
  }

  /**
   * After a successful create the new project is linked to exactly the
   * submitted attachments (none when the key is absent), and every other
   * project keeps its links.
   */
  lemma CreatedAttachments(links: set<Link>, id: Id, req: Request, attachments: set<Id>, other: Id)
    requires SyncSubmitted(links, id, Submitted(req), attachments).Some?
    ensures Targets(SyncSubmitted(links, id, Submitted(req), attachments).value, id) == AsSet(Submitted(req).value)
    ensures AttachmentKey !in req ==> Targets(SyncSubmitted(links, id, Submitted(req), attachments).value, id) == {}
    ensures other != id ==> Targets(SyncSubmitted(links, id, Submitted(req), attachments).value, other) == Targets(links, other)
  {
    SyncTargets(links, id, AsSet(Submitted(req).value), other);
  }

  /** Every own project below `bound`, newest first. */
  function OwnProjects(projects: map<Id, Project>, bound: nat, me: Id): (r: seq<Id>)
    ensures forall k: nat :: k in r <==> k in projects && k < bound && projects[k].userId == me
    ensures SortedBy(r, Latest(projects, (p: Project) => p.createdAt))
  {
    Select(projects, bound, (k: nat) => k in projects && projects[k].userId == me, Latest(projects, (p: Project) => p.createdAt))
  }

  /** `query`: page `page` of the own projects. */
  function Listing(projects: map<Id, Project>, bound: nat, me: Id, page: int): seq<Id> {
    Page(OwnProjects(projects, bound, me), page)
  }

  /**
   * A page holds at most ten projects, all owned by `me`; the pages are cut
   * from exactly the rows the model's `byBuilder` scope keeps.
   */
  lemma ListingIsOwn(projects: map<Id, Project>, bound: nat, me: Id, page: int)
    ensures |Listing(projects, bound, me, page)| <= 10
    ensures forall k :: k in Listing(projects, bound, me, page) ==> k in projects && projects[k].userId == me
    ensures forall k: nat :: k in OwnProjects(projects, bound, me) <==> k in ProjectModel.Scoped(projects, bound, ProjectModel.ByBuilder(me))
  {
  }

  /** Within a page, a project listed earlier was created no earlier than one listed later. */
  lemma ListingNewestFirst(projects: map<Id, Project>, bound: nat, me: Id, page: int, i: nat, j: nat)
    requires i < j < |Listing(projects, bound, me, page)|
    ensures Listing(projects, bound, me, page)[i] in projects && Listing(projects, bound, me, page)[j] in projects
    ensures projects[Listing(projects, bound, me, page)[i]].createdAt >= projects[Listing(projects, bound, me, page)[j]].createdAt
  {
    LatestPageOrder(projects, (p: Project) => p.createdAt, OwnProjects(projects, bound, me), page, i, j);
  }
}
