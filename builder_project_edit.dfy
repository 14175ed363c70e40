/**
 * The builder's project edit screen. Opening it, saving and deleting all
 * first check that the project belongs to the signed-in builder (403
 * otherwise). Saving writes only the validated columns, so the owner and the
 * verification status survive whatever the form sends, and replaces the
 * attachment links; deleting removes the project's attachments, then the
 * project with its units.
 */
module BuilderProjectEdit {
  import opened Wrappers
  import opened Schema
  import opened Validation
  import opened Responses
  import ProjectModel
  import opened BuilderProjectList
  import opened EnumColumn
  import opened Text
  import opened Collation

  /**
   * The ownership guard of `query`, `save` and `remove`: 404 for a project
   * that does not exist (route-model binding), 403 for someone else's.
   */
  function Guard(projects: map<Id, Project>, id: Id, me: Id): (g: Outcome)
    ensures g == Done <==> id in projects && projects[id].userId == me
    ensures g == NotFound <==> id !in projects
    ensures g == Forbidden <==> id in projects && projects[id].userId != me
  {
    if id !in projects then NotFound
    else if projects[id].userId != me then Forbidden
    else Done
  }

  /** The save rules: the shared ones, and `status` `required`. */
  predicate EditPasses(req: Request) {
    Passes(req) && Filled(Input(req, StatusKey))
  }

  /**
   * `$project->fill($data)`: the validated columns over the current row, the
   * status stored as the enum member MySQL makes of its text, or None when
   * the write raises (the shared cases, or a status strict mode refuses).
   */
  function EditedRow(p: Project, req: Request): Option<Project>
    requires EditPasses(req)
  {
    var status := AsText(req[StatusKey]);
    match Data(req)
    case None => None
    case Some(a) =>
      if status.None? || EnumValue(ProjectModel.Statuses, status.value).None? then None
      else Some(ProjectModel.Fill(p, a.(status := EnumValue(ProjectModel.Statuses, status.value))))
  }

  /**
   * A save writes the submitted name, location and the status member the
   * column makes of the submitted status, the RERA number and unit count
   * when they are sent, and keeps the owner, the verification status, the
   * views and the creation time.
   */
  lemma EditedRowColumns(p: Project, req: Request)
    requires EditPasses(req) && EditedRow(p, req).Some?
    ensures var q := EditedRow(p, req).value;
      && q.userId == p.userId && q.verificationStatus == p.verificationStatus
      && q.viewsCount == p.viewsCount && q.createdAt == p.createdAt
      && q.name == req[NameKey].s && q.location == req[LocationKey].s
      && AsText(req[StatusKey]).Some? && Some(q.status) == EnumValue(ProjectModel.Statuses, AsText(req[StatusKey]).value)
      && q.status in ProjectModel.Statuses
      && q.reraNumber == (if ReraKey in req then ReraOf(req[ReraKey]) else p.reraNumber)
      && q.totalUnits == (if UnitsKey in req then NumberOf(req[UnitsKey]) else p.totalUnits)
  {
    var st := EnumValue(ProjectModel.Statuses, AsText(req[StatusKey]).value);
    var a := Data(req).value.(status := st);
    assert EditedRow(p, req) == Some(ProjectModel.Fill(p, a));
    ProjectModel.FillWritesGivenColumns(p, a);
  }

  /** The collation keys of the three members. */
  lemma ProjectStatusKeys()
    ensures CollationKey(ProjectModel.Statuses[0]) == "ongoing"
    ensures CollationKey(ProjectModel.Statuses[1]) == "completed"
    ensures CollationKey(ProjectModel.Statuses[2]) == "upcoming"
  {
    CollationKeyOf("Ongoing", "ongoing");
    CollationKeyOf("Completed", "completed");
    CollationKeyOf("Upcoming", "upcoming");
  }

  /** No two members collate equal, and a member in another ASCII case is stored as that member. */
  lemma StatusCaseVariantStored()
    ensures Distinct(ProjectModel.Statuses)
    ensures EnumValue(ProjectModel.Statuses, "ongoing") == Some("Ongoing")
  {
    ProjectStatusKeys();
    CollationKeyOf("ongoing", "ongoing");
    assert Matches(ProjectModel.Statuses, "ongoing");
    MemberStoredAsItself(ProjectModel.Statuses, 0);
  }

  /** The integer 2, sent as the status, names the second member by position. */
  lemma StatusIndexStored()
    ensures EnumValue(ProjectModel.Statuses, AsText(Int(2)).value) == Some("Completed")
  {
    ProjectStatusKeys();
    assert AsText(Int(2)).value == "2" by {
      assert IntToString(2) == NatToString(2) == "2";
    }
    CollationKeyOf("2", "2");
    assert !Matches(ProjectModel.Statuses, "2") && ParseNat("2") == 2;
  }

  /** A word that collates with no member, the verification status 'Draft' among them, fails the save. */
  lemma StatusOtherRefused()
    ensures EnumValue(ProjectModel.Statuses, "Draft").None?
  {
    ProjectStatusKeys();
    CollationKeyOf("Draft", "draft");
    assert !Matches(ProjectModel.Statuses, "Draft");
  }

  /** Whether `save` reaches the update: own project, passing form, writable row, RERA number free. */
  predicate Updates(projects: map<Id, Project>, id: Id, me: Id, req: Request) {
    && Guard(projects, id, me) == Done && EditPasses(req) && EditedRow(projects[id], req).Some?
    && !ReraTaken(projects, EditedRow(projects[id], req).value.reraNumber, Some(id))
  }

  /** `save`: guard, validation, the update, then the attachment sync (no transaction around the two writes). */
  method Save(db: Database, id: Id, me: Id, req: Request) returns (outcome: Outcome)
    requires db.Valid()
    modifies db`projects, db`projectAttachments
    ensures db.Valid()
    ensures Guard(old(db.projects), id, me) != Done ==> outcome == Guard(old(db.projects), id, me)
    ensures outcome == Invalid <==> Guard(old(db.projects), id, me) == Done && !EditPasses(req)
    ensures !Updates(old(db.projects), id, me, req) ==> db.projects == old(db.projects) && outcome != Done
    ensures Updates(old(db.projects), id, me, req) ==>
      db.projects == old(db.projects)[id := EditedRow(old(db.projects)[id], req).value]
    ensures Updates(old(db.projects), id, me, req) ==>
      (outcome == Done <==> SyncSubmitted(old(db.projectAttachments), id, Submitted(req), db.attachments).Some?)
    ensures outcome == Done ==>
      db.projectAttachments == SyncSubmitted(old(db.projectAttachments), id, Submitted(req), db.attachments).value
    ensures outcome != Done ==> db.projectAttachments == old(db.projectAttachments)
  {
    var g := Guard(db.projects, id, me);
    if g != Done {
      return g;
    }
    if !EditPasses(req) {
      return Invalid;
    }
    var row := EditedRow(db.projects[id], req);
    if row.None? || ReraTaken(db.projects, row.value.reraNumber, Some(id)) {
      return Failed;
    }
    assert Updates(db.projects, id, me, req);
    UpdateProject(db, id, row.value);
    var linked := LinkAttachments(db, id, Submitted(req));
    outcome := if linked then Done else Failed;
  }

  /**
   * `remove`: guard, then the project's attachments (and by cascade every
   * link to them), then the project and, by cascade, its units and their
   * facet links. Leads are not touched.
   */
  method Remove(db: Database, id: Id, me: Id) returns (outcome: Outcome)
    requires db.Valid()
    modifies db`attachments, db`projectAttachments, db`propertyAttachments, db`userAttachments
    modifies db`projects, db`properties, db`propertyOptions
    ensures db.Valid()
    ensures outcome == Guard(old(db.projects), id, me)
    ensures outcome != Done ==> db.projects == old(db.projects) && db.properties == old(db.properties)
    ensures outcome != Done ==> db.attachments == old(db.attachments) && db.projectAttachments == old(db.projectAttachments)
    ensures outcome != Done ==> db.propertyAttachments == old(db.propertyAttachments)
    ensures outcome != Done ==> db.userAttachments == old(db.userAttachments) && db.propertyOptions == old(db.propertyOptions)
    ensures outcome == Done ==> db.projects == old(db.projects) - {id}
    ensures outcome == Done ==> db.properties == UnitsWithout(old(db.properties), id)
    ensures outcome == Done ==> var docs := Targets(old(db.projectAttachments), id);
      && db.attachments == old(db.attachments) - docs
      && db.projectAttachments == Unlinked(old(db.projectAttachments), docs)
      && db.propertyAttachments == Unlinked(old(db.propertyAttachments), docs)
      && db.userAttachments == Unlinked(old(db.userAttachments), docs)
    ensures outcome == Done ==> db.propertyOptions == LinksOfUnits(old(db.propertyOptions), db.properties)
  {
    outcome := Guard(db.projects, id, me);
    if outcome != Done {
      return;
    }
    var docs := Targets(db.projectAttachments, id);
    DeleteAttachments(db, docs);
    DeleteProject(db, id);
  }

  /** After a remove the project has no attachment links left, and no attachment it had survives. */
  lemma RemovedLeavesNoAttachments(links: set<Link>, attachments: set<Id>, id: Id)
    ensures Targets(Unlinked(links, Targets(links, id)), id) == {}
    ensures (attachments - Targets(links, id)) !! Targets(links, id)
  {
  }

  /** After a remove no unit of the project remains. */
  lemma RemovedLeavesNoUnits(properties: map<Id, Property>, id: Id)
    ensures forall k :: k in UnitsWithout(properties, id) ==> UnitsWithout(properties, id)[k].projectId != Some(id)
  {
  }
}
