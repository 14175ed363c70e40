/**
 * The builder's unit list: the units of the signed-in builder's projects,
 * newest first, ten per page, with create, edit and delete modals. Create
 * checks only that the named project exists, not whose it is; edit and
 * delete check the owner of the unit's current project and, for someone
 * else's unit, return with an error toast and change nothing.
 */
module BuilderPropertyList {
  import opened Wrappers
  import opened Schema
  import opened Validation
  import opened Ordering
  import opened Responses
  import opened UnitForm
  import opened EnumColumn
  import PropertyModel

  /** Every unit below `bound` whose project `me` owns, newest first. */
  function OwnUnits(properties: map<Id, Property>, projects: map<Id, Project>, bound: nat, me: Id): (r: seq<Id>)
    ensures forall k: nat :: k in r <==> k < bound && k in properties && OwnerOf(properties, projects, k) == Some(me)
    ensures SortedBy(r, Latest(properties, (p: Property) => p.createdAt))
  {
    Select(properties, bound, (k: nat) => k in properties && OwnerOf(properties, projects, k) == Some(me),
           Latest(properties, (p: Property) => p.createdAt))
  }

  /** `query`: page `page` of the own units. */
  function Listing(properties: map<Id, Property>, projects: map<Id, Project>, bound: nat, me: Id, page: int): seq<Id> {
    Page(OwnUnits(properties, projects, bound, me), page)
  }

  /** A page holds at most ten units, each in a project `me` owns. */
  lemma ListingIsOwn(properties: map<Id, Property>, projects: map<Id, Project>, bound: nat, me: Id, page: int)
    ensures |Listing(properties, projects, bound, me, page)| <= 10
    ensures forall k :: k in Listing(properties, projects, bound, me, page) ==>
      && k in properties && properties[k].projectId.Some? && properties[k].projectId.value in projects
      && projects[properties[k].projectId.value].userId == me
  {
  }

  /** Within a page, a unit listed earlier was created no earlier than one listed later. */
  lemma ListingNewestFirst(properties: map<Id, Property>, projects: map<Id, Project>, bound: nat, me: Id, page: int, i: nat, j: nat)
    requires i < j < |Listing(properties, projects, bound, me, page)|
    ensures Listing(properties, projects, bound, me, page)[i] in properties
    ensures Listing(properties, projects, bound, me, page)[j] in properties
    ensures properties[Listing(properties, projects, bound, me, page)[i]].createdAt
         >= properties[Listing(properties, projects, bound, me, page)[j]].createdAt
  {
    LatestPageOrder(properties, (p: Property) => p.createdAt, OwnUnits(properties, projects, bound, me), page, i, j);
  }

  /**
   * `createProperty`: validation, the insert, then the attachment sync (no
   * transaction). Nothing here reads who is signed in.
   */
  method CreateProperty(db: Database, req: Request, now: int) returns (outcome: Outcome)
    requires db.Valid()
    modifies db`properties, db`nextId, db`propertyAttachments
    ensures db.Valid()
    ensures outcome == Invalid || outcome == Failed || outcome == Done
    ensures outcome == Invalid <==> !Passes(req, db.projects)
    ensures outcome == Invalid ==> db.properties == old(db.properties) && db.nextId == old(db.nextId)
    ensures outcome != Invalid ==> db.properties == old(db.properties)[old(db.nextId) := NewUnit(req, db.projects, now)]
    ensures outcome != Invalid ==> db.nextId == old(db.nextId) + 1
    ensures outcome != Invalid ==>
      (outcome == Done <==> SyncSubmitted(old(db.propertyAttachments), old(db.nextId), Submitted(req), db.attachments).Some?)
    ensures outcome == Done ==>
      db.propertyAttachments == SyncSubmitted(old(db.propertyAttachments), old(db.nextId), Submitted(req), db.attachments).value
    ensures outcome != Done ==> db.propertyAttachments == old(db.propertyAttachments)
  {
    if !Passes(req, db.projects) {
      return Invalid;
    }
    var id := InsertProperty(db, NewUnit(req, db.projects, now));
    var linked := LinkAttachments(db, id, Submitted(req));
    outcome := if linked then Done else Failed;
  }

  /**
   * A unit may be created in someone else's project: it then shows in that
   * owner's list and not in the creator's.
   */
  lemma CreatedInForeignProject(properties: map<Id, Property>, projects: map<Id, Project>, bound: nat,
                                req: Request, now: int, me: Id, k: Id)
    requires Passes(req, projects) && projects[ProjectOf(req, projects)].userId != me && k < bound
    ensures var after := properties[k := NewUnit(req, projects, now)];
      && k !in OwnUnits(after, projects, bound, me)
      && k in OwnUnits(after, projects, bound, projects[ProjectOf(req, projects)].userId)
  {
  }

  /** The edit modal's rules: the create rules, status `required|string`, and `id` `required|exists:properties,id`. */
  predicate EditFormPasses(req: Request, projects: map<Id, Project>, properties: map<Id, Property>) {
    EditPasses(req, projects) && Filled(Input(req, IdKey)) && NamesRow(req[IdKey], properties)
  }

  /** The unit a passing edit form names. */
  function EditTarget(req: Request, projects: map<Id, Project>, properties: map<Id, Property>): (id: Id)
    requires EditFormPasses(req, projects, properties)
    ensures id in properties
  {
    KeyOf(req[IdKey]).value
  }

  /** Whether `saveEditedProperty` reaches the update: a passing form for a unit of an own project. */
  predicate Updates(req: Request, projects: map<Id, Project>, properties: map<Id, Property>, me: Id) {
    && EditFormPasses(req, projects, properties) && Guard(properties, projects, EditTarget(req, projects, properties), me) == Done
    && EditedUnit(properties[EditTarget(req, projects, properties)], req, projects).Some?
  }

  /**
   * `saveEditedProperty`: validation first, then the owner of the unit's
   * current project; a foreign unit gets an error toast and no change. The
   * project the form moves the unit to is not checked.
   */
  method SaveEditedProperty(db: Database, req: Request, me: Id) returns (outcome: Outcome)
    requires db.Valid()
    modifies db`properties, db`propertyAttachments
    ensures db.Valid()
    ensures outcome == Invalid <==> !EditFormPasses(req, db.projects, old(db.properties))
    ensures EditFormPasses(req, db.projects, old(db.properties)) ==>
      var g := Guard(old(db.properties), db.projects, EditTarget(req, db.projects, old(db.properties)), me);
      && (g == Forbidden ==> outcome == Refused) && (g == Failed ==> outcome == Failed)
      && (g == Done && EnumValue(UnitStatuses, req[StatusKey].s).None? ==> outcome == Failed)
    ensures !Updates(req, db.projects, old(db.properties), me) ==> db.properties == old(db.properties) && outcome != Done
    ensures !Updates(req, db.projects, old(db.properties), me) ==> db.propertyAttachments == old(db.propertyAttachments)
    ensures Updates(req, db.projects, old(db.properties), me) ==>
      var id := EditTarget(req, db.projects, old(db.properties));
      db.properties == old(db.properties)[id := EditedUnit(old(db.properties)[id], req, db.projects).value]
    ensures Updates(req, db.projects, old(db.properties), me) ==>
      var id := EditTarget(req, db.projects, old(db.properties));
      (outcome == Done <==> SyncSubmitted(old(db.propertyAttachments), id, Submitted(req), db.attachments).Some?)
      && (outcome == Done ==> db.propertyAttachments == SyncSubmitted(old(db.propertyAttachments), id, Submitted(req), db.attachments).value)
      && (outcome != Done ==> db.propertyAttachments == old(db.propertyAttachments))
  {
    if !EditFormPasses(req, db.projects, db.properties) {
      return Invalid;
    }
    var id := EditTarget(req, db.projects, db.properties);
    var g := Guard(db.properties, db.projects, id, me);
    if g == Forbidden {
      return Refused;
    } else if g != Done {
      return Failed;
    }
    var row := EditedUnit(db.properties[id], req, db.projects);
    if row.None? {
      return Failed;
    }
    EditedUnitColumns(db.properties[id], req, db.projects);
    assert Updates(req, db.projects, db.properties, me);
    UpdateProperty(db, id, row.value);
    var linked := LinkAttachments(db, id, Submitted(req));
    outcome := if linked then Done else Failed;
  }

  /**
   * The edit checks the unit's project before the update, not the project
   * the form moves it to: a builder may move an own unit into someone
   * else's project, after which the unit is that owner's and the builder's
   * own check refuses it.
   */
  lemma EditMovesUnitAway(properties: map<Id, Property>, projects: map<Id, Project>, req: Request, me: Id)
    requires Updates(req, projects, properties, me) && projects[ProjectOf(req, projects)].userId != me
    ensures var id := EditTarget(req, projects, properties);
      var after := properties[id := EditedUnit(properties[id], req, projects).value];
      && Guard(after, projects, id, me) == Forbidden
      && Guard(after, projects, id, projects[ProjectOf(req, projects)].userId) == Done
  {
  }

  /**
   * `deleteProperty`'s check on the unit named by `property`: 404 when it
   * names none, an error toast for a foreign unit, an error for a unit
   * without a project.
   */
  function DeleteGuard(properties: map<Id, Property>, projects: map<Id, Project>, req: Request, me: Id): (g: Outcome)
    ensures g == NotFound <==> KeyOf(Input(req, "property")).None? || KeyOf(Input(req, "property")).value !in properties
    ensures g == Done <==> KeyOf(Input(req, "property")).Some? && Guard(properties, projects, KeyOf(Input(req, "property")).value, me) == Done
    ensures g == Refused <==> KeyOf(Input(req, "property")).Some? && Guard(properties, projects, KeyOf(Input(req, "property")).value, me) == Forbidden
  {
    match KeyOf(Input(req, "property"))
    case None => NotFound
    case Some(id) =>
      var g := Guard(properties, projects, id, me);
      if g == Forbidden then Refused else g
  }

  /** `deleteProperty`: the check, then the unit's attachments, then the unit. */
  method DeleteUnit(db: Database, req: Request, me: Id) returns (outcome: Outcome)
    requires db.Valid()
    modifies db`attachments, db`projectAttachments, db`propertyAttachments, db`userAttachments
    modifies db`properties, db`propertyOptions
    ensures db.Valid()
    ensures outcome == DeleteGuard(old(db.properties), db.projects, req, me)
    ensures outcome != Done ==> db.properties == old(db.properties) && db.attachments == old(db.attachments)
    ensures outcome != Done ==> db.propertyAttachments == old(db.propertyAttachments)
    ensures outcome != Done ==> db.projectAttachments == old(db.projectAttachments)
    ensures outcome != Done ==> db.userAttachments == old(db.userAttachments) && db.propertyOptions == old(db.propertyOptions)
    ensures outcome == Done ==> var id := KeyOf(Input(req, "property")).value;
      var docs := Targets(old(db.propertyAttachments), id);
      && db.properties == old(db.properties) - {id}
      && db.attachments == old(db.attachments) - docs
      && db.propertyAttachments == Unlinked(old(db.propertyAttachments), docs)
      && db.projectAttachments == Unlinked(old(db.projectAttachments), docs)
      && db.userAttachments == Unlinked(old(db.userAttachments), docs)
      && db.propertyOptions == set l | l in old(db.propertyOptions) && l.0 != id
  {
    outcome := DeleteGuard(db.properties, db.projects, req, me);
    if outcome != Done {
      return;
    }
    RemoveUnit(db, KeyOf(Input(req, "property")).value);
  }

  // ---------------------------------------------------------------- as written

  /**
   * `createProperty` as written: the unit is inserted, then
   * `$property->attachment()` raises, since `Property` declares no such
   * relation; the row stays and no attachment is linked.
   */
  method CreatePropertyAsWritten(db: Database, req: Request, now: int) returns (outcome: Outcome)
    requires db.Valid()
    modifies db`properties, db`nextId
    ensures db.Valid()
    ensures outcome == Invalid <==> !Passes(req, db.projects)
    ensures outcome != Invalid ==> outcome == Failed
    ensures outcome == Invalid ==> db.properties == old(db.properties) && db.nextId == old(db.nextId)
    ensures outcome == Failed ==> db.properties == old(db.properties)[old(db.nextId) := NewUnit(req, db.projects, now)]
  {
    if !Passes(req, db.projects) {
      return Invalid;
    }
    var id := InsertProperty(db, NewUnit(req, db.projects, now));
    assert !PropertyModel.Resolves(PropertyModel.Declared, "attachment");
    outcome := Failed;
  }

  /**
   * `deleteProperty` as written: once the check passes, `$property->attachment()`
   * raises before anything is deleted, so the unit survives.
   */
  method DeleteUnitAsWritten(db: Database, req: Request, me: Id) returns (outcome: Outcome)
    requires db.Valid()
    ensures DeleteGuard(db.properties, db.projects, req, me) != Done ==> outcome == DeleteGuard(db.properties, db.projects, req, me)
    ensures DeleteGuard(db.properties, db.projects, req, me) == Done ==>
      outcome == Failed && KeyOf(Input(req, "property")).value in db.properties
  {
    outcome := DeleteGuard(db.properties, db.projects, req, me);
    if outcome == Done {
      assert !PropertyModel.Resolves(PropertyModel.Declared, "attachment");
      outcome := Failed;
    }
  }
}
