/**
 * The builder's unit edit screen. Opening it, saving and deleting all first
 * check that the unit's current project belongs to the signed-in builder
 * (`UnitForm.Guard`: 403 otherwise); only then is the form validated. Saving overwrites the
 * validated columns and replaces the unit's attachment links; deleting
 * removes the unit's attachments, then the unit.
 */
module BuilderPropertyEdit {
  import opened Wrappers
  import opened Schema
  import opened Validation
  import opened Responses
  import opened UnitForm
  import opened EnumColumn
  import PropertyModel

  /** Whether `save` reaches the update: an own unit, a passing form and a status the column admits. */
  predicate Updates(properties: map<Id, Property>, projects: map<Id, Project>, id: Id, me: Id, req: Request) {
    Guard(properties, projects, id, me) == Done && EditPasses(req, projects) && EditedUnit(properties[id], req, projects).Some?
  }

  /** `save`: guard, validation, the update, then the attachment sync (no transaction). */
  method Save(db: Database, id: Id, me: Id, req: Request) returns (outcome: Outcome)
    requires db.Valid()
    modifies db`properties, db`propertyAttachments
    ensures db.Valid()
    ensures Guard(old(db.properties), db.projects, id, me) != Done ==> outcome == Guard(old(db.properties), db.projects, id, me)
    ensures outcome == Invalid <==> Guard(old(db.properties), db.projects, id, me) == Done && !EditPasses(req, db.projects)
    ensures (Guard(old(db.properties), db.projects, id, me) == Done && EditPasses(req, db.projects)
             && EnumValue(UnitStatuses, req[StatusKey].s).None?) ==> outcome == Failed
    ensures !Updates(old(db.properties), db.projects, id, me, req) ==> db.properties == old(db.properties) && outcome != Done
    ensures !Updates(old(db.properties), db.projects, id, me, req) ==> db.propertyAttachments == old(db.propertyAttachments)
    ensures Updates(old(db.properties), db.projects, id, me, req) ==>
      db.properties == old(db.properties)[id := EditedUnit(old(db.properties)[id], req, db.projects).value]
    ensures Updates(old(db.properties), db.projects, id, me, req) ==>
      (outcome == Done <==> SyncSubmitted(old(db.propertyAttachments), id, Submitted(req), db.attachments).Some?)
    ensures outcome == Done ==>
      db.propertyAttachments == SyncSubmitted(old(db.propertyAttachments), id, Submitted(req), db.attachments).value
    ensures outcome != Done ==> db.propertyAttachments == old(db.propertyAttachments)
  {
    var g := Guard(db.properties, db.projects, id, me);
    if g != Done {
      return g;
    }
    if !EditPasses(req, db.projects) {
      return Invalid;
    }
    var row := EditedUnit(db.properties[id], req, db.projects);
    if row.None? {
      return Failed;
    }
    EditedUnitColumns(db.properties[id], req, db.projects);
    assert Updates(db.properties, db.projects, id, me, req);
    UpdateProperty(db, id, row.value);
    var linked := LinkAttachments(db, id, Submitted(req));
    outcome := if linked then Done else Failed;
  }

  /** `remove`: guard, then the unit's attachments, then the unit. */
  method Remove(db: Database, id: Id, me: Id) returns (outcome: Outcome)
    requires db.Valid()
    modifies db`attachments, db`projectAttachments, db`propertyAttachments, db`userAttachments
    modifies db`properties, db`propertyOptions
    ensures db.Valid()
    ensures outcome == Guard(old(db.properties), db.projects, id, me)
    ensures outcome != Done ==> db.properties == old(db.properties) && db.attachments == old(db.attachments)
    ensures outcome != Done ==> db.propertyAttachments == old(db.propertyAttachments)
    ensures outcome != Done ==> db.projectAttachments == old(db.projectAttachments)
    ensures outcome != Done ==> db.userAttachments == old(db.userAttachments) && db.propertyOptions == old(db.propertyOptions)
    ensures outcome == Done ==> var docs := Targets(old(db.propertyAttachments), id);
      && db.properties == old(db.properties) - {id}
      && db.attachments == old(db.attachments) - docs
      && db.propertyAttachments == Unlinked(old(db.propertyAttachments), docs)
      && db.projectAttachments == Unlinked(old(db.projectAttachments), docs)
      && db.userAttachments == Unlinked(old(db.userAttachments), docs)
      && db.propertyOptions == set l | l in old(db.propertyOptions) && l.0 != id
  {
    outcome := Guard(db.properties, db.projects, id, me);
    if outcome != Done {
      return;
    }
    RemoveUnit(db, id);
  }

  // ---------------------------------------------------------------- as written

  /**
   * `remove` as written: once the check passes, `$property->attachment()`
   * raises, since `Property` declares no such relation, before anything is
   * deleted; the unit survives.
   */
  method RemoveAsWritten(db: Database, id: Id, me: Id) returns (outcome: Outcome)
    requires db.Valid()
    ensures Guard(db.properties, db.projects, id, me) != Done ==> outcome == Guard(db.properties, db.projects, id, me)
    ensures Guard(db.properties, db.projects, id, me) == Done ==> outcome == Failed && id in db.properties
  {
    outcome := Guard(db.properties, db.projects, id, me);
    if outcome == Done {
      assert !PropertyModel.Resolves(PropertyModel.Declared, "attachment");
      outcome := Failed;
    }
  }
}
