/**
 * What the two unit screens share: the unit form's rules, the rows a create
 * and an edit write, the ownership check through the unit's current
 * project, the attachment sync and the delete. The form's nested
 * `property[...]` inputs are the flat keys `property.title` and so on.
 */
module UnitForm {
  import opened Wrappers
  import opened Schema
  import opened Validation
  import opened Responses
  import opened EnumColumn
  import opened Text
  import opened Collation

  const IdKey := "property.id"
  const ProjectKey := "property.project_id"
  const TitleKey := "property.title"
  const ConfigurationKey := "property.configuration"
  const StatusKey := "property.status"
  const AreaKey := "property.area_sqft"
  const PriceKey := "property.price"
  const AttachmentKey := "property.attachment"

  /** The status every created unit starts with. */
  const Available := "Available"

  /** `exists:<table>,id` on a form value: it names the key of a row. */
  predicate NamesRow<T>(v: Value, table: map<Id, T>) {
    KeyOf(v).Some? && KeyOf(v).value in table
  }

  /**
   * The rules of the create form, which the edit forms extend: project
   * `required|exists:projects,id`, title and configuration `required|string`,
   * area and price `required|numeric`, attachments `array`.
   */
  predicate Passes(req: Request, projects: map<Id, Project>) {
    && Filled(Input(req, ProjectKey)) && NamesRow(req[ProjectKey], projects)
    && Filled(Input(req, TitleKey)) && req[TitleKey].Str?
    && Filled(Input(req, ConfigurationKey)) && req[ConfigurationKey].Str?
    && Filled(Input(req, AreaKey)) && Numeric(req[AreaKey])
    && Filled(Input(req, PriceKey)) && Numeric(req[PriceKey])
    && (Checked(req, AttachmentKey, false) ==> req[AttachmentKey].List?)
  }

  /** The edit forms add status `required|string`. */
  predicate EditPasses(req: Request, projects: map<Id, Project>) {
    Passes(req, projects) && Filled(Input(req, StatusKey)) && req[StatusKey].Str?
  }

  /** The project a passing form names. */
  function ProjectOf(req: Request, projects: map<Id, Project>): (pid: Id)
    requires Passes(req, projects)
    ensures pid in projects
  {
    KeyOf(req[ProjectKey]).value
  }

  /** `Property::create($data)` with `status` set to 'Available'; the search columns stay null. */
  function NewUnit(req: Request, projects: map<Id, Project>, now: int): Property
    requires Passes(req, projects)
  {
    Property(Some(ProjectOf(req, projects)), req[TitleKey].s, req[ConfigurationKey].s, NumberOf(req[AreaKey]),
             Available, Some(NumberOf(req[PriceKey])), None, None, None, None, None, None, None, None, now)
  }

  /** The members of the `properties.status` enum column, in declaration order. */
  const UnitStatuses: seq<string> := ["Available", "Sold", "Reserved"]

  /**
   * `$property->update($data)`: the validated columns overwrite the row, the
   * project among them, and the status is stored as the enum member MySQL
   * makes of it; None when strict mode refuses the status and the write raises.
   */
  function EditedUnit(p: Property, req: Request, projects: map<Id, Project>): Option<Property>
    requires EditPasses(req, projects)
  {
    match EnumValue(UnitStatuses, req[StatusKey].s)
    case None => None
    case Some(status) =>
      Some(p.(projectId := Some(ProjectOf(req, projects)), title := req[TitleKey].s, configuration := req[ConfigurationKey].s,
              status := status, areaSqft := NumberOf(req[AreaKey]), price := Some(NumberOf(req[PriceKey]))))
  }

  /** The collation keys of the three members. */
  lemma UnitStatusKeys()
    ensures CollationKey(UnitStatuses[0]) == "available"
    ensures CollationKey(UnitStatuses[1]) == "sold"
    ensures CollationKey(UnitStatuses[2]) == "reserved"
  {
    CollationKeyOf("Available", "available");
    CollationKeyOf("Sold", "sold");
    CollationKeyOf("Reserved", "reserved");
  }

  /** No two members collate equal, and a member written as spelt is stored as itself. */
  lemma StatusMembersStored(i: nat)
    requires i < |UnitStatuses|
    ensures Distinct(UnitStatuses)
    ensures EnumValue(UnitStatuses, UnitStatuses[i]) == Some(UnitStatuses[i])
  {
    UnitStatusKeys();
    MemberStoredAsItself(UnitStatuses, i);
  }

  /** A member in another ASCII case, or with trailing spaces, is stored as that member. */
  lemma StatusCaseVariantsStored()
    ensures EnumValue(UnitStatuses, "sold") == Some("Sold")
    ensures EnumValue(UnitStatuses, "Sold ") == Some("Sold")
  {
    UnitStatusKeys();
    CollationKeyOf("sold", "sold");
    assert Matches(UnitStatuses, "sold");
    TrailingSpacesCollate("Sold");
    assert Matches(UnitStatuses, "Sold ");
    StatusMembersStored(1);
  }

  /** Text that matches no member but reads as a position from 1 to 3 stores the member there. */
  lemma StatusIndexStored()
    ensures EnumValue(UnitStatuses, "2") == Some("Sold")
  {
    UnitStatusKeys();
    CollationKeyOf("2", "2");
    assert !Matches(UnitStatuses, "2") && ParseNat("2") == 2;
  }

  /** Any other text is refused: a non-member word, or a position outside 1 to 3. */
  lemma StatusOtherRefused()
    ensures EnumValue(UnitStatuses, "Pending").None?
    ensures EnumValue(UnitStatuses, "0").None? && EnumValue(UnitStatuses, "4").None?
  {
    UnitStatusKeys();
    CollationKeyOf("Pending", "pending");
    assert !Matches(UnitStatuses, "Pending");
    CollationKeyOf("0", "0");
    assert !Matches(UnitStatuses, "0") && ParseNat("0") == 0;
    CollationKeyOf("4", "4");
    assert !Matches(UnitStatuses, "4") && ParseNat("4") == 4;
  }

  /** The keys the create rules name; only these reach the validated data. */
  const RuleKeys: set<string> := {ProjectKey, TitleKey, ConfigurationKey, AreaKey, PriceKey, AttachmentKey}

  /**
   * A created unit is 'Available', in the project the form names, with the
   * submitted title, configuration, area and price.
   */
  lemma NewUnitColumns(req: Request, projects: map<Id, Project>, now: int)
    requires Passes(req, projects)
    ensures var u := NewUnit(req, projects, now);
      && u.status == "Available" && u.status in UnitStatuses
      && u.projectId == KeyOf(req[ProjectKey]) && u.projectId.value in projects
      && u.title == req[TitleKey].s && u.configuration == req[ConfigurationKey].s
      && u.areaSqft == NumberOf(req[AreaKey]) && u.price == Some(NumberOf(req[PriceKey]))
  {
  }

  /** Keys outside the rules, a `status` key among them, change neither the verdict nor the created unit. */
  lemma OtherKeysIgnored(req: Request, projects: map<Id, Project>, now: int, key: string, v: Value)
    requires Passes(req, projects) && key !in RuleKeys
    ensures Passes(req[key := v], projects) && NewUnit(req[key := v], projects, now) == NewUnit(req, projects, now)
  {
    var r := req[key := v];
    assert key != ProjectKey && key != TitleKey && key != ConfigurationKey;
    assert key != AreaKey && key != PriceKey && key != AttachmentKey;
    assert r[ProjectKey] == req[ProjectKey] && r[TitleKey] == req[TitleKey];
    assert r[ConfigurationKey] == req[ConfigurationKey];
    assert r[AreaKey] == req[AreaKey] && r[PriceKey] == req[PriceKey];
    assert Input(r, AttachmentKey) == Input(req, AttachmentKey);
  }

  /**
   * An edit goes through exactly when the status column stores the submitted
   * status as one of its members; it then writes the submitted project,
   * title, configuration, area and price and that member, and keeps every
   * other column, the creation time included.
   */
  lemma EditedUnitColumns(p: Property, req: Request, projects: map<Id, Project>)
    requires EditPasses(req, projects)
    ensures EditedUnit(p, req, projects).Some? <==> EnumValue(UnitStatuses, req[StatusKey].s).Some?
    ensures EditedUnit(p, req, projects).Some? ==> var u := EditedUnit(p, req, projects).value;
      && u.projectId == KeyOf(req[ProjectKey]) && Some(u.status) == EnumValue(UnitStatuses, req[StatusKey].s)
      && u.status in UnitStatuses
      && u.title == req[TitleKey].s && u.configuration == req[ConfigurationKey].s
      && u.areaSqft == NumberOf(req[AreaKey]) && u.price == Some(NumberOf(req[PriceKey]))
      && u.(projectId := p.projectId, title := p.title, configuration := p.configuration, status := p.status,
            areaSqft := p.areaSqft, price := p.price) == p
  {
    var status := EnumValue(UnitStatuses, req[StatusKey].s);
    if status.Some? {
      var u := p.(projectId := Some(ProjectOf(req, projects)), title := req[TitleKey].s,
                  configuration := req[ConfigurationKey].s, status := status.value,
                  areaSqft := NumberOf(req[AreaKey]), price := Some(NumberOf(req[PriceKey])));
      assert EditedUnit(p, req, projects) == Some(u);
      assert u.(projectId := p.projectId, title := p.title, configuration := p.configuration, status := p.status,
                areaSqft := p.areaSqft, price := p.price) == p;
    }
  }

  /** The owner of a unit's current project, when the unit has a project. */
  function OwnerOf(properties: map<Id, Property>, projects: map<Id, Project>, id: Id): Option<Id>
    requires id in properties
  {
    var pid := properties[id].projectId;
    if pid.Some? && pid.value in projects then Some(projects[pid.value].userId) else None
  }

  /**
   * `$property->project->user_id !== Auth::id()`: 404 for a missing unit, an
   * error for a unit without a project (reading a field of null), 403 for a
   * unit in someone else's project.
   */
  function Guard(properties: map<Id, Property>, projects: map<Id, Project>, id: Id, me: Id): (g: Outcome)
    ensures g == NotFound <==> id !in properties
    ensures g == Done <==> id in properties && OwnerOf(properties, projects, id) == Some(me)
    ensures g == Forbidden <==> id in properties && OwnerOf(properties, projects, id).Some? && OwnerOf(properties, projects, id) != Some(me)
    ensures g == Failed <==> id in properties && OwnerOf(properties, projects, id).None?
  {
    if id !in properties then NotFound
    else match OwnerOf(properties, projects, id)
      case None => Failed
      case Some(owner) => if owner != me then Forbidden else Done
  }

  /** `$property->attachment()->sync($ids)`: the links after the sync, or an error and no change. */
  method LinkAttachments(db: Database, owner: Id, ids: Option<seq<Id>>) returns (linked: bool)
    requires db.Valid()
    modifies db`propertyAttachments
    ensures db.Valid()
    ensures linked <==> SyncSubmitted(old(db.propertyAttachments), owner, ids, db.attachments).Some?
    ensures linked ==> db.propertyAttachments == SyncSubmitted(old(db.propertyAttachments), owner, ids, db.attachments).value
    ensures !linked ==> db.propertyAttachments == old(db.propertyAttachments)
  {
    var links := SyncSubmitted(db.propertyAttachments, owner, ids, db.attachments);
    linked := links.Some?;
    if linked {
      db.propertyAttachments := links.value;
    }
  }

  /** The attachment ids the form submits: `input('property.attachment', [])`. */
  function Submitted(req: Request): Option<seq<Id>> {
    SubmittedIds(req, AttachmentKey)
  }

  /**
   * `$property->attachment()->delete()` then `$property->delete()`: the
   * unit's attachments and every link to them go, then the unit and its
   * facet links.
   */
  method RemoveUnit(db: Database, id: Id)
    requires db.Valid()
    modifies db`attachments, db`projectAttachments, db`propertyAttachments, db`userAttachments
    modifies db`properties, db`propertyOptions
    ensures db.Valid()
    ensures db.attachments == old(db.attachments) - Targets(old(db.propertyAttachments), id)
    ensures db.propertyAttachments == Unlinked(old(db.propertyAttachments), Targets(old(db.propertyAttachments), id))
    ensures db.projectAttachments == Unlinked(old(db.projectAttachments), Targets(old(db.propertyAttachments), id))
    ensures db.userAttachments == Unlinked(old(db.userAttachments), Targets(old(db.propertyAttachments), id))
    ensures db.properties == old(db.properties) - {id}
    ensures db.propertyOptions == set l | l in old(db.propertyOptions) && l.0 != id
  {
    DeleteAttachments(db, Targets(db.propertyAttachments, id));
    DeleteProperty(db, id);
  }
}
