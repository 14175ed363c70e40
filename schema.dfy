/**
 * The relational state of the marketplace: one record datatype per table row
 * and a `Database` whose fields are the tables (maps from primary key to row)
 * and the many-to-many link tables (sets of (left id, right id) pairs).
 * Value domains follow the migrations; `nextId` stands for the auto-increment
 * counters (one counter serves every table, which only makes ids more distinct).
 */
module Schema {
  import opened Wrappers
  import opened Collation

  type Id = nat

  /** An opaque password hash produced by bcrypt; only the hashing function sees inside it. */
  type Hash = string

  // ---------------------------------------------------------------- filter taxonomy

  /** A facet category; `kind` is the `type` column ('select', 'range' or 'checkbox'). */
  datatype Filter = Filter(name: string, slug: string, kind: string)

  /** A value within a facet: `value` is the raw machine value, `caption` the display text (the `label` column). */
  datatype FilterOption = FilterOption(filterId: Id, caption: string, value: string)

  // ---------------------------------------------------------------- listings

  /** The `projects.verification_status` enum. */
  datatype VerificationStatus = Draft | Pending | Verified | Rejected

  datatype Project = Project(
    userId: Id, name: string, location: string, reraNumber: Option<string>,
    projectType: string, status: string, verificationStatus: VerificationStatus,
    totalUnits: int, viewsCount: int, createdAt: int)

  /**
   * A unit. The first group of columns is the one the builder screens write
   * (configuration, area_sqft, status); the second is the one the tagging
   * seeder and the public search read. Prices are whole rupees.
   */
  datatype Property = Property(
    projectId: Option<Id>, title: string, configuration: string, areaSqft: int, status: string,
    price: Option<int>, bhk: Option<string>, propertyType: Option<string>, location: Option<string>,
    constructionStatus: Option<string>, possessionDate: Option<string>,
    financingOption: Option<string>, floorNumber: Option<int>, carpetArea: Option<int>,
    createdAt: int)

  datatype Lead = Lead(projectId: Id, name: string, email: string, phone: string,
                       status: string, message: string, createdAt: int)

  // ---------------------------------------------------------------- accounts

  datatype User = User(
    name: Option<string>, email: Option<string>, phone: Option<string>, password: Option<Hash>,
    otpCode: Option<string>, otpExpiresAt: Option<int>, isPhoneVerified: bool,
    verificationStatus: Option<string>, permissions: map<string, bool>, createdAt: int)

  datatype Role = Role(slug: string, name: string)

  /** A personal access token; `secret` is the minted plain-text token. */
  datatype Token = Token(userId: Id, name: string, secret: string)

  // ---------------------------------------------------------------- buyer preferences

  datatype BhkType = BhkType(caption: string, sortOrder: int)
  datatype MoveInTimeline = MoveInTimeline(caption: string, sortOrder: int)
  datatype NearbyLocation = NearbyLocation(caption: string, icon: Option<string>)
  datatype BudgetRange = BudgetRange(caption: string, minPrice: int, maxPrice: int, sortOrder: int)
  datatype Locality = Locality(name: string, city: string)
  datatype PropertyType = PropertyType(name: string, slug: string, isActive: bool)
  datatype UserPreference = UserPreference(userId: Id, budgetRangeId: Option<Id>, searchRadiusKm: int)

  /** A link-table row (left id, right id). */
  type Link = (Id, Id)

  /**
   * The preference rows and the five preference link tables, each holding
   * (user_preference_id, master row id) pairs.
   */
  datatype Preferences = Preferences(
    rows: map<Id, UserPreference>, types: set<Link>, bhk: set<Link>, timelines: set<Link>,
    nearby: set<Link>, localities: set<Link>)

  // ---------------------------------------------------------------- table predicates

  ghost predicate KeysBelow<T>(m: map<Id, T>, bound: Id) {
    forall k :: k in m ==> k < bound
  }

  /** Every row of `a` is in `b` with the same contents: rows may be added, none changed or removed. */
  ghost predicate Extends<T>(a: map<Id, T>, b: map<Id, T>) {
    forall k :: k in a ==> k in b && b[k] == a[k]
  }

  /** The unique index on `filters.slug`. */
  ghost predicate SlugsUnique(filters: map<Id, Filter>) {
    forall i, j :: i in filters && j in filters && filters[i].slug == filters[j].slug ==> i == j
  }

  /**
   * No two options of one filter share a raw value. The `filter_options`
   * table has no unique index on (filter_id, value): this is an invariant the
   * seeders keep, since each finds before it creates, not a database
   * constraint.
   */
  ghost predicate OptionKeysUnique(options: map<Id, FilterOption>) {
    forall i, j ::
      i in options && j in options && options[i].filterId == options[j].filterId && options[i].value == options[j].value
      ==> i == j
  }

  /** The unique index on `users.email` (several NULLs are allowed). */
  ghost predicate EmailsUnique(users: map<Id, User>) {
    forall i, j :: i in users && j in users && users[i].email.Some? && users[i].email == users[j].email ==> i == j
  }

  /** The unique index on `users.phone`. */
  ghost predicate PhonesUnique(users: map<Id, User>) {
    forall i, j :: i in users && j in users && users[i].phone.Some? && users[i].phone == users[j].phone ==> i == j
  }

  /** What the unique index on `projects.rera_number` compares: the collation key of a non-null number. */
  function ReraCollated(rera: Option<string>): Option<string> {
    if rera.Some? then Some(CollationKey(rera.value)) else None
  }

  /** The unique index on `projects.rera_number`, under the column's collation; null numbers are not constrained. */
  ghost predicate ReraUnique(projects: map<Id, Project>) {
    forall i, j :: i in projects && j in projects && projects[i].reraNumber.Some? && ReraCollated(projects[i].reraNumber) == ReraCollated(projects[j].reraNumber) ==> i == j
  }

  /** The foreign key `properties.project_id`: a unit's project, when it has one, exists. */
  ghost predicate UnitsInProjects(properties: map<Id, Property>, projects: map<Id, Project>) {
    forall k :: k in properties && properties[k].projectId.Some? ==> properties[k].projectId.value in projects
  }

  /** At most one preference row per user. */
  ghost predicate OnePreferencePerUser(prefs: map<Id, UserPreference>) {
    forall i, j :: i in prefs && j in prefs && prefs[i].userId == prefs[j].userId ==> i == j
  }

  // ---------------------------------------------------------------- link tables

  /** The right-hand ids linked to `owner`. */
  function Targets(links: set<Link>, owner: Id): set<Id> {
    set l | l in links && l.0 == owner :: l.1
  }

  /**
   * Eloquent `sync($ids)`: afterwards `owner` is linked to exactly `ids`;
   * links of every other owner are kept.
   */
  function Sync(links: set<Link>, owner: Id, ids: set<Id>): (r: set<Link>)
    ensures forall l :: l in r <==> (l in links && l.0 != owner) || (l.0 == owner && l.1 in ids)
  {
    (set l | l in links && l.0 != owner) + (set x | x in ids :: (owner, x))
  }

  /** Read back after `sync`: the owner's targets are the synced ids, every other owner's are unchanged. */
  lemma SyncTargets(links: set<Link>, owner: Id, ids: set<Id>, other: Id)
    ensures Targets(Sync(links, owner, ids), owner) == ids
    ensures other != owner ==> Targets(Sync(links, owner, ids), other) == Targets(links, other)
  {
    var r := Sync(links, owner, ids);
    forall x | x in ids ensures x in Targets(r, owner) {
      assert (owner, x) in r;
    }
    if other != owner {
      forall x | x in Targets(links, other) ensures x in Targets(r, other) {
        assert (other, x) in links;
        assert (other, x) in r;
      }
    }
  }

  /** Sync replaces rather than unites: an earlier link of the owner that is not resubmitted is gone. */
  lemma SyncDropsUnselected(links: set<Link>, owner: Id, ids: set<Id>, x: Id)
    requires (owner, x) in links && x !in ids
    ensures x !in Targets(Sync(links, owner, ids), owner)
  {
  }

  /** The set of ids of a submitted list (duplicates collapse, as in a link table). */
  function AsSet(ids: seq<Id>): (r: set<Id>)
    ensures forall x :: x in r <==> x in ids
  {
    set x | x in ids
  }

  /**
   * `sync($submitted)` on an attachment relation: None when nothing could be
   * read as ids or some id names no attachment row (the foreign key refuses
   * the insert), otherwise the links after the sync.
   */
  function SyncSubmitted(links: set<Link>, owner: Id, ids: Option<seq<Id>>, attachments: set<Id>): Option<set<Link>> {
    if ids.Some? && forall x :: x in ids.value ==> x in attachments then Some(Sync(links, owner, AsSet(ids.value))) else None
  }

  // ---------------------------------------------------------------- the database

  class Database {
    var filters: map<Id, Filter>
    var filterOptions: map<Id, FilterOption>
    /** `property_filter_option`: (property_id, filter_option_id). */
    var propertyOptions: set<Link>

    var projects: map<Id, Project>
    var properties: map<Id, Property>
    var leads: map<Id, Lead>

    var users: map<Id, User>
    var roles: map<Id, Role>
    /** `role_users`: (user_id, role_id). */
    var roleUsers: set<Link>
    var tokens: map<Id, Token>

    /** Rows of the `attachments` table. */
    var attachments: set<Id>
    /** `attachmentable` rows, one set per owning model: (owner id, attachment id). */
    var projectAttachments: set<Link>
    var propertyAttachments: set<Link>
    var userAttachments: set<Link>

    var bhkTypes: map<Id, BhkType>
    var moveInTimelines: map<Id, MoveInTimeline>
    var nearbyLocations: map<Id, NearbyLocation>
    var budgetRanges: map<Id, BudgetRange>
    var localities: map<Id, Locality>
    var propertyTypes: map<Id, PropertyType>

    /** `user_preferences` with its five link tables, which are always written together. */
    var preferences: Preferences

    /** The next auto-increment value. */
    var nextId: Id

    /**
     * The filter taxonomy: ids handed out, slugs unique (a unique index), and
     * option keys (filter, value) unique, which only the seeders' find-before-
     * create keeps.
     */
    ghost predicate CatalogValid()
      reads this`filters, this`filterOptions, this`nextId
    {
      KeysBelow(filters, nextId) && KeysBelow(filterOptions, nextId) && SlugsUnique(filters) && OptionKeysUnique(filterOptions)
    }

    /** Projects, units, leads and stored attachments: ids handed out, RERA numbers unique, units in existing projects. */
    ghost predicate ListingValid()
      reads this`projects, this`properties, this`leads, this`attachments, this`nextId
    {
      && KeysBelow(projects, nextId) && KeysBelow(properties, nextId) && KeysBelow(leads, nextId)
      && (forall a :: a in attachments ==> a < nextId)
      && ReraUnique(projects) && UnitsInProjects(properties, projects)
    }

    /** Users, roles and tokens: ids handed out, email and phone unique. */
    ghost predicate AccountValid()
      reads this`users, this`roles, this`tokens, this`nextId
    {
      && KeysBelow(users, nextId) && KeysBelow(roles, nextId) && KeysBelow(tokens, nextId)
      && EmailsUnique(users) && PhonesUnique(users)
    }

    /** Preference master tables and preference rows: ids handed out, one preference per user. */
    ghost predicate PreferenceValid()
      reads this`bhkTypes, this`moveInTimelines, this`nearbyLocations, this`budgetRanges, this`localities
      reads this`propertyTypes, this`preferences, this`nextId
    {
      && KeysBelow(bhkTypes, nextId) && KeysBelow(moveInTimelines, nextId)
      && KeysBelow(nearbyLocations, nextId) && KeysBelow(budgetRanges, nextId)
      && KeysBelow(localities, nextId) && KeysBelow(propertyTypes, nextId)
      && KeysBelow(preferences.rows, nextId) && OnePreferencePerUser(preferences.rows)
    }

    /** The invariant of every reachable state: ids were handed out by `nextId`, unique indexes hold. */
    ghost predicate Valid()
      reads this`filters, this`filterOptions, this`projects, this`properties, this`leads, this`users, this`roles
      reads this`tokens, this`attachments, this`bhkTypes, this`moveInTimelines, this`nearbyLocations
      reads this`budgetRanges, this`localities, this`propertyTypes, this`preferences, this`nextId
    {
      CatalogValid() && ListingValid() && AccountValid() && PreferenceValid()
    }

    /** A freshly migrated, empty database. */
    constructor ()
      ensures Valid()
      ensures filters == map[] && filterOptions == map[] && propertyOptions == {}
      ensures projects == map[] && properties == map[] && leads == map[]
      ensures users == map[] && roles == map[] && roleUsers == {} && tokens == map[]
      ensures preferences.rows == map[]
    {
      filters, filterOptions, propertyOptions := map[], map[], {};
      projects, properties, leads := map[], map[], map[];
      users, roles, roleUsers, tokens := map[], map[], {}, map[];
      attachments, projectAttachments, propertyAttachments, userAttachments := {}, {}, {}, {};
      bhkTypes, moveInTimelines, nearbyLocations := map[], map[], map[];
      budgetRanges, localities, propertyTypes := map[], map[], map[];
      preferences := Preferences(map[], {}, {}, {}, {}, {});
      nextId := 1;
    }
  }

  /** Takes the next auto-increment value; it is the key of no existing row. */
  method NewId(db: Database) returns (id: Id)
    requires db.Valid()
    modifies db`nextId
    ensures db.Valid()
    ensures id == old(db.nextId) && db.nextId == id + 1
  {
    id := db.nextId;
    db.nextId := db.nextId + 1;
  }

  /** The users holding `email`; empty for a null email, which the unique index does not constrain. */
  predicate EmailTaken(users: map<Id, User>, email: Option<string>) {
    email.Some? && exists k :: k in users && users[k].email == email
  }

  predicate PhoneTaken(users: map<Id, User>, phone: Option<string>) {
    phone.Some? && exists k :: k in users && users[k].phone == phone
  }

  /** `User::create`: a row under a fresh id, which the unique indexes on email and phone must admit. */
  method InsertUser(db: Database, u: User) returns (id: Id)
    requires db.Valid() && !EmailTaken(db.users, u.email) && !PhoneTaken(db.users, u.phone)
    modifies db`users, db`nextId
    ensures db.Valid() && id == old(db.nextId) && db.nextId == id + 1
    ensures db.users == old(db.users)[id := u]
  {
    id := NewId(db);
    db.users := db.users[id := u];
  }

  /** A save of an existing user that leaves its email and phone as they were. */
  method UpdateUser(db: Database, id: Id, u: User)
    requires db.Valid() && id in db.users && u.email == db.users[id].email && u.phone == db.users[id].phone
    modifies db`users
    ensures db.Valid() && db.users == old(db.users)[id := u]
  {
    db.users := db.users[id := u];
  }

  /** The ids of the tokens of one user. */
  function TokensOf(tokens: map<Id, Token>, uid: Id): set<Id> {
    set k | k in tokens && tokens[k].userId == uid
  }

  /** `createToken`: a token row under a fresh id. */
  method InsertToken(db: Database, t: Token) returns (id: Id)
    requires db.Valid()
    modifies db`tokens, db`nextId
    ensures db.Valid() && id == old(db.nextId) && db.nextId == id + 1
    ensures db.tokens == old(db.tokens)[id := t]
  {
    id := NewId(db);
    db.tokens := db.tokens[id := t];
  }

  /** Deletes the token rows whose ids are in `ids`. */
  method DeleteTokens(db: Database, ids: set<Id>)
    requires db.Valid()
    modifies db`tokens
    ensures db.Valid() && db.tokens == old(db.tokens) - ids
  {
    db.tokens := db.tokens - ids;
  }
  // ---------------------------------------------------------------- listings and attachments

  /** The ids `lo`, `lo + 1`, ..., `lo + n - 1`: what `n` successive inserts receive. */
  function Span(lo: Id, n: nat): (r: set<Id>)
    ensures forall k :: k in r <==> lo <= k < lo + n
  {
    if n == 0 then {} else Span(lo, n - 1) + {lo + n - 1}
  }

  /** `n` successive inserts receive `n` distinct ids. */
  lemma {:induction false} SpanSize(lo: Id, n: nat)
    ensures |Span(lo, n)| == n
  {
    if n > 0 {
      SpanSize(lo, n - 1);
    }
  }

  /** An `attachments` row for one stored upload. */
  method NewAttachment(db: Database) returns (id: Id)
    requires db.Valid()
    modifies db`attachments, db`nextId
    ensures db.Valid() && id == old(db.nextId) && db.nextId == id + 1
    ensures id !in old(db.attachments) && db.attachments == old(db.attachments) + {id}
  {
    id := NewId(db);
    db.attachments := db.attachments + {id};
  }

  /** The links of an `attachmentable` table that survive the deletion of the attachments `ids`. */
  function Unlinked(links: set<Link>, ids: set<Id>): (r: set<Link>)
    ensures forall l :: l in r <==> l in links && l.1 !in ids
  {
    set l | l in links && l.1 !in ids
  }

  /**
   * `$model->attachment()->delete()`: the attachment rows go, and with them,
   * by the cascading foreign key, every link to them, whatever model owns it.
   */
  method DeleteAttachments(db: Database, ids: set<Id>)
    requires db.Valid()
    modifies db`attachments, db`projectAttachments, db`propertyAttachments, db`userAttachments
    ensures db.Valid() && db.attachments == old(db.attachments) - ids
    ensures db.projectAttachments == Unlinked(old(db.projectAttachments), ids)
    ensures db.propertyAttachments == Unlinked(old(db.propertyAttachments), ids)
    ensures db.userAttachments == Unlinked(old(db.userAttachments), ids)
  {
    db.attachments := db.attachments - ids;
    db.projectAttachments := Unlinked(db.projectAttachments, ids);
    db.propertyAttachments := Unlinked(db.propertyAttachments, ids);
    db.userAttachments := Unlinked(db.userAttachments, ids);
  }

  /**
   * Another project than `except` already has a RERA number the collation
   * finds equal to the non-null `rera` (a case variant or trailing spaces
   * clash too).
   */
  predicate ReraTaken(projects: map<Id, Project>, rera: Option<string>, except: Option<Id>) {
    rera.Some? && exists k :: k in projects && Some(k) != except && ReraCollated(projects[k].reraNumber) == ReraCollated(rera)
  }

  /** A project row under a fresh id; the unique index must admit its RERA number. */
  method InsertProject(db: Database, p: Project) returns (id: Id)
    requires db.Valid() && !ReraTaken(db.projects, p.reraNumber, None)
    modifies db`projects, db`nextId
    ensures db.Valid() && id == old(db.nextId) && db.nextId == id + 1
    ensures db.projects == old(db.projects)[id := p]
  {
    id := NewId(db);
    db.projects := db.projects[id := p];
  }

  /** A save of an existing project; the unique index must admit its RERA number. */
  method UpdateProject(db: Database, id: Id, p: Project)
    requires db.Valid() && id in db.projects && !ReraTaken(db.projects, p.reraNumber, Some(id))
    modifies db`projects
    ensures db.Valid() && db.projects == old(db.projects)[id := p]
  {
    db.projects := db.projects[id := p];
  }

  /** The units that survive the deletion of project `id`: `properties.project_id` cascades. */
  function UnitsWithout(properties: map<Id, Property>, id: Id): (r: map<Id, Property>)
    ensures forall k :: k in r <==> k in properties && properties[k].projectId != Some(id)
    ensures forall k :: k in r ==> r[k] == properties[k]
  {
    map k | k in properties && properties[k].projectId != Some(id) :: properties[k]
  }

  /**
   * `$project->delete()`: the row goes, and by the cascading foreign keys its
   * units, and the facet links of those units, go with it.
   */
  method DeleteProject(db: Database, id: Id)
    requires db.Valid()
    modifies db`projects, db`properties, db`propertyOptions
    ensures db.Valid() && db.projects == old(db.projects) - {id}
    ensures db.properties == UnitsWithout(old(db.properties), id)
    ensures db.propertyOptions == LinksOfUnits(old(db.propertyOptions), db.properties)
  {
    var units := UnitsWithout(db.properties, id);
    UnitsWithoutStayInProjects(db.properties, db.projects, id, db.nextId);
    db.projects := db.projects - {id};
    db.properties := units;
    db.propertyOptions := LinksOfUnits(db.propertyOptions, units);
  }

  /** The facet links whose unit is one of `units`. */
  function LinksOfUnits(links: set<Link>, units: map<Id, Property>): (r: set<Link>)
    ensures forall l :: l in r <==> l in links && l.0 in units
  {
    set l | l in links && l.0 in units
  }

  lemma UnitsWithoutStayInProjects(properties: map<Id, Property>, projects: map<Id, Project>, id: Id, bound: Id)
    requires UnitsInProjects(properties, projects) && ReraUnique(projects)
    requires KeysBelow(projects, bound) && KeysBelow(properties, bound)
    ensures UnitsInProjects(UnitsWithout(properties, id), projects - {id}) && ReraUnique(projects - {id})
    ensures KeysBelow(projects - {id}, bound) && KeysBelow(UnitsWithout(properties, id), bound)
  {
    var units := UnitsWithout(properties, id);
    forall k | k in units && units[k].projectId.Some? ensures units[k].projectId.value in projects - {id} {
      assert units[k] == properties[k];
    }
  }

  /** A unit row under a fresh id, in an existing project when it names one. */
  method InsertProperty(db: Database, p: Property) returns (id: Id)
    requires db.Valid() && (p.projectId.Some? ==> p.projectId.value in db.projects)
    modifies db`properties, db`nextId
    ensures db.Valid() && id == old(db.nextId) && db.nextId == id + 1
    ensures db.properties == old(db.properties)[id := p]
  {
    id := NewId(db);
    db.properties := db.properties[id := p];
  }

  /** A save of an existing unit, in an existing project when it names one. */
  method UpdateProperty(db: Database, id: Id, p: Property)
    requires db.Valid() && id in db.properties && (p.projectId.Some? ==> p.projectId.value in db.projects)
    modifies db`properties
    ensures db.Valid() && db.properties == old(db.properties)[id := p]
  {
    db.properties := db.properties[id := p];
  }

  /** Deletes one unit; its facet links go with it (cascading foreign key of `property_filter_option`). */
  method DeleteProperty(db: Database, id: Id)
    requires db.Valid()
    modifies db`properties, db`propertyOptions
    ensures db.Valid() && db.properties == old(db.properties) - {id}
    ensures db.propertyOptions == set l | l in old(db.propertyOptions) && l.0 != id
  {
    db.properties := db.properties - {id};
    db.propertyOptions := set l | l in db.propertyOptions && l.0 != id;
  }

  /** A save of an existing lead. */
  method UpdateLead(db: Database, id: Id, l: Lead)
    requires db.Valid() && id in db.leads
    modifies db`leads
    ensures db.Valid() && db.leads == old(db.leads)[id := l]
  {
    db.leads := db.leads[id := l];
  }
}
