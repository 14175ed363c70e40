/**
 * The buyer preference endpoints. `store` writes the user's one preference
 * row (update or create, keyed by user), then replaces three link sets and,
 * when their keys are present, two more, all in one transaction. `show` reads
 * the row back with its links; `getOptions` lists the master rows for the form.
 */
module UserPreferenceController {
  import opened Wrappers
  import opened Schema
  import opened Ordering
  import opened Validation
  import opened Catalog
  import Req = StoreUserPreferenceRequest

  /** The keys of the master tables the validator's `exists` rules consult. */
  function MastersOf(db: Database): Req.Masters
    reads db`budgetRanges, db`propertyTypes, db`bhkTypes, db`moveInTimelines, db`nearbyLocations, db`localities
  {
    Req.Masters(db.budgetRanges.Keys, db.propertyTypes.Keys, db.bhkTypes.Keys, db.moveInTimelines.Keys,
                db.nearbyLocations.Keys, db.localities.Keys)
  }

  /**
   * The foreign keys of the preference tables: every link joins an existing
   * preference row to an existing master row, and a row's budget range exists.
   */
  ghost predicate Refs(t: Preferences, m: Req.Masters) {
    && (forall p :: p in t.rows && t.rows[p].budgetRangeId.Some? ==> t.rows[p].budgetRangeId.value in m.budgets)
    && (forall l :: l in t.types ==> l.0 in t.rows && l.1 in m.types)
    && (forall l :: l in t.bhk ==> l.0 in t.rows && l.1 in m.bhk)
    && (forall l :: l in t.timelines ==> l.0 in t.rows && l.1 in m.timelines)
    && (forall l :: l in t.nearby ==> l.0 in t.rows && l.1 in m.nearby)
    && (forall l :: l in t.localities ==> l.0 in t.rows && l.1 in m.localities)
  }

  // ---------------------------------------------------------------- reading the request

  /** What `store` writes: `nearby`/`localities` are None when their key is absent (the link set is then kept). */
  datatype Submission = Submission(
    budgetId: Id, radius: int, types: set<Id>, bhk: set<Id>, timelines: set<Id>,
    nearby: Option<set<Id>>, localities: Option<set<Id>>)

  /**
   * The ids `sync` receives: a list of row keys, or null, which `sync` reads
   * as the empty list. Anything else cannot be written to an id column.
   */
  function IdList(v: Value): Option<set<Id>> {
    match v
    case Null => Some({})
    case List(items) =>
      if forall i :: 0 <= i < |items| ==> KeyOf(items[i]).Some? then Some(IdSet(items)) else None
    case _ => None
  }

  /**
   * `$request->search_radius_km ?? 10`: absent or null gives the default 10;
   * otherwise the integer column receives the number the value reads as.
   */
  function Radius(req: Request): Option<int> {
    var v := Input(req, Req.RadiusKey);
    if v.Null? then Some(10) else IntegerOf(v)
  }

  /** The budget range id the row receives: the row key the value names. */
  function Budget(req: Request): Option<Id> {
    KeyOf(Input(req, Req.BudgetKey))
  }

  /** An optional list: absent keeps the links (None), present is synced. */
  function OptionalIdList(req: Request, key: string): Option<Option<set<Id>>> {
    if key !in req then Some(None)
    else
      match IdList(req[key])
      case None => None
      case Some(ids) => Some(Some(ids))
  }

  /** Everything `store` writes, or None when some value cannot be written. */
  function Decode(req: Request): Option<Submission> {
    var budget := Budget(req);
    var radius := Radius(req);
    var types := IdList(Input(req, Req.TypesKey));
    var bhk := IdList(Input(req, Req.BhkKey));
    var timelines := IdList(Input(req, Req.TimelinesKey));
    var nearby := OptionalIdList(req, Req.NearbyKey);
    var localities := OptionalIdList(req, Req.LocalitiesKey);
    if budget.Some? && radius.Some? && types.Some? && bhk.Some? && timelines.Some? && nearby.Some? && localities.Some? then
      Some(Submission(budget.value, radius.value, types.value, bhk.value, timelines.value, nearby.value, localities.value))
    else None
  }

  /** A blank string under an optional key: the rules skip it, but it cannot be written. */
  predicate BlankOptional(req: Request) {
    exists key :: key in {Req.NearbyKey, Req.LocalitiesKey, Req.RadiusKey} && key in req && BlankText(req[key])
  }

  /** Some element of the list is itself a list. */
  predicate HasList(items: seq<Value>) {
    exists i :: 0 <= i < |items| && items[i].List?
  }

  /** A list value holding a list. */
  predicate Nested(v: Value) {
    v.List? && HasList(v.items)
  }

  /**
   * A list where `store` writes an id: the budget sent as a list, or a list
   * inside an id list. `exists` admits one whose elements name existing rows,
   * but no id column can hold it, so its write raises.
   */
  predicate ListForId(req: Request) {
    || Input(req, Req.BudgetKey).List?
    || Nested(Input(req, Req.TypesKey)) || Nested(Input(req, Req.BhkKey)) || Nested(Input(req, Req.TimelinesKey))
    || Nested(Input(req, Req.NearbyKey)) || Nested(Input(req, Req.LocalitiesKey))
  }

  /**
   * A list whose elements pass `exists` is synced as a set of existing ids,
   * non-empty when the list is, unless an element is itself a list.
   */
  lemma IdListOfExisting(v: Value, table: set<Id>)
    requires v.List? && AllExist(v.items, table)
    ensures IdList(v).Some? <==> !HasList(v.items)
    ensures IdList(v).Some? ==> IdList(v).value <= table
    ensures IdList(v).Some? && v.items != [] ==> IdList(v).value != {}
  {
    if !HasList(v.items) {
      IdSetOfExisting(v.items, table);
    } else {
      var i :| 0 <= i < |v.items| && v.items[i].List?;
      assert KeyOf(v.items[i]).None?;
    }
  }

  /**
   * A request that passes validation is written as submitted unless an
   * optional key holds a blank string or a list stands where an id is
   * written: the budget range exists, the three required sets are non-empty
   * and name existing rows, the optional sets name existing rows, and the
   * radius is the default 10 or lies in 1..50.
   */
  lemma PassedRequestDecodes(req: Request, m: Req.Masters)
    requires Req.Passes(req, m)
    ensures Decode(req).Some? <==> !BlankOptional(req) && !ListForId(req)
    ensures Decode(req).Some? ==> var s := Decode(req).value;
      && s.budgetId in m.budgets
      && s.types != {} && s.types <= m.types
      && s.bhk != {} && s.bhk <= m.bhk
      && s.timelines != {} && s.timelines <= m.timelines
      && (s.nearby.Some? <==> Req.NearbyKey in req) && (s.nearby.Some? ==> s.nearby.value <= m.nearby)
      && (s.localities.Some? <==> Req.LocalitiesKey in req) && (s.localities.Some? ==> s.localities.value <= m.localities)
      && (s.radius == 10 || 1 <= s.radius <= 50)
  {
    Req.PassesMeans(req, m);
    IdListOfExisting(req[Req.TypesKey], m.types);
    IdListOfExisting(req[Req.BhkKey], m.bhk);
    IdListOfExisting(req[Req.TimelinesKey], m.timelines);
    OptionalDecodes(req, Req.NearbyKey, m.nearby);
    OptionalDecodes(req, Req.LocalitiesKey, m.localities);
    var blankRadius := Req.RadiusKey in req && BlankText(req[Req.RadiusKey]);
    assert Radius(req).Some? <==> !blankRadius;
    assert Budget(req).Some? <==> !Input(req, Req.BudgetKey).List?;
    assert BlankOptional(req) <==>
      || (Req.NearbyKey in req && BlankText(req[Req.NearbyKey]))
      || (Req.LocalitiesKey in req && BlankText(req[Req.LocalitiesKey]))
      || blankRadius;
  }

  /** An optional list that passed its rules is synced unless it is a blank string or holds a list. */
  lemma OptionalDecodes(req: Request, key: string, table: set<Id>)
    requires key in req && !req[key].Null? && !BlankText(req[key]) ==> req[key].List? && AllExist(req[key].items, table)
    ensures OptionalIdList(req, key).Some? <==> !(key in req && BlankText(req[key])) && !Nested(Input(req, key))
    ensures OptionalIdList(req, key).Some? && OptionalIdList(req, key).value.Some? ==>
      key in req && OptionalIdList(req, key).value.value <= table
  {
    if key in req && req[key].List? {
      IdListOfExisting(req[key], table);
    }
  }

  /**
   * A budget sent as a list of one existing key passes validation, as the
   * bare key does, but cannot be written: the transaction fails, and `store`
   * answers 500 where the bare key is written.
   */
  lemma ListBudgetNotWritten(req: Request, m: Req.Masters, k: Id, fault: Option<nat>)
    requires Req.Passes(req, m) && k in m.budgets
    ensures Req.Passes(req[Req.BudgetKey := List([Int(k)])], m)
    ensures !Commits(req[Req.BudgetKey := List([Int(k)])], fault)
  {
    Req.ListBudgetPasses(req, m, k);
    var r := req[Req.BudgetKey := List([Int(k)])];
    assert Budget(r).None?;
  }

  // ---------------------------------------------------------------- the writes

  /** `UserPreference::where('user_id', ..)->first()`: the lowest-keyed preference row of the user. */
  function PreferenceOf(prefs: map<Id, UserPreference>, bound: nat, uid: Id): (r: Option<Id>)
    ensures r.Some? ==> r.value in prefs && prefs[r.value].userId == uid && r.value < bound
    ensures r.None? ==> forall k :: k in prefs && k < bound ==> prefs[k].userId != uid
  {
    var hits := Keep(Scan(prefs, bound), k => k in prefs && prefs[k].userId == uid);
    assert hits != [] ==> hits[0] in hits;
    First(hits)
  }

  /** The row `updateOrCreate` writes: the user's existing row, else the next auto-increment id. */
  function TargetRow(prefs: map<Id, UserPreference>, next: nat, uid: Id): Id {
    match PreferenceOf(prefs, next, uid)
    case Some(pid) => pid
    case None => next
  }

  /** An optional sync: the links are kept when the key was not sent. */
  function SyncIfSent(links: set<Link>, pid: Id, ids: Option<set<Id>>): set<Link> {
    if ids.Some? then Sync(links, pid, ids.value) else links
  }

  /** The tables after a committed `store` into row `pid`. */
  function Applied(t: Preferences, uid: Id, pid: Id, s: Submission): Preferences {
    Preferences(
      t.rows[pid := UserPreference(uid, Some(s.budgetId), s.radius)],
      Sync(t.types, pid, s.types), Sync(t.bhk, pid, s.bhk), Sync(t.timelines, pid, s.timelines),
      SyncIfSent(t.nearby, pid, s.nearby), SyncIfSent(t.localities, pid, s.localities))
  }

  /** The transaction steps a request runs: the row, three syncs, and one sync per optional key present. */
  function Steps(req: Request): set<nat> {
    {0, 1, 2, 3} + (if Req.NearbyKey in req then {4} else {}) + (if Req.LocalitiesKey in req then {5} else {})
  }

  /** Writing into the user's own row, or into a fresh one, keeps one row per user. */
  lemma AppliedKeepsOnePerUser(prefs: map<Id, UserPreference>, next: nat, uid: Id, budget: Id, radius: int)
    requires OnePreferencePerUser(prefs) && KeysBelow(prefs, next)
    ensures OnePreferencePerUser(prefs[TargetRow(prefs, next, uid) := UserPreference(uid, Some(budget), radius)])
  {
  }

  /** A write of validated values keeps every foreign key of the preference tables. */
  lemma AppliedKeepsRefs(t: Preferences, m: Req.Masters, uid: Id, pid: Id, s: Submission)
    requires Refs(t, m)
    requires s.budgetId in m.budgets && s.types <= m.types && s.bhk <= m.bhk && s.timelines <= m.timelines
    requires s.nearby.Some? ==> s.nearby.value <= m.nearby
    requires s.localities.Some? ==> s.localities.value <= m.localities
    ensures Refs(Applied(t, uid, pid, s), m)
  {
  }

  /** Whether the steps a request runs all go through: no fault at a step that runs, and every value writable. */
  predicate Commits(req: Request, fault: Option<nat>) {
    !(fault.Some? && fault.value in Steps(req)) && Decode(req).Some?
  }

  /** The lookup half of `updateOrCreate`: the user's row, else a fresh id taken from the counter. */
  method RowOf(db: Database, uid: Id) returns (pid: Id)
    requires db.Valid()
    modifies db`nextId
    ensures db.Valid() && db.nextId >= old(db.nextId) && pid < db.nextId
    ensures pid == TargetRow(db.preferences.rows, old(db.nextId), uid)
  {
    var found := PreferenceOf(db.preferences.rows, db.nextId, uid);
    if found.Some? {
      pid := found.value;
    } else {
      pid := NewId(db);
    }
  }

  /**
   * The steps of the transaction, writing into row `pid`: step 0 is the write
   * half of `updateOrCreate` (the budget range and the radius, 10 when none is
   * given), steps 1-3 the required syncs and steps 4-5 the syncs of the
   * optional keys present, in source order. `fault` stands for a database
   * error raised at one step; a value that cannot be written raises at its
   * step too. The steps after an error do not run; `ok` says whether all ran.
   */
  method WriteSteps(db: Database, uid: Id, pid: Id, req: Request, fault: Option<nat>) returns (ok: bool)
    modifies db`preferences
    ensures ok <==> Commits(req, fault)
    ensures ok ==> db.preferences == Applied(old(db.preferences), uid, pid, Decode(req).value)
  {
    CommitsSplit(req, fault);
    // 0. updateOrCreate
    var budget, radius := Budget(req), Radius(req);
    if fault == Some(0) || budget.None? || radius.None? {
      return false;
    }
    db.preferences := db.preferences.(rows := db.preferences.rows[pid := UserPreference(uid, budget, radius.value)]);
    // 1-3. the required syncs
    var types := IdList(Input(req, Req.TypesKey));
    if fault == Some(1) || types.None? {
      return false;
    }
    db.preferences := db.preferences.(types := Sync(db.preferences.types, pid, types.value));
    var bhk := IdList(Input(req, Req.BhkKey));
    if fault == Some(2) || bhk.None? {
      return false;
    }
    db.preferences := db.preferences.(bhk := Sync(db.preferences.bhk, pid, bhk.value));
    var timelines := IdList(Input(req, Req.TimelinesKey));
    if fault == Some(3) || timelines.None? {
      return false;
    }
    db.preferences := db.preferences.(timelines := Sync(db.preferences.timelines, pid, timelines.value));
    // 4-5. the optional syncs, for the keys present
    if Req.NearbyKey in req {
      var nearby := IdList(req[Req.NearbyKey]);
      if fault == Some(4) || nearby.None? {
        return false;
      }
      db.preferences := db.preferences.(nearby := Sync(db.preferences.nearby, pid, nearby.value));
    }
    if Req.LocalitiesKey in req {
      var localities := IdList(req[Req.LocalitiesKey]);
      if fault == Some(5) || localities.None? {
        return false;
      }
      db.preferences := db.preferences.(localities := Sync(db.preferences.localities, pid, localities.value));
    }
    ok := true;
  }

  /** The transaction commits exactly when every step that runs goes through, and then writes the decoded request. */
  lemma CommitsSplit(req: Request, fault: Option<nat>)
    ensures Commits(req, fault) <==>
      && fault != Some(0) && Budget(req).Some? && Radius(req).Some?
      && fault != Some(1) && IdList(Input(req, Req.TypesKey)).Some?
      && fault != Some(2) && IdList(Input(req, Req.BhkKey)).Some?
      && fault != Some(3) && IdList(Input(req, Req.TimelinesKey)).Some?
      && (Req.NearbyKey in req ==> fault != Some(4) && IdList(req[Req.NearbyKey]).Some?)
      && (Req.LocalitiesKey in req ==> fault != Some(5) && IdList(req[Req.LocalitiesKey]).Some?)
    ensures Commits(req, fault) ==> Decode(req) == Some(Submission(
      Budget(req).value, Radius(req).value, IdList(Input(req, Req.TypesKey)).value,
      IdList(Input(req, Req.BhkKey)).value, IdList(Input(req, Req.TimelinesKey)).value,
      OptionalIdList(req, Req.NearbyKey).value, OptionalIdList(req, Req.LocalitiesKey).value))
  {
    assert 0 in Steps(req) && 1 in Steps(req) && 2 in Steps(req) && 3 in Steps(req);
  }

  /**
   * The transaction (`DB::transaction`): the row lookup, then the steps. An
   * error at any step rolls every write back; the auto-increment counter is
   * not rolled back.
   */
  method Transaction(db: Database, uid: Id, req: Request, fault: Option<nat>) returns (committed: bool)
    requires db.Valid()
    modifies db`preferences, db`nextId
    ensures db.Valid() && db.nextId >= old(db.nextId)
    ensures committed <==> Commits(req, fault)
    ensures !committed ==> db.preferences == old(db.preferences)
    ensures committed ==>
      db.preferences == Applied(old(db.preferences), uid, TargetRow(old(db.preferences.rows), old(db.nextId), uid), Decode(req).value)
  {
    var saved := db.preferences;
    ghost var next0 := db.nextId;
    var pid := RowOf(db, uid);
    committed := WriteSteps(db, uid, pid, req, fault);
    if committed {
      ghost var s := Decode(req).value;
      AppliedKeepsOnePerUser(saved.rows, next0, uid, s.budgetId, s.radius);
      assert db.preferences.rows == saved.rows[pid := UserPreference(uid, Some(s.budgetId), s.radius)];
      assert db.PreferenceValid();
    } else {
      // the rollback
      db.preferences := saved;
    }
  }

  /**
   * `store`: the form request's rules (422; its `Req.Authorize` admits every
   * request, so no 403 is possible), then the transaction, which gives 200
   * or, after an error, 500.
   */
  method Store(db: Database, uid: Id, req: Request, fault: Option<nat>) returns (status: nat)
    requires db.Valid()
    modifies db`preferences, db`nextId
    ensures db.Valid() && db.nextId >= old(db.nextId)
    ensures status == 200 || status == 422 || status == 500
    ensures status == 422 <==> !Req.Passes(req, MastersOf(db))
    ensures status == 500 <==> Req.Passes(req, MastersOf(db)) && !Commits(req, fault)
    ensures status != 200 ==> db.preferences == old(db.preferences)
    ensures status == 200 ==>
      db.preferences == Applied(old(db.preferences), uid, TargetRow(old(db.preferences.rows), old(db.nextId), uid), Decode(req).value)
  {
    if !Req.Passes(req, MastersOf(db)) {
      return 422;
    }
    var committed := Transaction(db, uid, req, fault);
    status := if committed then 200 else 500;
  }

  /**
   * A committed `store` keeps every foreign key of the preference tables: it
   * writes only values the form request checked against the master tables.
   */
  lemma StoreKeepsRefs(t: Preferences, m: Req.Masters, uid: Id, pid: Id, req: Request)
    requires Refs(t, m) && Req.Passes(req, m) && Decode(req).Some?
    ensures Refs(Applied(t, uid, pid, Decode(req).value), m)
  {
    PassedRequestDecodes(req, m);
    AppliedKeepsRefs(t, m, uid, pid, Decode(req).value);
  }

  // ---------------------------------------------------------------- reading back

  /** What `show` returns: the row with the ids of its five link sets. */
  datatype PreferenceView = PreferenceView(
    row: UserPreference, types: set<Id>, bhk: set<Id>, timelines: set<Id>, nearby: set<Id>, localities: set<Id>)

  /** The user's row and its links, or None when the user has none. */
  function View(t: Preferences, bound: nat, uid: Id): (r: Option<PreferenceView>)
    ensures r.None? <==> forall k :: k in t.rows && k < bound ==> t.rows[k].userId != uid
    ensures r.Some? ==> r.value.row.userId == uid
  {
    match PreferenceOf(t.rows, bound, uid)
    case None => None
    case Some(pid) =>
      Some(PreferenceView(t.rows[pid], Targets(t.types, pid), Targets(t.bhk, pid), Targets(t.timelines, pid),
                          Targets(t.nearby, pid), Targets(t.localities, pid)))
  }

  /** `show`: the current user's preferences; None is the 404 'No preferences found'. */
  function Show(db: Database, uid: Id): (r: Option<PreferenceView>)
    reads db`preferences, db`nextId
    ensures r.None? <==> forall k :: k in db.preferences.rows && k < db.nextId ==> db.preferences.rows[k].userId != uid
    ensures r.Some? ==> r.value.row.userId == uid
  {
    View(db.preferences, db.nextId, uid)
  }

  /**
   * Reading back a committed write: the row holds the submitted budget and
   * radius, the required link sets are exactly the submitted ones, and an
   * optional set is the submitted one when its key was sent, else the old one.
   */
  lemma StoreThenShow(t: Preferences, next: nat, uid: Id, s: Submission)
    requires OnePreferencePerUser(t.rows) && KeysBelow(t.rows, next)
    ensures var pid := TargetRow(t.rows, next, uid);
      View(Applied(t, uid, pid, s), next + 1, uid) == Some(PreferenceView(
        UserPreference(uid, Some(s.budgetId), s.radius), s.types, s.bhk, s.timelines,
        if s.nearby.Some? then s.nearby.value else Targets(t.nearby, pid),
        if s.localities.Some? then s.localities.value else Targets(t.localities, pid)))
  {
    var pid := TargetRow(t.rows, next, uid);
    var a := Applied(t, uid, pid, s);
    AppliedKeepsOnePerUser(t.rows, next, uid, s.budgetId, s.radius);
    var found := PreferenceOf(a.rows, next + 1, uid);
    assert pid in a.rows && a.rows[pid].userId == uid && pid < next + 1;
    assert found == Some(pid);
    SyncTargets(t.types, pid, s.types, pid);
    SyncTargets(t.bhk, pid, s.bhk, pid);
    SyncTargets(t.timelines, pid, s.timelines, pid);
    if s.nearby.Some? {
      SyncTargets(t.nearby, pid, s.nearby.value, pid);
    }
    if s.localities.Some? {
      SyncTargets(t.localities, pid, s.localities.value, pid);
    }
  }

  // ---------------------------------------------------------------- the form options

  /** The lists `getOptions` returns, as ids in response order. */
  datatype OptionLists = OptionLists(
    bhk: seq<Id>, budgets: seq<Id>, types: seq<Id>, timelines: seq<Id>, nearby: seq<Id>, localities: seq<Id>)

  function BhkOrder(m: map<Id, BhkType>): Id -> Key {
    k => if k in m then [m[k].sortOrder] else []
  }

  function BudgetOrder(m: map<Id, BudgetRange>): Id -> Key {
    k => if k in m then [m[k].sortOrder] else []
  }

  function TimelineOrder(m: map<Id, MoveInTimeline>): Id -> Key {
    k => if k in m then [m[k].sortOrder] else []
  }

  function LocalityOrder(m: map<Id, Locality>): Id -> Key {
    k => if k in m then StringKey(m[k].name) else []
  }

  /** Primary-key order, the order of a query without `orderBy`. */
  function IdOrder(k: Id): Key {
    [k]
  }

  /** BHK types by ascending sort_order. */
  function BhkOptions(bhk: map<Id, BhkType>, bound: nat): (r: seq<Id>)
    ensures SortedBy(r, BhkOrder(bhk))
    ensures forall k :: k in r <==> k in bhk && k < bound
  {
    Select(bhk, bound, k => k in bhk, BhkOrder(bhk))
  }

  /** Budget ranges by ascending sort_order. */
  function BudgetOptions(budgets: map<Id, BudgetRange>, bound: nat): (r: seq<Id>)
    ensures SortedBy(r, BudgetOrder(budgets))
    ensures forall k :: k in r <==> k in budgets && k < bound
  {
    Select(budgets, bound, k => k in budgets, BudgetOrder(budgets))
  }

  /** Only the active property types, in primary-key order. */
  function TypeOptions(types: map<Id, PropertyType>, bound: nat): (r: seq<Id>)
    ensures SortedBy(r, IdOrder)
    ensures forall k :: k in r <==> k in types && types[k].isActive && k < bound
  {
    Select(types, bound, k => k in types && types[k].isActive, IdOrder)
  }

  /** Move-in timelines by ascending sort_order. */
  function TimelineOptions(timelines: map<Id, MoveInTimeline>, bound: nat): (r: seq<Id>)
    ensures SortedBy(r, TimelineOrder(timelines))
    ensures forall k :: k in r <==> k in timelines && k < bound
  {
    Select(timelines, bound, k => k in timelines, TimelineOrder(timelines))
  }

  /** Every nearby location, in primary-key order. */
  function NearbyOptions(nearby: map<Id, NearbyLocation>, bound: nat): (r: seq<Id>)
    ensures SortedBy(r, IdOrder)
    ensures forall k :: k in r <==> k in nearby && k < bound
  {
    Select(nearby, bound, k => k in nearby, IdOrder)
  }

  /** Localities by name. */
  function LocalityOptions(localities: map<Id, Locality>, bound: nat): (r: seq<Id>)
    ensures SortedBy(r, LocalityOrder(localities))
    ensures forall k :: k in r <==> k in localities && k < bound
  {
    Select(localities, bound, k => k in localities, LocalityOrder(localities))
  }

  /** `getOptions`: the six lists of the preference form. */
  function GetOptions(db: Database): OptionLists
    reads db`bhkTypes, db`budgetRanges, db`propertyTypes, db`moveInTimelines, db`nearbyLocations
    reads db`localities, db`nextId
  {
    OptionLists(
      BhkOptions(db.bhkTypes, db.nextId), BudgetOptions(db.budgetRanges, db.nextId),
      TypeOptions(db.propertyTypes, db.nextId), TimelineOptions(db.moveInTimelines, db.nextId),
      NearbyOptions(db.nearbyLocations, db.nextId), LocalityOptions(db.localities, db.nextId))
  }

  /** Read as sort_order values, the BHK list never goes down. */
  lemma BhkAscending(m: map<Id, BhkType>, s: seq<Id>, i: nat, j: nat)
    requires SortedBy(s, BhkOrder(m)) && forall k :: k in s ==> k in m
    requires i < j < |s|
    ensures m[s[i]].sortOrder <= m[s[j]].sortOrder
  {
    assert s[i] in s && s[j] in s;
    SingleKeyOrder(m[s[i]].sortOrder, m[s[j]].sortOrder);
  }
}
