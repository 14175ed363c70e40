/**
 * The form request in front of the buyer preference store: one budget range,
 * three required non-empty id lists, two optional id lists and an optional
 * search radius. Every id must name an existing master row.
 */
module StoreUserPreferenceRequest {
  import opened Schema
  import opened Validation
  import opened Text

  /** The key sets of the six master tables the `exists` rules look into. */
  datatype Masters = Masters(
    budgets: set<Id>, types: set<Id>, bhk: set<Id>, timelines: set<Id>, nearby: set<Id>, localities: set<Id>)

  const BudgetKey := "budget_range_id"
  const TypesKey := "property_type_ids"
  const BhkKey := "bhk_type_ids"
  const TimelinesKey := "move_in_timeline_ids"
  const NearbyKey := "nearby_location_ids"
  const LocalitiesKey := "locality_ids"
  const RadiusKey := "search_radius_km"

  /** `authorize()`: every request is authorised. */
  predicate Authorize(req: Request) {
    true
  }

  /**
   * `required|array` with `<key>.* => exists:<table>,id`, on the value the
   * key holds (an absent key reads as `Null`).
   */
  predicate RequiredIds(v: Value, table: set<Id>) {
    Filled(v) && v.List? && AllExist(v.items, table)
  }

  /** `nullable|array` with `<key>.* => exists:<table>,id`: absent, null and blank values skip the rules. */
  predicate OptionalIds(v: Value, table: set<Id>) {
    !v.Null? && !BlankText(v) ==> v.List? && AllExist(v.items, table)
  }

  /**
   * `nullable|integer|min:1|max:50`: with `integer` among the rules, `min` and
   * `max` compare the number a numeric value stands for; `true` is not
   * numeric, and its size is the length of "1", which agrees with `IntegerOf`.
   */
  predicate RadiusOk(v: Value) {
    !v.Null? && !BlankText(v) ==> IntegerOf(v).Some? && 1 <= IntegerOf(v).value <= 50
  }

  /** The rules on the id keys. */
  predicate IdRulesPass(req: Request, m: Masters) {
    && Filled(Input(req, BudgetKey)) && Exists(Input(req, BudgetKey), m.budgets)
    && RequiredIds(Input(req, TypesKey), m.types)
    && RequiredIds(Input(req, BhkKey), m.bhk)
    && RequiredIds(Input(req, TimelinesKey), m.timelines)
    && OptionalIds(Input(req, NearbyKey), m.nearby)
    && OptionalIds(Input(req, LocalitiesKey), m.localities)
  }

  /** The whole rule set of `rules()`. */
  predicate Passes(req: Request, m: Masters) {
    IdRulesPass(req, m) && RadiusOk(Input(req, RadiusKey))
  }

  /**
   * What a passing request guarantees: a budget value naming an existing
   * budget range, or a non-empty list whose elements all do (`exists` admits
   * lists); three non-empty id lists whose elements pass `exists`; optional
   * lists that are absent, null or such lists (or a blank string, which the
   * rules skip); and a radius that is absent, null, a blank string or an
   * integer from 1 to 50.
   */
  lemma PassesMeans(req: Request, m: Masters)
    requires Passes(req, m)
    ensures BudgetKey in req
    ensures !req[BudgetKey].List? ==> KeyOf(req[BudgetKey]).Some? && KeyOf(req[BudgetKey]).value in m.budgets
    ensures req[BudgetKey].List? ==> var items := req[BudgetKey].items;
      && items != []
      && (forall i :: 0 <= i < |items| ==> KeyOf(items[i]).Some? && KeyOf(items[i]).value in m.budgets)
    ensures forall key :: key in {TypesKey, BhkKey, TimelinesKey} ==> key in req && req[key].List? && req[key].items != []
    ensures AllExist(req[TypesKey].items, m.types) && AllExist(req[BhkKey].items, m.bhk)
    ensures AllExist(req[TimelinesKey].items, m.timelines)
    ensures NearbyKey in req && !req[NearbyKey].Null? && !BlankText(req[NearbyKey]) ==>
      req[NearbyKey].List? && AllExist(req[NearbyKey].items, m.nearby)
    ensures LocalitiesKey in req && !req[LocalitiesKey].Null? && !BlankText(req[LocalitiesKey]) ==>
      req[LocalitiesKey].List? && AllExist(req[LocalitiesKey].items, m.localities)
    ensures RadiusKey in req && !req[RadiusKey].Null? && !BlankText(req[RadiusKey]) ==>
      IntegerOf(req[RadiusKey]).Some? && 1 <= IntegerOf(req[RadiusKey]).value <= 50
  {
  }

  /** The optional keys may be left out or sent as null without changing the verdict on the rest. */
  lemma OptionalKeysMayBeOmitted(req: Request, m: Masters, key: string)
    requires Passes(req, m)
    requires key in {NearbyKey, LocalitiesKey, RadiusKey}
    ensures Passes(req - {key}, m)
    ensures Passes(req[key := Null], m)
  {
    var dropped, nulled := req - {key}, req[key := Null];
    forall k | k != key
      ensures Input(dropped, k) == Input(req, k) && Input(nulled, k) == Input(req, k)
    {
    }
    assert Input(dropped, key) == Null && Input(nulled, key) == Null;
  }

  /** Each required key is needed: dropping it, nulling it or sending an empty list fails the request. */
  lemma RequiredKeysNeeded(req: Request, m: Masters, key: string)
    requires key in {BudgetKey, TypesKey, BhkKey, TimelinesKey}
    ensures !Passes(req - {key}, m)
    ensures !Passes(req[key := Null], m)
    ensures !Passes(req[key := List([])], m)
  {
  }

  /**
   * An element of a required list that fails `exists` fails the request: a
   * scalar naming no existing master row, or a list holding such an element.
   */
  lemma UnknownIdFails(req: Request, m: Masters, i: nat, j: nat)
    requires TypesKey in req && req[TypesKey].List? && i < |req[TypesKey].items|
    requires var e := req[TypesKey].items[i];
      if e.List? then j < |e.items| && (KeyOf(e.items[j]).None? || KeyOf(e.items[j]).value !in m.types)
      else KeyOf(e).None? || KeyOf(e).value !in m.types
    ensures !Passes(req, m)
  {
  }

  /** A budget sent as a one-element list of an existing budget range's key passes the rules, as a bare key does. */
  lemma ListBudgetPasses(req: Request, m: Masters, k: Id)
    requires Passes(req, m) && k in m.budgets
    ensures Passes(req[BudgetKey := List([Int(k)])], m)
    ensures Passes(req[BudgetKey := Int(k)], m)
  {
    var r := req[BudgetKey := List([Int(k)])];
    assert Input(r, TypesKey) == Input(req, TypesKey) && Input(r, BhkKey) == Input(req, BhkKey);
    assert Input(r, TimelinesKey) == Input(req, TimelinesKey) && Input(r, RadiusKey) == Input(req, RadiusKey);
    assert Input(r, NearbyKey) == Input(req, NearbyKey) && Input(r, LocalitiesKey) == Input(req, LocalitiesKey);
    ListExistsCases([Int(k)], m.budgets, 0);
    var b := req[BudgetKey := Int(k)];
    assert Input(b, TypesKey) == Input(req, TypesKey) && Input(b, BhkKey) == Input(req, BhkKey);
    assert Input(b, TimelinesKey) == Input(req, TimelinesKey) && Input(b, RadiusKey) == Input(req, RadiusKey);
    assert Input(b, NearbyKey) == Input(req, NearbyKey) && Input(b, LocalitiesKey) == Input(req, LocalitiesKey);
  }

  /** A radius outside 1..50 fails the request, sent as a number or as its text, and so does one that is not an integer. */
  lemma RadiusOutOfRangeFails(req: Request, m: Masters, r: int)
    requires r < 1 || r > 50
    ensures !Passes(req[RadiusKey := Int(r)], m)
    ensures !Passes(req[RadiusKey := Str(IntToString(r))], m)
    ensures !Passes(req[RadiusKey := List([])], m)
    ensures !Passes(req[RadiusKey := Bool(false)], m)
  {
    assert !RadiusOk(Int(r));
    RadiusFails(req, m, Int(r));
    RadiusTextAsNumber(r);
    RadiusFails(req, m, Str(IntToString(r)));
    RadiusFails(req, m, List([]));
    RadiusFails(req, m, Bool(false));
  }

  /** A radius the radius rule refuses fails the whole request. */
  lemma RadiusFails(req: Request, m: Masters, v: Value)
    requires !RadiusOk(v)
    ensures !Passes(req[RadiusKey := v], m)
  {
    assert Input(req[RadiusKey := v], RadiusKey) == v;
  }

  /**
   * The verdict on a radius is the verdict on the number it reads as: its
   * text, or `true` for 1, passes or fails exactly as the integer does.
   */
  lemma RadiusReadAsInteger(req: Request, m: Masters, r: int)
    ensures Passes(req[RadiusKey := Str(IntToString(r))], m) <==> Passes(req[RadiusKey := Int(r)], m)
    ensures Passes(req[RadiusKey := Bool(true)], m) <==> Passes(req[RadiusKey := Int(1)], m)
  {
    RadiusTextAsNumber(r);
    SameRadiusVerdict(req, m, Str(IntToString(r)), Int(r));
    assert RadiusOk(Bool(true)) && RadiusOk(Int(1));
    SameRadiusVerdict(req, m, Bool(true), Int(1));
  }

  /** The radius rule gives an integer's text the verdict it gives the integer. */
  lemma RadiusTextAsNumber(r: int)
    ensures RadiusOk(Str(IntToString(r))) <==> RadiusOk(Int(r))
  {
    RenderedNumber(r);
    assert !BlankText(Str(IntToString(r)));
  }

  /** Two radius values with the same verdict under `RadiusOk` give the whole request the same verdict. */
  lemma SameRadiusVerdict(req: Request, m: Masters, a: Value, b: Value)
    requires RadiusOk(a) <==> RadiusOk(b)
    ensures Passes(req[RadiusKey := a], m) <==> Passes(req[RadiusKey := b], m)
  {
    IdRulesIgnoreRadius(req, m, a);
    IdRulesIgnoreRadius(req, m, b);
  }

  /** The id rules do not read the radius. */
  lemma IdRulesIgnoreRadius(req: Request, m: Masters, v: Value)
    ensures IdRulesPass(req[RadiusKey := v], m) <==> IdRulesPass(req - {RadiusKey}, m)
  {
    var r, d := req[RadiusKey := v], req - {RadiusKey};
    assert Input(r, BudgetKey) == Input(d, BudgetKey);
    assert Input(r, TypesKey) == Input(d, TypesKey) && Input(r, BhkKey) == Input(d, BhkKey);
    assert Input(r, TimelinesKey) == Input(d, TimelinesKey);
    assert Input(r, NearbyKey) == Input(d, NearbyKey) && Input(r, LocalitiesKey) == Input(d, LocalitiesKey);
  }
}
