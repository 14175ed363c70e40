/**
 * The public unit search. `listProperties` applies at most one text filter:
 * the search term when the request carries a `search` key, else the detected
 * city when it is truthy, else none; the result is newest first, ten per page.
 */
module PropertyService {
  import opened Wrappers
  import opened Schema
  import opened Ordering
  import opened Text
  import opened Validation
  import PropertyModel

  const SearchKey := "search"

  /** The filter a listing applies. */
  datatype Criterion = Everything | Term(term: string) | City(city: string)

  /** PHP truthiness of a string: neither empty nor "0". */
  predicate Truthy(s: string) {
    s != "" && s != "0"
  }

  /**
   * The precedence rule: a `search` key wins whatever it holds (its text is
   * interpolated into the pattern, null giving the empty term), else a truthy
   * detected city, else no filter. A list or a file cannot be interpolated
   * (None: the query raises).
   */
  function CriterionOf(req: Request, autoCity: Option<string>): (c: Option<Criterion>)
    ensures SearchKey in req ==> c.None? || c.value.Term?
    ensures SearchKey !in req ==> c.Some? && !c.value.Term?
  {
    if SearchKey in req then
      match AsText(req[SearchKey])
      case None => None
      case Some(t) => Some(Term(t))
    else if autoCity.Some? && Truthy(autoCity.value) then Some(City(autoCity.value))
    else Some(Everything)
  }

  /** `LIKE '%t%'` on a column; a null column matches nothing. */
  predicate ColumnContains(column: Option<string>, t: string) {
    column.Some? && Contains(column.value, t)
  }

  /** The WHERE clause of a criterion. */
  predicate Matches(p: Property, c: Criterion) {
    match c
    case Everything => true
    case Term(t) => Contains(p.title, t) || ColumnContains(p.location, t)
    case City(city) => ColumnContains(p.location, city)
  }

  /** `latest()`: descending creation time. */
  function Newest(m: map<Id, Property>): Id -> Key {
    k => if k in m then [-m[k].createdAt] else []
  }

  /** Every unit that satisfies the criterion, newest first. */
  function Matching(m: map<Id, Property>, bound: nat, c: Criterion): (r: seq<Id>)
    ensures SortedBy(r, Newest(m))
    ensures forall k :: k in r <==> k in m && k < bound && Matches(m[k], c)
    ensures forall k :: multiset(r)[k] <= 1
  {
    Select(m, bound, k => k in m && Matches(m[k], c), Newest(m))
  }

  /** One page of a listing and the number of rows across all pages. */
  datatype Paged = Paged(rows: seq<Id>, total: nat)

  /** `listProperties`: page `page` of the matching units; None when the search value cannot be interpolated. */
  function ListProperties(m: map<Id, Property>, bound: nat, req: Request, autoCity: Option<string>, page: int): (r: Option<Paged>)
    ensures r.None? <==> SearchKey in req && AsText(req[SearchKey]).None?
    ensures r.Some? ==> |r.value.rows| <= PageSize && forall k :: k in r.value.rows ==> k in m && k < bound
  {
    match CriterionOf(req, autoCity)
    case None => None
    case Some(c) =>
      var all := Matching(m, bound, c);
      Some(Paged(Page(all, page), |all|))
  }

  /** With a `search` key, every listed unit has the term in its title or its location. */
  lemma SearchResultsContainTerm(m: map<Id, Property>, bound: nat, req: Request, autoCity: Option<string>, page: int)
    requires SearchKey in req && ListProperties(m, bound, req, autoCity, page).Some?
    ensures var t := AsText(req[SearchKey]).value;
      forall k :: k in ListProperties(m, bound, req, autoCity, page).value.rows ==>
        Contains(m[k].title, t) || ColumnContains(m[k].location, t)
  {
  }

  /** With a `search` key, the detected city plays no part, even when the term is empty. */
  lemma SearchIgnoresCity(m: map<Id, Property>, bound: nat, req: Request, city1: Option<string>, city2: Option<string>, page: int)
    requires SearchKey in req
    ensures ListProperties(m, bound, req, city1, page) == ListProperties(m, bound, req, city2, page)
  {
  }

  /** An empty or null search term matches every unit, as `LIKE '%%'` does. */
  lemma EmptySearchMatchesAll(m: map<Id, Property>, bound: nat, req: Request, autoCity: Option<string>)
    requires SearchKey in req && (req[SearchKey] == Null || req[SearchKey] == Str(""))
    ensures CriterionOf(req, autoCity) == Some(Term(""))
    ensures forall k :: k in m && k < bound ==> k in Matching(m, bound, Term(""))
  {
    forall k | k in m && k < bound ensures Matches(m[k], Term("")) {
      ContainsEmpty(m[k].title);
    }
  }

  /** Without a `search` key, a truthy city keeps exactly the units whose location contains it. */
  lemma CityFilters(m: map<Id, Property>, bound: nat, req: Request, city: string, page: int)
    requires SearchKey !in req && Truthy(city)
    ensures var r := ListProperties(m, bound, req, Some(city), page);
      && r == Some(Paged(Page(Matching(m, bound, City(city)), page), |Matching(m, bound, City(city))|))
      && forall k :: k in r.value.rows ==> ColumnContains(m[k].location, city)
  {
  }

  /** Without a `search` key and without a truthy city, nothing is filtered out. */
  lemma NoCriterionKeepsAll(m: map<Id, Property>, bound: nat, req: Request, autoCity: Option<string>, page: int)
    requires SearchKey !in req && !(autoCity.Some? && Truthy(autoCity.value))
    ensures ListProperties(m, bound, req, autoCity, page) ==
      Some(Paged(Page(Matching(m, bound, Everything), page), |Matching(m, bound, Everything)|))
    ensures forall k :: k in m && k < bound <==> k in Matching(m, bound, Everything)
  {
  }

  /** Every page lists the newer of any two of its units first. */
  lemma PagesNewestFirst(m: map<Id, Property>, bound: nat, req: Request, autoCity: Option<string>, page: int, i: nat, j: nat)
    requires ListProperties(m, bound, req, autoCity, page).Some?
    requires i < j < |ListProperties(m, bound, req, autoCity, page).value.rows|
    ensures var rows := ListProperties(m, bound, req, autoCity, page).value.rows;
      m[rows[i]].createdAt >= m[rows[j]].createdAt
  {
    var c := CriterionOf(req, autoCity).value;
    var all := Matching(m, bound, c);
    PageSorted(all, page, Newest(m));
    var rows := Page(all, page);
    assert rows[i] in rows && rows[j] in rows;
    SingleKeyOrder(-m[rows[i]].createdAt, -m[rows[j]].createdAt);
  }

  /** `getPropertyDetails`: `findOrFail`, None for an id that is not a key. */
  function GetPropertyDetails(m: map<Id, Property>, id: int): (r: Option<Property>)
    ensures r.Some? <==> id >= 0 && id as nat in m
    ensures r.Some? ==> r.value == m[id as nat]
  {
    if id >= 0 && id as nat in m then Some(m[id as nat]) else None
  }

  // ---------------------------------------------------------------- as written

  /**
   * `listProperties` as written: the eager load of `attachment` and
   * `filterOptions`, which `Property` does not declare, raises (None) once
   * the page holds a row.
   */
  function ListPropertiesAsWritten(m: map<Id, Property>, bound: nat, req: Request, autoCity: Option<string>, page: int): (r: Option<Paged>)
    ensures r.Some? <==> ListProperties(m, bound, req, autoCity, page).Some?
                         && ListProperties(m, bound, req, autoCity, page).value.rows == []
    ensures r.Some? ==> r == ListProperties(m, bound, req, autoCity, page)
  {
    match ListProperties(m, bound, req, autoCity, page)
    case None => None
    case Some(listing) =>
      PropertyModel.AsWrittenRelations(|listing.rows|);
      if PropertyModel.EagerLoads(PropertyModel.Declared, PropertyModel.EagerLoaded, |listing.rows|) then Some(listing) else None
  }

  /** `getPropertyDetails` as written: `findOrFail` loads the relations onto the one row it finds, so it raises for every id. */
  function GetPropertyDetailsAsWritten(m: map<Id, Property>, id: int): (r: Option<Property>)
    ensures r.None?
  {
    match GetPropertyDetails(m, id)
    case None => None
    case Some(p) =>
      PropertyModel.AsWrittenRelations(1);
      if PropertyModel.EagerLoads(PropertyModel.Declared, PropertyModel.EagerLoaded, 1) then Some(p) else None
  }
}
