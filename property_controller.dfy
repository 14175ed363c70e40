/**
 * The public listing endpoints. `index` detects the visitor's city only when
 * the request has neither a `search` nor a `location` key, hands it to the
 * search and echoes it back; any exception gives 500. `show` gives 404 for any
 * exception, a missing unit included.
 */
module PropertyController {
  import opened Wrappers
  import opened Schema
  import opened Validation
  import LocationService
  import opened Ordering
  import opened PropertyService

  const LocationKey := "location"

  /** What reaches the client from `index`: the status, `meta.detected_location` and the page. */
  datatype IndexResponse = IndexResponse(status: nat, detected: Option<string>, data: Option<Paged>)

  /** The city `index` detects: none unless both keys are absent. */
  function Detected(req: Request, forwarded: Option<string>, remote: string,
                    lookup: string -> Option<LocationService.Position>): Option<string>
  {
    if SearchKey !in req && LocationKey !in req then LocationService.DetectCity(forwarded, remote, lookup) else None
  }

  /** `index`: the listing with the detected city, 200; or 500 when the search raises. */
  function Index(m: map<Id, Property>, bound: nat, req: Request, forwarded: Option<string>, remote: string,
                 lookup: string -> Option<LocationService.Position>, page: int): (r: IndexResponse)
    ensures r.status == 200 || r.status == 500
    ensures r.status == 500 <==> SearchKey in req && AsText(req[SearchKey]).None?
    ensures r.status == 500 ==> r.detected.None? && r.data.None?
  {
    var city := Detected(req, forwarded, remote, lookup);
    match ListProperties(m, bound, req, city, page)
    case None => IndexResponse(500, None, None)
    case Some(listing) => IndexResponse(200, city, Some(listing))
  }

  /** With a `search` or a `location` key, the geolocation lookup is never consulted. */
  lemma KeysSkipDetection(m: map<Id, Property>, bound: nat, req: Request, forwarded: Option<string>, remote: string,
                          lookup1: string -> Option<LocationService.Position>,
                          lookup2: string -> Option<LocationService.Position>, page: int)
    requires SearchKey in req || LocationKey in req
    ensures Index(m, bound, req, forwarded, remote, lookup1, page) == Index(m, bound, req, forwarded, remote, lookup2, page)
    ensures Index(m, bound, req, forwarded, remote, lookup1, page).detected.None?
  {
  }

  /** Otherwise the detected city is both what the search filters by and what `meta.detected_location` echoes. */
  lemma DetectedCityUsedAndEchoed(m: map<Id, Property>, bound: nat, req: Request, forwarded: Option<string>,
                                  remote: string, lookup: string -> Option<LocationService.Position>, page: int)
    requires SearchKey !in req && LocationKey !in req
    ensures var city := LocationService.DetectCity(forwarded, remote, lookup);
      Index(m, bound, req, forwarded, remote, lookup, page) ==
        IndexResponse(200, city, ListProperties(m, bound, req, city, page))
  {
  }

  /** A `location` key alone turns detection off, and the search then filters nothing. */
  lemma LocationKeyAloneListsAll(m: map<Id, Property>, bound: nat, req: Request, forwarded: Option<string>,
                                 remote: string, lookup: string -> Option<LocationService.Position>, page: int)
    requires LocationKey in req && SearchKey !in req
    ensures var all := Matching(m, bound, Everything);
      Index(m, bound, req, forwarded, remote, lookup, page) == IndexResponse(200, None, Some(Paged(Page(all, page), |all|)))
  {
    NoCriterionKeepsAll(m, bound, req, None, page);
  }

  /** What reaches the client from `show`. */
  datatype ShowResponse = ShowResponse(status: nat, data: Option<Property>)

  /** `show`: the unit with 200, or 404 for an id that is not a key. */
  function Show(m: map<Id, Property>, id: int): (r: ShowResponse)
    ensures r.status == 200 || r.status == 404
    ensures r.status == 404 <==> !(id >= 0 && id as nat in m)
    ensures r.status == 200 ==> r.data == Some(m[id as nat])
  {
    match GetPropertyDetails(m, id)
    case None => ShowResponse(404, None)
    case Some(p) => ShowResponse(200, Some(p))
  }

  // ---------------------------------------------------------------- as written

  /** `index` as written: 500 for a search that raises and for every page that holds a unit. */
  function IndexAsWritten(m: map<Id, Property>, bound: nat, req: Request, forwarded: Option<string>, remote: string,
                          lookup: string -> Option<LocationService.Position>, page: int): (r: IndexResponse)
    ensures r.status == 200 || r.status == 500
    ensures r.status == 200 <==>
      (Index(m, bound, req, forwarded, remote, lookup, page).status == 200
       && Index(m, bound, req, forwarded, remote, lookup, page).data.value.rows == [])
    ensures r.status == 200 ==> r == Index(m, bound, req, forwarded, remote, lookup, page)
  {
    var city := Detected(req, forwarded, remote, lookup);
    match ListPropertiesAsWritten(m, bound, req, city, page)
    case None => IndexResponse(500, None, None)
    case Some(listing) => IndexResponse(200, city, Some(listing))
  }

  /** `show` as written: the relation failure is caught like a missing row, so every id answers 404. */
  function ShowAsWritten(m: map<Id, Property>, id: int): (r: ShowResponse)
    ensures r == ShowResponse(404, None)
  {
    var found := GetPropertyDetailsAsWritten(m, id);
    ShowResponse(if found.Some? then 200 else 404, found)
  }

  /**
   * The discrepancy: for a unit that exists, `show` with the relations
   * declared answers 200 with the unit, while as written it answers 404; and
   * the first page of an unfiltered listing (a `location` key and no
   * `search`) holds that unit, so as written it answers 500.
   */
  lemma AsWrittenHidesUnits(m: map<Id, Property>, bound: nat, req: Request, forwarded: Option<string>, remote: string,
                            lookup: string -> Option<LocationService.Position>, id: Id)
    requires id in m && id < bound && SearchKey !in req && LocationKey in req
    ensures Show(m, id) == ShowResponse(200, Some(m[id])) && ShowAsWritten(m, id).status == 404
    ensures Index(m, bound, req, forwarded, remote, lookup, 1).status == 200
    ensures IndexAsWritten(m, bound, req, forwarded, remote, lookup, 1).status == 500
  {
    LocationKeyAloneListsAll(m, bound, req, forwarded, remote, lookup, 1);
    var all := Matching(m, bound, Everything);
    assert id in all;
    assert Page(all, 1) == all[..Min(PageSize, |all|)];
    assert all[0] in Page(all, 1);
  }
}
