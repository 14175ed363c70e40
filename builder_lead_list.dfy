/**
 * The builder's lead inbox: the leads on the signed-in builder's projects,
 * newest first, ten per page, narrowed to one project when a truthy
 * `project_id` is given; the filter form that redirects with that
 * `project_id`; the lead details modal and its "Mark as Contacted" action.
 */
module BuilderLeadList {
  import opened Wrappers
  import opened Text
  import opened Schema
  import opened Validation
  import opened Ordering
  import opened Responses

  const ProjectKey := "project_id"
  const LeadKey := "lead_id"

  /** The status `markAsContacted` writes. */
  const Contacted := "Contacted"

  /** PHP truthiness of an input value: null, false, 0, "", "0" and the empty array are falsy. */
  predicate Truthy(v: Value) {
    match v
    case Null => false
    case Bool(b) => b
    case Int(n) => n != 0
    case Str(s) => s != "" && s != "0"
    case List(items) => items != []
    case File(_) => true
  }

  /** What `query` filters by: every own project, or the one a truthy `project_id` names (None when it names no row). */
  datatype LeadFilter = AnyProject | OneProject(project: Option<Id>)

  /** The scalars of a value in order, nested lists flattened as `Arr::flatten` does. */
  function Leaves(v: Value): (r: seq<Value>)
    ensures forall i :: 0 <= i < |r| ==> !r[i].List?
    ensures !v.List? ==> r == [v]
    decreases v, 1
  {
    match v
    case List(items) => LeavesOf(items)
    case _ => [v]
  }

  /** The scalars of a list of values, in order. */
  function LeavesOf(items: seq<Value>): (r: seq<Value>)
    ensures forall i :: 0 <= i < |r| ==> !r[i].List?
    decreases items, 0
  {
    if items == [] then [] else Leaves(items[0]) + LeavesOf(items[1..])
  }

  /**
   * The project a filter value names. `where('project_id', $v)` binds a
   * scalar as it is and a list as the first scalar it flattens to; a list
   * that flattens to nothing binds `false`, which names no row.
   */
  function FilterKey(v: Value): (k: Option<Id>)
    ensures !v.List? ==> k == KeyOf(v)
  {
    var leaves := Leaves(v);
    if leaves == [] then None else KeyOf(leaves[0])
  }

  function FilterOf(req: Request): (f: LeadFilter)
    ensures f.AnyProject? <==> !Truthy(Input(req, ProjectKey))
    ensures f.OneProject? ==> f.project == FilterKey(Input(req, ProjectKey))
  {
    var v := Input(req, ProjectKey);
    if Truthy(v) then OneProject(FilterKey(v)) else AnyProject
  }

  /**
   * `?project_id[]=5` filters as `?project_id=5` does: a list whose first
   * element is a truthy scalar filters by that element, whatever follows.
   */
  lemma ListFilterUsesFirst(req: Request, first: Value, rest: seq<Value>)
    requires Input(req, ProjectKey) == List([first] + rest)
    requires !first.List? && Truthy(first)
    ensures FilterOf(req) == FilterOf(req[ProjectKey := first])
    ensures FilterOf(req) == OneProject(KeyOf(first))
  {
    var items := [first] + rest;
    assert items[0] == first && items[1..] == rest;
    assert Leaves(List(items)) == [first] + LeavesOf(rest);
  }

  /** A list whose first element is falsy, such as `["0", 5]`, still narrows the inbox, to the row it names. */
  lemma FalsyFirstStillFilters(req: Request, rest: seq<Value>)
    requires Input(req, ProjectKey) == List([Str("0")] + rest)
    ensures FilterOf(req) == OneProject(Some(0))
    ensures FilterOf(req[ProjectKey := Str("0")]) == AnyProject
  {
    var items := [Str("0")] + rest;
    assert items[0] == Str("0") && items[1..] == rest;
    assert Leaves(List(items)) == [Str("0")] + LeavesOf(rest);
    assert DigitString("0") && ParseNat("0") == 0;
  }

  /** Lead `k` is in the inbox of `me` under filter `f`: its project exists, is owned by `me`, and passes the filter. */
  predicate Shown(leads: map<Id, Lead>, projects: map<Id, Project>, me: Id, f: LeadFilter, k: nat) {
    && k in leads && leads[k].projectId in projects && projects[leads[k].projectId].userId == me
    && (f.OneProject? ==> f.project == Some(leads[k].projectId))
  }

  /** Every lead below `bound` shown under `f`, newest first. */
  function Inbox(leads: map<Id, Lead>, projects: map<Id, Project>, bound: nat, me: Id, f: LeadFilter): (r: seq<Id>)
    ensures forall k: nat :: k in r <==> k < bound && Shown(leads, projects, me, f, k)
    ensures SortedBy(r, Latest(leads, (l: Lead) => l.createdAt))
  {
    Select(leads, bound, (k: nat) => Shown(leads, projects, me, f, k), Latest(leads, (l: Lead) => l.createdAt))
  }

  /** `query`: page `page` of the inbox under the request's filter. */
  function Listing(leads: map<Id, Lead>, projects: map<Id, Project>, bound: nat, me: Id, req: Request, page: int): seq<Id> {
    Page(Inbox(leads, projects, bound, me, FilterOf(req)), page)
  }

  /**
   * A page holds at most ten leads, each on a project `me` owns, and, under
   * a truthy `project_id`, each on the project it names.
   */
  lemma ListingIsOwn(leads: map<Id, Lead>, projects: map<Id, Project>, bound: nat, me: Id, req: Request, page: int)
    ensures |Listing(leads, projects, bound, me, req, page)| <= 10
    ensures forall k :: k in Listing(leads, projects, bound, me, req, page) ==>
      k in leads && leads[k].projectId in projects && projects[leads[k].projectId].userId == me
    ensures Truthy(Input(req, ProjectKey)) ==> forall k :: k in Listing(leads, projects, bound, me, req, page) ==>
      FilterKey(Input(req, ProjectKey)) == Some(leads[k].projectId)
  {
  }

  /** Within a page, a lead listed earlier arrived no earlier than one listed later. */
  lemma ListingNewestFirst(leads: map<Id, Lead>, projects: map<Id, Project>, bound: nat, me: Id, req: Request, page: int, i: nat, j: nat)
    requires i < j < |Listing(leads, projects, bound, me, req, page)|
    ensures Listing(leads, projects, bound, me, req, page)[i] in leads
    ensures Listing(leads, projects, bound, me, req, page)[j] in leads
    ensures leads[Listing(leads, projects, bound, me, req, page)[i]].createdAt
         >= leads[Listing(leads, projects, bound, me, req, page)[j]].createdAt
  {
    LatestPageOrder(leads, (l: Lead) => l.createdAt, Inbox(leads, projects, bound, me, FilterOf(req)), page, i, j);
  }

  /**
   * A filtered inbox is the part of the unfiltered one on the named project:
   * the filter narrows and never shows a lead the inbox would not.
   */
  lemma FilterNarrows(leads: map<Id, Lead>, projects: map<Id, Project>, bound: nat, me: Id, pid: Id)
    ensures forall k: nat :: k in Inbox(leads, projects, bound, me, OneProject(Some(pid))) <==>
      k in Inbox(leads, projects, bound, me, AnyProject) && leads[k].projectId == pid
  {
  }

  /** A filter naming a project `me` does not own, or naming no row, shows nothing. */
  lemma ForeignFilterShowsNothing(leads: map<Id, Lead>, projects: map<Id, Project>, bound: nat, me: Id, req: Request)
    requires Truthy(Input(req, ProjectKey))
    requires FilterKey(Input(req, ProjectKey)).None? || FilterKey(Input(req, ProjectKey)).value !in projects
          || projects[FilterKey(Input(req, ProjectKey)).value].userId != me
    ensures forall k :: k !in Inbox(leads, projects, bound, me, FilterOf(req))
  {
  }

  /**
   * How a value travels in the redirect's query string (`http_build_query`):
   * null and an empty list are dropped, a boolean becomes "1" or "0", an
   * integer its decimal text; strings, other lists and files are carried as
   * they are.
   */
  function QueryValue(v: Value): Option<Value> {
    match v
    case Null => None
    case List(items) => if items == [] then None else Some(v)
    case Bool(b) => Some(Str(if b then "1" else "0"))
    case Int(n) => Some(Str(IntToString(n)))
    case _ => Some(v)
  }

  /** `filter`: the request the redirect to the inbox carries. */
  function FilterRedirect(req: Request): (r: Request)
    ensures r.Keys <= {ProjectKey}
  {
    match QueryValue(Input(req, ProjectKey))
    case None => map[]
    case Some(v) => map[ProjectKey := v]
  }

  /** The decimal text of an integer is PHP-truthy exactly when the integer is not zero. */
  lemma IntTextTruthy(n: int)
    ensures Truthy(Str(IntToString(n))) <==> n != 0
  {
    if n < 0 {
      assert IntToString(n)[0] == '-';
    }
  }

  /** The decimal text of an integer names the same row as the integer. */
  lemma IntTextKey(n: int)
    ensures KeyOf(Str(IntToString(n))) == KeyOf(Int(n))
  {
    if n >= 0 {
      KeyOfRenderedKey(n);
    } else {
      assert !IsDigit(IntToString(n)[0]);
    }
  }

  /**
   * The redirect keeps the filter: the inbox it lands on filters exactly as
   * the submitted form asked (a boolean, which no form submits, aside).
   */
  lemma RedirectKeepsFilter(req: Request)
    requires !Input(req, ProjectKey).Bool?
    ensures FilterOf(FilterRedirect(req)) == FilterOf(req)
  {
    var v := Input(req, ProjectKey);
    if v.Int? {
      IntTextTruthy(v.n);
      IntTextKey(v.n);
    }
  }

  /** `asyncGetLead`: the lead `lead_id` names, whoever's it is, or 404. */
  function GetLead(leads: map<Id, Lead>, req: Request): Option<Lead> {
    match KeyOf(Input(req, LeadKey))
    case None => None
    case Some(k) => if k in leads then Some(leads[k]) else None
  }

  /** Lead `k` marked as contacted. */
  function Marked(leads: map<Id, Lead>, k: Id): (r: map<Id, Lead>)
    requires k in leads
    ensures r.Keys == leads.Keys
  {
    leads[k := leads[k].(status := Contacted)]
  }

  /** Marking sets the status to 'Contacted' from any status, changes nothing else, and a second mark changes nothing. */
  lemma MarkedChangesOnlyStatus(leads: map<Id, Lead>, k: Id)
    requires k in leads
    ensures Marked(leads, k)[k].status == "Contacted"
    ensures Marked(leads, k)[k].(status := leads[k].status) == leads[k]
    ensures forall j :: j in leads && j != k ==> Marked(leads, k)[j] == leads[j]
    ensures Marked(Marked(leads, k), k) == Marked(leads, k)
  {
  }

  /** `markAsContacted`: 404 and no change when `lead_id` names no lead, else the lead is marked, whoever's it is. */
  method MarkAsContacted(db: Database, req: Request) returns (outcome: Outcome)
    requires db.Valid()
    modifies db`leads
    ensures db.Valid()
    ensures outcome == Done || outcome == NotFound
    ensures outcome == NotFound <==> GetLead(old(db.leads), req).None?
    ensures outcome == NotFound ==> db.leads == old(db.leads)
    ensures outcome == Done ==> db.leads == Marked(old(db.leads), KeyOf(Input(req, LeadKey)).value)
  {
    var key := KeyOf(Input(req, LeadKey));
    if key.None? || key.value !in db.leads {
      return NotFound;
    }
    UpdateLead(db, key.value, db.leads[key.value].(status := Contacted));
    outcome := Done;
  }

  /**
   * As written, a builder can read and mark a lead that the inbox would never
   * show them: any lead on another builder's project.
   */
  lemma ForeignLeadMarked(leads: map<Id, Lead>, projects: map<Id, Project>, bound: nat, me: Id, k: Id)
    requires k in leads && leads[k].projectId in projects && projects[leads[k].projectId].userId != me
    ensures k !in Inbox(leads, projects, bound, me, AnyProject)
    ensures GetLead(leads, map[LeadKey := Int(k)]) == Some(leads[k])
    ensures Marked(leads, k)[k].status == "Contacted"
  {
  }

  /** The check the inbox applies, as the two modal actions evidently intend: 404, or 403 for another builder's lead. */
  function LeadGuard(leads: map<Id, Lead>, projects: map<Id, Project>, req: Request, me: Id): (g: Outcome)
    ensures g == NotFound <==> GetLead(leads, req).None?
    ensures g == Done <==> GetLead(leads, req).Some? && Shown(leads, projects, me, AnyProject, KeyOf(Input(req, LeadKey)).value)
    ensures g == Done || g == NotFound || g == Forbidden
  {
    match KeyOf(Input(req, LeadKey))
    case None => NotFound
    case Some(k) =>
      if k !in leads then NotFound
      else if Shown(leads, projects, me, AnyProject, k) then Done
      else Forbidden
  }

  /** `asyncGetLead` with the owner check: only a lead the inbox of `me` can show. */
  function GetOwnLead(leads: map<Id, Lead>, projects: map<Id, Project>, req: Request, me: Id): (r: Option<Lead>)
    ensures r.Some? <==> LeadGuard(leads, projects, req, me) == Done
    ensures r.Some? ==> r == GetLead(leads, req)
    ensures r.Some? ==> r.value.projectId in projects && projects[r.value.projectId].userId == me
  {
    if LeadGuard(leads, projects, req, me) == Done then GetLead(leads, req) else None
  }

  /** `markAsContacted` with the owner check: another builder's lead is refused and left as it was. */
  method MarkOwnLeadAsContacted(db: Database, req: Request, me: Id) returns (outcome: Outcome)
    requires db.Valid()
    modifies db`leads
    ensures db.Valid()
    ensures outcome == LeadGuard(old(db.leads), db.projects, req, me)
    ensures outcome != Done ==> db.leads == old(db.leads)
    ensures outcome == Done ==> db.leads == Marked(old(db.leads), KeyOf(Input(req, LeadKey)).value)
    ensures forall k :: k in old(db.leads) && !Shown(old(db.leads), db.projects, me, AnyProject, k) ==> db.leads[k] == old(db.leads)[k]
  {
    outcome := LeadGuard(db.leads, db.projects, req, me);
    if outcome != Done {
      return;
    }
    var k := KeyOf(Input(req, LeadKey)).value;
    UpdateLead(db, k, db.leads[k].(status := Contacted));
  }
}
