/**
 * The builder dashboard: four metrics (own projects, leads on own projects,
 * and two fixed placeholders) and the five newest own projects with the
 * number of leads on each.
 */
module BuilderDashboard {
  import opened Schema
  import opened Ordering
  import ProjectModel
  import BuilderProjectList

  /** `limit(5)` of the recent-projects table. */
  const RecentLimit: nat := 5

  /** The projects `me` owns. */
  function OwnProjectSet(projects: map<Id, Project>, me: Id): set<Id> {
    set k | k in projects && projects[k].userId == me
  }

  /** The leads on projects `me` owns (`whereHas('project', user_id = me)`). */
  function OwnLeads(leads: map<Id, Lead>, projects: map<Id, Project>, me: Id): set<Id> {
    set k | k in leads && leads[k].projectId in projects && projects[leads[k].projectId].userId == me
  }

  /** The leads on project `pid`. */
  function LeadsOf(leads: map<Id, Lead>, pid: Id): set<Id> {
    set k | k in leads && leads[k].projectId == pid
  }

  /** `withCount('leads')` of one project. */
  function LeadCount(leads: map<Id, Lead>, pid: Id): nat {
    |LeadsOf(leads, pid)|
  }

  /** The metric cards. */
  datatype Metrics = Metrics(totalProjects: nat, totalLeads: nat, pendingLeads: string, conversionRate: string)

  /** What `query` returns: the metrics, the recent projects, and the lead count of each recent project. */
  datatype Dashboard = Dashboard(metrics: Metrics, recent: seq<Id>, counts: seq<nat>)

  /** The lead count of each project of `ps`, in order. */
  function Counts(leads: map<Id, Lead>, ps: seq<Id>): (r: seq<nat>)
    ensures |r| == |ps|
    ensures forall i :: 0 <= i < |ps| ==> r[i] == LeadCount(leads, ps[i])
  {
    seq(|ps|, i requires 0 <= i < |ps| => LeadCount(leads, ps[i]))
  }

  /** The five newest own projects (fewer when there are fewer). */
  function Recent(projects: map<Id, Project>, bound: nat, me: Id): seq<Id> {
    var own := BuilderProjectList.OwnProjects(projects, bound, me);
    own[..Min(RecentLimit, |own|)]
  }

  /** `query`. */
  function Query(projects: map<Id, Project>, leads: map<Id, Lead>, bound: nat, me: Id): Dashboard {
    var recent := Recent(projects, bound, me);
    Dashboard(Metrics(|OwnProjectSet(projects, me)|, |OwnLeads(leads, projects, me)|, "0", "0%"),
              recent, Counts(leads, recent))
  }

  function Sum(xs: seq<nat>): nat {
    if xs == [] then 0 else xs[0] + Sum(xs[1..])
  }

  /** No value occurs twice. */
  ghost predicate Distinct(s: seq<nat>) {
    forall k :: multiset(s)[k] <= 1
  }

  /** The leads on any project of `ps`. */
  function LeadsOfAll(leads: map<Id, Lead>, ps: seq<Id>): (r: set<Id>)
    ensures forall k :: k in r <==> k in leads && leads[k].projectId in ps
  {
    if ps == [] then {}
    else
      assert ps == [ps[0]] + ps[1..];
      LeadsOf(leads, ps[0]) + LeadsOfAll(leads, ps[1..])
  }

  /** Dropping the head of a distinct sequence leaves a distinct sequence without the head. */
  lemma DistinctTail(s: seq<nat>)
    requires Distinct(s) && s != []
    ensures Distinct(s[1..]) && s[0] !in s[1..]
  {
    var t := s[1..];
    assert s == [s[0]] + t;
    assert multiset(s) == multiset{s[0]} + multiset(t);
    forall k ensures multiset(t)[k] <= 1 {
      assert multiset(s)[k] == multiset{s[0]}[k] + multiset(t)[k];
    }
    assert multiset(s)[s[0]] == 1 + multiset(t)[s[0]];
  }

  /** A prefix of a distinct sequence is distinct. */
  lemma DistinctPrefix(s: seq<nat>, n: nat)
    requires Distinct(s) && n <= |s|
    ensures Distinct(s[..n])
  {
    assert s == s[..n] + s[n..];
    assert multiset(s) == multiset(s[..n]) + multiset(s[n..]);
    forall k ensures multiset(s[..n])[k] <= 1 {
      assert multiset(s)[k] == multiset(s[..n])[k] + multiset(s[n..])[k];
    }
  }

  /** A subset has no more elements than its superset. */
  lemma SubsetCount(a: set<Id>, b: set<Id>)
    requires a <= b
    ensures |a| <= |b|
  {
    assert b == a + (b - a);
  }

  /** The values of a sequence. */
  function Elements(s: seq<nat>): (r: set<nat>)
    ensures forall x :: x in r <==> x in s
  {
    set x | x in s
  }

  /** A distinct sequence has as many elements as values. */
  lemma {:induction false} DistinctCount(s: seq<nat>)
    requires Distinct(s)
    ensures |Elements(s)| == |s|
  {
    if s == [] {
      assert Elements(s) == {};
    } else {
      DistinctTail(s);
      DistinctCount(s[1..]);
      assert s[0] !in Elements(s[1..]);
      assert Elements(s) == {s[0]} + Elements(s[1..]);
    }
  }

  /** Over distinct projects, the lead counts add up to the number of leads on them: each lead is on one project. */
  lemma {:induction false} CountsAddUp(leads: map<Id, Lead>, ps: seq<Id>)
    requires Distinct(ps)
    ensures Sum(Counts(leads, ps)) == |LeadsOfAll(leads, ps)|
  {
    if ps != [] {
      DistinctTail(ps);
      CountsAddUp(leads, ps[1..]);
      assert Counts(leads, ps) == [LeadCount(leads, ps[0])] + Counts(leads, ps[1..]);
      assert LeadsOf(leads, ps[0]) !! LeadsOfAll(leads, ps[1..]);
      assert LeadsOfAll(leads, ps) == LeadsOf(leads, ps[0]) + LeadsOfAll(leads, ps[1..]);
    }
  }

  /**
   * Total Projects counts the own projects, and the recent table shows five
   * of them, or all when there are fewer (every project key lies below
   * `bound`, as the database keeps it).
   */
  lemma TotalProjectsCountsOwn(projects: map<Id, Project>, leads: map<Id, Lead>, bound: nat, me: Id)
    requires forall k :: k in projects ==> k < bound
    ensures Query(projects, leads, bound, me).metrics.totalProjects == |BuilderProjectList.OwnProjects(projects, bound, me)|
    ensures |Query(projects, leads, bound, me).recent| == Min(RecentLimit, Query(projects, leads, bound, me).metrics.totalProjects)
  {
    var own := BuilderProjectList.OwnProjects(projects, bound, me);
    assert Elements(own) == OwnProjectSet(projects, me);
    DistinctCount(own);
  }

  /**
   * The recent projects are own projects, newest first, and none of the own
   * projects left out is newer than any shown.
   */
  lemma RecentAreNewestOwn(projects: map<Id, Project>, leads: map<Id, Lead>, bound: nat, me: Id, y: Id)
    requires y in projects && y < bound && projects[y].userId == me
    ensures forall x :: x in Query(projects, leads, bound, me).recent ==> x in projects && projects[x].userId == me
    ensures y !in Query(projects, leads, bound, me).recent ==>
      forall x :: x in Query(projects, leads, bound, me).recent ==> projects[x].createdAt >= projects[y].createdAt
  {
    var own := BuilderProjectList.OwnProjects(projects, bound, me);
    var recent := Recent(projects, bound, me);
    assert Query(projects, leads, bound, me).recent == recent;
    RecentAreOwn(projects, bound, me);
    if y !in recent {
      var j :| 0 <= j < |own| && own[j] == y;
      forall x | x in recent ensures projects[x].createdAt >= projects[y].createdAt {
        var i :| 0 <= i < |recent| && recent[i] == x;
        OwnOrder(projects, bound, me, i, j);
      }
    }
  }

  /** Among the own projects, one listed earlier was created no earlier. */
  lemma OwnOrder(projects: map<Id, Project>, bound: nat, me: Id, i: nat, j: nat)
    requires i < j < |BuilderProjectList.OwnProjects(projects, bound, me)|
    ensures BuilderProjectList.OwnProjects(projects, bound, me)[i] in projects
    ensures BuilderProjectList.OwnProjects(projects, bound, me)[j] in projects
    ensures projects[BuilderProjectList.OwnProjects(projects, bound, me)[i]].createdAt
         >= projects[BuilderProjectList.OwnProjects(projects, bound, me)[j]].createdAt
  {
    var own := BuilderProjectList.OwnProjects(projects, bound, me);
    var key := Latest(projects, (p: Project) => p.createdAt);
    assert own[i] in own && own[j] in own;
    assert LexLe(key(own[i]), key(own[j]));
    SingleKeyOrder(-projects[own[i]].createdAt, -projects[own[j]].createdAt);
  }

  /**
   * Total Leads is the sum of the lead counts of all own projects (every
   * project key lies below `bound`).
   */
  lemma TotalLeadsAddsUp(projects: map<Id, Project>, leads: map<Id, Lead>, bound: nat, me: Id)
    requires forall k :: k in projects ==> k < bound
    ensures Sum(Counts(leads, BuilderProjectList.OwnProjects(projects, bound, me)))
         == Query(projects, leads, bound, me).metrics.totalLeads
  {
    var own := BuilderProjectList.OwnProjects(projects, bound, me);
    CountsAddUp(leads, own);
    assert LeadsOfAll(leads, own) == OwnLeads(leads, projects, me);
  }

  /** The recent projects are distinct own projects. */
  lemma RecentAreOwn(projects: map<Id, Project>, bound: nat, me: Id)
    ensures Distinct(Recent(projects, bound, me))
    ensures forall x :: x in Recent(projects, bound, me) ==> x in projects && projects[x].userId == me
  {
    var own := BuilderProjectList.OwnProjects(projects, bound, me);
    DistinctPrefix(own, Min(RecentLimit, |own|));
    assert forall x :: x in Recent(projects, bound, me) ==> x in own;
  }

  /** The lead counts of the recent table add up to at most Total Leads. */
  lemma RecentCountsBounded(projects: map<Id, Project>, leads: map<Id, Lead>, bound: nat, me: Id)
    ensures Sum(Query(projects, leads, bound, me).counts) <= Query(projects, leads, bound, me).metrics.totalLeads
  {
    var recent := Recent(projects, bound, me);
    RecentAreOwn(projects, bound, me);
    CountsAddUp(leads, recent);
    SubsetCount(LeadsOfAll(leads, recent), OwnLeads(leads, projects, me));
  }

  /** The two placeholder metrics read '0' and '0%' whatever the data. */
  lemma PlaceholdersFixed(projects: map<Id, Project>, leads: map<Id, Lead>, bound: nat, me: Id,
                          projects': map<Id, Project>, leads': map<Id, Lead>, bound': nat, me': Id)
    ensures Query(projects, leads, bound, me).metrics.pendingLeads == Query(projects', leads', bound', me').metrics.pendingLeads == "0"
    ensures Query(projects, leads, bound, me).metrics.conversionRate == Query(projects', leads', bound', me').metrics.conversionRate == "0%"
  {
  }

  /** The status cell's colour class. */
  function StatusColor(status: string): string {
    match status
    case "approved" => "text-success"
    case "pending" => "text-warning"
    case "rejected" => "text-danger"
    case _ => "text-muted"
  }

  /**
   * Only 'approved', 'pending' and 'rejected' get a colour; a project's
   * actual statuses ('Ongoing', 'Completed', 'Upcoming') all render muted.
   */
  lemma StatusColorMuted(status: string)
    ensures StatusColor(status) == "text-muted" <==> status !in {"approved", "pending", "rejected"}
    ensures status in ProjectModel.Statuses ==> StatusColor(status) == "text-muted"
  {
  }
}
