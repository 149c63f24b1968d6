/** Window aggregates by project and by team: backend/internal/storage/queries/
    deployments.sql.go, incidents.sql.go and team_metrics.sql.go. Times are
    nanoseconds and results exact reals. Inner joins are joins of bags, so the
    project table, which the SQL names before the link tables, is joined last. */
module Aggregation {
  import opened Wrappers
  import opened Relational
  import opened Median

  datatype Project = Project(id: int, tenant: int, team: Option<int>, jiraKeys: set<string>)
  datatype Environment = Environment(id: int, isProduction: bool)
  datatype Deployment = Deployment(id: int, project: int, environment: int, status: string, finishedAt: Option<int>)
  datatype MergeRequest = MergeRequest(id: int, authorIsBot: bool, firstCommitAt: Option<int>)
  datatype Incident = Incident(id: int, tenant: int, jiraKey: string, createdAt: int, resolvedAt: Option<int>)
  datatype Link = Link(deployment: int, target: int)

  datatype Database = Database(
    projects: seq<Project>, environments: seq<Environment>, deployments: seq<Deployment>,
    mergeRequests: seq<MergeRequest>, incidents: seq<Incident>,
    mrLinks: seq<Link>, incidentLinks: seq<Link>)

  /** The primary keys the theorems need. */
  ghost predicate WellKeyed(db: Database) {
    && Keyed(db.projects, (p: Project) => p.id)
    && Keyed(db.environments, (e: Environment) => e.id)
    && Keyed(db.deployments, (d: Deployment) => d.id)
  }

  /** An aggregate COALESCEd to 0, beside its sample size. */
  datatype Stat = Stat(value: real, sampleSize: nat)

  function MeanOf(total: int, n: nat): Stat {
    Stat(if n == 0 then 0.0 else total as real / n as real, n)
  }

  /** What a value contributes when averaged with others of the same kind. */
  function Weight(s: Stat): real { s.value * s.sampleSize as real }

  lemma MeanTimesSize(total: int, n: nat)
    requires n == 0 ==> total == 0
    ensures Weight(MeanOf(total, n)) == total as real
  {}

  function RealSum<A>(xs: seq<A>, f: A -> real): real {
    if |xs| == 0 then 0.0 else RealSum(xs[..|xs| - 1], f) + f(xs[|xs| - 1])
  }

  lemma {:induction false} RealSumOfInts<A>(xs: seq<A>, f: A -> real, g: A -> int)
    requires forall i :: 0 <= i < |xs| ==> f(xs[i]) == g(xs[i]) as real
    ensures RealSum(xs, f) == SumOf(xs, g) as real
  {
    if |xs| != 0 {
      RealSumOfInts(xs[..|xs| - 1], f, g);
    }
  }

  // ---------- restricting rows to a project or to a team ----------

  /** The rows of one project. */
  function OfProject<A>(rows: seq<A>, project: A -> int, id: int): seq<A> {
    Where(rows, x => project(x) == id)
  }

  /** The rows of a team, each beside the project that puts it there. */
  function OfTeam<A>(rows: seq<A>, project: A -> int, projects: seq<Project>, team: int): seq<(A, Project)> {
    Join(rows, projects, (x: A, p: Project) => p.id == project(x) && p.team == Some(team))
  }

  function InTeam(team: int): Project -> bool { (p: Project) => p.team == Some(team) }

  function HasId(id: int): Project -> bool { (p: Project) => p.id == id }

  function TeamProjects(db: Database, team: int): seq<Project> {
    Where(db.projects, InTeam(team))
  }

  lemma OfProjectIff<A>(rows: seq<A>, project: A -> int, id: int)
    ensures |OfProject(rows, project, id)| > 0 <==> exists x :: x in rows && project(x) == id
  {
    WhereIff(rows, x => project(x) == id);
  }

  lemma OfProjectRows<A>(rows: seq<A>, project: A -> int, id: int)
    ensures forall x :: x in OfProject(rows, project, id) <==> x in rows && project(x) == id
    ensures NoTwice(rows) ==> NoTwice(OfProject(rows, project, id))
  {
    WhereMembers(rows, x => project(x) == id);
    if NoTwice(rows) {
      WhereNoTwice(rows, x => project(x) == id);
    }
  }

  lemma SharedByProject<A>(rows: seq<A>, project: A -> int, p: Project, team: int, f: A -> int)
    ensures SumOf(Where(rows, x => p.id == project(x) && p.team == Some(team)), f)
         == if p.team == Some(team) then SumOf(OfProject(rows, project, p.id), f) else 0
  {
    if p.team == Some(team) {
      WhereAgrees(rows, x => p.id == project(x) && p.team == Some(team), x => project(x) == p.id);
    } else {
      WhereNone(rows, x => p.id == project(x) && p.team == Some(team));
    }
  }

  /** Main result. Any sum over a team's rows is the sum, over its projects, of the
      same sum over the project's rows; no key is needed. */
  lemma TeamTotals<A>(rows: seq<A>, project: A -> int, db: Database, team: int, f: A -> int)
    ensures SumOf(OfTeam(rows, project, db.projects, team), OnLeft(f))
         == SumOf(TeamProjects(db, team), (p: Project) => SumOf(OfProject(rows, project, p.id), f))
  {
    hide Where, Join, SumOf;
    var on := (x: A, p: Project) => p.id == project(x) && p.team == Some(team);
    var ofTeam := InTeam(team);
    var each := (p: Project) => SumOf(OfProject(rows, project, p.id), f);
    JoinBySharing(rows, db.projects, on, f);
    forall i | 0 <= i < |db.projects|
      ensures Share(rows, on, f)(db.projects[i]) == Only(ofTeam, each)(db.projects[i])
    {
      var p := db.projects[i];
      SharedByProject(rows, project, p, team, f);
      ShareOf(rows, on, f, p, x => p.id == project(x) && p.team == Some(team));
    }
    SumOfAgrees(db.projects, Share(rows, on, f), Only(ofTeam, each));
    SumOfWhere(db.projects, ofTeam, each);
  }

  /** Sizes add up the same way. */
  lemma TeamSizes<A>(rows: seq<A>, project: A -> int, db: Database, team: int)
    ensures |OfTeam(rows, project, db.projects, team)|
         == SumOf(TeamProjects(db, team), (p: Project) => |OfProject(rows, project, p.id)|)
  {
    hide Where, Join, SumOf;
    var mine := OfTeam(rows, project, db.projects, team);
    TeamTotals(rows, project, db, team, One());
    CountOnes(mine, OnLeft(One()));
    var counted := (p: Project) => SumOf(OfProject(rows, project, p.id), One());
    var sized := (p: Project) => |OfProject(rows, project, p.id)|;
    forall i | 0 <= i < |TeamProjects(db, team)|
      ensures counted(TeamProjects(db, team)[i]) == sized(TeamProjects(db, team)[i])
    {
      CountIsSum(OfProject(rows, project, TeamProjects(db, team)[i].id));
    }
    SumOfAgrees(TeamProjects(db, team), counted, sized);
  }

  lemma CountOnes<A>(xs: seq<A>, one: A -> int)
    requires forall i :: 0 <= i < |xs| ==> one(xs[i]) == 1
    ensures SumOf(xs, one) == |xs|
  {
    CountIsSum(xs);
    SumOfAgrees(xs, one, One());
  }

  // ---------- deployment counts ----------

  type Delivery = (Deployment, Environment)

  function IdOf(x: Delivery): int { x.0.id }

  function ProjectOf(x: Delivery): int { x.0.project }

  predicate Delivered(d: Deployment, e: Environment, since: int) {
    && e.id == d.environment && e.isProduction
    && d.status == "success" && d.finishedAt.Some? && d.finishedAt.value >= since
  }

  /** Successful production deployments finished in the window. */
  function Deliveries(db: Database, since: int): (rows: seq<Delivery>)
    ensures forall x :: x in rows ==> Delivered(x.0, x.1, since)
  {
    Join(db.deployments, db.environments, (d: Deployment, e: Environment) => Delivered(d, e, since))
  }

  function ProjectDeliveries(db: Database, project: int, since: int): seq<Delivery> {
    OfProject(Deliveries(db, since), ProjectOf, project)
  }

  function TeamDeliveries(db: Database, team: int, since: int): seq<(Delivery, Project)> {
    OfTeam(Deliveries(db, since), ProjectOf, db.projects, team)
  }

  /** `CountSuccessfulProductionDeploymentsInWindow`. */
  function ProjectCount(db: Database, project: int, since: int): nat { |ProjectDeliveries(db, project, since)| }

  /** `CountSuccessfulProductionDeploymentsForTeamInWindow`. */
  function TeamCount(db: Database, team: int, since: int): nat { |TeamDeliveries(db, team, since)| }

  /** A team's deployment count is the sum over its projects, for any tables. */
  lemma TeamCountIsSum(db: Database, team: int, since: int)
    ensures TeamCount(db, team, since)
         == SumOf(TeamProjects(db, team), (p: Project) => ProjectCount(db, p.id, since))
  {
    hide Where, Join, SumOf;
    TeamSizes(Deliveries(db, since), ProjectOf, db, team);
    SumOfAgrees(TeamProjects(db, team),
                (p: Project) => |OfProject(Deliveries(db, since), ProjectOf, p.id)|,
                (p: Project) => ProjectCount(db, p.id, since));
  }

  // ---------- change failure rate ----------

  function Outer(row: (int, Option<Link>)): int { row.0 }

  /** One output row per matching link, or a single unmatched one. */
  function LinkRows(id: int, links: seq<Link>): (r: seq<(int, Option<Link>)>)
    ensures forall row :: row in r ==>
              row.0 == id && row.1.Some? && row.1.value in links && row.1.value.deployment == id
  {
    if |links| == 0 then []
    else
      var k := |links| - 1;
      LinkRows(id, links[..k]) + if links[k].deployment == id then [(id, Some(links[k]))] else []
  }

  /** Every deployment beside each of its incident links, or alone when it has none. */
  function LeftJoin(ids: seq<int>, links: seq<Link>): seq<(int, Option<Link>)> {
    if |ids| == 0 then [] else LeftJoin(ids[..|ids| - 1], links) + OuterRows(ids[|ids| - 1], links)
  }

  function OuterRows(id: int, links: seq<Link>): seq<(int, Option<Link>)> {
    var matched := LinkRows(id, links);
    if |matched| == 0 then [(id, None)] else matched
  }

  /** The links counted in the group of one deployment; a lone row counts for none. */
  function LinkedCount(rows: seq<(int, Option<Link>)>, id: int): nat {
    |Where(rows, (row: (int, Option<Link>)) => row.0 == id && row.1.Some?)|
  }

  /** The share of groups with a link, one group per deployment id. */
  function FailureRate(ids: seq<int>, links: seq<Link>): Stat {
    var rows := LeftJoin(ids, links);
    var groups := KeysOf(rows, Outer);
    MeanOf(|set id | id in groups && LinkedCount(rows, id) > 0|, |groups|)
  }

  function ValuesOf<A>(rows: seq<A>, id: A -> int): (r: seq<int>)
    ensures |r| == |rows| && forall i :: 0 <= i < |rows| ==> r[i] == id(rows[i])
  {
    seq(|rows|, i requires 0 <= i < |rows| => id(rows[i]))
  }

  /** `ChangeFailureRateInWindow`. */
  function ProjectFailureRate(db: Database, project: int, since: int): Stat {
    FailureRate(ValuesOf(ProjectDeliveries(db, project, since), IdOf), db.incidentLinks)
  }

  /** `ChangeFailureRateForTeamInWindow`. */
  function TeamFailureRate(db: Database, team: int, since: int): Stat {
    FailureRate(ValuesOf(TeamDeliveries(db, team, since), OnLeft(IdOf)), db.incidentLinks)
  }

  predicate HasLink(id: int, links: seq<Link>) {
    exists l :: l in links && l.deployment == id
  }

  lemma {:induction false} LinkRowsIff(id: int, links: seq<Link>)
    ensures |LinkRows(id, links)| > 0 <==> HasLink(id, links)
  {
    if |links| != 0 {
      var k := |links| - 1;
      LinkRowsIff(id, links[..k]);
      assert links[k] in links;
      assert forall l :: l in links ==> l in links[..k] || l == links[k];
    }
  }

  lemma OuterRowsAre(id: int, links: seq<Link>)
    ensures var rows := OuterRows(id, links);
      && |rows| > 0 && rows[0] in rows
      && (forall row :: row in rows ==> row.0 == id && (row.1.Some? <==> HasLink(id, links)))
  {
    LinkRowsIff(id, links);
    hide HasLink;
  }

  /** The groups are the ids joined, and a group is failed exactly when linked. */
  lemma {:induction false} LeftJoinRows(ids: seq<int>, links: seq<Link>, id: int)
    ensures (exists row :: row in LeftJoin(ids, links) && row.0 == id) <==> id in ids
    ensures (exists row :: row in LeftJoin(ids, links) && row.0 == id && row.1.Some?)
            <==> id in ids && HasLink(id, links)
  {
    if |ids| != 0 {
      hide HasLink, OuterRows;
      var k := |ids| - 1;
      LeftJoinRows(ids[..k], links, id);
      OuterRowsAre(ids[k], links);
      var before, added := LeftJoin(ids[..k], links), OuterRows(ids[k], links);
      assert LeftJoin(ids, links) == before + added;
      assert forall row :: row in before + added <==> row in before || row in added;
      assert id in ids <==> id in ids[..k] || id == ids[k];
    }
  }

  lemma GroupsAreIds(ids: seq<int>, links: seq<Link>)
    ensures KeysOf(LeftJoin(ids, links), Outer) == set id | id in ids
    ensures forall id :: LinkedCount(LeftJoin(ids, links), id) > 0 <==> id in ids && HasLink(id, links)
  {
    hide HasLink, LeftJoin, Where;
    var rows := LeftJoin(ids, links);
    forall id ensures id in KeysOf(rows, Outer) <==> id in ids {
      LeftJoinRows(ids, links, id);
      if id in ids {
        var row :| row in rows && row.0 == id;
        var i :| 0 <= i < |rows| && rows[i] == row;
        assert Outer(rows[i]) == id;
      }
      if id in KeysOf(rows, Outer) {
        var i :| 0 <= i < |rows| && Outer(rows[i]) == id;
        assert rows[i] in rows;
      }
    }
    forall id ensures LinkedCount(rows, id) > 0 <==> id in ids && HasLink(id, links) {
      LeftJoinRows(ids, links, id);
      WhereIff(rows, (row: (int, Option<Link>)) => row.0 == id && row.1.Some?);
    }
  }

  function Failed(links: seq<Link>): int -> int {
    (id: int) => if HasLink(id, links) then 1 else 0
  }

  predicate Distinct(ids: seq<int>) {
    forall i, j :: 0 <= i < j < |ids| ==> ids[i] != ids[j]
  }

  function FailedIds(ids: seq<int>, links: seq<Link>): set<int> { set id | id in ids && HasLink(id, links) }

  lemma AddId(ids: seq<int>, links: seq<Link>)
    requires Distinct(ids) && |ids| > 0
    ensures var rest, last := ids[..|ids| - 1], ids[|ids| - 1];
      && last !in FailedIds(rest, links)
      && FailedIds(ids, links) == FailedIds(rest, links) + if HasLink(last, links) then {last} else {}
  {
    hide HasLink;
    var rest, last := ids[..|ids| - 1], ids[|ids| - 1];
    assert forall id :: id in ids <==> id in rest || id == last;
  }

  lemma {:induction false} CountFailed(ids: seq<int>, links: seq<Link>)
    requires Distinct(ids)
    ensures |FailedIds(ids, links)| == SumOf(ids, Failed(links))
  {
    hide HasLink, FailedIds;
    if |ids| == 0 {
      assert FailedIds(ids, links) == {} by { NoFailedIds(links); }
    } else {
      CountFailed(ids[..|ids| - 1], links);
      AddId(ids, links);
    }
  }

  lemma NoFailedIds(links: seq<Link>)
    ensures FailedIds([], links) == {}
  {}

  lemma CountDistinct(ids: seq<int>)
    requires Distinct(ids)
    ensures |set id | id in ids| == |ids|
  {
    var key := (id: int) => id;
    GroupsOfKeyed(ids, key);
    assert (set id | id in ids) == KeysOf(ids, key);
  }

  /** Over distinct ids the rate is the linked share, with one sample per id:
      the link table cannot inflate the sample however many links a deployment has. */
  lemma FailureRateOfDistinct(ids: seq<int>, links: seq<Link>)
    requires Distinct(ids)
    ensures FailureRate(ids, links) == MeanOf(SumOf(ids, Failed(links)), |ids|)
  {
    hide HasLink, LeftJoin, LinkedCount, KeysOf, SumOf;
    var rows := LeftJoin(ids, links);
    GroupsAreIds(ids, links);
    CountFailed(ids, links);
    assert (set id | id in KeysOf(rows, Outer) && LinkedCount(rows, id) > 0) == FailedIds(ids, links);
    CountDistinct(ids);
  }

  lemma {:induction false} SumOfIds<A>(rows: seq<A>, id: A -> int, g: int -> int)
    ensures SumOf(ValuesOf(rows, id), g) == SumOf(rows, Column(id, g))
  {
    if |rows| != 0 {
      var k := |rows| - 1;
      SumOfIds(rows[..k], id, g);
      assert ValuesOf(rows, id)[..k] == ValuesOf(rows[..k], id);
    }
  }

  lemma RestrictingKeepsKeys<A>(
      rows: seq<A>, project: A -> int, key: A -> int, id: int, projects: seq<Project>, team: int)
    requires Keyed(rows, key) && Keyed(projects, (p: Project) => p.id)
    ensures Distinct(ValuesOf(OfProject(rows, project, id), key))
    ensures Distinct(ValuesOf(OfTeam(rows, project, projects, team), OnLeft(key)))
  {
    hide Where, Join;
    WhereKeepsKeys(rows, x => project(x) == id, key);
    JoinKeepsKeys(rows, projects, (x: A, p: Project) => p.id == project(x) && p.team == Some(team),
                  key, (p: Project) => p.id, project);
  }

  lemma DeliveriesAreKeyed(db: Database, since: int, project: int, team: int)
    requires WellKeyed(db)
    ensures Distinct(ValuesOf(ProjectDeliveries(db, project, since), IdOf))
    ensures Distinct(ValuesOf(TeamDeliveries(db, team, since), OnLeft(IdOf)))
  {
    hide Where, Join;
    JoinKeepsKeys(db.deployments, db.environments, (d: Deployment, e: Environment) => Delivered(d, e, since),
                  (d: Deployment) => d.id, (e: Environment) => e.id, (d: Deployment) => d.environment);
    assert forall x: Delivery :: OnLeft<Deployment, Environment>((d: Deployment) => d.id)(x) == IdOf(x);
    assert Keyed(Deliveries(db, since), IdOf);
    RestrictingKeepsKeys(Deliveries(db, since), ProjectOf, IdOf, project, db.projects, team);
  }

  /** CFR's sample size is the deployment count, for any incident link table. */
  lemma FailureSampleIsDeploymentCount(db: Database, since: int, project: int, team: int)
    requires WellKeyed(db)
    ensures ProjectFailureRate(db, project, since).sampleSize == ProjectCount(db, project, since)
    ensures TeamFailureRate(db, team, since).sampleSize == TeamCount(db, team, since)
  {
    DeliveriesAreKeyed(db, since, project, team);
    FailureRateOfDistinct(ValuesOf(ProjectDeliveries(db, project, since), IdOf), db.incidentLinks);
    FailureRateOfDistinct(ValuesOf(TeamDeliveries(db, team, since), OnLeft(IdOf)), db.incidentLinks);
  }

  lemma FailureWeight(ids: seq<int>, links: seq<Link>)
    requires Distinct(ids)
    ensures Weight(FailureRate(ids, links)) == SumOf(ids, Failed(links)) as real
  {
    hide MeanOf, Weight, FailureRate, HasLink;
    FailureRateOfDistinct(ids, links);
    MeanTimesSize(SumOf(ids, Failed(links)), |ids|);
  }

  /** A team's change failure rate is the mean of its projects' rates weighted by
      their sample sizes. */
  lemma TeamFailureRateIsWeightedMean(db: Database, team: int, since: int)
    requires WellKeyed(db)
    ensures Weight(TeamFailureRate(db, team, since))
         == RealSum(TeamProjects(db, team), (p: Project) => Weight(ProjectFailureRate(db, p.id, since)))
  {
    hide Where, Join, SumOf, Weight, FailureRate, HasLink;
    var links := db.incidentLinks;
    var failed := Column(IdOf, Failed(links));
    var mine, ids := TeamDeliveries(db, team, since), OnLeft(IdOf);
    DeliveriesAreKeyed(db, since, 0, team);
    FailureWeight(ValuesOf(mine, ids), links);
    SumOfIds(mine, ids, Failed(links));
    SumOfAgrees(mine, Column(ids, Failed(links)), OnLeft(failed));
    TeamTotals(Deliveries(db, since), ProjectOf, db, team, failed);
    var each := (p: Project) => SumOf(OfProject(Deliveries(db, since), ProjectOf, p.id), failed);
    forall p: Project ensures Weight(ProjectFailureRate(db, p.id, since)) == each(p) as real {
      var theirs := ProjectDeliveries(db, p.id, since);
      DeliveriesAreKeyed(db, since, p.id, team);
      FailureWeight(ValuesOf(theirs, IdOf), links);
      SumOfIds(theirs, IdOf, Failed(links));
    }
    RealSumOfInts(TeamProjects(db, team), (p: Project) => Weight(ProjectFailureRate(db, p.id, since)), each);
  }

  // ---------- lead time ----------

  type Lead = ((Delivery, Link), MergeRequest)

  function LeadProject(x: Lead): int { ProjectOf(x.0.0) }

  /** Deliveries joined with their linked merge requests: known first commit, no bot. */
  function Leads(db: Database, since: int): (rows: seq<Lead>)
    ensures forall x :: x in rows ==> x.1.firstCommitAt.Some? && x.0.0.0.finishedAt.Some?
  {
    var linked := Join(Deliveries(db, since), db.mrLinks, (x: Delivery, l: Link) => l.deployment == IdOf(x));
    Join(linked, db.mergeRequests,
         (x: (Delivery, Link), mr: MergeRequest) => mr.id == x.1.target && mr.firstCommitAt.Some? && !mr.authorIsBot)
  }

  lemma LeadComesFromDelivery(db: Database, since: int, x: Lead)
    requires x in Leads(db, since)
    ensures x.0.0 in Deliveries(db, since)
  {
    hide Join, Deliveries;
  }

  /** From the first commit to the end of the deployment. */
  function LeadTime(x: Lead): int {
    if x.0.0.0.finishedAt.Some? && x.1.firstCommitAt.Some?
    then x.0.0.0.finishedAt.value - x.1.firstCommitAt.value else 0
  }

  function ProjectLeadTimes(db: Database, project: int, since: int): seq<int> {
    ValuesOf(OfProject(Leads(db, since), LeadProject, project), LeadTime)
  }

  function TeamLeadTimes(db: Database, team: int, since: int): seq<int> {
    ValuesOf(OfTeam(Leads(db, since), LeadProject, db.projects, team), OnLeft(LeadTime))
  }

  /** `LeadTimeMedianSecondsInWindow` and its team version, over their samples. */
  function MedianStat(sample: seq<int>): Stat {
    Stat(if |sample| == 0 then 0.0 else PercentileCont(sample), |sample|)
  }

  lemma MedianSampleSize(sample: seq<int>)
    ensures MedianStat(sample).sampleSize == |sample|
  {}

  function Is(v: int): int -> int { (x: int) => if x == v then 1 else 0 }

  lemma {:induction false} MultiplicityIsSum(xs: seq<int>, v: int)
    ensures multiset(xs)[v] == SumOf(xs, Is(v))
  {
    if |xs| != 0 {
      var k := |xs| - 1;
      MultiplicityIsSum(xs[..k], v);
      assert xs == xs[..k] + [xs[k]];
    }
  }

  lemma {:induction false} PoolIsSum(bags: seq<seq<int>>, f: int -> int)
    ensures SumOf(Pool(bags), f) == SumOf(bags, (bag: seq<int>) => SumOf(bag, f))
  {
    if |bags| != 0 {
      var k := |bags| - 1;
      PoolIsSum(bags[..k], f);
      SumOfConcat(Pool(bags[..k]), bags[k], f);
    }
  }

  function Samples(db: Database, projects: seq<Project>, since: int): (bags: seq<seq<int>>)
    ensures |bags| == |projects|
    ensures forall i :: 0 <= i < |projects| ==> bags[i] == ProjectLeadTimes(db, projects[i].id, since)
  {
    seq(|projects|, i requires 0 <= i < |projects| => ProjectLeadTimes(db, projects[i].id, since))
  }

  lemma {:induction false} SumOfMapped<A, B>(bags: seq<B>, projects: seq<A>, f: B -> int, g: A -> int)
    requires |bags| == |projects| && forall i :: 0 <= i < |bags| ==> f(bags[i]) == g(projects[i])
    ensures SumOf(bags, f) == SumOf(projects, g)
  {
    if |bags| != 0 {
      SumOfMapped(bags[..|bags| - 1], projects[..|bags| - 1], f, g);
    }
  }

  lemma TeamMultiplicity(db: Database, team: int, since: int, v: int)
    ensures multiset(TeamLeadTimes(db, team, since))[v]
         == multiset(Pool(Samples(db, TeamProjects(db, team), since)))[v]
  {
    hide Where, Join, SumOf, Leads, LeadTime;
    var projects := TeamProjects(db, team);
    var bags := Samples(db, projects, since);
    var mine := OfTeam(Leads(db, since), LeadProject, db.projects, team);
    var hit := Column(LeadTime, Is(v));
    var inBag := (bag: seq<int>) => SumOf(bag, Is(v));
    var each := (p: Project) => SumOf(OfProject(Leads(db, since), LeadProject, p.id), hit);
    MultiplicityIsSum(TeamLeadTimes(db, team, since), v);
    SumOfIds(mine, OnLeft(LeadTime), Is(v));
    SumOfAgrees(mine, Column(OnLeft(LeadTime), Is(v)), OnLeft(hit));
    TeamTotals(Leads(db, since), LeadProject, db, team, hit);
    forall i | 0 <= i < |projects| ensures inBag(bags[i]) == each(projects[i]) {
      var theirs := OfProject(Leads(db, since), LeadProject, projects[i].id);
      SumOfIds(theirs, LeadTime, Is(v));
    }
    SumOfMapped(bags, projects, inBag, each);
    PoolIsSum(bags, Is(v));
    MultiplicityIsSum(Pool(bags), v);
  }

  /** A team's lead-time sample is its projects' samples pooled. */
  lemma TeamSampleIsPooled(db: Database, team: int, since: int)
    ensures multiset(TeamLeadTimes(db, team, since)) == multiset(Pool(Samples(db, TeamProjects(db, team), since)))
  {
    forall v: int
      ensures multiset(TeamLeadTimes(db, team, since))[v]
           == multiset(Pool(Samples(db, TeamProjects(db, team), since)))[v]
    {
      TeamMultiplicity(db, team, since, v);
    }
  }

  /** Main result. A team's median lead time lies between any bounds that hold for
      each of its projects with samples, hence between the smallest and largest. */
  lemma TeamMedianIsBetweenProjectMedians(db: Database, team: int, since: int, low: real, high: real)
    requires forall i | 0 <= i < |TeamProjects(db, team)| ::
      var s := MedianStat(ProjectLeadTimes(db, TeamProjects(db, team)[i].id, since));
      s.sampleSize > 0 ==> low <= s.value <= high
    ensures var s := MedianStat(TeamLeadTimes(db, team, since));
      s.sampleSize > 0 ==> low <= s.value <= high
  {
    hide PercentileCont, Pool, ProjectLeadTimes, TeamLeadTimes;
    var sample, bags := TeamLeadTimes(db, team, since), Samples(db, TeamProjects(db, team), since);
    TeamSampleIsPooled(db, team, since);
    PooledMedianIsBetween(bags, low, high);
    if |sample| > 0 {
      MedianIgnoresOrder(sample, Pool(bags));
    }
  }

  // ---------- mean time to restore ----------

  predicate Affects(i: Incident, p: Project) {
    p.tenant == i.tenant && i.jiraKey in p.jiraKeys
  }

  function Resolved(db: Database, since: int): (rows: seq<Incident>)
    ensures forall i :: i in rows ==> i.resolvedAt.Some? && i.resolvedAt.value >= since
  {
    Where(db.incidents, (i: Incident) => i.resolvedAt.Some? && i.resolvedAt.value >= since)
  }

  function Duration(i: Incident): int {
    if i.resolvedAt.Some? then i.resolvedAt.value - i.createdAt else 0
  }

  /** Resolved incidents beside each chosen project they belong to. */
  function Restorations(db: Database, since: int, chosen: Project -> bool): seq<(Incident, Project)> {
    Join(Resolved(db, since), db.projects, (i: Incident, p: Project) => Affects(i, p) && chosen(p))
  }

  function MeanDuration(rows: seq<(Incident, Project)>): Stat {
    MeanOf(SumOf(rows, OnLeft(Duration)), |rows|)
  }

  /** `MTTRMeanSecondsInWindow`. */
  function ProjectMttr(db: Database, project: int, since: int): Stat {
    MeanDuration(Restorations(db, since, HasId(project)))
  }

  /** `MTTRMeanSecondsForTeamInWindow`. */
  function TeamMttr(db: Database, team: int, since: int): Stat {
    MeanDuration(Restorations(db, since, InTeam(team)))
  }

  /** What one project's incidents add up to. */
  function Burden(db: Database, since: int, f: Incident -> int): Project -> int {
    (p: Project) => SumOf(Where(Resolved(db, since), (i: Incident) => Affects(i, p)), f)
  }

  lemma BurdenIfChosen(db: Database, since: int, chosen: Project -> bool, f: Incident -> int, p: Project)
    ensures SumOf(Where(Resolved(db, since), i => Affects(i, p) && chosen(p)), f)
         == if chosen(p) then Burden(db, since, f)(p) else 0
  {
    if chosen(p) {
      WhereAgrees(Resolved(db, since), i => Affects(i, p) && chosen(p), (i: Incident) => Affects(i, p));
    } else {
      WhereNone(Resolved(db, since), i => Affects(i, p) && chosen(p));
    }
  }

  lemma RestorationsByProject(db: Database, since: int, chosen: Project -> bool, f: Incident -> int)
    ensures SumOf(Restorations(db, since, chosen), OnLeft(f))
         == SumOf(Where(db.projects, chosen), Burden(db, since, f))
  {
    hide Where, Join, SumOf;
    var rows := Resolved(db, since);
    var on := (i: Incident, p: Project) => Affects(i, p) && chosen(p);
    JoinBySharing(rows, db.projects, on, f);
    forall k | 0 <= k < |db.projects|
      ensures Share(rows, on, f)(db.projects[k]) == Only(chosen, Burden(db, since, f))(db.projects[k])
    {
      var p := db.projects[k];
      BurdenIfChosen(db, since, chosen, f, p);
      ShareOf(rows, on, f, p, i => Affects(i, p) && chosen(p));
    }
    SumOfAgrees(db.projects, Share(rows, on, f), Only(chosen, Burden(db, since, f)));
    SumOfWhere(db.projects, chosen, Burden(db, since, f));
  }

  /** A primary key selects one row. */
  lemma {:induction false} WhereOfKey(projects: seq<Project>, k: nat)
    requires Keyed(projects, (p: Project) => p.id) && k < |projects|
    ensures Where(projects, HasId(projects[k].id)) == [projects[k]]
  {
    var key := (p: Project) => p.id;
    var hit := HasId(projects[k].id);
    var n := |projects| - 1;
    if k == n {
      assert forall i :: 0 <= i < n ==> key(projects[i]) != key(projects[n]);
      WhereNone(projects[..n], hit);
    } else {
      WhereOfKey(projects[..n], k);
      assert key(projects[k]) != key(projects[n]);
    }
  }

  lemma ProjectRestorations(db: Database, since: int, p: Project, f: Incident -> int)
    requires WellKeyed(db) && p in db.projects
    ensures SumOf(Restorations(db, since, HasId(p.id)), OnLeft(f))
         == Burden(db, since, f)(p)
  {
    hide Where, Join;
    var k :| 0 <= k < |db.projects| && db.projects[k] == p;
    RestorationsByProject(db, since, HasId(p.id), f);
    WhereOfKey(db.projects, k);
    WhereAgrees(db.projects, HasId(p.id), HasId(db.projects[k].id));
  }

  lemma RestorationSums(db: Database, team: int, since: int, f: Incident -> int, each: Project -> int)
    requires WellKeyed(db)
    requires forall p: Project :: each(p) == SumOf(Restorations(db, since, HasId(p.id)), OnLeft(f))
    ensures SumOf(Restorations(db, since, InTeam(team)), OnLeft(f))
         == SumOf(TeamProjects(db, team), each)
  {
    hide Where, Join, SumOf;
    RestorationsByProject(db, since, InTeam(team), f);
    var projects := TeamProjects(db, team);
    forall i | 0 <= i < |projects| ensures Burden(db, since, f)(projects[i]) == each(projects[i]) {
      assert projects[i] in projects;
      ProjectRestorations(db, since, projects[i], f);
    }
    SumOfAgrees(projects, Burden(db, since, f), each);
  }

  /** MTTR sample sizes add up over a team's projects, and the team's mean is the
      mean of theirs weighted by sample size: an incident shared by two of the
      team's projects counts once for each. */
  lemma TeamMttrIsWeightedMean(db: Database, team: int, since: int)
    requires WellKeyed(db)
    ensures TeamMttr(db, team, since).sampleSize
         == SumOf(TeamProjects(db, team), (p: Project) => ProjectMttr(db, p.id, since).sampleSize)
    ensures Weight(TeamMttr(db, team, since))
         == RealSum(TeamProjects(db, team), (p: Project) => Weight(ProjectMttr(db, p.id, since)))
  {
    hide Where, Join, SumOf, Restorations, Weight;
    var one := One<Incident>();
    var mine := Restorations(db, since, InTeam(team));
    var sizes := (p: Project) => ProjectMttr(db, p.id, since).sampleSize as int;
    var sums := (p: Project) =>
      SumOf(Restorations(db, since, HasId(p.id)), OnLeft(Duration));
    forall p: Project
      ensures sizes(p) == SumOf(Restorations(db, since, HasId(p.id)), OnLeft(one))
      ensures Weight(ProjectMttr(db, p.id, since)) == sums(p) as real
    {
      var theirs := Restorations(db, since, HasId(p.id));
      CountOnes(theirs, OnLeft(one));
      MeanDurationWeight(theirs);
    }
    CountOnes(mine, OnLeft(one));
    RestorationSums(db, team, since, one, sizes);
    RestorationSums(db, team, since, Duration, sums);
    MeanDurationWeight(mine);
    RealSumOfInts(TeamProjects(db, team), (p: Project) => Weight(ProjectMttr(db, p.id, since)), sums);
    SumOfAgrees(TeamProjects(db, team), sizes, (p: Project) => ProjectMttr(db, p.id, since).sampleSize);
  }

  lemma MeanDurationWeight(rows: seq<(Incident, Project)>)
    ensures Weight(MeanDuration(rows)) == SumOf(rows, OnLeft(Duration)) as real
  {
    hide Weight, MeanOf;
    MeanTimesSize(SumOf(rows, OnLeft(Duration)), |rows|);
  }
}
