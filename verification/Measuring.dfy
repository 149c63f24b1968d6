/** What the measures of a metric window are, straight from the tables
    (backend/internal/collector/handlers.go, `HandleComputeMetricWindow`, with
    deployments.sql.go and incidents.sql.go). */
module Measuring {
  import opened Wrappers
  import opened Relational
  import opened Aggregation
  import Median
  import Classification

  /** Primary keys of all the tables read. */
  ghost predicate Tabled(db: Database) {
    && WellKeyed(db)
    && Keyed(db.mergeRequests, (m: MergeRequest) => m.id)
    && Keyed(db.incidents, (i: Incident) => i.id)
    && NoTwice(db.mrLinks)
  }

  // ---------- deployments ----------

  /** A successful deployment of the project to production, finished since. */
  ghost predicate Counts(db: Database, d: Deployment, project: int, since: int) {
    && d in db.deployments && d.project == project && d.status == "success"
    && d.finishedAt.Some? && since <= d.finishedAt.value
    && exists e :: e in db.environments && e.id == d.environment && e.isProduction
  }

  ghost function Counted(db: Database, project: int, since: int): set<Deployment> {
    set d | d in db.deployments && Counts(db, d, project, since)
  }

  predicate Blamed(d: Deployment, links: seq<Link>) { exists l :: l in links && l.deployment == d.id }

  lemma DeliveryRows(db: Database, project: int, since: int)
    requires WellKeyed(db)
    ensures forall d, e :: (d, e) in ProjectDeliveries(db, project, since) <==>
              && Counts(db, d, project, since) && e in db.environments && e.id == d.environment && e.isProduction
    ensures NoTwice(Deliveries(db, since))
  {
    var on := (d: Deployment, e: Environment) => Delivered(d, e, since);
    forall d, e
      ensures (d, e) in ProjectDeliveries(db, project, since) <==>
              && Counts(db, d, project, since) && e in db.environments && e.id == d.environment && e.isProduction
    {
      JoinMembers(db.deployments, db.environments, on, d, e);
      OfProjectRows(Deliveries(db, since), ProjectOf, project);
    }
    KeyedNoTwice(db.deployments, (d: Deployment) => d.id);
    KeyedNoTwice(db.environments, (e: Environment) => e.id);
    JoinNoTwice(db.deployments, db.environments, on);
  }

  ghost predicate RowsOf(rows: seq<Delivery>, counted: set<Deployment>) {
    Distinct(ValuesOf(rows, IdOf)) && forall d :: d in counted <==> exists r :: r in rows && r.0 == d
  }

  lemma WithoutLast(rows: seq<Delivery>, counted: set<Deployment>)
    requires RowsOf(rows, counted) && |rows| > 0
    ensures var front, last := rows[..|rows| - 1], rows[|rows| - 1].0;
      RowsOf(front, counted - {last}) && last in counted && ValuesOf(rows, IdOf)[..|rows| - 1] == ValuesOf(front, IdOf)
  {
    var k := |rows| - 1;
    var row, last := rows[k], rows[k].0;
    var ids := ValuesOf(rows, IdOf);
    assert forall i :: 0 <= i < k ==> ids[i] == rows[i].0.id != ids[k];
    assert forall r :: r in rows[..k] ==> r in rows && r.0 != last;
    forall d ensures d in counted - {last} <==> exists r :: r in rows[..k] && r.0 == d {
      if d in counted - {last} {
        var r :| r in rows && r.0 == d;
        assert r in rows[..k] || r == row;
      }
    }
    assert ids[..k] == ValuesOf(rows[..k], IdOf);
    assert rows[k] in rows;
  }

  /** Rows of distinct deployments count the deployments, and those linked. */
  lemma {:induction false} CountRows(rows: seq<Delivery>, counted: set<Deployment>)
    requires RowsOf(rows, counted)
    ensures |counted| == |rows|
  {
    if |rows| == 0 {
      assert counted == {};
    } else {
      WithoutLast(rows, counted);
      hide RowsOf;
      CountRows(rows[..|rows| - 1], counted - {rows[|rows| - 1].0});
    }
  }

  ghost function BlamedOf(counted: set<Deployment>, links: seq<Link>): set<Deployment> {
    set d | d in counted && Blamed(d, links)
  }

  lemma BlamedWithout(counted: set<Deployment>, links: seq<Link>, d: Deployment)
    requires d in counted
    ensures BlamedOf(counted, links) == BlamedOf(counted - {d}, links) + if Blamed(d, links) then {d} else {}
    ensures d !in BlamedOf(counted - {d}, links)
  {
    hide Blamed;
  }

  lemma {:induction false} CountBlamed(rows: seq<Delivery>, counted: set<Deployment>, links: seq<Link>)
    requires RowsOf(rows, counted)
    ensures |BlamedOf(counted, links)| == SumOf(ValuesOf(rows, IdOf), Failed(links))
  {
    if |rows| == 0 {
      assert BlamedOf(counted, links) == {};
    } else {
      WithoutLast(rows, counted);
      hide RowsOf, BlamedOf, Failed;
      var k := |rows| - 1;
      CountBlamed(rows[..k], counted - {rows[k].0}, links);
      BlamedWithout(counted, links, rows[k].0);
      BlamedIsFailed(rows[k].0, links);
    }
  }

  lemma BlamedIsFailed(d: Deployment, links: seq<Link>)
    ensures Failed(links)(d.id) == if Blamed(d, links) then 1 else 0
  {}

  lemma CountedIs(db: Database, project: int, since: int)
    requires WellKeyed(db)
    ensures |Counted(db, project, since)| == ProjectCount(db, project, since)
         == ProjectFailureRate(db, project, since).sampleSize
    ensures Weight(ProjectFailureRate(db, project, since))
         == |BlamedOf(Counted(db, project, since), db.incidentLinks)| as real
  {
    hide Counted, BlamedOf, ProjectDeliveries, SumOf, Weight, FailureRate, WellKeyed, ValuesOf;
    var rows := ProjectDeliveries(db, project, since);
    DeliveriesAreKeyed(db, since, project, 0);
    EachCountedHasARow(db, project, since);
    assert RowsOf(rows, Counted(db, project, since));
    CountRows(rows, Counted(db, project, since));
    CountBlamed(rows, Counted(db, project, since), db.incidentLinks);
    FailureSampleIsDeploymentCount(db, since, project, 0);
    FailureWeight(ValuesOf(rows, IdOf), db.incidentLinks);
  }

  /** Main result, for deployments. The frequency is the number of successful
      production deployments over the days, and the failure rate the share of them
      linked to an incident. */
  lemma DeploymentsMeasured(db: Database, project: int, windowDays: int, now: int)
    requires windowDays > 0 && WellKeyed(db)
    ensures var m := Classification.Measure(db, project, windowDays, now);
            var counted := Counted(db, project, now - windowDays * 86_400_000_000_000);
            var blamed := set d | d in counted && Blamed(d, db.incidentLinks);
      && m.perDay * windowDays as real == |counted| as real
      && (m.failureRate.Some? <==> counted != {})
      && (m.failureRate.Some? ==> m.failureRate.value * |counted| as real == |blamed| as real)
  {
    hide Counted, Blamed, ProjectCount, ProjectFailureRate, ProjectLeadTimes, ProjectMttr, WellKeyed;
    hide Classification.PerDay, Weight, Classification.TruncatedSeconds;
    var since := now - windowDays * 86_400_000_000_000;
    CountedIs(db, project, since);
    PerDayTimesDays(ProjectCount(db, project, since), windowDays);
    WeightIs(ProjectFailureRate(db, project, since));
  }

  lemma EachCountedHasARow(db: Database, project: int, since: int)
    requires WellKeyed(db)
    ensures forall d :: d in Counted(db, project, since) <==>
              exists r :: r in ProjectDeliveries(db, project, since) && r.0 == d
  {
    hide ProjectDeliveries, WellKeyed;
    DeliveryRows(db, project, since);
    forall d
      ensures d in Counted(db, project, since) <==> exists r :: r in ProjectDeliveries(db, project, since) && r.0 == d
    {
      if Counts(db, d, project, since) {
        var e :| e in db.environments && e.id == d.environment && e.isProduction;
        assert (d, e) in ProjectDeliveries(db, project, since);
      }
      if r :| r in ProjectDeliveries(db, project, since) && r.0 == d {
        assert (r.0, r.1) in ProjectDeliveries(db, project, since);
      }
    }
  }

  lemma PerDayTimesDays(count: nat, days: int)
    requires days > 0
    ensures Classification.PerDay(count, days) * days as real == count as real
  {}

  lemma WeightIs(s: Stat)
    ensures Weight(s) == s.value * s.sampleSize as real
  {}

  // ---------- durations ----------

  /** s is the number of whole seconds in so many nanoseconds, toward zero. */
  predicate IsWholeSeconds(s: int, nanos: real) {
    if nanos >= 0.0 then (s * 1_000_000_000) as real <= nanos < ((s + 1) * 1_000_000_000) as real
    else ((s - 1) * 1_000_000_000) as real < nanos <= (s * 1_000_000_000) as real
  }

  lemma DurationsOf(db: Database, project: int, windowDays: int, now: int)
    requires windowDays > 0
    ensures var m, since := Classification.Measure(db, project, windowDays, now), now - windowDays * 86_400_000_000_000;
            var sample, mttr := ProjectLeadTimes(db, project, since), ProjectMttr(db, project, since);
      && m.leadTime == (if |sample| > 0 then Some(Classification.TruncatedSeconds(Median.PercentileCont(sample)))
                        else None)
      && m.restore == (if mttr.sampleSize > 0 then Some(Classification.TruncatedSeconds(mttr.value)) else None)
  {
    hide ProjectLeadTimes, ProjectMttr, ProjectCount, ProjectFailureRate, Classification.TruncatedSeconds;
    hide Classification.PerDay, Median.Lower, Median.Upper;
  }

  lemma TruncatedIsWhole(nanos: real)
    ensures IsWholeSeconds(Classification.TruncatedSeconds(nanos), nanos)
  {
    var s := nanos / 1_000_000_000.0;
    assert s * 1_000_000_000.0 == nanos;
  }

  /** Delivered work: a deployment that counts and a linked merge request, not a
      bot's, whose first commit is known. */
  ghost predicate Works(db: Database, x: Lead, project: int, since: int) {
    var ((d, e), l) := x.0;
    var m := x.1;
    && Counts(db, d, project, since) && e in db.environments && e.id == d.environment && e.isProduction
    && l in db.mrLinks && l.deployment == d.id
    && m in db.mergeRequests && m.id == l.target && !m.authorIsBot && m.firstCommitAt.Some?
  }

  lemma LeadRows(db: Database, project: int, since: int)
    requires Tabled(db)
    ensures forall x :: x in OfProject(Leads(db, since), LeadProject, project) <==> Works(db, x, project, since)
    ensures NoTwice(OfProject(Leads(db, since), LeadProject, project))
  {
    hide Counts, Deliveries, Tabled, Join, OfProject;
    TabledIs(db);
    var linkOn := (x: Delivery, l: Link) => l.deployment == IdOf(x);
    var linked := Join(Deliveries(db, since), db.mrLinks, linkOn);
    var on := (x: (Delivery, Link), m: MergeRequest) => m.id == x.1.target && m.firstCommitAt.Some? && !m.authorIsBot;
    assert Leads(db, since) == Join(linked, db.mergeRequests, on);
    OfProjectRows(Leads(db, since), LeadProject, project);
    OfProjectRows(Deliveries(db, since), ProjectOf, project);
    DeliveryRows(db, project, since);
    JoinNoTwice(Deliveries(db, since), db.mrLinks, linkOn);
    JoinNoTwice(linked, db.mergeRequests, on);
    forall x: Lead
      ensures x in OfProject(Leads(db, since), LeadProject, project) <==> Works(db, x, project, since)
    {
      JoinMembers(linked, db.mergeRequests, on, x.0, x.1);
      JoinMembers(Deliveries(db, since), db.mrLinks, linkOn, x.0.0, x.0.1);
      var (d, e) := x.0.0;
      assert ((d, e) in Deliveries(db, since) && d.project == project)
        <==> (d, e) in ProjectDeliveries(db, project, since);
      CountsHasProject(db, d, project, since);
    }
  }

  lemma CountsHasProject(db: Database, d: Deployment, project: int, since: int)
    ensures Counts(db, d, project, since) ==> d.project == project
  {}

  lemma TabledIs(db: Database)
    requires Tabled(db)
    ensures WellKeyed(db) && NoTwice(db.mergeRequests) && NoTwice(db.incidents) && NoTwice(db.mrLinks)
    ensures NoTwice(db.projects)
  {
    KeyedNoTwice(db.mergeRequests, (m: MergeRequest) => m.id);
    KeyedNoTwice(db.incidents, (i: Incident) => i.id);
    KeyedNoTwice(db.projects, (p: Project) => p.id);
  }

  /** Main result, for the lead time: with one sample for each piece of delivered
      work, from its first commit to the end of its deployment, it is the continuous
      median in whole seconds, and absent when there is none. */
  lemma LeadTimeMeasured(db: Database, project: int, windowDays: int, now: int)
    returns (works: seq<Lead>, sample: seq<int>)
    requires windowDays > 0 && Tabled(db)
    ensures NoTwice(works)
    ensures forall x :: x in works <==> Works(db, x, project, now - windowDays * 86_400_000_000_000)
    ensures |sample| == |works|
    ensures forall i | 0 <= i < |works| ::
              && works[i].0.0.0.finishedAt.Some? && works[i].1.firstCommitAt.Some?
              && sample[i] == works[i].0.0.0.finishedAt.value - works[i].1.firstCommitAt.value
    ensures var lead := Classification.Measure(db, project, windowDays, now).leadTime;
      && (lead.Some? <==> |sample| > 0)
      && (lead.Some? ==> IsWholeSeconds(lead.value, Median.PercentileCont(sample)))
  {
    hide Tabled, NoTwice, Works, IsWholeSeconds, Median.Lower, Median.Upper, Classification.Measure;
    hide Classification.TruncatedSeconds, ProjectLeadTimes;
    var since := now - windowDays * 86_400_000_000_000;
    works, sample := LeadSample(db, project, since);
    DurationsOf(db, project, windowDays, now);
    if |sample| > 0 {
      TruncatedIsWhole(Median.PercentileCont(sample));
    }
  }

  lemma LeadSample(db: Database, project: int, since: int) returns (works: seq<Lead>, sample: seq<int>)
    requires Tabled(db)
    ensures NoTwice(works) && forall x :: x in works <==> Works(db, x, project, since)
    ensures sample == ProjectLeadTimes(db, project, since) && |sample| == |works|
    ensures forall i | 0 <= i < |works| ::
              && works[i].0.0.0.finishedAt.Some? && works[i].1.firstCommitAt.Some?
              && sample[i] == works[i].0.0.0.finishedAt.value - works[i].1.firstCommitAt.value
  {
    hide Tabled, NoTwice, Works, Leads, OfProject;
    works := OfProject(Leads(db, since), LeadProject, project);
    sample := ValuesOf(works, LeadTime);
    LeadRows(db, project, since);
    OfProjectRows(Leads(db, since), LeadProject, project);
    forall i | 0 <= i < |works| ensures works[i] in Leads(db, since) {
      assert works[i] in works;
    }
  }

  /** An incident of the project, resolved since. */
  ghost predicate Restored(db: Database, x: (Incident, Project), project: int, since: int) {
    var (i, p) := x;
    && i in db.incidents && p in db.projects && p.id == project
    && i.tenant == p.tenant && i.jiraKey in p.jiraKeys
    && i.resolvedAt.Some? && since <= i.resolvedAt.value
  }

  lemma RestorationRows(db: Database, project: int, since: int)
    requires Tabled(db)
    ensures forall x :: x in Restorations(db, since, HasId(project)) <==> Restored(db, x, project, since)
    ensures NoTwice(Restorations(db, since, HasId(project)))
  {
    hide Join, Where, Tabled;
    TabledIs(db);
    var chosen := HasId(project);
    var on := (i: Incident, p: Project) => Affects(i, p) && chosen(p);
    var open := (i: Incident) => i.resolvedAt.Some? && i.resolvedAt.value >= since;
    WhereMembers(db.incidents, open);
    WhereNoTwice(db.incidents, open);
    assert Restorations(db, since, chosen) == Join(Resolved(db, since), db.projects, on);
    JoinNoTwice(Resolved(db, since), db.projects, on);
    forall x: (Incident, Project)
      ensures x in Restorations(db, since, chosen) <==> Restored(db, x, project, since)
    {
      JoinMembers(Resolved(db, since), db.projects, on, x.0, x.1);
    }
  }

  function Total(sample: seq<int>): int { SumOf(sample, (x: int) => x) }

  lemma {:induction false} TotalOfValues<A>(rows: seq<A>, f: A -> int)
    ensures Total(ValuesOf(rows, f)) == SumOf(rows, f)
  {
    SumOfIds(rows, f, (x: int) => x);
    SumOfAgrees(rows, Column(f, (x: int) => x), f);
  }

  /** Main result, for the restore time: with one sample for each incident of the
      project resolved in the window, from its creation to its resolution, it is the
      mean in whole seconds, and absent when there is none. */
  lemma RestoreMeasured(db: Database, project: int, windowDays: int, now: int)
    returns (restored: seq<(Incident, Project)>, sample: seq<int>, mean: real)
    requires windowDays > 0 && Tabled(db)
    ensures NoTwice(restored)
    ensures forall x :: x in restored <==> Restored(db, x, project, now - windowDays * 86_400_000_000_000)
    ensures |sample| == |restored|
    ensures forall i | 0 <= i < |restored| ::
              restored[i].0.resolvedAt.Some?
              && sample[i] == restored[i].0.resolvedAt.value - restored[i].0.createdAt
    ensures mean * |sample| as real == Total(sample) as real
    ensures var restore := Classification.Measure(db, project, windowDays, now).restore;
      && (restore.Some? <==> |sample| > 0)
      && (restore.Some? ==> IsWholeSeconds(restore.value, mean))
  {
    hide Tabled, Restored, IsWholeSeconds, Total, NoTwice, ProjectLeadTimes, ProjectMttr;
    hide Classification.Measure, Classification.TruncatedSeconds;
    var since := now - windowDays * 86_400_000_000_000;
    restored, sample := RestoreSample(db, project, since);
    DurationsOf(db, project, windowDays, now);
    mean := ProjectMttr(db, project, since).value;
    TruncatedIsWhole(mean);
  }

  lemma RestoreSample(db: Database, project: int, since: int)
    returns (restored: seq<(Incident, Project)>, sample: seq<int>)
    requires Tabled(db)
    ensures NoTwice(restored) && forall x :: x in restored <==> Restored(db, x, project, since)
    ensures |sample| == |restored| == ProjectMttr(db, project, since).sampleSize
    ensures forall i | 0 <= i < |restored| ::
              restored[i].0.resolvedAt.Some?
              && sample[i] == restored[i].0.resolvedAt.value - restored[i].0.createdAt
    ensures ProjectMttr(db, project, since).value * |sample| as real == Total(sample) as real
  {
    hide Tabled, Restorations, SumOf, Weight, Total, NoTwice;
    restored := Restorations(db, since, HasId(project));
    sample := ValuesOf(restored, OnLeft(Duration));
    RestorationRows(db, project, since);
    forall i | 0 <= i < |restored| ensures restored[i].0.resolvedAt.Some? {
      assert restored[i] in restored;
    }
    TotalOfValues(restored, OnLeft(Duration));
    MeanDurationWeight(restored);
    WeightIs(ProjectMttr(db, project, since));
  }
}
