/** Runs of the collector against a GitLab that keeps changing: what is stored
    after any sequence of non-overlapping runs, failed ones included
    (backend/internal/collector/handlers.go, `HandleCollectGitlab`). */
module CollectionRuns {
  import opened Wrappers
  import opened Correlation
  import opened Collection

  /** What GitLab holds at each moment. */
  type Timeline = int -> seq<RemoteDeployment>

  /** The same deployment at the same update, as far as its row follows it; its
      environment may be renamed meanwhile. */
  predicate SameReading(d: RemoteDeployment, e: RemoteDeployment) {
    e.id == d.id && e.updatedAt == d.updatedAt && e.status == d.status && e.finishedAt == d.finishedAt
  }

  /** GitLab moves a deployment's update time whenever its status or finish changes. */
  ghost predicate Honest(h: Timeline) {
    && (forall t, d :: d in h(t) ==> d.updatedAt <= t)
    && (forall t, d, e :: d in h(t) && e in h(t) && d.id == e.id ==> d == e)
    && (forall t, t', d :: t <= t' && d in h(t') && d.updatedAt <= t ==> exists e :: e in h(t) && SameReading(d, e))
  }

  /** The stored row carries the status and finish time of `d`. */
  predicate Mirrors(t: Tables, d: RemoteDeployment) {
    && d.id in t.deployments
    && t.deployments[d.id].status == d.status
    && t.deployments[d.id].finishedAt == d.finishedAt
  }

  // ---------- what a batch of upserts does to one row ----------

  /** A batch leaves rows it does not mention alone, and makes every row it does
      mention mirror one of its entries. */
  lemma {:induction false} BatchEffect(
      t: Tables, p: ProjectSettings, met: set<int>, ds: seq<RemoteDeployment>, d: RemoteDeployment)
    requires forall e :: e in ds && e.id == d.id ==> e == d
    ensures var t' := PutDeployments(t, p, met, ds).0;
            && t'.lastSynced == t.lastSynced
            && (d in ds ==> Mirrors(t', d))
            && (d !in ds ==> (d.id in t'.deployments <==> d.id in t.deployments))
            && (d !in ds && d.id in t.deployments ==> t'.deployments[d.id] == t.deployments[d.id])
  {
    if |ds| != 0 {
      var k := |ds| - 1;
      BatchEffect(t, p, met, ds[..k], d);
    }
  }

  lemma {:induction false} EnvironmentsOnly(t: Tables, p: ProjectSettings, es: seq<RemoteEnvironment>)
    ensures PutEnvironments(t, p, es).deployments == t.deployments
    ensures PutEnvironments(t, p, es).lastSynced == t.lastSynced && PutEnvironments(t, p, es).links == t.links
    ensures PutEnvironments(t, p, es).mergeRequests == t.mergeRequests
  {
    if |es| != 0 {
      EnvironmentsOnly(t, p, es[..|es| - 1]);
    }
  }

  lemma {:induction false} MergeRequestsOnly(t: Tables, ms: seq<RemoteMergeRequest>)
    ensures PutMergeRequests(t, ms).deployments == t.deployments
    ensures PutMergeRequests(t, ms).lastSynced == t.lastSynced && PutMergeRequests(t, ms).links == t.links
  {
    if |ms| != 0 {
      MergeRequestsOnly(t, ms[..|ms| - 1]);
    }
  }

  /** How many deployments of its batch a run gets to upsert. */
  function Upserted(a: Attempt, batch: seq<RemoteDeployment>): seq<RemoteDeployment> {
    if (a.fault.AtEnvironment? && a.fault.done < |a.environments|) || a.fault.AtDeploymentList? then []
    else if a.fault.AtDeployment? && a.fault.done < |batch| then batch[..a.fault.done]
    else batch
  }

  /** Everything a run does to the deployment rows and the sync stamp: it upserts a
      prefix of its batch, the whole batch when it succeeds, and only success
      moves the stamp. */
  lemma RunEffect(t: Tables, p: ProjectSettings, a: Attempt) returns (listed: Tables)
    ensures listed.deployments == t.deployments
    ensures var batch := UpdatedAfter(a.deployments, Since(t.lastSynced, a.startedAt, a.backfillDays));
            var (t', ok) := Collect(t, p, a);
            && t'.lastSynced == (if ok then Some(a.finishedAt) else t.lastSynced)
            && (ok ==> Upserted(a, batch) == batch)
            && t'.deployments == PutDeployments(listed, p, IdsOf(a.environments), Upserted(a, batch)).0.deployments
  {
    hide UpdatedAfter, MergedAfter, Since, IdsOf, ProductionList;
    var batch := UpdatedAfter(a.deployments, Since(t.lastSynced, a.startedAt, a.backfillDays));
    var met := IdsOf(a.environments);
    if a.fault.AtEnvironment? && a.fault.done < |a.environments| {
      listed := PutEnvironments(t, p, a.environments[..a.fault.done]);
      EnvironmentsOnly(t, p, a.environments[..a.fault.done]);
      assert Upserted(a, batch) == [];
    } else {
      listed := PutEnvironments(t, p, a.environments);
      EnvironmentsOnly(t, p, a.environments);
      if !a.fault.AtDeploymentList? {
        var ds := Upserted(a, batch);
        DeploymentsOnly(listed, p, met, ds);
        if !(a.fault.AtDeployment? && a.fault.done < |batch|) {
          var since := Since(t.lastSynced, a.startedAt, a.backfillDays);
          RestEffect(PutDeployments(listed, p, met, ds).0, p, a, since);
        }
      }
    }
  }

  lemma {:induction false} DeploymentsOnly(t: Tables, p: ProjectSettings, met: set<int>, ds: seq<RemoteDeployment>)
    ensures PutDeployments(t, p, met, ds).0.lastSynced == t.lastSynced
    ensures PutDeployments(t, p, met, ds).0.links == t.links
    ensures PutDeployments(t, p, met, ds).0.mergeRequests == t.mergeRequests
  {
    if |ds| != 0 {
      DeploymentsOnly(t, p, met, ds[..|ds| - 1]);
    }
  }

  lemma RestEffect(t: Tables, p: ProjectSettings, a: Attempt, since: int)
    ensures var (t', ok) := CollectRest(t, p, a, since);
            t'.deployments == t.deployments
            && t'.lastSynced == if ok then Some(a.finishedAt) else t.lastSynced
  {
    hide MergedAfter, ProductionList;
    var batch := MergedAfter(a.mergeRequests, p.defaultBranch, since);
    MergeRequestsOnly(t, batch);
    if a.fault.AtMergeRequest? && a.fault.done < |batch| {
      MergeRequestsOnly(t, batch[..a.fault.done]);
    }
  }

  // ---------- runs ----------

  /** The window start of the first successful run and the fetch time of the latest. */
  datatype Progress = Progress(windowStart: int, fetchedAt: int)

  datatype Ledger = Ledger(tables: Tables, progress: Option<Progress>, lastFetch: Option<int>)

  ghost function Extend(p: ProjectSettings, l: Ledger, a: Attempt): Ledger {
    var (t, ok) := Collect(l.tables, p, a);
    var since := Since(l.tables.lastSynced, a.startedAt, a.backfillDays);
    Ledger(
      t,
      if !ok then l.progress
      else Some(Progress(if l.progress.Some? then l.progress.value.windowStart else since, a.fetchedAt)),
      Some(a.fetchedAt))
  }

  ghost function LedgerAfter(p: ProjectSettings, runs: seq<Attempt>): Ledger {
    if |runs| == 0 then Ledger(Tables(map[], map[], map[], {}, None), None, None)
    else Extend(p, LedgerAfter(p, runs[..|runs| - 1]), runs[|runs| - 1])
  }

  ghost predicate Follows(h: Timeline, l: Ledger, a: Attempt) {
    (l.lastFetch.Some? ==> l.lastFetch.value <= a.fetchedAt) && a.deployments == h(a.fetchedAt)
  }

  /** Runs do not overlap and each sees GitLab as it is when it fetches. */
  ghost predicate InOrder(h: Timeline, p: ProjectSettings, runs: seq<Attempt>) {
    |runs| > 0 ==>
      var a := runs[|runs| - 1];
      InOrder(h, p, runs[..|runs| - 1]) && Follows(h, LedgerAfter(p, runs[..|runs| - 1]), a)
  }

  /** The window of the next run goes back at least to the last successful fetch. */
  predicate Reaches(l: Ledger, a: Attempt) {
    l.progress.Some? ==>
      WholeSeconds(Since(l.tables.lastSynced, a.startedAt, a.backfillDays)) <= l.progress.value.fetchedAt
  }

  /** Every successful run's window does. */
  ghost predicate AllReach(p: ProjectSettings, runs: seq<Attempt>) {
    |runs| > 0 ==>
      var l, a := LedgerAfter(p, runs[..|runs| - 1]), runs[|runs| - 1];
      AllReach(p, runs[..|runs| - 1]) && (Collect(l.tables, p, a).1 ==> Reaches(l, a))
  }

  /** Every deployment last updated after the window start and no later than the
      last successful fetch is mirrored, now and for as long as it stays put. */
  ghost predicate Tracks(h: Timeline, l: Ledger) {
    l.progress.Some? ==>
      && l.lastFetch.Some? && l.progress.value.fetchedAt <= l.lastFetch.value
      && forall t, d | l.lastFetch.value <= t && d in h(t)
                       && l.progress.value.windowStart < d.updatedAt <= l.progress.value.fetchedAt ::
           Mirrors(l.tables, d)
  }

  lemma EarlierReading(h: Timeline, t: int, t': int, d: RemoteDeployment) returns (e: RemoteDeployment)
    requires Honest(h) && t <= t' && d in h(t') && d.updatedAt <= t
    ensures e in h(t) && SameReading(d, e)
  {
    e :| e in h(t) && SameReading(d, e);
  }

  /** One run keeps, or brings, one deployment mirrored. */
  lemma RunMirrors(h: Timeline, p: ProjectSettings, l: Ledger, a: Attempt, t: int, d: RemoteDeployment)
    requires Honest(h) && Tracks(h, l) && Follows(h, l, a) && (Collect(l.tables, p, a).1 ==> Reaches(l, a))
    requires var l' := Extend(p, l, a);
             && l'.progress.Some? && a.fetchedAt <= t && d in h(t)
             && l'.progress.value.windowStart < d.updatedAt <= l'.progress.value.fetchedAt
    ensures Mirrors(Extend(p, l, a).tables, d)
  {
    hide Collect, UpdatedAfter, PutDeployments, Since, Honest, Mirrors, WholeSeconds, IdsOf;
    var since := Since(l.tables.lastSynced, a.startedAt, a.backfillDays);
    var batch := UpdatedAfter(a.deployments, since);
    var e := EarlierReading(h, a.fetchedAt, t, d);
    var listed := RunEffect(l.tables, p, a);
    var ds := Upserted(a, batch);
    OneReadingEach(h, a.fetchedAt, e);
    BatchMirrors(listed, p, IdsOf(a.environments), ds, e, l.tables, Extend(p, l, a).tables);
    SameReadingMirrors(Extend(p, l, a).tables, d, e);
  }

  lemma OneReadingEach(h: Timeline, t: int, e: RemoteDeployment)
    requires Honest(h) && e in h(t)
    ensures forall x | x in h(t) && x.id == e.id :: x == e
  {}

  lemma SameReadingMirrors(t: Tables, d: RemoteDeployment, e: RemoteDeployment)
    requires SameReading(d, e)
    ensures Mirrors(t, e) <==> Mirrors(t, d)
  {}

  /** A batch leaves `e` mirrored if it holds it or the tables before did. */
  lemma BatchMirrors(
      listed: Tables, p: ProjectSettings, met: set<int>, ds: seq<RemoteDeployment>, e: RemoteDeployment,
      before: Tables, after: Tables)
    requires forall x :: x in ds && x.id == e.id ==> x == e
    requires listed.deployments == before.deployments
    requires after.deployments == PutDeployments(listed, p, met, ds).0.deployments
    ensures e in ds || Mirrors(before, e) ==> Mirrors(after, e)
  {
    BatchEffect(listed, p, met, ds, e);
    hide PutDeployments;
  }

  lemma RunKeepsTrack(h: Timeline, p: ProjectSettings, l: Ledger, a: Attempt)
    requires Honest(h) && Tracks(h, l) && Follows(h, l, a)
    requires Collect(l.tables, p, a).1 ==> Reaches(l, a)
    ensures Tracks(h, Extend(p, l, a))
  {
    hide Collect, UpdatedAfter, Since, PutDeployments, Mirrors, IdsOf, Upserted, WholeSeconds, Honest, Reaches;
    var l' := Extend(p, l, a);
    if l'.progress.Some? {
      forall t, d | a.fetchedAt <= t && d in h(t)
                    && l'.progress.value.windowStart < d.updatedAt <= l'.progress.value.fetchedAt
        ensures Mirrors(l'.tables, d)
      {
        RunMirrors(h, p, l, a, t, d);
      }
    }
  }

  lemma {:induction false} TracksAlways(h: Timeline, p: ProjectSettings, runs: seq<Attempt>)
    requires Honest(h) && InOrder(h, p, runs) && AllReach(p, runs)
    ensures Tracks(h, LedgerAfter(p, runs))
  {
    if |runs| != 0 {
      hide Extend, Tracks, Follows, Reaches, Collect;
      var k := |runs| - 1;
      TracksAlways(h, p, runs[..k]);
      RunKeepsTrack(h, p, LedgerAfter(p, runs[..k]), runs[k]);
    } else {
      assert Tracks(h, LedgerAfter(p, runs));
    }
  }

  /** Main result. After any sequence of non-overlapping runs that ends with a
      successful one, failed ones included, each deployment GitLab held at its fetch
      and last updated after the first successful run's window start is stored with
      the status and finish time it had at that fetch, provided each successful
      run's window went back to the successful fetch before it. */
  lemma StoredAsFetched(h: Timeline, p: ProjectSettings, runs: seq<Attempt>, d: RemoteDeployment)
    requires Honest(h) && InOrder(h, p, runs) && AllReach(p, runs) && |runs| > 0
    requires var l, a := LedgerAfter(p, runs[..|runs| - 1]), runs[|runs| - 1];
             Collect(l.tables, p, a).1 && d in h(a.fetchedAt)
    requires LedgerAfter(p, runs).progress.value.windowStart < d.updatedAt
    ensures Mirrors(LedgerAfter(p, runs).tables, d)
  {
    hide Collect, Reaches;
    TracksAlways(h, p, runs);
  }

  // ---------- the hour of overlap ----------

  /** The run ends, to the second, no later than an hour after its fetch. */
  predicate Prompt(a: Attempt) { WholeSeconds(a.finishedAt - 3_600_000_000_000) <= a.fetchedAt }

  /** Every successful run is prompt. */
  ghost predicate AllPrompt(p: ProjectSettings, runs: seq<Attempt>) {
    |runs| > 0 ==>
      && AllPrompt(p, runs[..|runs| - 1])
      && (Collect(LedgerAfter(p, runs[..|runs| - 1]).tables, p, runs[|runs| - 1]).1 ==> Prompt(runs[|runs| - 1]))
  }

  /** The stamp, less the hour, is no later than the last successful fetch. */
  predicate StampIsEarly(l: Ledger) {
    && (l.tables.lastSynced.Some? <==> l.progress.Some?)
    && (l.progress.Some? ==> WholeSeconds(l.tables.lastSynced.value - HOUR) <= l.progress.value.fetchedAt)
  }

  lemma PromptKeepsStampEarly(p: ProjectSettings, l: Ledger, a: Attempt)
    requires StampIsEarly(l) && (Collect(l.tables, p, a).1 ==> Prompt(a))
    ensures StampIsEarly(Extend(p, l, a))
  {
    hide Collect, Since, WholeSeconds, IdsOf, UpdatedAfter, PutDeployments, Upserted;
    var _ := RunEffect(l.tables, p, a);
  }

  lemma {:induction false} PromptStampIsEarly(p: ProjectSettings, runs: seq<Attempt>)
    requires AllPrompt(p, runs)
    ensures StampIsEarly(LedgerAfter(p, runs))
  {
    if |runs| != 0 {
      hide Collect, Extend, StampIsEarly, Prompt;
      var k := |runs| - 1;
      PromptStampIsEarly(p, runs[..k]);
      PromptKeepsStampEarly(p, LedgerAfter(p, runs[..k]), runs[k]);
    } else {
      assert StampIsEarly(LedgerAfter(p, runs));
    }
  }

  /** An hour's overlap is enough whenever the runs before were prompt; the last one
      may take its time, and a backfill only helps. */
  lemma {:induction false} PromptRunsReach(p: ProjectSettings, runs: seq<Attempt>)
    requires |runs| > 0 ==> AllPrompt(p, runs[..|runs| - 1])
    ensures AllReach(p, runs)
  {
    if |runs| != 0 {
      hide Collect, Since, WholeSeconds;
      var k := |runs| - 1;
      PromptRunsReach(p, runs[..k]);
      PromptStampIsEarly(p, runs[..k]);
      StampReaches(LedgerAfter(p, runs[..k]), runs[k]);
    }
  }

  lemma StampReaches(l: Ledger, a: Attempt)
    requires StampIsEarly(l)
    ensures Reaches(l, a)
  {
    if l.progress.Some? {
      BackfillOnlyWidens(l.tables.lastSynced, a.startedAt, a.backfillDays);
      var late, since := l.tables.lastSynced.value - HOUR, Since(l.tables.lastSynced, a.startedAt, a.backfillDays);
      assert since / SECOND <= late / SECOND;
      assert WholeSeconds(since) == since / SECOND * SECOND && WholeSeconds(late) == late / SECOND * SECOND;
    }
  }

  /** So prompt runs store what they fetch, with no word about windows. */
  lemma PromptRunsStoreAsFetched(h: Timeline, p: ProjectSettings, runs: seq<Attempt>, d: RemoteDeployment)
    requires Honest(h) && InOrder(h, p, runs) && |runs| > 0 && AllPrompt(p, runs[..|runs| - 1])
    requires var l, a := LedgerAfter(p, runs[..|runs| - 1]), runs[|runs| - 1];
             Collect(l.tables, p, a).1 && d in h(a.fetchedAt)
    requires LedgerAfter(p, runs).progress.value.windowStart < d.updatedAt
    ensures Mirrors(LedgerAfter(p, runs).tables, d)
  {
    hide Collect, Mirrors;
    PromptRunsReach(p, runs);
    StoredAsFetched(h, p, runs, d);
  }

  /** The reach is needed: for any two successful runs the second of which looks
      back less far than the first one's fetch, whatever its start and backfill,
      there is a history whose update it misses. */
  lemma NarrowWindowLosesAnUpdate(
      p: ProjectSettings, fetchedAt: int, finishedAt: int, startedAt: int, backfillDays: int)
    returns (h: Timeline, runs: seq<Attempt>, d: RemoteDeployment)
    requires fetchedAt <= finishedAt <= startedAt
    requires WholeSeconds(Since(Some(finishedAt), startedAt, backfillDays)) > fetchedAt
    ensures Honest(h) && InOrder(h, p, runs) && |runs| == 2
    ensures runs[0].fetchedAt == fetchedAt && runs[0].finishedAt == finishedAt
    ensures runs[1].startedAt == startedAt && runs[1].backfillDays == backfillDays
    ensures forall a :: a in runs ==> a.fault.NoFault? && a.startedAt <= a.fetchedAt <= a.finishedAt
    ensures d in h(runs[1].fetchedAt)
    ensures var progress := LedgerAfter(p, runs).progress; progress.Some? && progress.value.windowStart < d.updatedAt
    ensures !Mirrors(LedgerAfter(p, runs).tables, d)
  {
    hide Collect, Mirrors, LedgerAfter, UpdatedAfter, WholeSeconds, Since, Honest, InOrder;
    var e := RemoteDeployment(1, RemoteEnvironment(1, "production"), "sha", None, "success", Some(0), fetchedAt + 1);
    d := e;
    h := t => if t <= fetchedAt then [] else [e];
    var a := Attempt(fetchedAt, 0, fetchedAt, finishedAt, [], [], [], NoFault);
    var b := Attempt(startedAt, backfillDays, startedAt, startedAt, [], [e], [], NoFault);
    runs := [a, b];
    WindowsAreLate(finishedAt, startedAt, fetchedAt, backfillDays);
    OneLateUpdate(h, fetchedAt, e);
    TwoRuns(p, a, b);
    var start, middle := LedgerAfter(p, []), LedgerAfter(p, [a]);
    TwoRunsInOrder(h, p, a, b);
    SucceedsWithoutFault(start.tables, p, a);
    SucceedsWithoutFault(middle.tables, p, b);
    NoneUpdated([], Since(None, a.startedAt, 0));
    NothingFetched(start.tables, p, a);
    NoneUpdated([e], Since(Some(finishedAt), startedAt, backfillDays));
    NothingFetched(middle.tables, p, b);
    NotStored(LedgerAfter(p, runs).tables, e);
  }

  lemma WindowsAreLate(finishedAt: int, startedAt: int, fetchedAt: int, backfillDays: int)
    requires finishedAt <= startedAt
    requires WholeSeconds(Since(Some(finishedAt), startedAt, backfillDays)) > fetchedAt
    ensures fetchedAt < startedAt
    ensures Since(None, fetchedAt, 0) <= fetchedAt
  {
    BackfillOnlyWidens(Some(finishedAt), startedAt, backfillDays);
  }

  lemma OneLateUpdate(h: Timeline, at: int, e: RemoteDeployment)
    requires e.updatedAt == at + 1 && forall t :: h(t) == if t <= at then [] else [e]
    ensures Honest(h)
  {
    assert SameReading(e, e);
  }

  lemma TwoRunsInOrder(h: Timeline, p: ProjectSettings, a: Attempt, b: Attempt)
    requires a.fetchedAt <= b.fetchedAt && a.deployments == h(a.fetchedAt) && b.deployments == h(b.fetchedAt)
    ensures InOrder(h, p, [a, b])
  {
    hide Collect, Since;
    assert [a, b][..1] == [a] && [a][..0] == [];
    assert InOrder(h, p, []) && InOrder(h, p, [a]);
    TwoRuns(p, a, b);
  }

  lemma {:induction false} NoneUpdated(all: seq<RemoteDeployment>, since: int)
    requires forall d :: d in all ==> d.updatedAt <= WholeSeconds(since)
    ensures UpdatedAfter(all, since) == []
  {
    if |all| != 0 {
      NoneUpdated(all[..|all| - 1], since);
    }
  }

  /** In particular the hour is needed: whenever a first run ends later than an hour
      after its fetch, the run that starts right after it can miss an update. */
  lemma SlowRunLosesAnUpdate(p: ProjectSettings, fetchedAt: int, finishedAt: int)
    returns (h: Timeline, runs: seq<Attempt>, d: RemoteDeployment)
    requires WholeSeconds(finishedAt - HOUR) > fetchedAt
    ensures Honest(h) && InOrder(h, p, runs) && |runs| == 2
    ensures runs[0].fetchedAt == fetchedAt && runs[0].finishedAt == finishedAt <= runs[1].startedAt
    ensures forall a :: a in runs ==> a.fault.NoFault? && a.startedAt <= a.fetchedAt <= a.finishedAt
    ensures d in h(runs[1].fetchedAt)
    ensures var progress := LedgerAfter(p, runs).progress; progress.Some? && progress.value.windowStart < d.updatedAt
    ensures !Mirrors(LedgerAfter(p, runs).tables, d)
  {
    hide Honest, InOrder, Mirrors, LedgerAfter, WholeSeconds;
    h, runs, d := NarrowWindowLosesAnUpdate(p, fetchedAt, finishedAt, finishedAt, 0);
  }

  lemma TwoRuns(p: ProjectSettings, a: Attempt, b: Attempt)
    ensures LedgerAfter(p, []) == Ledger(Tables(map[], map[], map[], {}, None), None, None)
    ensures LedgerAfter(p, [a]) == Extend(p, LedgerAfter(p, []), a)
    ensures LedgerAfter(p, [a, b]) == Extend(p, LedgerAfter(p, [a]), b)
  {
    assert [a, b][..1] == [a] && [a][..0] == [];
  }

  lemma NotStored(t: Tables, d: RemoteDeployment)
    requires d.id !in t.deployments
    ensures !Mirrors(t, d)
  {}

  lemma NothingFetched(t: Tables, p: ProjectSettings, a: Attempt)
    requires a.fault.NoFault?
    requires UpdatedAfter(a.deployments, Since(t.lastSynced, a.startedAt, a.backfillDays)) == []
    ensures Collect(t, p, a).0.deployments == t.deployments
    ensures Collect(t, p, a).0.lastSynced == Some(a.finishedAt)
  {
    SucceedsWithoutFault(t, p, a);
    var _ := RunEffect(t, p, a);
  }

  lemma SucceedsWithoutFault(t: Tables, p: ProjectSettings, a: Attempt)
    requires a.fault.NoFault?
    ensures Collect(t, p, a).1
  {}

  // ---------- everything one run stores ----------

  /** GitLab lists each id once. */
  ghost predicate OneEach(a: Attempt) {
    && (forall x, y :: x in a.environments && y in a.environments && x.id == y.id ==> x == y)
    && (forall x, y :: x in a.deployments && y in a.deployments && x.id == y.id ==> x == y)
    && (forall x, y :: x in a.mergeRequests && y in a.mergeRequests && x.id == y.id ==> x == y)
  }

  /** A listed merge request the window lets in. */
  predicate Wanted(m: RemoteMergeRequest, branch: string, since: int) {
    m.state == "merged" && m.row.targetBranch == branch && m.updatedAt > WholeSeconds(since)
  }

  lemma {:induction false} MergedAfterIff(all: seq<RemoteMergeRequest>, branch: string, since: int)
    ensures forall m :: m in MergedAfter(all, branch, since) <==> m in all && Wanted(m, branch, since)
  {
    if |all| != 0 {
      var k := |all| - 1;
      MergedAfterIff(all[..k], branch, since);
      assert forall m :: m in all <==> m in all[..k] || m == all[k];
    }
  }

  /** A batch of merge requests stores each with its row and leaves the others. */
  lemma {:induction false} RequestsStored(t: Tables, ms: seq<RemoteMergeRequest>, id: int)
    requires forall x, y :: x in ms && y in ms && x.id == y.id ==> x == y
    ensures var t' := PutMergeRequests(t, ms);
      && (forall m :: m in ms && m.id == id ==> id in t'.mergeRequests && t'.mergeRequests[id] == m.row)
      && ((forall m :: m in ms ==> m.id != id) ==>
            (id in t'.mergeRequests <==> id in t.mergeRequests)
            && (id in t.mergeRequests ==> t'.mergeRequests[id] == t.mergeRequests[id]))
  {
    if |ms| != 0 {
      var k := |ms| - 1;
      RequestsStored(t, ms[..k], id);
      assert forall m :: m in ms <==> m in ms[..k] || m == ms[k];
    }
  }

  /** A listed environment is stored with its name and whether that is a production one. */
  lemma {:induction false} EnvironmentsStored(t: Tables, p: ProjectSettings, es: seq<RemoteEnvironment>, id: int)
    requires forall x, y :: x in es && y in es && x.id == y.id ==> x == y
    ensures var t' := PutEnvironments(t, p, es);
      && (forall e | e in es && e.id == id ::
            id in t'.environments && t'.environments[id] == StoredEnvironment(e.name, p.isProductionName(e.name)))
      && ((forall e :: e in es ==> e.id != id) ==>
            (id in t'.environments <==> id in t.environments)
            && (id in t.environments ==> t'.environments[id] == t.environments[id]))
  {
    if |es| != 0 {
      var k := |es| - 1;
      EnvironmentsStored(t, p, es[..k], id);
      assert forall e :: e in es <==> e in es[..k] || e == es[k];
    }
  }

  /** The first deployment of a batch to name an environment not met before. */
  predicate FirstNaming(ds: seq<RemoteDeployment>, i: nat, id: int) {
    && i < |ds| && ds[i].environment.id == id
    && forall k :: 0 <= k < i ==> ds[k].environment.id != id
  }

  /** A batch stores new deployments whole, follows status and finish of known ones,
      and leaves the others. */
  lemma {:induction false} DeploymentsStored(
      t: Tables, p: ProjectSettings, met: set<int>, ds: seq<RemoteDeployment>, d: RemoteDeployment)
    requires forall x :: x in ds && x.id == d.id ==> x == d
    ensures var t' := PutDeployments(t, p, met, ds).0;
      && (d in ds && d.id in t.deployments ==>
            && d.id in t'.deployments
            && t'.deployments[d.id] == t.deployments[d.id].(status := d.status, finishedAt := d.finishedAt))
      && (d in ds && d.id !in t.deployments ==>
            && d.id in t'.deployments
            && t'.deployments[d.id]
               == StoredDeployment(d.environment.id, d.sha, d.startedAt, d.status, d.finishedAt))
      && (d !in ds ==>
            && (d.id in t'.deployments <==> d.id in t.deployments)
            && (d.id in t.deployments ==> t'.deployments[d.id] == t.deployments[d.id]))
  {
    if |ds| != 0 {
      DeploymentsStored(t, p, met, ds[..|ds| - 1], d);
    }
  }

  /** An environment not met before is inserted as its first deployment names it. */
  lemma {:induction false} NamedEnvironmentsStored(
      t: Tables, p: ProjectSettings, met: set<int>, ds: seq<RemoteDeployment>, id: int)
    ensures var (t', met') := PutDeployments(t, p, met, ds);
      && (id in met' <==> id in met || exists x :: x in ds && x.environment.id == id)
      && (id in met || (forall x :: x in ds ==> x.environment.id != id) ==>
            && (id in t'.environments <==> id in t.environments)
            && (id in t.environments ==> t'.environments[id] == t.environments[id]))
      && (forall i: nat | id !in met && FirstNaming(ds, i, id) ::
            && id in t'.environments
            && t'.environments[id]
               == StoredEnvironment(ds[i].environment.name, p.isProductionName(ds[i].environment.name)))
  {
    if |ds| != 0 {
      var k := |ds| - 1;
      var front := ds[..k];
      NamedEnvironmentsStored(t, p, met, front, id);
      assert forall x :: x in ds <==> x in front || x == ds[k];
      forall i: nat | FirstNaming(ds, i, id)
        ensures if i < k then FirstNaming(front, i, id) else forall x :: x in front ==> x.environment.id != id
      {
        assert forall j :: 0 <= j < k ==> front[j] == ds[j];
      }
      if i: nat :| i < k && FirstNaming(ds, i, id) {
        assert front[i] in front;
      }
    }
  }

  /** Main result, for one successful run on any tables. Every listed environment is
      stored with its name and whether that is a production one; every deployment
      the window lets in is stored whole if new and otherwise follows status and
      finish; every merged request on the default branch the window lets in is
      stored with its row; and rows of the three kinds outside the batches are as
      before, save for environments only deployments name. */
  lemma SuccessStoresEverything(t: Tables, p: ProjectSettings, a: Attempt)
    requires OneEach(a) && Collect(t, p, a).1
    ensures var t', since := Collect(t, p, a).0, Since(t.lastSynced, a.startedAt, a.backfillDays);
      && t'.lastSynced == Some(a.finishedAt)
      && (forall e | e in a.environments ::
            e.id in t'.environments && t'.environments[e.id] == StoredEnvironment(e.name, p.isProductionName(e.name)))
      && (forall d | d in a.deployments && d.updatedAt > WholeSeconds(since) ::
            && d.id in t'.deployments
            && t'.deployments[d.id] ==
               if d.id in t.deployments then t.deployments[d.id].(status := d.status, finishedAt := d.finishedAt)
               else StoredDeployment(d.environment.id, d.sha, d.startedAt, d.status, d.finishedAt))
      && (forall d | d in a.deployments && d.updatedAt > WholeSeconds(since) :: d.environment.id in t'.environments)
      && (forall m | m in a.mergeRequests && Wanted(m, p.defaultBranch, since) ::
            m.id in t'.mergeRequests && t'.mergeRequests[m.id] == m.row)
      && (forall id | forall m :: m in a.mergeRequests && Wanted(m, p.defaultBranch, since) ==> m.id != id ::
            (id in t'.mergeRequests <==> id in t.mergeRequests)
            && (id in t.mergeRequests ==> t'.mergeRequests[id] == t.mergeRequests[id]))
  {
    hide PutEnvironments, PutDeployments, PutMergeRequests, UpdatedAfter, MergedAfter, Since, IdsOf, ProductionList;
    hide Wanted, WholeSeconds;
    var since := Since(t.lastSynced, a.startedAt, a.backfillDays);
    var listed := PutEnvironments(t, p, a.environments);
    var batch, requests := UpdatedAfter(a.deployments, since), MergedAfter(a.mergeRequests, p.defaultBranch, since);
    var met := IdsOf(a.environments);
    var stored := PutDeployments(listed, p, met, batch).0;
    var t' := Collect(t, p, a).0;
    EnvironmentsOnly(t, p, a.environments);
    DeploymentsOnly(listed, p, met, batch);
    OnlyRequestsChange(stored, requests);
    assert t'.environments == stored.environments && t'.deployments == stored.deployments;
    assert t'.mergeRequests == PutMergeRequests(stored, requests).mergeRequests;
    MergedAfterIff(a.mergeRequests, p.defaultBranch, since);
    forall e | e in a.environments
      ensures e.id in t'.environments && t'.environments[e.id] == StoredEnvironment(e.name, p.isProductionName(e.name))
    {
      EnvironmentsStored(t, p, a.environments, e.id);
      MetIfListed(a.environments, e);
      NamedEnvironmentsStored(listed, p, met, batch, e.id);
    }
    forall d | d in a.deployments && d.updatedAt > WholeSeconds(since)
      ensures d.id in t'.deployments
      ensures t'.deployments[d.id] ==
              if d.id in t.deployments then t.deployments[d.id].(status := d.status, finishedAt := d.finishedAt)
              else StoredDeployment(d.environment.id, d.sha, d.startedAt, d.status, d.finishedAt)
      ensures d.environment.id in t'.environments
    {
      DeploymentsStored(listed, p, met, batch, d);
      NamedIsStored(t, p, a.environments, batch, d);
    }
    forall id
      ensures (forall m :: m in requests && m.id == id ==>
                 id in t'.mergeRequests && t'.mergeRequests[id] == m.row)
      ensures (forall m :: m in requests ==> m.id != id) ==>
                && (id in t'.mergeRequests <==> id in t.mergeRequests)
                && (id in t.mergeRequests ==> t'.mergeRequests[id] == t.mergeRequests[id])
    {
      RequestsStored(stored, requests, id);
    }
  }

  lemma MetIfListed(es: seq<RemoteEnvironment>, e: RemoteEnvironment)
    requires e in es
    ensures e.id in IdsOf(es)
  {}

  lemma {:induction false} OnlyRequestsChange(t: Tables, ms: seq<RemoteMergeRequest>)
    ensures PutMergeRequests(t, ms) == t.(mergeRequests := PutMergeRequests(t, ms).mergeRequests)
  {
    if |ms| != 0 {
      OnlyRequestsChange(t, ms[..|ms| - 1]);
    }
  }

  /** A stored deployment's environment is stored too. */
  lemma NamedIsStored(
      t: Tables, p: ProjectSettings, es: seq<RemoteEnvironment>, batch: seq<RemoteDeployment>, d: RemoteDeployment)
    requires d in batch
    ensures d.environment.id in PutDeployments(PutEnvironments(t, p, es), p, IdsOf(es), batch).0.environments
  {
    hide PutDeployments, PutEnvironments;
    var id, listed := d.environment.id, PutEnvironments(t, p, es);
    NamedEnvironmentsStored(listed, p, IdsOf(es), batch, id);
    if id in IdsOf(es) {
      ListedAreStored(t, p, es, id);
    } else {
      var i := FirstToName(batch, d);
      assert FirstNaming(batch, i, id);
    }
  }

  lemma {:induction false} ListedAreStored(t: Tables, p: ProjectSettings, es: seq<RemoteEnvironment>, id: int)
    requires id in IdsOf(es)
    ensures id in PutEnvironments(t, p, es).environments
  {
    var k := |es| - 1;
    if es[k].id != id {
      assert forall e :: e in es <==> e in es[..k] || e == es[k];
      ListedAreStored(t, p, es[..k], id);
    }
  }

  lemma {:induction false} FirstToName(ds: seq<RemoteDeployment>, d: RemoteDeployment) returns (i: nat)
    requires d in ds
    ensures FirstNaming(ds, i, d.environment.id)
  {
    i := 0;
    while ds[i].environment.id != d.environment.id
      invariant i < |ds| && forall k :: 0 <= k < i ==> ds[k].environment.id != d.environment.id
      decreases |ds| - i
    {
      var at :| 0 <= at < |ds| && ds[at] == d;
      i := i + 1;
    }
  }

  // ---------- merge requests over runs ----------

  /** The merge requests GitLab holds at each moment. */
  type RequestTimeline = int -> seq<RemoteMergeRequest>

  ghost predicate HonestRequests(g: RequestTimeline) {
    && (forall t, m :: m in g(t) ==> m.updatedAt <= t)
    && (forall t, m, n :: m in g(t) && n in g(t) && m.id == n.id ==> m == n)
    && (forall t, t', m :: t <= t' && m in g(t') && m.updatedAt <= t ==> m in g(t))
  }

  /** Runs fetch one after another and see the merge requests of their moment. */
  ghost predicate RequestsInOrder(g: RequestTimeline, runs: seq<Attempt>) {
    && (forall i :: 0 <= i < |runs| ==> runs[i].mergeRequests == g(runs[i].fetchedAt))
    && forall i, j :: 0 <= i < j < |runs| ==> runs[i].fetchedAt <= runs[j].fetchedAt
  }

  predicate Holds(t: Tables, m: RemoteMergeRequest) {
    m.id in t.mergeRequests && t.mergeRequests[m.id] == m.row
  }

  lemma {:induction false} SameRequests(t: Tables, u: Tables, ms: seq<RemoteMergeRequest>)
    requires t.mergeRequests == u.mergeRequests
    ensures PutMergeRequests(t, ms).mergeRequests == PutMergeRequests(u, ms).mergeRequests
  {
    if |ms| != 0 {
      SameRequests(t, u, ms[..|ms| - 1]);
    }
  }

  /** What a run does to the merge requests: upserts some of its batch, all of it
      when it succeeds. */
  lemma RequestsEffect(t: Tables, p: ProjectSettings, a: Attempt) returns (ms: seq<RemoteMergeRequest>)
    ensures var since := Since(t.lastSynced, a.startedAt, a.backfillDays);
            var (t', ok) := Collect(t, p, a);
      && (forall m :: m in ms ==> m in a.mergeRequests && Wanted(m, p.defaultBranch, since))
      && (ok ==> forall m :: m in a.mergeRequests && Wanted(m, p.defaultBranch, since) ==> m in ms)
      && t'.mergeRequests == PutMergeRequests(t, ms).mergeRequests
  {
    hide PutEnvironments, PutDeployments, PutUntil, UpdatedAfter, MergedAfter, Since, IdsOf, ProductionList, Wanted;
    var since := Since(t.lastSynced, a.startedAt, a.backfillDays);
    var batch, requests := UpdatedAfter(a.deployments, since), MergedAfter(a.mergeRequests, p.defaultBranch, since);
    MergedAfterIff(a.mergeRequests, p.defaultBranch, since);
    var stopped := a.fault.AtEnvironment? && a.fault.done < |a.environments|;
    var es := if stopped then a.environments[..a.fault.done] else a.environments;
    EnvironmentsOnly(t, p, es);
    var listed := PutEnvironments(t, p, es);
    ms := [];
    if !stopped && !a.fault.AtDeploymentList? {
      if a.fault.AtDeployment? && a.fault.done < |batch| {
        PutUntilGrows(listed, p, IdsOf(es), batch, a.fault.done, a.fault.environmentStored);
      } else {
        DeploymentsOnly(listed, p, IdsOf(es), batch);
        var stored := PutDeployments(listed, p, IdsOf(es), batch).0;
        ms := if a.fault.AtMergeRequestList? then []
              else if a.fault.AtMergeRequest? && a.fault.done < |requests| then requests[..a.fault.done]
              else requests;
        SameRequests(t, stored, ms);
        OnlyRequestsChange(stored, ms);
        RestRequests(stored, p, a, since, ms);
      }
    }
  }

  lemma RestRequests(t: Tables, p: ProjectSettings, a: Attempt, since: int, ms: seq<RemoteMergeRequest>)
    requires var requests := MergedAfter(a.mergeRequests, p.defaultBranch, since);
             ms == if a.fault.AtMergeRequestList? then []
                   else if a.fault.AtMergeRequest? && a.fault.done < |requests| then requests[..a.fault.done]
                   else requests
    ensures CollectRest(t, p, a, since).0.mergeRequests == PutMergeRequests(t, ms).mergeRequests
    ensures CollectRest(t, p, a, since).1 ==> ms == MergedAfter(a.mergeRequests, p.defaultBranch, since)
  {
    hide MergedAfter, ProductionList, PassLinks;
  }

  /** Every merged request on the default branch last updated after the window start
      and no later than the last successful fetch is stored with its row. */
  ghost predicate TracksRequests(g: RequestTimeline, branch: string, l: Ledger) {
    l.progress.Some? ==>
      && l.lastFetch.Some? && l.progress.value.fetchedAt <= l.lastFetch.value
      && forall t, m | l.lastFetch.value <= t && m in g(t) && m.state == "merged" && m.row.targetBranch == branch
                       && l.progress.value.windowStart < m.updatedAt <= l.progress.value.fetchedAt ::
           Holds(l.tables, m)
  }

  lemma RunHolds(g: RequestTimeline, p: ProjectSettings, l: Ledger, a: Attempt, t: int, m: RemoteMergeRequest)
    requires HonestRequests(g) && TracksRequests(g, p.defaultBranch, l) && a.mergeRequests == g(a.fetchedAt)
    requires l.lastFetch.Some? ==> l.lastFetch.value <= a.fetchedAt
    requires Collect(l.tables, p, a).1 ==> Reaches(l, a)
    requires var l' := Extend(p, l, a);
             && l'.progress.Some? && a.fetchedAt <= t && m in g(t)
             && m.state == "merged" && m.row.targetBranch == p.defaultBranch
             && l'.progress.value.windowStart < m.updatedAt <= l'.progress.value.fetchedAt
    ensures Holds(Extend(p, l, a).tables, m)
  {
    hide Collect, PutMergeRequests, Since;
    var since := Since(l.tables.lastSynced, a.startedAt, a.backfillDays);
    var ms := RequestsEffect(l.tables, p, a);
    assert m in g(a.fetchedAt);
    RequestsStored(l.tables, ms, m.id);
    if m !in ms {
      assert Holds(l.tables, m);
    }
  }

  lemma RunKeepsRequests(g: RequestTimeline, p: ProjectSettings, l: Ledger, a: Attempt)
    requires HonestRequests(g) && TracksRequests(g, p.defaultBranch, l) && a.mergeRequests == g(a.fetchedAt)
    requires l.lastFetch.Some? ==> l.lastFetch.value <= a.fetchedAt
    requires Collect(l.tables, p, a).1 ==> Reaches(l, a)
    ensures TracksRequests(g, p.defaultBranch, Extend(p, l, a))
  {
    hide Collect, Since, Holds, WholeSeconds, HonestRequests, Reaches;
    var l' := Extend(p, l, a);
    if l'.progress.Some? {
      forall t, m | a.fetchedAt <= t && m in g(t) && m.state == "merged" && m.row.targetBranch == p.defaultBranch
                    && l'.progress.value.windowStart < m.updatedAt <= l'.progress.value.fetchedAt
        ensures Holds(l'.tables, m)
      {
        RunHolds(g, p, l, a, t, m);
      }
    }
  }

  /** Main result, for merge requests, over the runs `TracksAlways` speaks of: failed
      ones included, every merged request on the default branch updated between the
      first window start and the last successful fetch is stored with its row. */
  lemma {:induction false} TracksRequestsAlways(g: RequestTimeline, p: ProjectSettings, runs: seq<Attempt>)
    requires HonestRequests(g) && RequestsInOrder(g, runs) && AllReach(p, runs)
    ensures TracksRequests(g, p.defaultBranch, LedgerAfter(p, runs))
    ensures |runs| > 0 ==> LedgerAfter(p, runs).lastFetch == Some(runs[|runs| - 1].fetchedAt)
    ensures |runs| == 0 ==> LedgerAfter(p, runs).lastFetch.None?
  {
    if |runs| != 0 {
      hide TracksRequests, HonestRequests, Reaches, Collect;
      var k := |runs| - 1;
      TracksRequestsAlways(g, p, runs[..k]);
      RunKeepsRequests(g, p, LedgerAfter(p, runs[..k]), runs[k]);
    } else {
      assert TracksRequests(g, p.defaultBranch, LedgerAfter(p, runs));
    }
  }

  // ---------- attribution by a run ----------

  /** A successful production deployment of the tables, finished at the given time. */
  predicate Delivers(t: Tables, id: int, finishedAt: int) {
    && id in t.deployments
    && t.deployments[id].status == "success" && t.deployments[id].finishedAt == Some(finishedAt)
    && t.deployments[id].environment in t.environments && t.environments[t.deployments[id].environment].isProduction
  }

  lemma ListedIffDelivers(t: Tables, id: int, finishedAt: int)
    ensures Row(id, finishedAt) in ProductionList(t) <==> Delivers(t, id, finishedAt)
  {
    assert Row(id, finishedAt) in ProductionRows(t) <==> Delivers(t, id, finishedAt);
  }

  /** Told without lists or passes: a merge request of the default branch, not a bot's,
      merged at x; d a successful production deployment finished at or after x, none
      other finishing sooner since x, or at the same instant under a smaller id; and
      some such deployment finishing less than 30 days after x. */
  ghost predicate FirstDelivery(t: Tables, p: ProjectSettings, d: int, m: int) {
    && m in t.mergeRequests && t.mergeRequests[m].mergedAt.Some?
    && t.mergeRequests[m].targetBranch == p.defaultBranch && !t.mergeRequests[m].authorIsBot
    && var x := t.mergeRequests[m].mergedAt.value;
       && (exists f :: Delivers(t, d, f) && x <= f
                       && forall e, g | Delivers(t, e, g) && x <= g :: f < g || (f == g && d <= e))
       && exists e, f :: Delivers(t, e, f) && f < x + 2_592_000_000_000_000
  }

  lemma PassLinksFirstDeliveries(t: Tables, p: ProjectSettings, d: int, m: int)
    ensures (d, m) in LinksOfPass(t, p) <==> FirstDelivery(t, p, d, m)
  {
    hide ProductionList, PassLinks, Delivers, FirstIndex;
    var list := ProductionList(t);
    ListIsOrdered(t);
    LinkedIff(list, t.mergeRequests, p.defaultBranch, d, m);
    forall id, f ensures Row(id, f) in list <==> Delivers(t, id, f) {
      ListedIffDelivers(t, id, f);
    }
    if m in t.mergeRequests && Attributable(t.mergeRequests[m], p.defaultBranch) {
      FirstIffFirstDelivery(t, p, list, d, m, t.mergeRequests[m].mergedAt.value);
    }
  }

  lemma FirstIffFirstDelivery(t: Tables, p: ProjectSettings, list: seq<Row>, d: int, m: int, x: int)
    requires Listed(list) && forall id, f :: Row(id, f) in list <==> Delivers(t, id, f)
    requires m in t.mergeRequests && Attributable(t.mergeRequests[m], p.defaultBranch)
    requires t.mergeRequests[m].mergedAt == Some(x)
    ensures FirstFor(list, t.mergeRequests[m], p.defaultBranch, d) <==> FirstDelivery(t, p, d, m)
  {
    hide Delivers, FirstIndex;
    if FirstFor(list, t.mergeRequests[m], p.defaultBranch, d) {
      var i := FirstIndex(list, x);
      assert Row(d, list[i].finishedAt) in list && Row(list[0].id, list[0].finishedAt) in list;
      forall e, g | Delivers(t, e, g) && x <= g
        ensures list[i].finishedAt < g || (list[i].finishedAt == g && d <= e)
      {
        assert Row(e, g) in list;
        var j: nat :| j < |list| && list[j] == Row(e, g);
        assert i <= j && (i < j ==> Before(list[i], list[j]));
      }
      assert Delivers(t, list[0].id, list[0].finishedAt);
    }
    if FirstDelivery(t, p, d, m) {
      var f :| Delivers(t, d, f) && x <= f
               && forall e, g | Delivers(t, e, g) && x <= g :: f < g || (f == g && d <= e);
      var e, near :| Delivers(t, e, near) && near < x + 2_592_000_000_000_000;
      assert Row(d, f) in list && Row(e, near) in list;
      var i: nat :| i < |list| && list[i] == Row(d, f);
      var k: nat :| k < |list| && list[k] == Row(e, near);
      assert k == 0 || Before(list[0], list[k]);
      assert i == |list| - 1 || Before(list[i], list[|list| - 1]);
      forall j | 0 <= j < i ensures list[j].finishedAt < x {
        assert Before(list[j], list[i]) && Row(list[j].id, list[j].finishedAt) in list;
      }
      assert FirstAtOrAfter(list, x, i);
      FirstIsFirstIndex(list, x, i);
    }
  }

  /** Main result, on the tables alone, for any run. What a run links anew is a first
      delivery by the tables it leaves, and a successful run links all of those. */
  lemma RunsLinkFirstDeliveries(t: Tables, p: ProjectSettings, a: Attempt, d: int, m: int)
    ensures var (t', ok) := Collect(t, p, a);
      && ((d, m) in t'.links ==> (d, m) in t.links || FirstDelivery(t', p, d, m))
      && (ok ==> ((d, m) in t'.links <==> (d, m) in t.links || FirstDelivery(t', p, d, m)))
  {
    hide Collect, LinksOfPass, FirstDelivery;
    RunLinks(t, p, a);
    PassLinksFirstDeliveries(Collect(t, p, a).0, p, d, m);
  }

  // ---------- what no run takes away ----------

  /** Rows and links stay, and a stored deployment keeps the environment, commit
      and start time of its first insert. */
  ghost predicate Grown(t: Tables, t': Tables) {
    && t.environments.Keys <= t'.environments.Keys
    && t.mergeRequests.Keys <= t'.mergeRequests.Keys
    && t.links <= t'.links
    && forall id :: id in t.deployments ==>
         && id in t'.deployments
         && t'.deployments[id].(status := "", finishedAt := None)
            == t.deployments[id].(status := "", finishedAt := None)
  }

  lemma {:induction false} EnvironmentsGrow(t: Tables, p: ProjectSettings, es: seq<RemoteEnvironment>)
    ensures Grown(t, PutEnvironments(t, p, es))
  {
    if |es| != 0 {
      EnvironmentsGrow(t, p, es[..|es| - 1]);
    }
  }

  lemma {:induction false} DeploymentsGrow(t: Tables, p: ProjectSettings, met: set<int>, ds: seq<RemoteDeployment>)
    ensures Grown(t, PutDeployments(t, p, met, ds).0)
  {
    if |ds| != 0 {
      DeploymentsGrow(t, p, met, ds[..|ds| - 1]);
    }
  }

  lemma {:induction false} MergeRequestsGrow(t: Tables, ms: seq<RemoteMergeRequest>)
    ensures Grown(t, PutMergeRequests(t, ms))
  {
    if |ms| != 0 {
      MergeRequestsGrow(t, ms[..|ms| - 1]);
    }
  }

  lemma PutUntilGrows(
      t: Tables, p: ProjectSettings, met: set<int>, ds: seq<RemoteDeployment>, done: nat, environmentStored: bool)
    requires done < |ds|
    ensures Grown(t, PutUntil(t, p, met, ds, done, environmentStored))
    ensures PutUntil(t, p, met, ds, done, environmentStored).links == t.links
    ensures PutUntil(t, p, met, ds, done, environmentStored).mergeRequests == t.mergeRequests
  {
    DeploymentsGrow(t, p, met, ds[..done]);
    DeploymentsOnly(t, p, met, ds[..done]);
    hide PutDeployments;
  }

  // ---------- links over runs ----------

  ghost function LinksOfPass(t: Tables, p: ProjectSettings): set<(int, int)> {
    PassLinks(ProductionList(t), t.mergeRequests, p.defaultBranch)
  }

  /** A pass that stops early has inserted some of the links of the whole pass. */
  lemma PartialPass(t: Tables, p: ProjectSettings, done: nat, linked: set<int>)
    requires done < |ProductionList(t)|
    ensures t.links <= CorrelatedUntil(t, p, done, linked).links <= t.links + LinksOfPass(t, p)
  {
    hide ProductionList;
    var list := ProductionList(t);
    GrowthKeepsLinks(list[..done], t.mergeRequests, list, t.mergeRequests, p.defaultBranch);
  }

  lemma RestLinks(t: Tables, p: ProjectSettings, a: Attempt, since: int)
    ensures var (t', ok) := CollectRest(t, p, a, since);
      && Grown(t, t')
      && t'.links <= t.links + LinksOfPass(t', p)
      && (ok ==> t'.links == t.links + LinksOfPass(t', p))
  {
    hide MergedAfter, PassLinks, Ordered, PutMergeRequests, CorrelatedUntil;
    var batch := MergedAfter(a.mergeRequests, p.defaultBranch, since);
    var merged := PutMergeRequests(t, batch);
    var t' := CollectRest(t, p, a, since).0;
    MergeRequestsGrow(t, batch);
    MergeRequestsOnly(t, batch);
    if a.fault.AtMergeRequest? && a.fault.done < |batch| {
      MergeRequestsGrow(t, batch[..a.fault.done]);
      MergeRequestsOnly(t, batch[..a.fault.done]);
    } else if !a.fault.AtMergeRequestList? {
      if a.fault.AtCorrelation? && a.fault.done < |ProductionList(merged)| {
        PartialPass(merged, p, a.fault.done, a.fault.linked);
        OnlyLinksChange(merged, p, a.fault.done, a.fault.linked);
      }
      assert ProductionRows(t') == ProductionRows(merged);
    }
  }

  lemma OnlyLinksChange(t: Tables, p: ProjectSettings, done: nat, linked: set<int>)
    requires done < |ProductionList(t)|
    ensures CorrelatedUntil(t, p, done, linked) == t.(links := CorrelatedUntil(t, p, done, linked).links)
  {}

  /** Whatever a run does, failed or not, it keeps the rows and links it found and
      adds only links a pass over the tables it leaves would insert; a successful
      one adds all of those. */
  lemma RunLinks(t: Tables, p: ProjectSettings, a: Attempt)
    ensures var (t', ok) := Collect(t, p, a);
      && Grown(t, t')
      && t'.links <= t.links + LinksOfPass(t', p)
      && (ok ==> t'.links == t.links + LinksOfPass(t', p))
  {
    hide PutEnvironments, PutDeployments, PutUntil, CollectRest, UpdatedAfter, Since, IdsOf, LinksOfPass;
    var stopped := a.fault.AtEnvironment? && a.fault.done < |a.environments|;
    var es := if stopped then a.environments[..a.fault.done] else a.environments;
    var listed := PutEnvironments(t, p, es);
    EnvironmentsGrow(t, p, es);
    EnvironmentsOnly(t, p, es);
    if !stopped && !a.fault.AtDeploymentList? {
      var since := Since(t.lastSynced, a.startedAt, a.backfillDays);
      var batch := UpdatedAfter(a.deployments, since);
      if a.fault.AtDeployment? && a.fault.done < |batch| {
        PutUntilGrows(listed, p, IdsOf(es), batch, a.fault.done, a.fault.environmentStored);
      } else {
        DeploymentsGrow(listed, p, IdsOf(es), batch);
        DeploymentsOnly(listed, p, IdsOf(es), batch);
        RestLinks(PutDeployments(listed, p, IdsOf(es), batch).0, p, a, since);
      }
    }
  }

  /** A successful run ends with exactly the links it found and those of a pass over
      the tables it leaves: whatever a pass would link is linked. */
  lemma SuccessLinksEverything(t: Tables, p: ProjectSettings, a: Attempt)
    requires Collect(t, p, a).1
    ensures Collect(t, p, a).0.links == t.links + LinksOfPass(Collect(t, p, a).0, p)
  {
    hide Collect, LinksOfPass;
    RunLinks(t, p, a);
  }

  /** Over any runs, failed ones included, nothing stored is lost. */
  lemma {:induction false} RunsOnlyAdd(p: ProjectSettings, runs: seq<Attempt>, more: seq<Attempt>)
    ensures Grown(LedgerAfter(p, runs).tables, LedgerAfter(p, runs + more).tables)
  {
    hide Collect;
    if |more| == 0 {
      assert runs + more == runs;
    } else {
      var k := |more| - 1;
      assert (runs + more)[..|runs + more| - 1] == runs + more[..k];
      RunsOnlyAdd(p, runs, more[..k]);
      RunLinks(LedgerAfter(p, runs + more[..k]).tables, p, more[k]);
    }
  }

  /** From one state of the tables to the next, listed deployments stay where they
      are, new ones come after them, and merge requests keep what attribution reads. */
  ghost predicate ListKept(t: Tables, t': Tables) {
    ProductionList(t) <= ProductionList(t') && RowsKept(t.mergeRequests, t'.mergeRequests)
  }

  ghost predicate ListsKept(p: ProjectSettings, runs: seq<Attempt>) {
    |runs| > 0 ==>
      var front := runs[..|runs| - 1];
      ListsKept(p, front) && ListKept(LedgerAfter(p, front).tables, LedgerAfter(p, runs).tables)
  }

  ghost predicate LastSucceeded(p: ProjectSettings, runs: seq<Attempt>) {
    |runs| > 0 && Collect(LedgerAfter(p, runs[..|runs| - 1]).tables, p, runs[|runs| - 1]).1
  }

  /** Main result, on the collector. Over any runs, failed ones included, that keep
      the list, every stored link is one a pass over the current tables would
      insert, and after a successful run there are no others missing. */
  lemma {:induction false} LinksAreThoseOfOnePass(p: ProjectSettings, runs: seq<Attempt>)
    requires ListsKept(p, runs)
    ensures LedgerAfter(p, runs).tables.links <= LinksOfPass(LedgerAfter(p, runs).tables, p)
    ensures LastSucceeded(p, runs) ==> LedgerAfter(p, runs).tables.links == LinksOfPass(LedgerAfter(p, runs).tables, p)
  {
    if |runs| != 0 {
      hide Collect, PassLinks, ProductionList;
      var front := runs[..|runs| - 1];
      var t, t' := LedgerAfter(p, front).tables, LedgerAfter(p, runs).tables;
      LinksAreThoseOfOnePass(p, front);
      RunLinks(t, p, runs[|runs| - 1]);
      GrowthKeepsLinks(ProductionList(t), t.mergeRequests, ProductionList(t'), t'.mergeRequests, p.defaultBranch);
    }
  }

  /** Then each merge request is linked to at most one of the listed deployments,
      and to no deployment off the list. */
  lemma OneDeploymentEach(p: ProjectSettings, runs: seq<Attempt>, m: int)
    requires ListsKept(p, runs)
    ensures var t := LedgerAfter(p, runs).tables;
            var list := ProductionList(t);
      && (forall d | (d, m) in t.links :: exists i :: 0 <= i < |list| && list[i].id == d)
      && forall i, j | 0 <= i < |list| && 0 <= j < |list| && (list[i].id, m) in t.links && (list[j].id, m) in t.links ::
           i == j
  {
    hide Collect, ProductionList, LedgerAfter;
    var t := LedgerAfter(p, runs).tables;
    var list := ProductionList(t);
    LinksAreThoseOfOnePass(p, runs);
    ProductionIdsAreDistinct(t);
    ListIsOrdered(t);
    forall d ensures (d, m) in LinksOfPass(t, p) <==>
      m in t.mergeRequests && FirstFor(list, t.mergeRequests[m], p.defaultBranch, d)
    {
      LinkedIff(list, t.mergeRequests, p.defaultBranch, d, m);
    }
  }

  lemma ListIsOrdered(t: Tables)
    ensures Listed(ProductionList(t))
  {}

  /** Exact conditions, for a successful run on any tables, however the list got to
      be what it is. The links are those of one pass if and only if each link found
      still leads to the first deployment for its merge request; and a merge request
      has two deployments afterwards if and only if it had two before or its link
      leads elsewhere than to the first one. */
  lemma LinksAreCleanIff(t: Tables, p: ProjectSettings, a: Attempt, m: int)
    requires Collect(t, p, a).1
    ensures var t' := Collect(t, p, a).0;
            var list, mrs, branch := ProductionList(t'), t'.mergeRequests, p.defaultBranch;
      && (t'.links == LinksOfPass(t', p)
          <==> forall d, n | (d, n) in t.links :: n in mrs && FirstFor(list, mrs[n], branch, d))
      && (Twice(t'.links, m)
          <==> Twice(t.links, m)
               || exists d, d' :: d != d' && (d, m) in t.links && m in mrs && FirstFor(list, mrs[m], branch, d'))
  {
    hide Collect, ProductionList, PassLinks, FirstFor;
    var t' := Collect(t, p, a).0;
    SuccessLinksEverything(t, p, a);
    ListIsOrdered(t');
    var list, mrs, branch := ProductionList(t'), t'.mergeRequests, p.defaultBranch;
    var pass := LinksOfPass(t', p);
    forall d, n ensures (d, n) in pass <==> n in mrs && FirstFor(list, mrs[n], branch, d) {
      LinkedIff(list, mrs, branch, d, n);
    }
    if forall d, n | (d, n) in t.links :: (d, n) in pass {
      forall link | link in t.links ensures link in pass {
        var (d, n) := link;
      }
    }
    assert forall d, d' :: (d, m) in pass && (d', m) in pass ==> d == d' by {
      OnlyOneIsFirst(list, mrs, branch, m);
    }
  }

  ghost predicate Twice(links: set<(int, int)>, m: int) {
    exists d, d' :: d != d' && (d, m) in links && (d', m) in links
  }

  lemma OnlyOneIsFirst(list: seq<Row>, mrs: map<int, StoredMergeRequest>, branch: string, m: int)
    ensures forall d, d' | m in mrs && FirstFor(list, mrs[m], branch, d) && FirstFor(list, mrs[m], branch, d') ::
              d == d'
  {}

  /** One way for listed deployments to leave: once GitLab reports their environment
      under a name that is not a production one, all of its rows are off the list. */
  lemma RenamedEnvironmentLeaves(t: Tables, p: ProjectSettings, e: RemoteEnvironment)
    requires !p.isProductionName(e.name)
    ensures forall r :: r in ProductionRows(PutEnvironment(t, p, e))
              <==> r in ProductionRows(t) && t.deployments[r.id].environment != e.id
  {
    var t' := PutEnvironment(t, p, e);
    forall id | id in t.deployments
      ensures Finished(t', id) <==> Finished(t, id) && t.deployments[id].environment != e.id
    {
    }
  }
}
