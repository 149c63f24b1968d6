/** Incremental collection of one project (backend/internal/collector/handlers.go,
    `HandleCollectGitlab`, with the upserts of deployments.sql.go,
    environments.sql.go and merge_requests.sql.go). Times are nanoseconds. */
module Collection {
  import opened Wrappers
  import opened Correlation

  const SECOND := 1_000_000_000
  const HOUR := 3600 * SECOND
  const FIRST_BACKFILL := 30 * DAY

  datatype StoredEnvironment = StoredEnvironment(name: string, isProduction: bool)

  /** A stored deployment row; rows are keyed by external id. */
  datatype StoredDeployment = StoredDeployment(
    environment: int, sha: string, startedAt: Option<int>, status: string, finishedAt: Option<int>)

  datatype Tables = Tables(
    environments: map<int, StoredEnvironment>, deployments: map<int, StoredDeployment>,
    mergeRequests: map<int, StoredMergeRequest>, links: set<(int, int)>, lastSynced: Option<int>)

  datatype RemoteEnvironment = RemoteEnvironment(id: int, name: string)

  datatype RemoteDeployment = RemoteDeployment(
    id: int, environment: RemoteEnvironment, sha: string, startedAt: Option<int>,
    status: string, finishedAt: Option<int>, updatedAt: int)

  datatype RemoteMergeRequest = RemoteMergeRequest(id: int, state: string, row: StoredMergeRequest, updatedAt: int)

  /** Where an attempt fails, if it does: after `done` items of a loop, at a remote
      call, or at the final stamp. A deployment can fail before or after the insert
      of an environment it is the first to name, and an interval of the correlation
      after any part of its links, none of them when its query fails. */
  datatype Fault =
    | NoFault
    | AtEnvironment(done: nat) | AtDeploymentList | AtDeployment(done: nat, environmentStored: bool)
    | AtMergeRequestList | AtMergeRequest(done: nat) | AtCorrelation(done: nat, linked: set<int>) | AtStamp

  /** One run of the collector: its clock readings and everything GitLab holds when the
      run fetches, in the order the API lists it. */
  datatype Attempt = Attempt(
    startedAt: int, backfillDays: int, fetchedAt: int, finishedAt: int,
    environments: seq<RemoteEnvironment>, deployments: seq<RemoteDeployment>,
    mergeRequests: seq<RemoteMergeRequest>, fault: Fault)

  /** What never changes about a project: its default branch and its
      production-environment name pattern. */
  datatype ProjectSettings = ProjectSettings(defaultBranch: string, isProductionName: string -> bool)

  // ---------- the window ----------

  function Since(lastSynced: Option<int>, now: int, backfillDays: int): int {
    var since := if lastSynced.Some? then lastSynced.value - HOUR else now - FIRST_BACKFILL;
    var forced := now - backfillDays * DAY;
    if backfillDays > 0 && forced < since then forced else since
  }

  /** A backfill only ever widens the window, and widens it at least to its length. */
  lemma BackfillOnlyWidens(lastSynced: Option<int>, now: int, backfillDays: int)
    ensures Since(lastSynced, now, backfillDays) <= Since(lastSynced, now, 0)
    ensures backfillDays > 0 ==> Since(lastSynced, now, backfillDays) <= now - backfillDays * DAY
    ensures Since(lastSynced, now, backfillDays) == Since(lastSynced, now, 0)
            || (backfillDays > 0 && Since(lastSynced, now, backfillDays) == now - backfillDays * DAY)
  {}

  /** The first window is 30 days, later ones an hour of overlap, in nanoseconds; a
      backfill of some days replaces either when it reaches further. */
  lemma WindowInNanoseconds(synced: int, now: int, days: int)
    ensures Since(None, now, 0) == now - 2_592_000_000_000_000
    ensures Since(Some(synced), now, 0) == synced - 3_600_000_000_000
    ensures days > 0 ==> forall last: Option<int> ::
              Since(last, now, days) ==
              if now - days * 86_400_000_000_000 < Since(last, now, 0) then now - days * 86_400_000_000_000
              else Since(last, now, 0)
  {}

  /** The filter travels with whole seconds. */
  function WholeSeconds(t: int): (r: int)
    ensures r <= t < r + 1_000_000_000 && r % 1_000_000_000 == 0
  {
    t - t % SECOND
  }

  function UpdatedAfter(all: seq<RemoteDeployment>, since: int): (batch: seq<RemoteDeployment>)
    ensures forall d :: d in batch <==> d in all && d.updatedAt > WholeSeconds(since)
  {
    if |all| == 0 then []
    else
      var k := |all| - 1;
      UpdatedAfter(all[..k], since) + if all[k].updatedAt > WholeSeconds(since) then [all[k]] else []
  }

  function MergedAfter(all: seq<RemoteMergeRequest>, branch: string, since: int): seq<RemoteMergeRequest> {
    if |all| == 0 then []
    else
      var k := |all| - 1;
      MergedAfter(all[..k], branch, since)
      + if all[k].state == "merged" && all[k].row.targetBranch == branch && all[k].updatedAt > WholeSeconds(since)
        then [all[k]] else []
  }

  // ---------- the upserts ----------

  function PutEnvironment(t: Tables, p: ProjectSettings, e: RemoteEnvironment): Tables {
    t.(environments := t.environments[e.id := StoredEnvironment(e.name, p.isProductionName(e.name))])
  }

  function PutEnvironments(t: Tables, p: ProjectSettings, es: seq<RemoteEnvironment>): Tables {
    if |es| == 0 then t
    else PutEnvironment(PutEnvironments(t, p, es[..|es| - 1]), p, es[|es| - 1])
  }

  function IdsOf(es: seq<RemoteEnvironment>): set<int> { set e | e in es :: e.id }

  /** On a row already there only status and finish time follow GitLab; the environment, sha
      and start time stay those of the first insert. */
  function PutDeployment(t: Tables, d: RemoteDeployment): Tables {
    t.(deployments := t.deployments[d.id :=
      if d.id in t.deployments
      then t.deployments[d.id].(status := d.status, finishedAt := d.finishedAt)
      else StoredDeployment(d.environment.id, d.sha, d.startedAt, d.status, d.finishedAt)])
  }

  /** The tables and the environments met so far, after a list of deployments; an
      environment absent from the listing is inserted when first met. */
  function PutDeployments(t: Tables, p: ProjectSettings, met: set<int>, ds: seq<RemoteDeployment>): (Tables, set<int>) {
    if |ds| == 0 then (t, met)
    else
      var k := |ds| - 1;
      var (t', met') := PutDeployments(t, p, met, ds[..k]);
      var d := ds[k];
      (PutDeployment(if d.environment.id in met' then t' else PutEnvironment(t', p, d.environment), d),
       met' + {d.environment.id})
  }

  /** What is left when the upserts stop at `ds[done]`. */
  function PutUntil(
      t: Tables, p: ProjectSettings, met: set<int>, ds: seq<RemoteDeployment>, done: nat, environmentStored: bool)
    : Tables
    requires done < |ds|
  {
    var (t', met') := PutDeployments(t, p, met, ds[..done]);
    if environmentStored && ds[done].environment.id !in met' then PutEnvironment(t', p, ds[done].environment) else t'
  }

  function PutMergeRequests(t: Tables, ms: seq<RemoteMergeRequest>): Tables {
    if |ms| == 0 then t
    else
      var k := |ms| - 1;
      var t' := PutMergeRequests(t, ms[..k]);
      t'.(mergeRequests := t'.mergeRequests[ms[k].id := ms[k].row])
  }

  // ---------- the ordered production list ----------

  function ProductionRows(t: Tables): set<Row> {
    set id | id in t.deployments && Finished(t, id) :: Row(id, t.deployments[id].finishedAt.value)
  }

  predicate Finished(t: Tables, id: int)
    requires id in t.deployments
  {
    var d := t.deployments[id];
    && d.environment in t.environments && t.environments[d.environment].isProduction
    && d.status == "success" && d.finishedAt.Some?
  }

  lemma LeastExists(rows: set<Row>)
    requires rows != {}
    ensures exists a :: a in rows && forall b :: b in rows && b != a ==> Before(a, b)
  {
    var x :| x in rows;
    var rest := rows - {x};
    if rest == {} {
      assert rows == {x};
    } else {
      LeastExists(rest);
      var y :| y in rest && forall b :: b in rest && b != y ==> Before(y, b);
      assert forall b :: b in rows ==> b == x || b in rest;
      if Before(x, y) {
        assert forall b :: b in rows && b != x ==> Before(x, b);
      } else {
        assert y != x && Before(y, x);
      }
    }
  }

  function Ordered(rows: set<Row>): (list: seq<Row>)
    ensures Listed(list)
    ensures forall a :: a in list <==> a in rows
  {
    if rows == {} then []
    else
      LeastExists(rows);
      var a :| a in rows && forall b :: b in rows && b != a ==> Before(a, b);
      var rest := Ordered(rows - {a});
      assert forall b :: b in rest ==> Before(a, b);
      [a] + rest
  }

  /** `ListProductionDeploymentsForProject`. */
  function ProductionList(t: Tables): seq<Row> { Ordered(ProductionRows(t)) }

  lemma HeadIsLeast(a: seq<Row>, r: Row)
    requires Listed(a) && r in a
    ensures r == a[0] || Before(a[0], r)
    ensures r in a[1..] <==> r != a[0]
  {
    assert r == a[0] || r in a[1..];
    forall i | 0 < i < |a|
      ensures Before(a[0], a[i])
    {
    }
  }

  lemma {:induction false} ListedUnique(a: seq<Row>, b: seq<Row>)
    requires Listed(a) && Listed(b)
    requires forall r :: r in a <==> r in b
    ensures a == b
  {
    assert |a| > 0 ==> a[0] in a;
    assert |b| > 0 ==> b[0] in b;
    if |a| > 0 {
      HeadIsLeast(a, b[0]);
      HeadIsLeast(b, a[0]);
      forall r
        ensures r in a[1..] <==> r in b[1..]
      {
        if r in a {
          HeadIsLeast(a, r);
          HeadIsLeast(b, r);
        }
      }
      ListedUnique(a[1..], b[1..]);
    }
  }

  /** A production deployment that comes after all listed ones extends the list at
      its end; this is the arrival the correlation results speak of. */
  lemma LatestArrivalIsAppended(rows: set<Row>, row: Row)
    requires forall b :: b in rows ==> Before(b, row)
    ensures Ordered(rows + {row}) == Ordered(rows) + [row]
  {
    ListedUnique(Ordered(rows + {row}), Ordered(rows) + [row]);
  }

  lemma ProductionIdsAreDistinct(t: Tables)
    ensures DistinctIds(ProductionList(t))
  {
    var list := ProductionList(t);
    forall i, j | 0 <= i < j < |list|
      ensures list[i].id != list[j].id
    {
      assert Before(list[i], list[j]);
      assert list[i] in ProductionRows(t) && list[j] in ProductionRows(t);
    }
  }

  // ---------- one run ----------

  /** The tables after a whole pass. */
  ghost function Correlated(t: Tables, p: ProjectSettings): Tables {
    t.(links := t.links + PassLinks(ProductionList(t), t.mergeRequests, p.defaultBranch))
  }

  /** The tables after a pass that stopped in the interval `done`, with some of its
      links inserted. */
  ghost function CorrelatedUntil(t: Tables, p: ProjectSettings, done: nat, linked: set<int>): Tables
    requires done < |ProductionList(t)|
  {
    var list := ProductionList(t);
    t.(links := t.links + PassLinks(list[..done], t.mergeRequests, p.defaultBranch)
              + LinksTo(list[done].id, ClosedBy(list, done, t.mergeRequests, p.defaultBranch) * linked))
  }

  function ClosedBy(list: seq<Row>, i: nat, mrs: map<int, StoredMergeRequest>, branch: string): set<int>
    requires i < |list|
  {
    set m | m in mrs && Closes(list, i, mrs[m], branch)
  }

  ghost function LinksTo(deployment: int, mrs: set<int>): set<(int, int)> { set m | m in mrs :: (deployment, m) }

  /** The tables a run leaves behind and whether it succeeded. */
  ghost function Collect(t: Tables, p: ProjectSettings, a: Attempt): (Tables, bool) {
    if a.fault.AtEnvironment? && a.fault.done < |a.environments| then
      (PutEnvironments(t, p, a.environments[..a.fault.done]), false)
    else
      var listed := PutEnvironments(t, p, a.environments);
      var since := Since(t.lastSynced, a.startedAt, a.backfillDays);
      var batch := UpdatedAfter(a.deployments, since);
      if a.fault.AtDeploymentList? then (listed, false)
      else if a.fault.AtDeployment? && a.fault.done < |batch| then
        (PutUntil(listed, p, IdsOf(a.environments), batch, a.fault.done, a.fault.environmentStored), false)
      else
        var stored := PutDeployments(listed, p, IdsOf(a.environments), batch).0;
        CollectRest(stored, p, a, since)
  }

  ghost function CollectRest(t: Tables, p: ProjectSettings, a: Attempt, since: int): (Tables, bool) {
    var batch := MergedAfter(a.mergeRequests, p.defaultBranch, since);
    if a.fault.AtMergeRequestList? then (t, false)
    else if a.fault.AtMergeRequest? && a.fault.done < |batch| then
      (PutMergeRequests(t, batch[..a.fault.done]), false)
    else
      var merged := PutMergeRequests(t, batch);
      if a.fault.AtCorrelation? && a.fault.done < |ProductionList(merged)| then
        (CorrelatedUntil(merged, p, a.fault.done, a.fault.linked), false)
      else
        var linked := Correlated(merged, p);
        if a.fault.AtStamp? then (linked, false)
        else (linked.(lastSynced := Some(a.finishedAt)), true)
  }

  class ProjectStore {
    const project: ProjectSettings
    var environments: map<int, StoredEnvironment>
    var deployments: map<int, StoredDeployment>
    var mergeRequests: map<int, StoredMergeRequest>
    var links: set<(int, int)>
    var lastSynced: Option<int>

    constructor (project: ProjectSettings)
      ensures this.project == project
      ensures View() == Tables(map[], map[], map[], {}, None)
    {
      this.project := project;
      environments, deployments, mergeRequests, links, lastSynced := map[], map[], map[], {}, None;
    }

    function View(): Tables
      reads this
    {
      Tables(environments, deployments, mergeRequests, links, lastSynced)
    }

    method UpsertEnvironment(e: RemoteEnvironment)
      modifies this`environments
      ensures View() == PutEnvironment(old(View()), project, e)
    {
      environments := environments[e.id := StoredEnvironment(e.name, project.isProductionName(e.name))];
    }

    method UpsertDeployment(d: RemoteDeployment)
      modifies this`deployments
      ensures View() == PutDeployment(old(View()), d)
    {
      if d.id in deployments {
        deployments := deployments[d.id := deployments[d.id].(status := d.status, finishedAt := d.finishedAt)];
      } else {
        deployments := deployments[d.id :=
          StoredDeployment(d.environment.id, d.sha, d.startedAt, d.status, d.finishedAt)];
      }
    }

    /** The two deployment loops of `HandleCollectGitlab`; answers whether they ran
        to the end. */
    method StoreDeployments(met0: set<int>, batch: seq<RemoteDeployment>, fault: Fault) returns (ok: bool)
      modifies this`environments, this`deployments
      ensures ok <==> !(fault.AtDeployment? && fault.done < |batch|)
      ensures View() == if ok then PutDeployments(old(View()), project, met0, batch).0
                        else PutUntil(old(View()), project, met0, batch, fault.done, fault.environmentStored)
    {
      var met := met0;
      for i := 0 to |batch|
        invariant (View(), met) == PutDeployments(old(View()), project, met0, batch[..i])
        invariant fault.AtDeployment? ==> i <= fault.done
      {
        assert batch[..i + 1][..i] == batch[..i];
        var d := batch[i];
        if d.environment.id !in met {
          if fault == AtDeployment(i, false) {
            return false;
          }
          UpsertEnvironment(d.environment);
        }
        if fault.AtDeployment? && fault.done == i {
          return false;
        }
        met := met + {d.environment.id};
        UpsertDeployment(d);
      }
      assert batch[..|batch|] == batch;
      return true;
    }

    method StoreEnvironments(es: seq<RemoteEnvironment>, fault: Fault) returns (ok: bool)
      modifies this`environments
      ensures ok <==> !(fault.AtEnvironment? && fault.done < |es|)
      ensures View() == PutEnvironments(old(View()), project, if ok then es else es[..fault.done])
    {
      for i := 0 to |es|
        invariant View() == PutEnvironments(old(View()), project, es[..i])
        invariant fault.AtEnvironment? ==> i <= fault.done
      {
        assert es[..i + 1][..i] == es[..i];
        if fault == AtEnvironment(i) {
          return false;
        }
        UpsertEnvironment(es[i]);
      }
      assert es[..|es|] == es;
      return true;
    }

    method StoreMergeRequests(ms: seq<RemoteMergeRequest>, fault: Fault) returns (ok: bool)
      modifies this`mergeRequests
      ensures ok <==> !(fault.AtMergeRequest? && fault.done < |ms|)
      ensures View() == PutMergeRequests(old(View()), if ok then ms else ms[..fault.done])
    {
      for i := 0 to |ms|
        invariant View() == PutMergeRequests(old(View()), ms[..i])
        invariant fault.AtMergeRequest? ==> i <= fault.done
      {
        assert ms[..i + 1][..i] == ms[..i];
        if fault == AtMergeRequest(i) {
          return false;
        }
        mergeRequests := mergeRequests[ms[i].id := ms[i].row];
      }
      assert ms[..|ms|] == ms;
      return true;
    }

    /** `correlateDeploymentsAndMRs`: one pass over the ordered list, inserting the
        links of each interval one by one. */
    method Correlate(fault: Fault) returns (ok: bool)
      modifies this`links
      ensures ok <==> !(fault.AtCorrelation? && fault.done < |ProductionList(old(View()))|)
      ensures View() == if ok then Correlated(old(View()), project)
                        else CorrelatedUntil(old(View()), project, fault.done, fault.linked)
    {
      hide PassLinks, LinksTo, ProductionList, Closes, MergedBetween;
      var deploys := ProductionList(View());
      var branch := project.defaultBranch;
      NoIntervalNoLinks(mergeRequests, branch);
      assert deploys[..0] == [];
      for i := 0 to |deploys|
        invariant links == old(links) + PassLinks(deploys[..i], mergeRequests, branch)
        invariant fault.AtCorrelation? ==> i <= fault.done
      {
        var until := deploys[i].finishedAt;
        var from;
        if i == 0 {
          from := until - LOOKBACK;
        } else {
          from := deploys[i - 1].finishedAt;
        }
        var mrs := set m | m in mergeRequests && MergedBetween(mergeRequests[m], branch, from, until);
        ClosedByIs(deploys, i, mergeRequests, branch, from);
        if fault.AtCorrelation? && fault.done == i {
          LinkAll(deploys[i].id, mrs * fault.linked);
          return false;
        }
        LinkAll(deploys[i].id, mrs);
        OneMoreInterval(deploys, i, mergeRequests, branch, mrs);
      }
      assert deploys[..|deploys|] == deploys;
      return true;
    }

    /** The inner loop of the pass: insert or ignore. */
    method LinkAll(deployment: int, mrs: set<int>)
      modifies this`links
      ensures links == old(links) + LinksTo(deployment, mrs)
    {
      var todo := mrs;
      while exists m :: m in todo
        invariant todo <= mrs
        invariant links == old(links) + LinksTo(deployment, mrs - todo)
        decreases |todo|
      {
        var m :| m in todo;
        links := links + {(deployment, m)};
        todo := todo - {m};
      }
    }

    /** `HandleCollectGitlab`, from the environment listing to the final stamp. */
    method CollectGitlab(a: Attempt) returns (ok: bool)
      modifies this
      ensures (View(), ok) == Collect(old(View()), project, a)
    {
      hide PutEnvironments, PutDeployments, PutMergeRequests, UpdatedAfter, MergedAfter, IdsOf, ProductionList;
      ok := StoreEnvironments(a.environments, a.fault);
      if !ok {
        return;
      }
      var since := a.startedAt - FIRST_BACKFILL;
      if lastSynced.Some? {
        since := lastSynced.value - HOUR;
      }
      if a.backfillDays > 0 {
        var forced := a.startedAt - a.backfillDays * DAY;
        if forced < since {
          since := forced;
        }
      }
      if a.fault.AtDeploymentList? {
        return false;
      }
      ok := StoreDeployments(IdsOf(a.environments), UpdatedAfter(a.deployments, since), a.fault);
      if !ok {
        return;
      }
      if a.fault.AtMergeRequestList? {
        return false;
      }
      ok := StoreMergeRequests(MergedAfter(a.mergeRequests, project.defaultBranch, since), a.fault);
      if !ok {
        return;
      }
      ok := Correlate(a.fault);
      if !ok {
        return;
      }
      if a.fault.AtStamp? {
        return false;
      }
      lastSynced := Some(a.finishedAt);
    }
  }

  lemma NoIntervalNoLinks(mrs: map<int, StoredMergeRequest>, branch: string)
    ensures PassLinks([], mrs, branch) == {}
  {}

  lemma ClosedByIs(deploys: seq<Row>, i: nat, mrs: map<int, StoredMergeRequest>, branch: string, from: int)
    requires i < |deploys| && from == OpensAt(deploys, i)
    ensures ClosedBy(deploys, i, mrs, branch)
         == set m | m in mrs && MergedBetween(mrs[m], branch, from, deploys[i].finishedAt)
  {
    var met := set m | m in mrs && MergedBetween(mrs[m], branch, from, deploys[i].finishedAt);
    forall m
      ensures m in ClosedBy(deploys, i, mrs, branch) <==> m in met
    {
    }
  }

  lemma OneMoreInterval(deploys: seq<Row>, i: nat, mrs: map<int, StoredMergeRequest>, branch: string, met: set<int>)
    requires i < |deploys|
    requires met == ClosedBy(deploys, i, mrs, branch)
    ensures PassLinks(deploys[..i + 1], mrs, branch)
         == PassLinks(deploys[..i], mrs, branch) + LinksTo(deploys[i].id, met)
  {
    var before := PassLinks(deploys[..i], mrs, branch);
    forall d, m
      ensures (d, m) in PassLinks(deploys[..i + 1], mrs, branch)
              <==> (d, m) in before || (m in met && d == deploys[i].id)
    {
      if m in mrs {
        LinkedInPrefix(deploys, i, mrs, branch, d, m);
        LinkedInPrefix(deploys, i + 1, mrs, branch, d, m);
      }
    }
  }

  lemma LinkedInPrefix(deploys: seq<Row>, n: nat, mrs: map<int, StoredMergeRequest>, branch: string, d: int, m: int)
    requires n <= |deploys| && m in mrs
    ensures (d, m) in PassLinks(deploys[..n], mrs, branch)
            <==> exists j :: 0 <= j < n && deploys[j].id == d && Closes(deploys, j, mrs[m], branch)
  {
    var list := deploys[..n];
    forall j | 0 <= j < n
      ensures list[j].id == deploys[j].id && (Closes(list, j, mrs[m], branch) <==> Closes(deploys, j, mrs[m], branch))
    {
      assert OpensAt(list, j) == OpensAt(deploys, j);
    }
    if (d, m) in PassLinks(list, mrs, branch) {
      var j :| 0 <= j < |list| && list[j].id == d && Closes(list, j, mrs[m], branch);
      assert deploys[j].id == d && Closes(deploys, j, mrs[m], branch);
    }
    if j :| 0 <= j < n && deploys[j].id == d && Closes(deploys, j, mrs[m], branch) {
      assert list[j].id == d && Closes(list, j, mrs[m], branch);
    }
  }
}
