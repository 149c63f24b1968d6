/** Attribution of merge requests to deployments
    (backend/internal/collector/handlers.go, `correlateDeploymentsAndMRs`, with
    the queries of deployment_mr_links.sql.go and merge_requests.sql.go). */
module Correlation {
  import opened Wrappers

  const DAY := 24 * 3600 * 1_000_000_000
  const LOOKBACK := 30 * DAY

  /** A row of the ordered production list. */
  datatype Row = Row(id: int, finishedAt: int)

  datatype StoredMergeRequest = StoredMergeRequest(
    targetBranch: string, authorIsBot: bool, mergedAt: Option<int>, firstCommitAt: Option<int>)

  /** By finish time, ties broken by id. */
  predicate Before(a: Row, b: Row) {
    a.finishedAt < b.finishedAt || (a.finishedAt == b.finishedAt && a.id < b.id)
  }

  predicate Listed(deploys: seq<Row>) {
    forall i, j :: 0 <= i < j < |deploys| ==> Before(deploys[i], deploys[j])
  }

  /** The exclusive lower bound of the interval that deployment i closes. */
  function OpensAt(deploys: seq<Row>, i: nat): int
    requires i < |deploys|
  {
    if i == 0 then deploys[0].finishedAt - LOOKBACK else deploys[i - 1].finishedAt
  }

  /** `ListMergedMRsBetween`: merged in (from, until], on the branch, not by a bot. */
  predicate MergedBetween(mr: StoredMergeRequest, branch: string, from: int, until: int) {
    && mr.targetBranch == branch
    && mr.mergedAt.Some? && from < mr.mergedAt.value <= until
    && !mr.authorIsBot
  }

  predicate Closes(deploys: seq<Row>, i: nat, mr: StoredMergeRequest, branch: string)
    requires i < |deploys|
  {
    MergedBetween(mr, branch, OpensAt(deploys, i), deploys[i].finishedAt)
  }

  /** The links one pass inserts. */
  ghost function PassLinks(deploys: seq<Row>, mrs: map<int, StoredMergeRequest>, branch: string)
    : (links: set<(int, int)>)
    ensures forall d, m :: (d, m) in links <==>
              m in mrs && exists i :: 0 <= i < |deploys| && deploys[i].id == d && Closes(deploys, i, mrs[m], branch)
  {
    set i, m | 0 <= i < |deploys| && m in mrs && Closes(deploys, i, mrs[m], branch) :: (deploys[i].id, m)
  }

  // ---------- one pass ----------

  predicate Attributable(mr: StoredMergeRequest, branch: string) {
    mr.targetBranch == branch && !mr.authorIsBot && mr.mergedAt.Some?
  }

  /** i is the first deployment in list order finishing at or after x. */
  predicate FirstAtOrAfter(deploys: seq<Row>, x: int, i: nat) {
    && i < |deploys| && x <= deploys[i].finishedAt
    && forall j :: 0 <= j < i ==> deploys[j].finishedAt < x
  }

  lemma {:induction false} FirstExists(deploys: seq<Row>, x: int)
    requires |deploys| > 0 && x <= deploys[|deploys| - 1].finishedAt
    ensures exists i: nat :: FirstAtOrAfter(deploys, x, i)
  {
    var i := 0;
    while deploys[i].finishedAt < x
      invariant 0 <= i < |deploys|
      invariant forall j :: 0 <= j < i ==> deploys[j].finishedAt < x
      decreases |deploys| - i
    {
      i := i + 1;
    }
    assert FirstAtOrAfter(deploys, x, i);
  }

  /** The interval a merge time falls in is closed by the first deployment that
      finishes at or after it. */
  lemma ClosesIffFirst(deploys: seq<Row>, i: nat, mr: StoredMergeRequest, branch: string)
    requires Listed(deploys) && i < |deploys|
    ensures Closes(deploys, i, mr, branch) <==>
              && Attributable(mr, branch)
              && deploys[0].finishedAt - LOOKBACK < mr.mergedAt.value
              && FirstAtOrAfter(deploys, mr.mergedAt.value, i)
  {
    if mr.mergedAt.Some? {
      var x := mr.mergedAt.value;
      if i > 0 {
        assert Before(deploys[i - 1], deploys[i]);
        assert forall j :: 0 <= j < i - 1 ==> Before(deploys[j], deploys[i - 1]);
        if Closes(deploys, i, mr, branch) {
          assert Before(deploys[0], deploys[i]);
          assert deploys[0].finishedAt < x;
        }
        if FirstAtOrAfter(deploys, x, i) {
          assert deploys[i - 1].finishedAt < x;
        }
      }
    }
  }

  predicate DistinctIds(deploys: seq<Row>) {
    forall i, j :: 0 <= i < j < |deploys| ==> deploys[i].id != deploys[j].id
  }

  /** Main result. A pass links a merge request exactly when it is an attributable
      one merged in (first finish − 30 days, last finish], to exactly one
      deployment: the first in list order finishing at or after the merge. */
  lemma OnePassAttribution(deploys: seq<Row>, mrs: map<int, StoredMergeRequest>, branch: string, m: int)
    requires Listed(deploys) && m in mrs
    ensures var linked := exists d :: (d, m) in PassLinks(deploys, mrs, branch);
            linked <==>
              && Attributable(mrs[m], branch) && |deploys| > 0
              && deploys[0].finishedAt - 2_592_000_000_000_000 < mrs[m].mergedAt.value
              && mrs[m].mergedAt.value <= deploys[|deploys| - 1].finishedAt
    ensures forall d, i: nat | (d, m) in PassLinks(deploys, mrs, branch) ::
              mrs[m].mergedAt.Some? && (FirstAtOrAfter(deploys, mrs[m].mergedAt.value, i) ==> d == deploys[i].id)
    ensures forall d, d' | (d, m) in PassLinks(deploys, mrs, branch) && (d', m) in PassLinks(deploys, mrs, branch) ::
              d == d'
  {
    var links := PassLinks(deploys, mrs, branch);
    forall i: nat | i < |deploys| {
      ClosesIffFirst(deploys, i, mrs[m], branch);
    }
    if Attributable(mrs[m], branch) && |deploys| > 0 && mrs[m].mergedAt.value <= deploys[|deploys| - 1].finishedAt {
      FirstExists(deploys, mrs[m].mergedAt.value);
      var i: nat :| FirstAtOrAfter(deploys, mrs[m].mergedAt.value, i);
      if deploys[0].finishedAt - LOOKBACK < mrs[m].mergedAt.value {
        assert (deploys[i].id, m) in links;
      }
    }
    forall d | (d, m) in links
      ensures Attributable(mrs[m], branch) && |deploys| > 0
      ensures deploys[0].finishedAt - LOOKBACK < mrs[m].mergedAt.value <= deploys[|deploys| - 1].finishedAt
      ensures forall k: nat :: FirstAtOrAfter(deploys, mrs[m].mergedAt.value, k) ==> d == deploys[k].id
      ensures exists k: nat :: FirstAtOrAfter(deploys, mrs[m].mergedAt.value, k)
    {
      var i :| 0 <= i < |deploys| && deploys[i].id == d && Closes(deploys, i, mrs[m], branch);
      assert i == |deploys| - 1 || Before(deploys[i], deploys[|deploys| - 1]);
      forall k: nat | FirstAtOrAfter(deploys, mrs[m].mergedAt.value, k)
        ensures k == i
      {
      }
    }
  }

  // ---------- where a link goes, in terms of the list ----------

  /** The position of the first row finishing at or after x; past the end if none. */
  function FirstIndex(deploys: seq<Row>, x: int): (i: nat)
    ensures i <= |deploys|
    ensures i < |deploys| ==> FirstAtOrAfter(deploys, x, i)
    ensures forall j :: 0 <= j < i ==> deploys[j].finishedAt < x
  {
    if |deploys| == 0 || x <= deploys[0].finishedAt then 0
    else
      var rest := FirstIndex(deploys[1..], x);
      assert forall j :: 0 < j < |deploys| ==> deploys[j] == deploys[1..][j - 1];
      rest + 1
  }

  /** Merged in (first finish − 30 days, last finish], on the branch, not by a bot. */
  predicate InSpan(deploys: seq<Row>, mr: StoredMergeRequest, branch: string) {
    && Attributable(mr, branch) && |deploys| > 0
    && deploys[0].finishedAt - 2_592_000_000_000_000 < mr.mergedAt.value <= deploys[|deploys| - 1].finishedAt
  }

  /** d is the first deployment of the list at or after the merge, within the span. */
  predicate FirstFor(deploys: seq<Row>, mr: StoredMergeRequest, branch: string, d: int) {
    && InSpan(deploys, mr, branch)
    && var i := FirstIndex(deploys, mr.mergedAt.value); i < |deploys| && deploys[i].id == d
  }

  /** The links of one pass over any list, told without its intervals. */
  lemma LinkedIff(deploys: seq<Row>, mrs: map<int, StoredMergeRequest>, branch: string, d: int, m: int)
    requires Listed(deploys)
    ensures (d, m) in PassLinks(deploys, mrs, branch) <==> m in mrs && FirstFor(deploys, mrs[m], branch, d)
  {
    hide Closes, Listed, FirstAtOrAfter;
    if m in mrs && Attributable(mrs[m], branch) && |deploys| > 0 {
      var k := FirstIndex(deploys, mrs[m].mergedAt.value);
      forall i: nat | i < |deploys|
        ensures Closes(deploys, i, mrs[m], branch) <==> InSpan(deploys, mrs[m], branch) && i == k
      {
        ClosesIffFirst(deploys, i, mrs[m], branch);
        FirstIsFirstIndex(deploys, mrs[m].mergedAt.value, i);
      }
    } else if m in mrs {
      forall i: nat | i < |deploys| ensures !Closes(deploys, i, mrs[m], branch) {
        ClosesIffFirst(deploys, i, mrs[m], branch);
      }
    }
  }

  lemma FirstIsFirstIndex(deploys: seq<Row>, x: int, i: nat)
    requires Listed(deploys) && i < |deploys|
    ensures FirstAtOrAfter(deploys, x, i) <==> i == FirstIndex(deploys, x)
    ensures FirstIndex(deploys, x) < |deploys| <==> x <= deploys[|deploys| - 1].finishedAt
  {
    var k := FirstIndex(deploys, x);
    if k < |deploys| - 1 {
      assert Before(deploys[k], deploys[|deploys| - 1]);
    }
  }

  /** Exact conditions, between passes over any two lists and any two states of the
      merge-request rows, whatever arrived, left or moved in between. A link of the
      earlier pass is not one of the later pass exactly when its deployment is no
      longer the first for the merge request; and the two passes leave the merge
      request with two deployments exactly when both attribute it, to different
      ones. */
  lemma TwoPassesIff(
      earlier: seq<Row>, oldRows: map<int, StoredMergeRequest>,
      later: seq<Row>, newRows: map<int, StoredMergeRequest>, branch: string, m: int)
    requires Listed(earlier) && Listed(later)
    ensures forall d | (d, m) in PassLinks(earlier, oldRows, branch) ::
              (d, m) in PassLinks(later, newRows, branch) <==> m in newRows && FirstFor(later, newRows[m], branch, d)
    ensures var both := PassLinks(earlier, oldRows, branch) + PassLinks(later, newRows, branch);
      (exists d, d' :: d != d' && (d, m) in both && (d', m) in both)
      <==>
        && m in oldRows && InSpan(earlier, oldRows[m], branch)
        && m in newRows && InSpan(later, newRows[m], branch)
        && !FirstFor(later, newRows[m], branch, earlier[FirstIndex(earlier, oldRows[m].mergedAt.value)].id)
  {
    hide PassLinks, FirstIndex, Listed;
    var old', new' := PassLinks(earlier, oldRows, branch), PassLinks(later, newRows, branch);
    forall d ensures (d, m) in old' <==> m in oldRows && FirstFor(earlier, oldRows[m], branch, d) {
      LinkedIff(earlier, oldRows, branch, d, m);
    }
    forall d ensures (d, m) in new' <==> m in newRows && FirstFor(later, newRows[m], branch, d) {
      LinkedIff(later, newRows, branch, d, m);
    }
    if m in oldRows && InSpan(earlier, oldRows[m], branch) {
      SpanHasFirst(earlier, oldRows[m], branch);
    }
    if m in newRows && InSpan(later, newRows[m], branch) {
      SpanHasFirst(later, newRows[m], branch);
    }
    if && m in oldRows && InSpan(earlier, oldRows[m], branch) && m in newRows && InSpan(later, newRows[m], branch) {
      var d := earlier[FirstIndex(earlier, oldRows[m].mergedAt.value)].id;
      var d' := later[FirstIndex(later, newRows[m].mergedAt.value)].id;
      assert (d, m) in old' + new' && (d', m) in old' + new';
    }
  }

  lemma SpanHasFirst(deploys: seq<Row>, mr: StoredMergeRequest, branch: string)
    requires Listed(deploys) && InSpan(deploys, mr, branch)
    ensures FirstIndex(deploys, mr.mergedAt.value) < |deploys|
  {
    FirstIsFirstIndex(deploys, mr.mergedAt.value, 0);
  }

  // ---------- many passes ----------

  datatype Books = Books(deploys: seq<Row>, mrs: map<int, StoredMergeRequest>, links: set<(int, int)>)

  /** Between passes the production list may become any other list, as rows arrive,
      finish, fail or change environment. */
  datatype BookEvent =
    | Relist(deploys: seq<Row>)
    | StoreMergeRequest(id: int, mr: StoredMergeRequest)
    | Pass

  /** Links are only ever inserted, never deleted. */
  ghost function Apply(b: Books, e: BookEvent, branch: string): Books {
    match e
    case Relist(deploys) => b.(deploys := deploys)
    case StoreMergeRequest(id, mr) => b.(mrs := b.mrs[id := mr])
    case Pass => b.(links := b.links + PassLinks(b.deploys, b.mrs, branch))
  }

  ghost function BooksAfter(events: seq<BookEvent>, branch: string): Books {
    if |events| == 0 then Books([], map[], {})
    else Apply(BooksAfter(events[..|events| - 1], branch), events[|events| - 1], branch)
  }

  /** Lists come out of the query in order. */
  ghost predicate ListsAreOrdered(events: seq<BookEvent>) {
    forall i :: 0 <= i < |events| && events[i].Relist? ==> Listed(events[i].deploys)
  }

  /** A repeated pass on unchanged tables adds nothing. */
  lemma PassIsIdempotent(b: Books, branch: string)
    ensures Apply(Apply(b, Pass, branch), Pass, branch) == Apply(b, Pass, branch)
    ensures b.links <= Apply(b, Pass, branch).links
  {
    var once := Apply(b, Pass, branch);
    assert once.links + PassLinks(b.deploys, b.mrs, branch) == once.links;
  }

  /** The tables as the i-th event found them. */
  ghost function Found(events: seq<BookEvent>, i: nat, branch: string): Books
    requires i < |events|
  {
    BooksAfter(events[..i], branch)
  }

  ghost predicate PassedAt(events: seq<BookEvent>, i: nat, branch: string, d: int, m: int)
    requires i < |events|
  {
    && events[i].Pass?
    && var b := Found(events, i, branch); m in b.mrs && FirstFor(b.deploys, b.mrs[m], branch, d)
  }

  lemma {:induction false} BooksAreListed(events: seq<BookEvent>, branch: string)
    requires ListsAreOrdered(events)
    ensures Listed(BooksAfter(events, branch).deploys)
  {
    if |events| != 0 {
      BooksAreListed(events[..|events| - 1], branch);
    }
  }

  /** Main result, for any history at all: the stored links are those some pass
      found its merge request's first deployment by. */
  lemma {:induction false} LinksAreThoseOfPasses(events: seq<BookEvent>, branch: string, d: int, m: int)
    requires ListsAreOrdered(events)
    ensures (d, m) in BooksAfter(events, branch).links
            <==> exists i: nat :: i < |events| && PassedAt(events, i, branch, d, m)
  {
    if |events| != 0 {
      hide FirstFor, Listed, PassLinks, PassedAt, BooksAfter;
      var k := |events| - 1;
      var front := events[..k];
      var b := BooksAfter(front, branch);
      LinksAreThoseOfPasses(front, branch, d, m);
      BooksAreListed(front, branch);
      LinkedIff(b.deploys, b.mrs, branch, d, m);
      LinksStep(events, branch, d, m);
      forall i: nat | i < k ensures PassedAt(events, i, branch, d, m) <==> PassedAt(front, i, branch, d, m) {
        PassedEarlier(events, i, branch, d, m);
      }
    }
  }

  lemma LinksStep(events: seq<BookEvent>, branch: string, d: int, m: int)
    requires |events| > 0
    ensures var k := |events| - 1;
      var b := BooksAfter(events[..k], branch);
      && ((d, m) in BooksAfter(events, branch).links
          <==> (d, m) in b.links || (events[k].Pass? && (d, m) in PassLinks(b.deploys, b.mrs, branch)))
      && (PassedAt(events, k, branch, d, m)
          <==> events[k].Pass? && m in b.mrs && FirstFor(b.deploys, b.mrs[m], branch, d))
  {
    hide FirstFor, PassLinks;
  }

  lemma PassedEarlier(events: seq<BookEvent>, i: nat, branch: string, d: int, m: int)
    requires i < |events| - 1
    ensures PassedAt(events, i, branch, d, m) <==> PassedAt(events[..|events| - 1], i, branch, d, m)
  {
    hide FirstFor, BooksAfter;
    assert events[..|events| - 1][..i] == events[..i];
  }

  /** Exact condition. A history that ends with a pass stores exactly the links of
      that pass if and only if every deployment an earlier pass linked is still the
      first for its merge request. */
  lemma InterleavingsAgreeIff(events: seq<BookEvent>, branch: string)
    requires ListsAreOrdered(events)
    ensures var b := BooksAfter(events + [Pass], branch);
      b.links == PassLinks(b.deploys, b.mrs, branch)
      <==> forall i: nat, d, m | i < |events| && PassedAt(events, i, branch, d, m) ::
             m in b.mrs && FirstFor(b.deploys, b.mrs[m], branch, d)
  {
    hide FirstFor, Listed, PassLinks, PassedAt;
    assert (events + [Pass])[..|events|] == events;
    var before := BooksAfter(events, branch);
    var pass := PassLinks(before.deploys, before.mrs, branch);
    BooksAreListed(events, branch);
    forall d, m ensures (d, m) in pass <==> m in before.mrs && FirstFor(before.deploys, before.mrs[m], branch, d) {
      LinkedIff(before.deploys, before.mrs, branch, d, m);
    }
    forall d, m
      ensures (d, m) in before.links <==> exists i: nat :: i < |events| && PassedAt(events, i, branch, d, m)
    {
      LinksAreThoseOfPasses(events, branch, d, m);
    }
    if forall i: nat, d, m | i < |events| && PassedAt(events, i, branch, d, m) :: (d, m) in pass {
      forall link | link in before.links ensures link in pass {
        var (d, m) := link;
      }
    } else {
      var i: nat, d, m :| i < |events| && PassedAt(events, i, branch, d, m) && (d, m) !in pass;
      assert (d, m) in before.links + pass;
    }
  }

  // ---------- arrival in finish order ----------

  /** The columns attribution reads. */
  predicate SameForAttribution(a: StoredMergeRequest, b: StoredMergeRequest) {
    a.targetBranch == b.targetBranch && a.authorIsBot == b.authorIsBot && a.mergedAt == b.mergedAt
  }

  /** Merge-request rows are added, or overwritten without touching what attribution
      reads. */
  predicate RowsKept(old': map<int, StoredMergeRequest>, new': map<int, StoredMergeRequest>) {
    forall m :: m in old' ==> m in new' && SameForAttribution(old'[m], new'[m])
  }

  /** Listed rows stay put and new ones come after them. */
  ghost predicate InFinishOrder(b: Books, e: BookEvent) {
    match e
    case Relist(deploys) => b.deploys <= deploys
    case StoreMergeRequest(id, mr) => id !in b.mrs || SameForAttribution(b.mrs[id], mr)
    case Pass => true
  }

  ghost predicate AllInFinishOrder(events: seq<BookEvent>, branch: string) {
    |events| > 0 ==>
      var k := |events| - 1;
      AllInFinishOrder(events[..k], branch) && InFinishOrder(BooksAfter(events[..k], branch), events[k])
  }

  /** Appending rows and adding merge requests keeps every link of a pass. */
  lemma GrowthKeepsLinks(
      earlier: seq<Row>, oldRows: map<int, StoredMergeRequest>,
      later: seq<Row>, newRows: map<int, StoredMergeRequest>, branch: string)
    requires earlier <= later && RowsKept(oldRows, newRows)
    ensures PassLinks(earlier, oldRows, branch) <= PassLinks(later, newRows, branch)
  {
    forall d, m | (d, m) in PassLinks(earlier, oldRows, branch)
      ensures (d, m) in PassLinks(later, newRows, branch)
    {
      var i :| 0 <= i < |earlier| && earlier[i].id == d && Closes(earlier, i, oldRows[m], branch);
      assert later[i] == earlier[i] && OpensAt(later, i) == OpensAt(earlier, i);
      assert Closes(later, i, newRows[m], branch);
    }
  }

  /** Whatever the interleaving, no link is ever stored that a pass over the
      current tables would not also insert. */
  lemma {:induction false} LinksNeverStray(events: seq<BookEvent>, branch: string)
    requires AllInFinishOrder(events, branch)
    ensures var b := BooksAfter(events, branch); b.links <= PassLinks(b.deploys, b.mrs, branch)
  {
    if |events| != 0 {
      hide PassLinks;
      var k := |events| - 1;
      var b, b' := BooksAfter(events[..k], branch), BooksAfter(events, branch);
      LinksNeverStray(events[..k], branch);
      GrowthKeepsLinks(b.deploys, b.mrs, b'.deploys, b'.mrs, branch);
    }
  }

  /** Main result. Under arrival in finish order, any interleaving of arrivals and
      passes that ends with a pass stores exactly the links of a single pass at
      the end. */
  lemma InterleavingsAgree(events: seq<BookEvent>, branch: string)
    requires AllInFinishOrder(events, branch)
    ensures var b := BooksAfter(events + [Pass], branch);
            b.links == PassLinks(b.deploys, b.mrs, branch)
  {
    assert (events + [Pass])[..|events|] == events;
    LinksNeverStray(events, branch);
  }

  // ---------- a deployment out of order ----------

  function Insert(deploys: seq<Row>, k: nat, row: Row): seq<Row>
    requires k <= |deploys|
  {
    deploys[..k] + [row] + deploys[k..]
  }

  lemma LinkKeptIff(
      deploys: seq<Row>, list: seq<Row>, k: nat, mrs: map<int, StoredMergeRequest>, branch: string, d: int, m: int)
    requires Widened(deploys, list, k) && Listed(list) && DistinctIds(list)
    requires (d, m) in PassLinks(deploys, mrs, branch)
    ensures (d, m) in PassLinks(list, mrs, branch) <==> !Closes(list, k, mrs[m], branch)
  {
    hide Closes;
    var i :| 0 <= i < |deploys| && deploys[i].id == d && Closes(deploys, i, mrs[m], branch);
    var i' := if i < k then i else i + 1;
    LinkSurvivesIff(deploys, list, k, mrs[m], branch, i);
    assert list[i'] == deploys[i];
    if (d, m) in PassLinks(list, mrs, branch) {
      var j :| 0 <= j < |list| && list[j].id == d && Closes(list, j, mrs[m], branch);
      assert j == i';
    }
  }

  /** Exact condition. After a deployment is inserted anywhere in the list, the
      next pass leaves only the links of the new list if and only if no merge
      request that was linked before falls in the interval the newcomer closes. */
  lemma InsertionLeavesNoStaleLinkIff(
      deploys: seq<Row>, k: nat, row: Row, mrs: map<int, StoredMergeRequest>, branch: string)
    requires k <= |deploys| && Listed(Insert(deploys, k, row)) && DistinctIds(Insert(deploys, k, row))
    ensures var before, after := PassLinks(deploys, mrs, branch), PassLinks(Insert(deploys, k, row), mrs, branch);
            before + after == after
            <==> !exists d, m :: (d, m) in before && Closes(Insert(deploys, k, row), k, mrs[m], branch)
  {
    hide PassLinks, Closes;
    var list := Insert(deploys, k, row);
    assert Widened(deploys, list, k);
    var before, after := PassLinks(deploys, mrs, branch), PassLinks(list, mrs, branch);
    forall d, m | (d, m) in before
      ensures (d, m) in after <==> !Closes(list, k, mrs[m], branch)
    {
      LinkKeptIff(deploys, list, k, mrs, branch, d, m);
    }
    if before + after == after {
      assert forall d, m :: (d, m) in before ==> (d, m) in after;
    } else {
      var link :| link in before && link !in after;
      var (d, m) := link;
      assert (d, m) in before && Closes(list, k, mrs[m], branch);
    }
  }

  /** list is deploys with one more row at position k. */
  ghost predicate Widened(deploys: seq<Row>, list: seq<Row>, k: nat) {
    && k <= |deploys| && |list| == |deploys| + 1
    && (forall j :: 0 <= j < k ==> list[j] == deploys[j])
    && (forall j :: k < j < |list| ==> list[j] == deploys[j - 1])
  }

  lemma LinkSurvivesIff(deploys: seq<Row>, list: seq<Row>, k: nat, mr: StoredMergeRequest, branch: string, i: nat)
    requires Widened(deploys, list, k) && Listed(list)
    requires i < |deploys| && Closes(deploys, i, mr, branch)
    ensures Closes(list, if i < k then i else i + 1, mr, branch) <==> !Closes(list, k, mr, branch)
  {
    var x := mr.mergedAt.value;
    if i < k {
      assert x <= deploys[i].finishedAt == list[i].finishedAt <= list[k - 1].finishedAt;
    } else if i > k {
      assert list[k].finishedAt <= list[i].finishedAt == deploys[i - 1].finishedAt < x;
    } else {
      assert list[k].finishedAt <= list[k + 1].finishedAt == deploys[k].finishedAt;
      assert OpensAt(list, k) <= OpensAt(deploys, k) < x;
    }
  }

  /** Out of finish order a merge request can end up linked twice: merged at 5 it
      was linked to the deployment finished at 10, and the one finished at 7 that
      arrives later is linked beside it. */
  lemma LateDeploymentLinksTwice()
    ensures var mrs := map[1 := StoredMergeRequest("main", false, Some(5), None)];
            var early := PassLinks([Row(20, 10)], mrs, "main");
            early + PassLinks([Row(10, 7), Row(20, 10)], mrs, "main") == {(20, 1), (10, 1)}
  {
    var mrs := map[1 := StoredMergeRequest("main", false, Some(5), None)];
    var one, two := [Row(20, 10)], [Row(10, 7), Row(20, 10)];
    assert Closes(one, 0, mrs[1], "main");
    assert Closes(two, 0, mrs[1], "main") && !Closes(two, 1, mrs[1], "main");
    assert (20, 1) in PassLinks(one, mrs, "main");
    assert (10, 1) in PassLinks(two, mrs, "main");
    assert PassLinks(one, mrs, "main") == {(20, 1)};
    assert PassLinks(two, mrs, "main") == {(10, 1)};
  }

  /** Nothing need arrive: once the deployment finished at 7 leaves the list, the
      merge request it was linked to is linked to the next one as well. */
  lemma DepartedDeploymentLinksTwice()
    ensures var mrs := map[1 := StoredMergeRequest("main", false, Some(5), None)];
            PassLinks([Row(10, 7), Row(20, 10)], mrs, "main") + PassLinks([Row(20, 10)], mrs, "main")
            == {(10, 1), (20, 1)}
  {
    LateDeploymentLinksTwice();
  }
}
