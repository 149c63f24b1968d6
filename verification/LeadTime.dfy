/** Lead-time decomposition and gaming detection
    (backend/internal/calculator/subcomponents.go and gaming.go). Times are
    nanoseconds; line counts and seconds are unbounded integers. */
module LeadTime {
  import opened Wrappers
  import opened Median

  const SECOND := 1_000_000_000

  datatype Timestamps = Timestamps(
    firstCommitAt: Option<int>, openedAt: Option<int>, mergedAt: Option<int>, deployedAt: Option<int>)

  datatype Breakdown = Breakdown(pickup: Option<int>, review: Option<int>, deployLag: Option<int>, total: Option<int>)

  /** Whole seconds of a duration, truncated toward zero. */
  function Seconds(d: int): int { if d >= 0 then d / SECOND else -(-d / SECOND) }

  /** Present when both ends are and the end is not a second or more too early. */
  function Component(start: Option<int>, end: Option<int>): (c: Option<int>)
    ensures c.Some? <==> start.Some? && end.Some? && end.value - start.value > -1_000_000_000
    ensures c.Some? && end.value >= start.value ==>
              c.value * 1_000_000_000 <= end.value - start.value < (c.value + 1) * 1_000_000_000
    ensures c.Some? && end.value < start.value ==> c.value == 0
  {
    if start.Some? && end.Some? && end.value - start.value > -SECOND
    then Some(if end.value >= start.value then (end.value - start.value) / SECOND else 0)
    else None
  }

  /** `Decompose`. */
  method Decompose(ts: Timestamps) returns (b: Breakdown)
    ensures b == Breakdown(
              Component(ts.firstCommitAt, ts.openedAt), Component(ts.openedAt, ts.mergedAt),
              Component(ts.mergedAt, ts.deployedAt), Component(ts.firstCommitAt, ts.deployedAt))
  {
    b := Breakdown(None, None, None, None);
    if ts.firstCommitAt.Some? && ts.openedAt.Some? {
      var s := Seconds(ts.openedAt.value - ts.firstCommitAt.value);
      if s >= 0 {
        b := b.(pickup := Some(s));
      }
    }
    if ts.openedAt.Some? && ts.mergedAt.Some? {
      var s := Seconds(ts.mergedAt.value - ts.openedAt.value);
      if s >= 0 {
        b := b.(review := Some(s));
      }
    }
    if ts.mergedAt.Some? && ts.deployedAt.Some? {
      var s := Seconds(ts.deployedAt.value - ts.mergedAt.value);
      if s >= 0 {
        b := b.(deployLag := Some(s));
      }
    }
    if ts.firstCommitAt.Some? && ts.deployedAt.Some? {
      var s := Seconds(ts.deployedAt.value - ts.firstCommitAt.value);
      if s >= 0 {
        b := b.(total := Some(s));
      }
    }
  }

  /** On chronological timestamps the three parts account for the total, up to the
      two seconds truncation can drop. */
  lemma PartsAccountForTotal(a: int, b: int, c: int, d: int)
    requires a <= b <= c <= d
    ensures var pickup, review, lag, total :=
              Component(Some(a), Some(b)), Component(Some(b), Some(c)),
              Component(Some(c), Some(d)), Component(Some(a), Some(d));
            && pickup.Some? && review.Some? && lag.Some? && total.Some?
            && 0 <= total.value - (pickup.value + review.value + lag.value) <= 2
  {
    var x, y, z := b - a, c - b, d - c;
    assert d - a == x + y + z;
    assert (x + y + z) / SECOND >= x / SECOND + y / SECOND + z / SECOND;
  }

  /** The bound is reached: three stretches of 0.9 seconds make a total of two. */
  lemma TwoSecondsCanBeDropped()
    ensures var t := 900_000_000;
            && Component(Some(0), Some(t)) == Some(0)
            && Component(Some(t), Some(2 * t)) == Some(0)
            && Component(Some(2 * t), Some(3 * t)) == Some(0)
            && Component(Some(0), Some(3 * t)) == Some(2)
  {}

  /** A negative stretch is kept, as 0, if and only if it is shorter than a second;
      one nanosecond is. */
  lemma NegativeIsKeptIff(start: int, end: int)
    requires end < start
    ensures Component(Some(start), Some(end)) == Some(0) <==> start - end < 1_000_000_000
    ensures Component(Some(start), Some(end)) == None <==> start - end >= 1_000_000_000
    ensures Component(Some(1), Some(0)) == Some(0)
  {}

  // ---------- aggregation ----------

  function Present(values: seq<Option<int>>): seq<int> {
    if |values| == 0 then []
    else
      var k := |values| - 1;
      Present(values[..k]) + if values[k].Some? then [values[k].value] else []
  }

  function MedianOrNone(xs: seq<int>): Option<int> {
    if |xs| == 0 then None else Some(MedianOf(xs))
  }

  function Pickups(bs: seq<Breakdown>): seq<Option<int>> { seq(|bs|, i requires 0 <= i < |bs| => bs[i].pickup) }
  function Reviews(bs: seq<Breakdown>): seq<Option<int>> { seq(|bs|, i requires 0 <= i < |bs| => bs[i].review) }
  function Lags(bs: seq<Breakdown>): seq<Option<int>> { seq(|bs|, i requires 0 <= i < |bs| => bs[i].deployLag) }
  function Totals(bs: seq<Breakdown>): seq<Option<int>> { seq(|bs|, i requires 0 <= i < |bs| => bs[i].total) }

  datatype Aggregate = Aggregate(
    pickup: Option<int>, review: Option<int>, deployLag: Option<int>, total: Option<int>, sampleSize: nat)

  /** Each component's median is taken over its own present values alone. */
  function AggregateOf(bs: seq<Breakdown>): Aggregate {
    Aggregate(
      MedianOrNone(Present(Pickups(bs))), MedianOrNone(Present(Reviews(bs))),
      MedianOrNone(Present(Lags(bs))), MedianOrNone(Present(Totals(bs))), |bs|)
  }

  /** `AggregateLeadTime`. */
  method AggregateLeadTime(bs: seq<Breakdown>) returns (agg: Aggregate)
    ensures agg == AggregateOf(bs)
  {
    var pickup: seq<int>, review: seq<int>, deploy: seq<int>, total: seq<int> := [], [], [], [];
    for i := 0 to |bs|
      invariant pickup == Present(Pickups(bs)[..i])
      invariant review == Present(Reviews(bs)[..i])
      invariant deploy == Present(Lags(bs)[..i])
      invariant total == Present(Totals(bs)[..i])
    {
      assert Pickups(bs)[..i + 1][..i] == Pickups(bs)[..i] && Reviews(bs)[..i + 1][..i] == Reviews(bs)[..i];
      assert Lags(bs)[..i + 1][..i] == Lags(bs)[..i] && Totals(bs)[..i + 1][..i] == Totals(bs)[..i];
      var m := bs[i];
      if m.pickup.Some? {
        pickup := pickup + [m.pickup.value];
      }
      if m.review.Some? {
        review := review + [m.review.value];
      }
      if m.deployLag.Some? {
        deploy := deploy + [m.deployLag.value];
      }
      if m.total.Some? {
        total := total + [m.total.value];
      }
    }
    assert Pickups(bs)[..|bs|] == Pickups(bs) && Reviews(bs)[..|bs|] == Reviews(bs);
    assert Lags(bs)[..|bs|] == Lags(bs) && Totals(bs)[..|bs|] == Totals(bs);
    var p := MedianInt64(pickup);
    var r := MedianInt64(review);
    var d := MedianInt64(deploy);
    var t := MedianInt64(total);
    agg := Aggregate(p, r, d, t, |bs|);
  }

  /** `sort.Slice` and `sort.Ints`: library calls that sort in place. */
  method SortInPlace(a: array<int>)
    modifies a
    ensures a[..] == SortAsc(old(a[..]))
  {
    hide SortAsc, Sorted;
    var sorted := SortAsc(a[..]);
    for i := 0 to a.Length
      invariant a[..i] == sorted[..i]
    {
      a[i] := sorted[i];
    }
  }

  /** The middle of a sorted buffer: one element, or half the sum of two. */
  method TakeMiddle(sorted: array<int>, ghost xs: seq<int>) returns (m: int)
    requires |xs| > 0 && sorted[..] == SortAsc(xs)
    ensures m == MedianOf(xs)
  {
    hide SortAsc;
    var n := sorted.Length;
    assert n == |SortAsc(xs)| && forall i :: 0 <= i < n ==> sorted[i] == sorted[..][i];
    if n % 2 == 1 {
      m := sorted[n / 2];
      assert TruncHalf(m + m) == m;
    } else {
      m := TruncHalf(sorted[n / 2 - 1] + sorted[n / 2]);
    }
  }

  /** `medianInt64`: copies, sorts the copy, takes the middle; nothing for an
      empty sample, and otherwise a centre of least total deviation. */
  method MedianInt64(xs: seq<int>) returns (med: Option<int>)
    ensures med == MedianOrNone(xs)
    ensures med.Some? ==> forall c :: TotalDeviation(xs, med.value) <= TotalDeviation(xs, c)
  {
    hide SortAsc, TotalDeviation, MedianOf;
    if |xs| == 0 {
      return None;
    }
    var sorted := new int[|xs|](i requires 0 <= i < |xs| => xs[i]);
    assert sorted[..] == xs;
    SortInPlace(sorted);
    var m := TakeMiddle(sorted, xs);
    med := Some(m);
    forall c
      ensures TotalDeviation(xs, m) <= TotalDeviation(xs, c)
    {
      MedianMinimisesDeviation(xs, c);
    }
  }

  lemma {:induction false} PresentOfConcat(a: seq<Option<int>>, b: seq<Option<int>>)
    ensures Present(a + b) == Present(a) + Present(b)
  {
    if |b| == 0 {
      assert a + b == a;
    } else {
      assert (a + b)[..|a + b| - 1] == a + b[..|b| - 1];
      PresentOfConcat(a, b[..|b| - 1]);
    }
  }

  lemma {:induction false} PresentOfAbsent(values: seq<Option<int>>)
    requires forall i :: 0 <= i < |values| ==> values[i].None?
    ensures Present(values) == []
  {
    if |values| != 0 {
      PresentOfAbsent(values[..|values| - 1]);
    }
  }

  /** Merge requests without a review time, whatever else they carry, do not move
      the review median; likewise for the other three components. */
  lemma MissingComponentsAreInvisible(before: seq<Breakdown>, more: seq<Breakdown>, after: seq<Breakdown>)
    ensures var all, rest := AggregateOf(before + more + after), AggregateOf(before + after);
            && ((forall i :: 0 <= i < |more| ==> more[i].pickup.None?) ==> all.pickup == rest.pickup)
            && ((forall i :: 0 <= i < |more| ==> more[i].review.None?) ==> all.review == rest.review)
            && ((forall i :: 0 <= i < |more| ==> more[i].deployLag.None?) ==> all.deployLag == rest.deployLag)
            && ((forall i :: 0 <= i < |more| ==> more[i].total.None?) ==> all.total == rest.total)
  {
    hide Present, MedianOrNone;
    assert Pickups(before + more + after) == Pickups(before) + Pickups(more) + Pickups(after);
    assert Reviews(before + more + after) == Reviews(before) + Reviews(more) + Reviews(after);
    assert Lags(before + more + after) == Lags(before) + Lags(more) + Lags(after);
    assert Totals(before + more + after) == Totals(before) + Totals(more) + Totals(after);
    assert Pickups(before + after) == Pickups(before) + Pickups(after);
    assert Reviews(before + after) == Reviews(before) + Reviews(after);
    assert Lags(before + after) == Lags(before) + Lags(after);
    assert Totals(before + after) == Totals(before) + Totals(after);
    AbsentInTheMiddle(Pickups(before), Pickups(more), Pickups(after));
    AbsentInTheMiddle(Reviews(before), Reviews(more), Reviews(after));
    AbsentInTheMiddle(Lags(before), Lags(more), Lags(after));
    AbsentInTheMiddle(Totals(before), Totals(more), Totals(after));
  }

  lemma AbsentInTheMiddle(a: seq<Option<int>>, b: seq<Option<int>>, c: seq<Option<int>>)
    ensures (forall i :: 0 <= i < |b| ==> b[i].None?) ==> Present(a + b + c) == Present(a + c)
  {
    if forall i :: 0 <= i < |b| ==> b[i].None? {
      PresentOfConcat(a + b, c);
      PresentOfConcat(a, b);
      PresentOfConcat(a, c);
      PresentOfAbsent(b);
      assert Present(a) + [] == Present(a);
    }
  }

  // ---------- gaming ----------

  const TRIVIAL_LINES := 5
  const GAMING_PERCENT := 50.0
  const MIN_KNOWN := 4

  datatype Size = Size(additions: int, deletions: int, linesUnknown: bool)

  datatype GamingReport = GamingReport(
    sampleSize: nat, trivialCount: nat, trivialPercent: real, medianSize: int, flagged: bool)

  function KnownSizes(sizes: seq<Size>): seq<int> {
    if |sizes| == 0 then []
    else
      var s := sizes[|sizes| - 1];
      KnownSizes(sizes[..|sizes| - 1]) + if s.linesUnknown then [] else [s.additions + s.deletions]
  }

  /** The merge requests whose size is known, and the trivial ones among them: at most
      five lines added and deleted. */
  function KnownOnes(sizes: seq<Size>): set<int> { set i | 0 <= i < |sizes| && !sizes[i].linesUnknown }

  function TrivialOnes(sizes: seq<Size>): set<int> {
    set i | 0 <= i < |sizes| && !sizes[i].linesUnknown && sizes[i].additions + sizes[i].deletions <= 5
  }

  /** What the last merge request adds to either set. */
  lemma LastOne(sizes: seq<Size>, k: nat)
    requires |sizes| == k + 1
    ensures sizes[k].linesUnknown ==> KnownOnes(sizes) == KnownOnes(sizes[..k])
    ensures !sizes[k].linesUnknown ==> KnownOnes(sizes) == KnownOnes(sizes[..k]) + {k}
    ensures k !in KnownOnes(sizes[..k]) && k !in TrivialOnes(sizes[..k])
    ensures !sizes[k].linesUnknown && sizes[k].additions + sizes[k].deletions <= 5 ==>
              TrivialOnes(sizes) == TrivialOnes(sizes[..k]) + {k}
    ensures sizes[k].linesUnknown || sizes[k].additions + sizes[k].deletions > 5 ==>
              TrivialOnes(sizes) == TrivialOnes(sizes[..k])
  {}

  lemma {:induction false} KnownSizesCount(sizes: seq<Size>)
    ensures |KnownOnes(sizes)| == |KnownSizes(sizes)|
    ensures |TrivialOnes(sizes)| == CountAtMost(KnownSizes(sizes), 5)
  {
    if |sizes| == 0 {
      assert KnownOnes(sizes) == {} && TrivialOnes(sizes) == {};
    } else {
      hide KnownOnes, TrivialOnes;
      var k := |sizes| - 1;
      var s := sizes[k];
      KnownSizesCount(sizes[..k]);
      LastOne(sizes, k);
      if !s.linesUnknown {
        assert KnownSizes(sizes) == KnownSizes(sizes[..k]) + [s.additions + s.deletions];
        assert KnownSizes(sizes)[..|KnownSizes(sizes)| - 1] == KnownSizes(sizes[..k]);
      } else {
        assert KnownSizes(sizes) == KnownSizes(sizes[..k]);
      }
    }
  }

  /** `medianOfInts`, called with at least four values. */
  method MedianOfInts(xs: seq<int>) returns (m: int)
    requires |xs| > 0
    ensures m == MedianOf(xs)
  {
    hide SortAsc, MedianOf;
    var sorted := new int[|xs|](i requires 0 <= i < |xs| => xs[i]);
    assert sorted[..] == xs;
    SortInPlace(sorted);
    m := TakeMiddle(sorted, xs);
  }

  /** `AnalyzeGaming`: a window is flagged exactly when at least four sizes are
      known and the lower middle size is trivial. */
  method AnalyzeGaming(sizes: seq<Size>) returns (rep: GamingReport)
    ensures rep.sampleSize == |KnownOnes(sizes)|
    ensures rep.flagged <==> |KnownOnes(sizes)| >= 4 && 2 * |TrivialOnes(sizes)| >= |KnownOnes(sizes)|
    ensures rep.trivialCount == if |KnownOnes(sizes)| >= 4 then |TrivialOnes(sizes)| else 0
    ensures rep.sampleSize == |KnownSizes(sizes)|
    ensures rep.flagged <==> |KnownSizes(sizes)| >= MIN_KNOWN && Lower(KnownSizes(sizes)) <= TRIVIAL_LINES
    ensures |KnownSizes(sizes)| >= MIN_KNOWN ==>
              && rep.trivialCount == CountAtMost(KnownSizes(sizes), TRIVIAL_LINES)
              && rep.trivialPercent * rep.sampleSize as real == rep.trivialCount as real * 100.0
              && rep.medianSize == MedianOf(KnownSizes(sizes))
              && (rep.medianSize <= TRIVIAL_LINES ==> rep.flagged)
  {
    hide MedianOf, Lower, CountAtMost, KnownOnes, TrivialOnes, KnownSizes;
    var known := SizesKnown(sizes);
    KnownSizesCount(sizes);
    if |known| < MIN_KNOWN {
      return GamingReport(|known|, 0, 0.0, 0, false);
    }
    var trivial := CountTrivial(known);
    var pct := trivial as real / |known| as real * 100.0;
    var median := MedianOfInts(known);
    PercentIsHalf(trivial, |known|, pct);
    LowerIsTrivialIff(known);
    rep := GamingReport(|known|, trivial, pct, median, pct >= GAMING_PERCENT);
  }

  lemma LowerIsTrivialIff(known: seq<int>)
    requires |known| > 0
    ensures Lower(known) <= TRIVIAL_LINES <==> 2 * CountAtMost(known, TRIVIAL_LINES) >= |known|
    ensures MedianOf(known) <= TRIVIAL_LINES ==> Lower(known) <= TRIVIAL_LINES
  {
    hide Lower, Upper, SortAsc, CountAtMost;
    MiddleByCount(known, TRIVIAL_LINES);
  }

  /** The filtering loop of `AnalyzeGaming`. */
  method SizesKnown(sizes: seq<Size>) returns (known: seq<int>)
    ensures known == KnownSizes(sizes)
  {
    known := [];
    for i := 0 to |sizes|
      invariant known == KnownSizes(sizes[..i])
    {
      assert sizes[..i + 1][..i] == sizes[..i];
      if !sizes[i].linesUnknown {
        known := known + [sizes[i].additions + sizes[i].deletions];
      }
    }
    assert sizes[..|sizes|] == sizes;
  }

  /** The counting loop of `AnalyzeGaming`. */
  method CountTrivial(known: seq<int>) returns (trivial: nat)
    ensures trivial == CountAtMost(known, TRIVIAL_LINES)
  {
    trivial := 0;
    for i := 0 to |known|
      invariant trivial == CountAtMost(known[..i], TRIVIAL_LINES)
    {
      assert known[..i + 1][..i] == known[..i];
      if known[i] <= TRIVIAL_LINES {
        trivial := trivial + 1;
      }
    }
    assert known[..|known|] == known;
  }

  lemma PercentIsHalf(count: nat, n: nat, pct: real)
    requires n > 0 && pct == count as real / n as real * 100.0
    ensures pct >= 50.0 <==> 2 * count >= n
    ensures pct * n as real == count as real * 100.0
  {
    var q := count as real / n as real;
    assert q * n as real == count as real;
    assert pct * n as real == (q * n as real) * 100.0;
    if pct >= 50.0 {
      assert (pct - 50.0) * n as real >= 0.0;
    } else {
      assert (50.0 - pct) * n as real > 0.0;
    }
  }
}
