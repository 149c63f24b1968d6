/** What predictions do not depend on, and how far a breach can lie ahead
    (backend/internal/prediction/trend.go). */
module TrendLaws {
  import opened Wrappers
  import opened LeastSquares
  import opened Trend

  // ---------- the forecast in plain terms ----------

  /** Days since the first of the samples, and ranks, for a regression by hand. */
  ghost predicate Plots(valid: seq<Sample>, xs: seq<real>, ys: seq<real>) {
    && |xs| == |ys| == |valid|
    && (forall i :: 0 <= i < |valid| ==> xs[i] == (valid[i].t - valid[0].t) as real / 86_400_000_000_000.0)
    && (forall i :: 0 <= i < |valid| && valid[i].tier == "elite" ==> ys[i] == 4.0)
    && (forall i :: 0 <= i < |valid| && valid[i].tier == "high" ==> ys[i] == 3.0)
    && (forall i :: 0 <= i < |valid| && valid[i].tier == "medium" ==> ys[i] == 2.0)
    && (forall i :: 0 <= i < |valid| && valid[i].tier == "low" ==> ys[i] == 1.0)
  }

  /** Exactly the samples of the four tiers are used, as often as they occur. */
  lemma RankedSamplesAreThoseOfATier(samples: seq<Sample>, a: Sample)
    ensures multiset(RankedSamples(samples))[a]
         == if a.tier in {"elite", "high", "medium", "low"} then multiset(samples)[a] else 0
  {
    hide RankedSamples;
    RankedCounts(samples, a);
  }

  lemma RankedHaveATier(samples: seq<Sample>)
    ensures forall s :: s in RankedSamples(samples) ==> s.tier in {"elite", "high", "medium", "low"}
  {
    forall s | s in RankedSamples(samples) ensures s.tier in {"elite", "high", "medium", "low"} {
      RankedIn(samples, s);
    }
  }

  lemma PlotsAreCoordinates(samples: seq<Sample>, xs: seq<real>, ys: seq<real>)
    requires |RankedSamples(samples)| > 0 && Plots(RankedSamples(samples), xs, ys)
    ensures var v := RankedSamples(samples); xs == Xs(v, v[0].t) && ys == Ys(v)
  {
    var v := RankedSamples(samples);
    RankedHaveATier(samples);
    forall i | 0 <= i < |v| ensures xs[i] == Xs(v, v[0].t)[i] && ys[i] == Ys(v)[i] {
      assert v[i] in v;
    }
  }

  /** Main result. Take any line of least squared residual through the ranks of six
      or more samples not all at one instant: the weekly slope is seven times its
      slope, R² is the share of the ranks' variation it removes, and the projected
      tier is read off it thirty days after the last ranked sample. */
  lemma ForecastReadsTheBestLine(samples: seq<Sample>, xs: seq<real>, ys: seq<real>, slope: real, intercept: real)
    requires |RankedSamples(samples)| >= 6 && Plots(RankedSamples(samples), xs, ys) && !AllEqual(xs)
    requires Minimises(xs, ys, slope, intercept)
    ensures var p, v := Forecast(samples), RankedSamples(samples);
            var ahead := (v[|v| - 1].t + 2_592_000_000_000_000 - v[0].t) as real / 86_400_000_000_000.0;
            var rank := intercept + slope * ahead;
      && p.slopePerWeek == slope * 7.0
      && (p.projectedTier == "elite" <==> rank >= 3.5)
      && (p.projectedTier == "high" <==> 2.5 <= rank < 3.5)
      && (p.projectedTier == "medium" <==> 1.5 <= rank < 2.5)
      && (p.projectedTier == "low" <==> rank < 1.5)
    ensures var p, total := Forecast(samples), Variation(xs, ys, Mean(SumsOf(xs, ys)));
      p.r2 * total == total - Residual(xs, ys, slope, intercept)
  {
    hide Fit, SumsOf, Minimises, Residual, DaysPerHalfRank, Round, Mean, Variation, Explained;
    hide RankedSamples, Xs, Ys, AllEqual, Plots;
    var v := RankedSamples(samples);
    PlotsAreCoordinates(samples, xs, ys);
    BestLineIsTheFit(xs, ys, slope, intercept);
    DaysAhead(v[|v| - 1].t, v[0].t);
    ShareOfRanks(xs, ys);
  }

  lemma DaysAhead(t: int, origin: int)
    ensures Days(t, origin) + 30.0 == (t + 2_592_000_000_000_000 - origin) as real / 86_400_000_000_000.0
  {}

  lemma BestLineIsTheFit(xs: seq<real>, ys: seq<real>, slope: real, intercept: real)
    requires |xs| == |ys| && |xs| >= 2 && !AllEqual(xs) && Minimises(xs, ys, slope, intercept)
    ensures var f := Fit(SumsOf(xs, ys)); slope == f.slope && intercept == f.intercept
  {
    hide Fit, SumsOf, Residual, AllEqual;
    var f := Fit(SumsOf(xs, ys));
    FitMinimises(xs, ys);
    assert Residual(xs, ys, slope, intercept) <= Residual(xs, ys, f.slope, f.intercept);
    assert Residual(xs, ys, f.slope, f.intercept) <= Residual(xs, ys, slope, intercept);
    FitIsTheOnlyMinimum(xs, ys, slope, intercept);
  }

  lemma ShareOfRanks(xs: seq<real>, ys: seq<real>)
    requires |xs| == |ys| && |xs| >= 2 && !AllEqual(xs)
    ensures var s := SumsOf(xs, ys);
            var f, total := Fit(s), Variation(xs, ys, Mean(s));
            f.r2 * total == total - Residual(xs, ys, f.slope, f.intercept)
  {
    hide Fit, SumsOf, Mean, Residual, Explained, Variation, AllEqual, Quotient;
    var s := SumsOf(xs, ys);
    var f, total := Fit(s), Variation(xs, ys, Mean(s));
    VariationSplits(xs, ys);
    R2IsExplainedShare(xs, ys);
    ConstantSeries(xs, ys);
    VariationSigns(xs, ys, f.slope, f.intercept, Mean(s));
    if total != 0.0 {
      RatioIsQuotient(Explained(xs, ys, f.slope, f.intercept, Mean(s)), total);
      Cancel(Explained(xs, ys, f.slope, f.intercept, Mean(s)), total);
    }
  }

  /** The decisions, in numbers: fewer than six ranked samples give no forecast; the
      direction is read off the weekly slope at 0.02 ranks, the confidence off R² and
      the number of samples. */
  lemma DecisionsInNumbers(samples: seq<Sample>)
    ensures var p, n := Forecast(samples), |RankedSamples(samples)|;
      && p.sampleSize == n
      && (n < 6 <==> p.direction == Undetermined) && (n < 6 <==> p.confidence == Unrated)
      && (n < 6 ==> p.slopePerWeek == 0.0 && p.r2 == 0.0 && p.horizonDays == 0)
      && (n < 6 ==> p.currentTier == "" && p.projectedTier == "")
      && (p.direction == Degrading <==> n >= 6 && p.slopePerWeek < -0.02)
      && (p.direction == Improving <==> n >= 6 && p.slopePerWeek > 0.02)
      && (p.confidence == High <==> n >= 10 && p.r2 >= 0.6)
      && (p.confidence == Low <==> n >= 6 && p.r2 < 0.3)
      && (n >= 6 ==> p.horizonDays == 30 && p.currentTier == RankedSamples(samples)[n - 1].tier)
      && (p.reason.Falling? <==> p.direction == Degrading && p.r2 >= 0.3)
      && (p.reason.Falling? ==> p.reason == Falling(-p.slopePerWeek, n, p.r2, p.willBreachInDays))
      && (p.reason == TooFewSamples <==> n < 6)
  {
    hide Trendline, LineAt, Days, DaysPerHalfRank, Round, RankToTier, RankedSamples;
  }

  // ---------- breach estimate ----------

  /** A breach estimate is present exactly on degrading predictions, whatever the
      current tier; it is the time to lose half a rank and lies in 0..175, so the
      180-day cap never removes it. */
  lemma BreachIffDegrading(samples: seq<Sample>)
    ensures var p := Forecast(samples);
            && (p.willBreachInDays.Some? <==> p.direction == Degrading)
            && (p.willBreachInDays.Some? ==>
                  && p.slopePerWeek < -0.02
                  && 0 <= p.willBreachInDays.value <= 175
                  && -0.5 < p.willBreachInDays.value as real - 3.5 / -p.slopePerWeek <= 0.5)
  {
    hide Trendline, LineAt, Days, DaysPerHalfRank;
    var p := Forecast(samples);
    if p.direction == Degrading {
      var slope := Trendline(RankedSamples(samples)).slope;
      HalfRankAway(1.0, slope);
      HalfRankPerWeek(slope);
    }
  }

  lemma HalfRankPerWeek(slope: real)
    requires slope < 0.0
    ensures DaysPerHalfRank(slope) == 3.5 / -(slope * 7.0)
  {
    var speed := -slope;
    Cancel(0.5, speed);
    Cancel(3.5, speed * 7.0);
    assert (0.5 / speed - 3.5 / (speed * 7.0)) * (speed * 7.0) == 0.0;
    assert -(slope * 7.0) == speed * 7.0;
  }

  // ---------- samples without a rank ----------

  lemma {:induction false} RankedConcat(a: seq<Sample>, b: seq<Sample>)
    ensures RankedSamples(a + b) == RankedSamples(a) + RankedSamples(b)
  {
    if |b| == 0 {
      assert a + b == a;
    } else {
      var k := |b| - 1;
      assert (a + b)[..|a + b| - 1] == a + b[..k];
      RankedConcat(a, b[..k]);
    }
  }

  lemma {:induction false} RankedOfUnranked(a: seq<Sample>)
    requires forall i :: 0 <= i < |a| ==> !Ranked(a[i])
    ensures RankedSamples(a) == []
  {
    if |a| != 0 {
      RankedOfUnranked(a[..|a| - 1]);
    }
  }

  /** Insufficient-data (or unknown-tier) samples may be inserted anywhere. */
  lemma UnrankedSamplesAreInvisible(before: seq<Sample>, unranked: seq<Sample>, after: seq<Sample>)
    requires forall i :: 0 <= i < |unranked| ==> !Ranked(unranked[i])
    ensures Forecast(before + unranked + after) == Forecast(before + after)
  {
    RankedConcat(before + unranked, after);
    RankedConcat(before, unranked);
    RankedConcat(before, after);
    RankedOfUnranked(unranked);
    assert RankedSamples(before) + [] == RankedSamples(before);
  }

  // ---------- shifting the clock ----------

  function Delay(samples: seq<Sample>, gap: int): (r: seq<Sample>)
    ensures |r| == |samples|
    ensures forall i :: 0 <= i < |r| ==> r[i] == Sample(samples[i].t + gap, samples[i].tier)
  {
    seq(|samples|, i requires 0 <= i < |samples| => Sample(samples[i].t + gap, samples[i].tier))
  }

  lemma {:induction false} RankedOfDelay(samples: seq<Sample>, gap: int)
    ensures RankedSamples(Delay(samples, gap)) == Delay(RankedSamples(samples), gap)
  {
    if |samples| != 0 {
      var k := |samples| - 1;
      assert Delay(samples, gap)[..k] == Delay(samples[..k], gap);
      RankedOfDelay(samples[..k], gap);
    }
  }

  /** Shifting every timestamp changes nothing at all. */
  lemma ShiftedClockIsInvisible(samples: seq<Sample>, gap: int)
    ensures Forecast(Delay(samples, gap)) == Forecast(samples)
  {
    hide Fit, SumsOf, LineAt, DaysPerHalfRank, RankToTier;
    var valid, moved := RankedSamples(samples), RankedSamples(Delay(samples, gap));
    RankedOfDelay(samples, gap);
    if |valid| >= MIN_SAMPLES {
      assert Xs(moved, moved[0].t) == Xs(valid, valid[0].t);
      assert Ys(moved) == Ys(valid);
    }
  }

  // ---------- permuting the samples ----------

  function SampleSums(valid: seq<Sample>, origin: int): (s: Sums)
    requires forall i :: 0 <= i < |valid| ==> Ranked(valid[i])
    ensures s.n == |valid|
  {
    SumsOf(Xs(valid, origin), Ys(valid))
  }

  function PushSample(s: Sums, a: Sample, origin: int): Sums
    requires Ranked(a)
  {
    Push(s, Days(a.t, origin), RankOf(a.tier).value)
  }

  lemma SampleSumsStep(valid: seq<Sample>, origin: int)
    requires |valid| > 0
    requires forall i :: 0 <= i < |valid| ==> Ranked(valid[i])
    ensures var k := |valid| - 1;
            SampleSums(valid, origin) == PushSample(SampleSums(valid[..k], origin), valid[k], origin)
  {
    hide Push, Days;
    var k := |valid| - 1;
    assert Xs(valid, origin)[..k] == Xs(valid[..k], origin);
    assert Ys(valid)[..k] == Ys(valid[..k]);
  }

  lemma PushCommutes(s: Sums, x: real, y: real, x': real, y': real)
    ensures Push(Push(s, x, y), x', y') == Push(Push(s, x', y'), x, y)
  {}

  /** Any sample may be taken as the last one summed. */
  lemma {:induction false} SampleSumsRemove(valid: seq<Sample>, j: nat, origin: int)
    requires j < |valid|
    requires forall i :: 0 <= i < |valid| ==> Ranked(valid[i])
    ensures SampleSums(valid, origin)
         == PushSample(SampleSums(valid[..j] + valid[j + 1..], origin), valid[j], origin)
  {
    hide SampleSums, Push, Days;
    var k := |valid| - 1;
    SampleSumsStep(valid, origin);
    if j == k {
      assert valid[..j] + valid[j + 1..] == valid[..k];
    } else {
      var others := valid[..j] + valid[j + 1..];
      assert others[..k - 1] == valid[..k][..j] + valid[..k][j + 1..];
      SampleSumsRemove(valid[..k], j, origin);
      SampleSumsStep(others, origin);
      PushCommutes(SampleSums(others[..k - 1], origin),
                   Days(valid[j].t, origin), RankOf(valid[j].tier).value,
                   Days(valid[k].t, origin), RankOf(valid[k].tier).value);
    }
  }

  lemma {:induction false} SumsIgnoreOrder(v: seq<Sample>, w: seq<Sample>, origin: int)
    requires multiset(v) == multiset(w)
    requires forall i :: 0 <= i < |v| ==> Ranked(v[i])
    requires forall i :: 0 <= i < |w| ==> Ranked(w[i])
    ensures SampleSums(v, origin) == SampleSums(w, origin)
    decreases |v|
  {
    hide SampleSums, Push, Days;
    if |v| == 0 {
      assert |w| == |multiset(w)| == |multiset(v)| == 0;
    } else {
      var j := MatchLast(v, w);
      var rest := w[..j] + w[j + 1..];
      SumsIgnoreOrder(v[..|v| - 1], rest, origin);
      SampleSumsStep(v, origin);
      SampleSumsRemove(w, j, origin);
    }
  }

  lemma MatchLast(v: seq<Sample>, w: seq<Sample>) returns (j: nat)
    requires |v| > 0 && multiset(v) == multiset(w)
    ensures j < |w| && w[j] == v[|v| - 1]
    ensures multiset(v[..|v| - 1]) == multiset(w[..j] + w[j + 1..])
  {
    var k := |v| - 1;
    assert v[k] in multiset(w);
    j :| 0 <= j < |w| && w[j] == v[k];
    assert v == v[..k] + [v[k]];
    assert w == w[..j] + [w[j]] + w[j + 1..];
    assert multiset(v[..k]) == multiset(v) - multiset{v[k]};
    assert multiset(w[..j] + w[j + 1..]) == multiset(w) - multiset{w[j]};
  }

  /** `t` holds the sums of the samples of `s` with every x moved by `c`. */
  predicate Moved(s: Sums, t: Sums, c: real) {
    && t.n == s.n && t.y == s.y && t.yy == s.yy
    && t.x == s.x + s.n as real * c
    && t.xy == s.xy + c * s.y
    && t.xx == s.xx + 2.0 * c * s.x + s.n as real * c * c
  }

  lemma MovedStep(s: Sums, t: Sums, c: real, x: real, y: real)
    requires Moved(s, t, c)
    ensures Moved(Push(s, x, y), Push(t, x + c, y), c)
  {
    assert (s.n + 1) as real == s.n as real + 1.0;
    assert (x + c) * (x + c) == x * x + 2.0 * c * x + c * c;
    assert 2.0 * c * (s.x + x) == 2.0 * c * s.x + 2.0 * c * x;
    assert (s.n as real + 1.0) * c * c == s.n as real * c * c + c * c;
  }

  lemma {:induction false} OriginMoves(valid: seq<Sample>, origin: int, origin': int)
    requires forall i :: 0 <= i < |valid| ==> Ranked(valid[i])
    ensures Moved(SampleSums(valid, origin), SampleSums(valid, origin'), Days(origin, origin'))
  {
    var c := Days(origin, origin');
    if |valid| != 0 {
      hide Moved, Push, SampleSums;
      var k := |valid| - 1;
      OriginMoves(valid[..k], origin, origin');
      SampleSumsStep(valid, origin);
      SampleSumsStep(valid, origin');
      assert Days(valid[k].t, origin') == Days(valid[k].t, origin) + c;
      MovedStep(SampleSums(valid[..k], origin), SampleSums(valid[..k], origin'), c,
                Days(valid[k].t, origin), RankOf(valid[k].tier).value);
    }
  }

  lemma MovedSpreads(s: Sums, t: Sums, c: real)
    requires Moved(s, t, c)
    ensures Denominator(t) == Denominator(s) && Covariance(t) == Covariance(s) && Spread(t) == Spread(s)
  {
    var n := s.n as real;
    assert t.x * t.x == s.x * s.x + 2.0 * n * c * s.x + n * n * c * c;
    assert n * t.xx == n * s.xx + 2.0 * n * c * s.x + n * n * c * c;
    assert n * t.xy == n * s.xy + n * c * s.y;
    assert t.x * t.y == s.x * s.y + n * c * s.y;
  }

  lemma SameSpreadsSameSlope(s: Sums, t: Sums)
    requires t.n == s.n
    requires Denominator(t) == Denominator(s) && Covariance(t) == Covariance(s) && Spread(t) == Spread(s)
    ensures Fit(t).slope == Fit(s).slope && Fit(t).r2 == Fit(s).r2
  {
    hide Denominator, Covariance, Spread, Mean, Quotient, Times;
  }

  /** The trendline is the same line whatever the origin of time. */
  lemma MovedLine(s: Sums, t: Sums, c: real, x: real)
    requires Moved(s, t, c) && s.n >= 2
    ensures LineAt(Fit(t).intercept, Fit(t).slope, x + c) == LineAt(Fit(s).intercept, Fit(s).slope, x)
  {
    hide Fit, Denominator, Covariance, Spread;
    MovedSpreads(s, t, c);
    SameSpreadsSameSlope(s, t);
    var n, b := s.n as real, Fit(s).slope;
    if Denominator(s) == 0.0 {
      FlatFit(s);
      FlatFit(t);
    } else {
      FitSolves(s);
      FitSolves(t);
      assert b * t.x == b * s.x + n * (b * c);
      assert (Fit(t).intercept + b * c - Fit(s).intercept) * n == 0.0;
    }
  }

  lemma FlatFit(s: Sums)
    requires s.n >= 2 && Denominator(s) == 0.0
    ensures Fit(s).slope == 0.0 && Fit(s).intercept == Mean(s)
  {}

  lemma {:induction false} RankedCounts(samples: seq<Sample>, a: Sample)
    ensures multiset(RankedSamples(samples))[a] == if Ranked(a) then multiset(samples)[a] else 0
  {
    if |samples| != 0 {
      var k := |samples| - 1;
      RankedCounts(samples[..k], a);
      assert samples == samples[..k] + [samples[k]];
    }
  }

  /** Main result. Slope, R², direction, confidence, breach and reason do not
      depend on the order of the samples; only the two tier names do, and they
      too agree when the same ranked sample comes last. */
  lemma OrderOnlyNamesTheTiers(samples: seq<Sample>, shuffled: seq<Sample>)
    requires multiset(samples) == multiset(shuffled)
    ensures var p, q := Forecast(samples), Forecast(shuffled);
            q == p.(currentTier := q.currentTier, projectedTier := q.projectedTier)
    ensures var v, w := RankedSamples(samples), RankedSamples(shuffled);
            |v| == |w| && (|v| > 0 && v[|v| - 1] == w[|w| - 1] ==> Forecast(shuffled) == Forecast(samples))
  {
    hide Fit, SumsOf, LineAt, RankToTier, DaysPerHalfRank, Round, Moved, Denominator, Covariance, Spread, Days;
    hide RankedSamples, Xs, Ys, DirectionOf, ConfidenceOf;
    var v, w := RankedSamples(samples), RankedSamples(shuffled);
    RankedPermutes(samples, shuffled);
    if |v| >= MIN_SAMPLES {
      var here, there := v[0].t, w[0].t;
      var s, t, c := SampleSums(v, here), SampleSums(v, there), Days(here, there);
      SumsIgnoreOrder(v, w, there);
      OriginMoves(v, here, there);
      MovedSpreads(s, t, c);
      SameSpreadsSameSlope(s, t);
      var last := v[|v| - 1].t;
      MovedLine(s, t, c, Days(last, here) + HORIZON_DAYS as real);
      DaysAdd(last, here, there);
    }
  }

  lemma DaysAdd(t: int, here: int, there: int)
    ensures Days(t, there) == Days(t, here) + Days(here, there)
  {}

  lemma RankedPermutes(samples: seq<Sample>, shuffled: seq<Sample>)
    requires multiset(samples) == multiset(shuffled)
    ensures multiset(RankedSamples(samples)) == multiset(RankedSamples(shuffled))
    ensures |RankedSamples(samples)| == |RankedSamples(shuffled)|
  {
    var v, w := RankedSamples(samples), RankedSamples(shuffled);
    forall a: Sample
      ensures multiset(v)[a] == multiset(w)[a]
    {
      RankedCounts(samples, a);
      RankedCounts(shuffled, a);
    }
    assert multiset(v) == multiset(w);
    assert |v| == |multiset(v)| == |multiset(w)| == |w|;
  }

  /** The samples are not sorted: out of order, the "current" tier is the last
      listed one, not the most recent. */
  lemma UnsortedSamplesGiveAStaleTier()
    ensures var samples := [Sample(0, "low"), Sample(1, "low"), Sample(2, "low"),
                            Sample(3, "low"), Sample(5, "high"), Sample(4, "low")];
            && (forall i :: 0 <= i < |samples| ==> samples[i].t <= samples[4].t)
            && Forecast(samples).currentTier == "low" != samples[4].tier
  {
    hide Trendline, LineAt, Days, RankToTier, DaysPerHalfRank;
    var samples := [Sample(0, "low"), Sample(1, "low"), Sample(2, "low"),
                    Sample(3, "low"), Sample(5, "high"), Sample(4, "low")];
    RankedOfRanked(samples);
  }

  lemma {:induction false} RankedOfRanked(samples: seq<Sample>)
    requires forall i :: 0 <= i < |samples| ==> Ranked(samples[i])
    ensures RankedSamples(samples) == samples
  {
    if |samples| != 0 {
      RankedOfRanked(samples[..|samples| - 1]);
    }
  }

  /** The ranked samples are listed by time; the others may stand anywhere. */
  predicate Chronological(samples: seq<Sample>) {
    forall i, j :: 0 <= i < j < |samples| && Ranked(samples[i]) && Ranked(samples[j]) ==> samples[i].t <= samples[j].t
  }

  /** The reported tier is always that of the last ranked sample listed; on
      chronological samples no ranked one is later. */
  lemma ChronologicalSamplesGiveTheLatestTier(samples: seq<Sample>)
    requires |RankedSamples(samples)| >= MIN_SAMPLES
    ensures var valid := RankedSamples(samples);
            var last := valid[|valid| - 1];
      && Forecast(samples).currentTier == last.tier
      && (Chronological(samples) ==>
            forall i :: 0 <= i < |samples| && Ranked(samples[i]) ==> samples[i].t <= last.t)
  {
    hide Trendline, LineAt, Days, RankToTier, DaysPerHalfRank;
    if Chronological(samples) {
      LastRankedIsLatest(samples);
    }
  }

  lemma {:induction false} LastRankedIsLatest(samples: seq<Sample>)
    requires Chronological(samples)
    ensures var valid := RankedSamples(samples);
            forall i :: 0 <= i < |samples| && Ranked(samples[i]) ==>
              |valid| > 0 && samples[i].t <= valid[|valid| - 1].t
  {
    if |samples| != 0 {
      LastRankedIsLatest(samples[..|samples| - 1]);
      assert forall i :: 0 <= i < |samples| - 1 ==> samples[..|samples| - 1][i] == samples[i];
    }
  }

  /** Exact condition for the sort the code announces to be unnecessary: after
      sorting, the tier would be read at the same moment if and only if no ranked
      sample is later than the last ranked one listed; and where the same sample is
      read, sorting changes nothing at all. */
  lemma SortingIsUnnecessaryIff(samples: seq<Sample>, sorted: seq<Sample>)
    requires multiset(samples) == multiset(sorted) && Chronological(sorted)
    requires |RankedSamples(samples)| >= MIN_SAMPLES
    ensures var v, w := RankedSamples(samples), RankedSamples(sorted);
      && |w| == |v|
      && (w[|w| - 1].t == v[|v| - 1].t
          <==> forall i :: 0 <= i < |samples| && Ranked(samples[i]) ==> samples[i].t <= v[|v| - 1].t)
      && (w[|w| - 1] == v[|v| - 1] ==> Forecast(sorted) == Forecast(samples))
  {
    hide Forecast, RankedSamples, Ranked, Chronological;
    OrderOnlyNamesTheTiers(samples, sorted);
    LastTimesAgreeIff(samples, sorted);
  }

  lemma LastTimesAgreeIff(samples: seq<Sample>, sorted: seq<Sample>)
    requires multiset(samples) == multiset(sorted) && Chronological(sorted)
    requires |RankedSamples(samples)| == |RankedSamples(sorted)| > 0
    ensures var v, w := RankedSamples(samples), RankedSamples(sorted);
      w[|w| - 1].t == v[|v| - 1].t
      <==> forall i :: 0 <= i < |samples| && Ranked(samples[i]) ==> samples[i].t <= v[|v| - 1].t
  {
    hide RankedSamples, Ranked;
    var v, w := RankedSamples(samples), RankedSamples(sorted);
    var here, latest := v[|v| - 1], w[|w| - 1];
    RankedPermutes(samples, sorted);
    RankedIn(samples, here);
    RankedIn(sorted, latest);
    InBoth(samples, sorted, here);
    InBoth(samples, sorted, latest);
    LatestOf(sorted, here);
    forall i | 0 <= i < |samples| && Ranked(samples[i]) ensures samples[i].t <= latest.t {
      InBoth(samples, sorted, samples[i]);
      LatestOf(sorted, samples[i]);
    }
  }

  lemma InBoth(samples: seq<Sample>, sorted: seq<Sample>, s: Sample)
    requires multiset(samples) == multiset(sorted)
    ensures s in samples <==> s in sorted
  {
    assert s in multiset(samples) <==> s in multiset(sorted);
  }

  lemma LatestOf(sorted: seq<Sample>, s: Sample)
    requires Chronological(sorted) && s in sorted && Ranked(s)
    ensures |RankedSamples(sorted)| > 0 && s.t <= RankedSamples(sorted)[|RankedSamples(sorted)| - 1].t
  {
    hide RankedSamples;
    LastRankedIsLatest(sorted);
  }

  lemma RankedIn(samples: seq<Sample>, s: Sample)
    requires s in RankedSamples(samples)
    ensures s in samples && Ranked(s)
  {
    RankedCounts(samples, s);
    assert s in multiset(RankedSamples(samples));
    assert s in multiset(samples);
  }

  // ---------- mirroring the ranks ----------

  /** Rank r becomes 5 − r; tiers without a rank are left alone. */
  function MirrorTier(tier: string): (m: string)
    ensures RankOf(m).Some? <==> RankOf(tier).Some?
    ensures RankOf(m).Some? ==> RankOf(m).value == 5.0 - RankOf(tier).value
  {
    if tier == "elite" then "low"
    else if tier == "high" then "medium"
    else if tier == "medium" then "high"
    else if tier == "low" then "elite"
    else tier
  }

  function Mirror(samples: seq<Sample>): (r: seq<Sample>)
    ensures |r| == |samples|
    ensures forall i :: 0 <= i < |r| ==> r[i] == Sample(samples[i].t, MirrorTier(samples[i].tier))
  {
    seq(|samples|, i requires 0 <= i < |samples| => Sample(samples[i].t, MirrorTier(samples[i].tier)))
  }

  lemma {:induction false} RankedOfMirror(samples: seq<Sample>)
    ensures RankedSamples(Mirror(samples)) == Mirror(RankedSamples(samples))
  {
    if |samples| != 0 {
      var k := |samples| - 1;
      assert Mirror(samples)[..k] == Mirror(samples[..k]);
      RankedOfMirror(samples[..k]);
    }
  }

  predicate Mirrored(s: Sums, t: Sums) {
    && t.n == s.n && t.x == s.x && t.xx == s.xx
    && t.y == 5.0 * s.n as real - s.y
    && t.xy == 5.0 * s.x - s.xy
    && t.yy == 25.0 * s.n as real - 10.0 * s.y + s.yy
  }

  lemma MirroredStep(s: Sums, t: Sums, x: real, y: real)
    requires Mirrored(s, t)
    ensures Mirrored(Push(s, x, y), Push(t, x, 5.0 - y))
  {
    assert (s.n + 1) as real == s.n as real + 1.0;
    assert (5.0 - y) * (5.0 - y) == 25.0 - 10.0 * y + y * y;
  }

  lemma {:induction false} SumsMirror(valid: seq<Sample>, origin: int)
    requires forall i :: 0 <= i < |valid| ==> Ranked(valid[i])
    ensures Mirrored(SampleSums(valid, origin), SampleSums(Mirror(valid), origin))
  {
    if |valid| != 0 {
      hide Mirrored, Push, SampleSums, Days;
      var k := |valid| - 1;
      SumsMirror(valid[..k], origin);
      SampleSumsStep(valid, origin);
      SampleSumsStep(Mirror(valid), origin);
      assert Mirror(valid)[..k] == Mirror(valid[..k]);
      MirroredStep(SampleSums(valid[..k], origin), SampleSums(Mirror(valid[..k]), origin),
                   Days(valid[k].t, origin), RankOf(valid[k].tier).value);
    }
  }

  lemma MirroredSpreads(s: Sums, t: Sums)
    requires Mirrored(s, t)
    ensures Denominator(t) == Denominator(s) && Covariance(t) == -Covariance(s) && Spread(t) == Spread(s)
  {
    var n := s.n as real;
    assert n * t.xy == 5.0 * n * s.x - n * s.xy;
    assert t.x * t.y == 5.0 * n * s.x - s.x * s.y;
    assert t.y * t.y == 25.0 * n * n - 10.0 * n * s.y + s.y * s.y;
    assert n * t.yy == 25.0 * n * n - 10.0 * n * s.y + n * s.yy;
  }

  lemma OppositeCovarianceOppositeSlope(s: Sums, t: Sums)
    requires t.n == s.n
    requires Denominator(t) == Denominator(s) && Covariance(t) == -Covariance(s) && Spread(t) == Spread(s)
    ensures Fit(t).slope == -Fit(s).slope && Fit(t).r2 == Fit(s).r2
  {
    hide Denominator, Covariance, Spread, Mean, Quotient, Times;
    SquareOfOpposite(Covariance(s));
    if Denominator(s) != 0.0 {
      OppositeQuotient(Covariance(s), Denominator(s));
    }
  }

  lemma SquareOfOpposite(v: real)
    ensures Times(-v, -v) == Times(v, v)
  {}

  lemma OppositeQuotient(a: real, b: real)
    requires b != 0.0
    ensures -a / b == -(a / b)
  {
    Cancel(a, b);
    Cancel(-a, b);
    assert (-a / b + a / b) * b == 0.0;
  }

  function Opposite(d: Direction): Direction {
    match d
    case Degrading => Improving
    case Improving => Degrading
    case Stable => Stable
    case Undetermined => Undetermined
  }

  /** Mirroring every rank negates the slope, keeps R² and confidence, and turns
      a decline into an improvement. */
  lemma MirroredRanksMirrorTheTrend(samples: seq<Sample>)
    ensures var p, q := Forecast(samples), Forecast(Mirror(samples));
            && q.slopePerWeek == -p.slopePerWeek
            && q.r2 == p.r2
            && q.confidence == p.confidence
            && q.direction == Opposite(p.direction)
            && q.sampleSize == p.sampleSize
  {
    hide Fit, SumsOf, LineAt, RankToTier, DaysPerHalfRank, Round, Mirrored, Denominator, Covariance, Spread, Days;
    var valid := RankedSamples(samples);
    RankedOfMirror(samples);
    if |valid| >= MIN_SAMPLES {
      var s, t := SampleSums(valid, valid[0].t), SampleSums(Mirror(valid), valid[0].t);
      SumsMirror(valid, valid[0].t);
      MirroredSpreads(s, t);
      OppositeCovarianceOppositeSlope(s, t);
    }
  }

  /** A series stuck on one tier is stable, with the strongest confidence its
      length allows, unless all its timestamps coincide. */
  lemma OneTierIsStable(samples: seq<Sample>, tier: string)
    requires forall i :: 0 <= i < |RankedSamples(samples)| ==> RankedSamples(samples)[i].tier == tier
    requires |RankedSamples(samples)| >= MIN_SAMPLES
    ensures var p, valid := Forecast(samples), RankedSamples(samples);
            && p.direction == Stable && p.slopePerWeek == 0.0
            && (p.confidence == Low <==> forall i :: 0 <= i < |valid| ==> valid[i].t == valid[0].t)
            && (p.confidence == High ==> |valid| >= 10)
  {
    hide Fit, SumsOf, LineAt, RankToTier, DaysPerHalfRank, Round, Days;
    hide Mean, Denominator, Covariance, Spread, Variation;
    var valid := RankedSamples(samples);
    var xs, ys := Xs(valid, valid[0].t), Ys(valid);
    ConstantSeries(xs, ys);
    DenominatorSign(xs, ys);
    SameInstant(valid);
    FlatR2(SumsOf(xs, ys));
    if !AllEqual(xs) {
      R2IsExplainedShare(xs, ys);
      RatioIsR2(xs, ys);
    }
  }

  lemma FlatR2(s: Sums)
    requires s.n >= 2
    ensures Denominator(s) == 0.0 ==> Fit(s).r2 == 0.0
  {}

  lemma SameInstant(valid: seq<Sample>)
    requires |valid| > 0
    ensures AllEqual(Xs(valid, valid[0].t)) <==> forall i :: 0 <= i < |valid| ==> valid[i].t == valid[0].t
  {
    var xs := Xs(valid, valid[0].t);
    assert xs[0] == 0.0;
    assert forall i :: 0 <= i < |valid| ==> (xs[i] == 0.0 <==> valid[i].t == valid[0].t);
    if AllEqual(xs) {
      assert forall i :: 0 <= i < |valid| ==> xs[i] == xs[0];
    }
  }
}
