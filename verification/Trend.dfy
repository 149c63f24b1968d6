/** The trend engine (backend/internal/prediction/trend.go, `Predict` and
    `rankToTier`): times are integer nanoseconds, floats are exact reals. */
module Trend {
  import opened Wrappers
  import opened LeastSquares

  datatype Sample = Sample(t: int, tier: string)

  datatype Direction = Undetermined | Degrading | Improving | Stable
  datatype Confidence = Unrated | Low | Medium | High

  /** The figures the human-readable reason is built from. */
  datatype Reason =
    | Silent
    | TooFewSamples
    | Falling(ranksPerWeek: real, samples: nat, share: real, breach: Option<int>)

  datatype Prediction = Prediction(
    slopePerWeek: real,
    r2: real,
    currentTier: string,
    projectedTier: string,
    horizonDays: int,
    direction: Direction,
    confidence: Confidence,
    willBreachInDays: Option<int>,
    reason: Reason,
    sampleSize: nat)

  const HORIZON_DAYS := 30
  const MIN_SAMPLES := 6
  const MAX_BREACH_HORIZON_DAYS := 180
  const R2_HIGH := 0.6
  const R2_MEDIUM := 0.3
  const SLOPE_STABLE_EPSILON := 0.02
  const NANOS_PER_DAY := 86400 * 1000000000

  /** The rank table; a tier outside it and one mapped to NaN are both `None`. */
  function RankOf(tier: string): (r: Option<real>)
    ensures r.Some? ==> r.value == 1.0 || r.value == 2.0 || r.value == 3.0 || r.value == 4.0
  {
    if tier == "elite" then Some(4.0)
    else if tier == "high" then Some(3.0)
    else if tier == "medium" then Some(2.0)
    else if tier == "low" then Some(1.0)
    else None
  }

  function RankToTier(r: real): string {
    if r >= 3.5 then "elite"
    else if r >= 2.5 then "high"
    else if r >= 1.5 then "medium"
    else "low"
  }

  /** `rankToTier` undoes the rank table, within half a rank. */
  lemma RankToTierInverts(tier: string, r: real)
    requires RankOf(tier).Some?
    requires RankOf(tier).value - 0.5 <= r < RankOf(tier).value + 0.5
    ensures RankToTier(r) == tier
  {}

  predicate Ranked(s: Sample) { RankOf(s.tier).Some? }

  /** The samples the regression uses, in list order. */
  function RankedSamples(samples: seq<Sample>): (valid: seq<Sample>)
    ensures forall i :: 0 <= i < |valid| ==> Ranked(valid[i])
  {
    if |samples| == 0 then []
    else
      var k := |samples| - 1;
      RankedSamples(samples[..k]) + if Ranked(samples[k]) then [samples[k]] else []
  }

  /** Days since `origin`. */
  function Days(t: int, origin: int): real {
    (t - origin) as real / NANOS_PER_DAY as real
  }

  function Xs(valid: seq<Sample>, origin: int): (xs: seq<real>)
    ensures |xs| == |valid|
  {
    seq(|valid|, i requires 0 <= i < |valid| => Days(valid[i].t, origin))
  }

  function Ys(valid: seq<Sample>): (ys: seq<real>)
    requires forall i :: 0 <= i < |valid| ==> Ranked(valid[i])
    ensures |ys| == |valid|
  {
    seq(|valid|, i requires 0 <= i < |valid| && Ranked(valid[i]) => RankOf(valid[i].tier).value)
  }

  /** The fitted line, with time measured from the first sample in the list. */
  function Trendline(valid: seq<Sample>): Line
    requires forall i :: 0 <= i < |valid| ==> Ranked(valid[i])
    requires |valid| > 0
  {
    Fit(SumsOf(Xs(valid, valid[0].t), Ys(valid)))
  }

  function DirectionOf(slopePerWeek: real): Direction {
    if slopePerWeek < -SLOPE_STABLE_EPSILON then Degrading
    else if slopePerWeek > SLOPE_STABLE_EPSILON then Improving
    else Stable
  }

  function ConfidenceOf(r2: real, n: nat): Confidence {
    if r2 >= R2_HIGH && n >= 10 then High
    else if r2 >= R2_MEDIUM then Medium
    else Low
  }

  /** Half-up rounding; `math.Round` on the non-negative values it is given here. */
  function Round(r: real): int { (r + 0.5).Floor }

  /** The days needed to lose half a rank at `slope` ranks a day. */
  function DaysPerHalfRank(slope: real): real
    requires slope != 0.0
  {
    0.5 / (if slope < 0.0 then -slope else slope)
  }

  function LineAt(intercept: real, slope: real, x: real): real { intercept + slope * x }

  /** What a prediction means, written without the tier arithmetic of the code:
      the breach estimate does not look at the current tier or at the cap. */
  function Forecast(samples: seq<Sample>): (p: Prediction) {
    var valid := RankedSamples(samples);
    if |valid| < MIN_SAMPLES then
      Prediction(0.0, 0.0, "", "", 0, Undetermined, Unrated, None, TooFewSamples, |valid|)
    else
      var line := Trendline(valid);
      var last := valid[|valid| - 1];
      var future := Days(last.t, valid[0].t) + HORIZON_DAYS as real;
      var direction := DirectionOf(line.slope * 7.0);
      var confidence := ConfidenceOf(line.r2, |valid|);
      var breach := if direction == Degrading then Some(Round(DaysPerHalfRank(line.slope))) else None;
      Prediction(
        line.slope * 7.0, line.r2, last.tier,
        RankToTier(LineAt(line.intercept, line.slope, future)), HORIZON_DAYS,
        direction, confidence, breach,
        if direction == Degrading && confidence != Low
        then Falling(-(line.slope * 7.0), |valid|, line.r2, breach) else Silent,
        |valid|)
  }

  // ---------- the code ----------

  /** `Predict`: filter, fill the coordinate slices, fit, decide, project. */
  method Predict(samples: seq<Sample>) returns (p: Prediction)
    ensures p == Forecast(samples)
  {
    hide Fit, SumsOf, Minimises, DaysPerHalfRank, Round, RankToTier, Days, LineAt;
    var valid: seq<Sample> := [];
    for i := 0 to |samples|
      invariant valid == RankedSamples(samples[..i])
    {
      assert samples[..i + 1][..i] == samples[..i];
      if RankOf(samples[i].tier).None? {
        continue;
      }
      valid := valid + [samples[i]];
    }
    assert samples[..|samples|] == samples;

    p := Prediction(0.0, 0.0, "", "", 0, Undetermined, Unrated, None, Silent, |valid|);
    if |valid| < MIN_SAMPLES {
      p := p.(reason := TooFewSamples);
      return;
    }

    var xs, ys := Coordinates(valid);
    ghost var last := valid[|valid| - 1];
    assert xs[..][xs.Length - 1] == Days(last.t, valid[0].t);
    assert ys[..][ys.Length - 1] == RankOf(last.tier).value;
    var slope, intercept, r2 := LinearRegression(xs[..], ys[..]);
    var slopeWeek := slope * 7.0;
    p := p.(slopePerWeek := slopeWeek, r2 := r2, currentTier := valid[|valid| - 1].tier, horizonDays := HORIZON_DAYS);

    var xFuture := xs[xs.Length - 1] + HORIZON_DAYS as real;
    var yFuture := LineAt(intercept, slope, xFuture);
    p := p.(projectedTier := RankToTier(yFuture));
    assert xFuture == Days(last.t, valid[0].t) + HORIZON_DAYS as real;

    if slopeWeek < -SLOPE_STABLE_EPSILON {
      p := p.(direction := Degrading);
    } else if slopeWeek > SLOPE_STABLE_EPSILON {
      p := p.(direction := Improving);
    } else {
      p := p.(direction := Stable);
    }

    if r2 >= R2_HIGH && |valid| >= 10 {
      p := p.(confidence := High);
    } else if r2 >= R2_MEDIUM {
      p := p.(confidence := Medium);
    } else {
      p := p.(confidence := Low);
    }

    if p.direction == Degrading && slope < 0.0 {
      var breach := BreachEstimate(RankOf(p.currentTier).value, ys[ys.Length - 1], slope);
      p := p.(willBreachInDays := breach);
    }

    if p.direction == Degrading && p.confidence != Low {
      p := p.(reason := Falling(-slopeWeek, p.sampleSize, r2, p.willBreachInDays));
    }
  }

  /** The projection to the next threshold down, with its two guards: neither
      ever withholds the estimate. */
  method BreachEstimate(currentRank: real, yNow: real, slope: real) returns (breach: Option<int>)
    requires currentRank == 1.0 || currentRank == 2.0 || currentRank == 3.0 || currentRank == 4.0
    requires yNow == currentRank
    requires slope * 7.0 < -SLOPE_STABLE_EPSILON
    ensures breach == Some(Round(DaysPerHalfRank(slope)))
    ensures 0 <= breach.value <= 175
  {
    breach := None;
    var nextThreshold := (currentRank - 0.5).Floor as real + 0.5;
    HalfRankAway(currentRank, slope);
    if nextThreshold > 0.0 {
      var deltaDays := (nextThreshold - yNow) / slope;
      if deltaDays > 0.0 && deltaDays <= MAX_BREACH_HORIZON_DAYS as real {
        breach := Some(Round(deltaDays));
      }
    }
  }

  /** The two slices filled by `Predict` before the regression. */
  method Coordinates(valid: seq<Sample>) returns (xs: array<real>, ys: array<real>)
    requires |valid| > 0
    requires forall i :: 0 <= i < |valid| ==> Ranked(valid[i])
    ensures xs[..] == Xs(valid, valid[0].t)
    ensures ys[..] == Ys(valid)
  {
    var first := valid[0].t;
    xs := new real[|valid|];
    ys := new real[|valid|];
    for i := 0 to |valid|
      invariant xs[..i] == Xs(valid, first)[..i]
      invariant ys[..i] == Ys(valid)[..i]
    {
      xs[i] := Days(valid[i].t, first);
      ys[i] := RankOf(valid[i].tier).value;
    }
  }

  /** From any tier the next threshold down is half a rank away, and a degrading
      slope covers half a rank in less than 175 days. */
  lemma HalfRankAway(rank: real, slope: real)
    requires rank == 1.0 || rank == 2.0 || rank == 3.0 || rank == 4.0
    requires slope * 7.0 < -SLOPE_STABLE_EPSILON
    ensures (rank - 0.5).Floor as real + 0.5 == rank - 0.5 > 0.0
    ensures slope != 0.0 && (rank - 0.5 - rank) / slope == DaysPerHalfRank(slope)
    ensures 0.0 < DaysPerHalfRank(slope) < 175.0
  {
    var speed := -slope;
    var d := 0.5 / speed;
    Cancel(0.5, speed);
    if d <= 0.0 {
      TimesNonPositive(d, speed);
    }
    if d >= 175.0 {
      TimesNonPositive(175.0 - d, speed);
    }
    Cancel(-0.5, slope);
    QuotientOfNegatives(0.5, slope);
  }

  lemma TimesNonPositive(a: real, b: real)
    requires a <= 0.0 < b
    ensures a * b <= 0.0
  {}

  lemma QuotientOfNegatives(a: real, b: real)
    requires b != 0.0
    ensures -a / b == a / -b
  {
    var q, r := -a / b, a / -b;
    Cancel(-a, b);
    Cancel(a, -b);
    assert (q - r) * b == 0.0;
  }
}
