/** DORA tiers: backend/internal/calculator/classification.go and
    backend/internal/alerts/tier.go, over the measures that
    backend/internal/collector/handlers.go reads from the window queries. */
module Classification {
  import opened Wrappers
  import Agg = Aggregation

  const ELITE := "elite"
  const HIGH := "high"
  const MEDIUM := "medium"
  const LOW := "low"
  const INSUFFICIENT := "insufficient_data"

  const TIER_REGRESSION := "tier_regression"
  const TIER_CHANGE := "tier_change"

  // ---------- comparing tiers ----------

  function TierOrder(tier: string): (order: int)
    ensures order == -1 || 1 <= order <= 4
  {
    if tier == ELITE then 4
    else if tier == HIGH then 3
    else if tier == MEDIUM then 2
    else if tier == LOW then 1
    else -1
  }

  predicate Known(tier: string) { TierOrder(tier) > 0 }

  predicate IsRegression(previous: string, current: string) {
    var p, c := TierOrder(previous), TierOrder(current);
    if p < 0 || c < 0 then false else c < p
  }

  predicate IsChange(previous: string, current: string) {
    var p, c := TierOrder(previous), TierOrder(current);
    if p < 0 || c < 0 then false else p != c
  }

  predicate RuleMatchesChange(kind: string, previous: string, current: string) {
    if kind == TIER_REGRESSION then IsRegression(previous, current)
    else if kind == TIER_CHANGE then IsChange(previous, current)
    else false
  }

  /** Regressions and changes, pair by pair. */
  const FALLS := {("elite", "high"), ("elite", "medium"), ("elite", "low"),
                  ("high", "medium"), ("high", "low"), ("medium", "low")}
  const RISES := {("high", "elite"), ("medium", "elite"), ("low", "elite"),
                  ("medium", "high"), ("low", "high"), ("low", "medium")}

  /** What each kind of rule fires on. */
  lemma RuleFiresOn(kind: string, previous: string, current: string)
    ensures IsRegression(previous, current) <==> (previous, current) in FALLS
    ensures IsChange(previous, current) <==> (previous, current) in FALLS + RISES
    ensures RuleMatchesChange(kind, previous, current) <==>
              || (kind == "tier_regression" && (previous, current) in FALLS)
              || (kind == "tier_change" && (previous, current) in FALLS + RISES)
  {}

  // ---------- the worst tier ----------

  /** The lowest known tier present; insufficient when none is known. */
  ghost predicate IsWorst(tiers: seq<string>, worst: string) {
    if exists t :: t in tiers && Known(t)
    then worst in tiers && Known(worst) && forall t :: t in tiers && Known(t) ==> TierOrder(worst) <= TierOrder(t)
    else worst == INSUFFICIENT
  }

  lemma WorstIsUnique(tiers: seq<string>, a: string, b: string)
    requires IsWorst(tiers, a) && IsWorst(tiers, b)
    ensures a == b
  {
    if exists t :: t in tiers && Known(t) {
      assert TierOrder(a) == TierOrder(b);
    }
  }

  function Worst(tiers: seq<string>): (worst: string)
    ensures IsWorst(tiers, worst)
  {
    if |tiers| == 0 then INSUFFICIENT
    else
      var rest, last := Worst(tiers[..|tiers| - 1]), tiers[|tiers| - 1];
      assert forall t :: t in tiers <==> t in tiers[..|tiers| - 1] || t == last;
      if Known(last) && (!Known(rest) || TierOrder(last) < TierOrder(rest)) then last else rest
  }

  /** `WorstOf`. */
  method WorstOf(tiers: seq<string>) returns (worstName: string)
    ensures IsWorst(tiers, worstName)
  {
    var rank := map[ELITE := 4, HIGH := 3, MEDIUM := 2, LOW := 1];
    var worst := -1;
    worstName := INSUFFICIENT;
    for i := 0 to |tiers|
      invariant worst == TierOrder(worstName)
      invariant IsWorst(tiers[..i], worstName)
    {
      var t := tiers[i];
      assert forall u :: u in tiers[..i + 1] <==> u in tiers[..i] || u == t;
      assert t in rank <==> Known(t);
      if t in rank {
        var r := rank[t];
        assert r == TierOrder(t);
        if worst == -1 || r < worst {
          worst, worstName := r, t;
        }
      }
    }
    assert tiers[..|tiers|] == tiers;
  }

  lemma InsufficientIsUnknown()
    ensures !Known(INSUFFICIENT)
  {}

  /** The overall tier regresses exactly when some metric is now known and below
      every metric known before. */
  lemma RegressionIff(before: seq<string>, after: seq<string>)
    ensures IsRegression(Worst(before), Worst(after)) <==>
              && (exists t :: t in before && Known(t))
              && exists t :: t in after && Known(t) &&
                   forall u :: u in before && Known(u) ==> TierOrder(t) < TierOrder(u)
  {
    hide TierOrder, Worst;
    var b, a := Worst(before), Worst(after);
    assert Known(b) <==> exists t :: t in before && Known(t) by { InsufficientIsUnknown(); }
    assert Known(a) <==> exists t :: t in after && Known(t) by { InsufficientIsUnknown(); }
    assert IsWorst(before, b) && IsWorst(after, a);
    if IsRegression(b, a) {
      assert a in after && Known(a);
    }
  }

  /** Every regression has a metric whose own tier fell or became known. */
  lemma RegressionHasACause(before: seq<string>, after: seq<string>) returns (i: nat)
    requires |before| == |after| && IsRegression(Worst(before), Worst(after))
    ensures i < |after| && Known(after[i])
    ensures !Known(before[i]) || IsRegression(before[i], after[i])
  {
    var a := Worst(after);
    i :| i < |after| && after[i] == a;
    assert before[i] in before;
  }

  // ---------- classifying measures ----------

  /** Durations in seconds; a measure without samples is absent. */
  datatype Measures = Measures(perDay: real, leadTime: Option<int>, failureRate: Option<real>, restore: Option<int>)

  datatype Thresholds = Thresholds(
    dfElite: real, dfHigh: real, dfMedium: real,
    ltElite: int, ltHigh: int, ltMedium: int,
    cfrElite: real, cfrHigh: real, cfrMedium: real,
    mttrElite: int, mttrHigh: int, mttrMedium: int)

  function ClassifyDeploymentFrequency(perDay: real, t: Thresholds): string {
    if perDay <= 0.0 then INSUFFICIENT
    else if perDay >= t.dfElite then ELITE
    else if perDay >= t.dfHigh then HIGH
    else if perDay >= t.dfMedium then MEDIUM
    else LOW
  }

  function ClassifyLeadTime(medianSeconds: Option<int>, t: Thresholds): string {
    if medianSeconds.None? then INSUFFICIENT
    else if medianSeconds.value < t.ltElite then ELITE
    else if medianSeconds.value < t.ltHigh then HIGH
    else if medianSeconds.value < t.ltMedium then MEDIUM
    else LOW
  }

  function ClassifyChangeFailureRate(rate: Option<real>, t: Thresholds): string {
    if rate.None? then INSUFFICIENT
    else if rate.value <= t.cfrElite then ELITE
    else if rate.value <= t.cfrHigh then HIGH
    else if rate.value <= t.cfrMedium then MEDIUM
    else LOW
  }

  function ClassifyMttr(meanSeconds: Option<int>, t: Thresholds): string {
    if meanSeconds.None? then INSUFFICIENT
    else if meanSeconds.value < t.mttrElite then ELITE
    else if meanSeconds.value < t.mttrHigh then HIGH
    else if meanSeconds.value < t.mttrMedium then MEDIUM
    else LOW
  }

  /** The four tiers, in the order handed to `WorstOf`. */
  function Tiers(m: Measures, t: Thresholds): (tiers: seq<string>)
    ensures |tiers| == 4
  {
    [ClassifyDeploymentFrequency(m.perDay, t), ClassifyLeadTime(m.leadTime, t),
     ClassifyChangeFailureRate(m.failureRate, t), ClassifyMttr(m.restore, t)]
  }

  function Overall(m: Measures, t: Thresholds): string { Worst(Tiers(m, t)) }

  predicate Measured(m: Measures, i: nat)
    requires i < 4
  {
    if i == 0 then m.perDay > 0.0
    else if i == 1 then m.leadTime.Some?
    else if i == 2 then m.failureRate.Some?
    else m.restore.Some?
  }

  /** The i-th metric got strictly worse: fewer deployments, or longer, or more failures. */
  predicate Worsened(before: Measures, after: Measures, i: nat)
    requires i < 4 && Measured(before, i) && Measured(after, i)
  {
    if i == 0 then after.perDay < before.perDay
    else if i == 1 then after.leadTime.value > before.leadTime.value
    else if i == 2 then after.failureRate.value > before.failureRate.value
    else after.restore.value > before.restore.value
  }

  /** With thresholds left alone, and whatever their order, a regression is always
      caused by a metric that got strictly worse or was first measured. */
  lemma RegressionIsMeasured(before: Measures, after: Measures, t: Thresholds) returns (i: nat)
    requires IsRegression(Overall(before, t), Overall(after, t))
    ensures i < 4 && Measured(after, i)
    ensures Measured(before, i) ==> Worsened(before, after, i)
  {
    hide Tiers, Known, IsRegression, Measured, Worsened, Worst;
    i := RegressionHasACause(Tiers(before, t), Tiers(after, t));
    KnownIffMeasured(before, t, i);
    KnownIffMeasured(after, t, i);
    if Measured(before, i) {
      FallIsWorse(before, after, t, i);
    }
  }

  lemma KnownIffMeasured(m: Measures, t: Thresholds, i: nat)
    requires i < 4
    ensures Known(Tiers(m, t)[i]) <==> Measured(m, i)
  {}

  lemma FallIsWorse(before: Measures, after: Measures, t: Thresholds, i: nat)
    requires i < 4 && Measured(before, i) && Measured(after, i)
    requires IsRegression(Tiers(before, t)[i], Tiers(after, t)[i])
    ensures Worsened(before, after, i)
  {}

  function Lesser(a: real, b: real): real { if a <= b then a else b }

  function Greater(a: real, b: real): real { if a >= b then a else b }

  function Later(a: int, b: int): int { if a >= b then a else b }

  predicate AnythingMeasured(m: Measures) {
    m.perDay > 0.0 || m.leadTime.Some? || m.failureRate.Some? || m.restore.Some?
  }

  /** Whatever is measured keeps a limit: frequencies reach theirs, the failure rate
      does not exceed its own, durations stay below theirs. */
  predicate Keeps(m: Measures, df: real, lt: int, cfr: real, mttr: int) {
    && (m.perDay > 0.0 ==> m.perDay >= df)
    && (m.leadTime.Some? ==> m.leadTime.value < lt)
    && (m.failureRate.Some? ==> m.failureRate.value <= cfr)
    && (m.restore.Some? ==> m.restore.value < mttr)
  }

  predicate KeepsElite(m: Measures, t: Thresholds) { Keeps(m, t.dfElite, t.ltElite, t.cfrElite, t.mttrElite) }

  predicate KeepsHigh(m: Measures, t: Thresholds) {
    Keeps(m, Lesser(t.dfElite, t.dfHigh), Later(t.ltElite, t.ltHigh),
          Greater(t.cfrElite, t.cfrHigh), Later(t.mttrElite, t.mttrHigh))
  }

  predicate KeepsMedium(m: Measures, t: Thresholds) {
    Keeps(m, Lesser(t.dfElite, Lesser(t.dfHigh, t.dfMedium)), Later(t.ltElite, Later(t.ltHigh, t.ltMedium)),
          Greater(t.cfrElite, Greater(t.cfrHigh, t.cfrMedium)), Later(t.mttrElite, Later(t.mttrHigh, t.mttrMedium)))
  }

  /** Main result. The overall tier by its limits, in whatever order the thresholds
      stand: elite when something is measured and everything measured keeps the elite
      limits, high or better and medium or better with the wider of the limits so
      far, and insufficient when nothing is measured. */
  lemma OverallByLimits(m: Measures, t: Thresholds)
    ensures var tier, any := Overall(m, t), AnythingMeasured(m);
      && (tier == "insufficient_data" <==> !any)
      && (tier == "elite" <==> any && KeepsElite(m, t))
      && (tier in {"elite", "high"} <==> any && KeepsHigh(m, t))
      && (tier in {"elite", "high", "medium"} <==> any && KeepsMedium(m, t))
      && tier in {"elite", "high", "medium", "low", "insufficient_data"}
  {
    hide Overall, KeepsElite, KeepsHigh, KeepsMedium, AnythingMeasured, TierOrder;
    TierOrders();
    OverallAtLeast(m, t, 4);
    OverallAtLeast(m, t, 3);
    OverallAtLeast(m, t, 2);
    SameOrderSameTier(Overall(m, t));
  }

  lemma SameOrderSameTier(tier: string)
    ensures TierOrder(tier) >= 4 <==> tier == "elite"
    ensures TierOrder(tier) >= 3 <==> tier in {"elite", "high"}
    ensures TierOrder(tier) >= 2 <==> tier in {"elite", "high", "medium"}
  {}

  lemma OverallAtLeast(m: Measures, t: Thresholds, k: int)
    requires k == 4 || k == 3 || k == 2
    ensures var o := TierOrder(Overall(m, t));
      && (o >= k <==> && AnythingMeasured(m)
                      && if k == 4 then KeepsElite(m, t) else if k == 3 then KeepsHigh(m, t) else KeepsMedium(m, t))
      && (Known(Overall(m, t)) <==> AnythingMeasured(m))
      && (!Known(Overall(m, t)) ==> Overall(m, t) == "insufficient_data")
  {
    hide ClassifyDeploymentFrequency, ClassifyLeadTime, ClassifyChangeFailureRate, ClassifyMttr, Worst, TierOrder;
    var tiers := Tiers(m, t);
    FrequencyByLimits(m.perDay, t);
    LeadTimeByLimits(m.leadTime, t);
    FailureRateByLimits(m.failureRate, t);
    MttrByLimits(m.restore, t);
    WorstByOrder(tiers, k);
    assert tiers[0] in tiers && tiers[1] in tiers && tiers[2] in tiers && tiers[3] in tiers;
  }

  /** The order of the tiers. */
  lemma TierOrders()
    ensures TierOrder("elite") == 4 && TierOrder("high") == 3 && TierOrder("medium") == 2 && TierOrder("low") == 1
    ensures TierOrder("insufficient_data") < 0
    ensures forall tier :: TierOrder(tier) > 0 <==> tier in {"elite", "high", "medium", "low"}
  {}

  /** The worst tier is at least of an order exactly when each known one is. */
  lemma WorstByOrder(tiers: seq<string>, k: int)
    requires k > 0
    ensures var w := Worst(tiers);
      && (Known(w) <==> exists t :: t in tiers && Known(t))
      && (!Known(w) ==> w == "insufficient_data")
      && (TierOrder(w) >= k <==> Known(w) && forall t :: t in tiers && Known(t) ==> TierOrder(t) >= k)
  {
    hide Worst, TierOrder;
    InsufficientIsUnknown();
    assert IsWorst(tiers, Worst(tiers));
  }

  lemma FrequencyByLimits(perDay: real, t: Thresholds)
    ensures var o := TierOrder(ClassifyDeploymentFrequency(perDay, t));
      && (o > 0 <==> perDay > 0.0)
      && (perDay > 0.0 ==>
            && (o >= 4 <==> perDay >= t.dfElite) && (o >= 3 <==> perDay >= t.dfElite || perDay >= t.dfHigh)
            && (o >= 2 <==> perDay >= t.dfElite || perDay >= t.dfHigh || perDay >= t.dfMedium))
  {}

  lemma LeadTimeByLimits(v: Option<int>, t: Thresholds)
    ensures var o := TierOrder(ClassifyLeadTime(v, t));
      && (o > 0 <==> v.Some?)
      && (v.Some? ==>
            && (o >= 4 <==> v.value < t.ltElite) && (o >= 3 <==> v.value < t.ltElite || v.value < t.ltHigh)
            && (o >= 2 <==> v.value < t.ltElite || v.value < t.ltHigh || v.value < t.ltMedium))
  {}

  lemma FailureRateByLimits(v: Option<real>, t: Thresholds)
    ensures var o := TierOrder(ClassifyChangeFailureRate(v, t));
      && (o > 0 <==> v.Some?)
      && (v.Some? ==>
            && (o >= 4 <==> v.value <= t.cfrElite) && (o >= 3 <==> v.value <= t.cfrElite || v.value <= t.cfrHigh)
            && (o >= 2 <==> v.value <= t.cfrElite || v.value <= t.cfrHigh || v.value <= t.cfrMedium))
  {}

  lemma MttrByLimits(v: Option<int>, t: Thresholds)
    ensures var o := TierOrder(ClassifyMttr(v, t));
      && (o > 0 <==> v.Some?)
      && (v.Some? ==>
            && (o >= 4 <==> v.value < t.mttrElite) && (o >= 3 <==> v.value < t.mttrElite || v.value < t.mttrHigh)
            && (o >= 2 <==> v.value < t.mttrElite || v.value < t.mttrHigh || v.value < t.mttrMedium))
  {}

  // ---------- measuring ----------

  const DAY := 24 * 3600 * 1_000_000_000

  /** `int64(...)` of a float number of seconds: truncation toward zero. */
  function TruncatedSeconds(nanos: real): int {
    var s := nanos / 1_000_000_000.0;
    if s >= 0.0 then s.Floor else -(-s).Floor
  }

  function PerDay(count: nat, days: int): real
    requires days > 0
  {
    count as real / days as real
  }

  /** What the four queries of `HandleComputeMetricWindow` amount to. */
  function Measure(db: Agg.Database, project: int, windowDays: int, now: int): Measures
    requires windowDays > 0
  {
    var since := now - windowDays * DAY;
    var lead := Agg.MedianStat(Agg.ProjectLeadTimes(db, project, since));
    var cfr := Agg.ProjectFailureRate(db, project, since);
    var mttr := Agg.ProjectMttr(db, project, since);
    Measures(
      PerDay(Agg.ProjectCount(db, project, since), windowDays),
      if lead.sampleSize > 0 then Some(TruncatedSeconds(lead.value)) else None,
      if cfr.sampleSize > 0 then Some(cfr.value) else None,
      if mttr.sampleSize > 0 then Some(TruncatedSeconds(mttr.value)) else None)
  }

  lemma LeadsNeedDeliveries(leads: seq<Agg.Lead>, deliveries: seq<Agg.Delivery>, project: int)
    requires forall i :: 0 <= i < |leads| ==> leads[i].0.0 in deliveries
    ensures |Agg.OfProject(leads, Agg.LeadProject, project)| > 0
        ==> |Agg.OfProject(deliveries, Agg.ProjectOf, project)| > 0
  {
    Agg.OfProjectIff(leads, Agg.LeadProject, project);
    Agg.OfProjectIff(deliveries, Agg.ProjectOf, project);
  }

  /** Data is insufficient exactly when the window holds neither a successful
      production deployment nor a resolved incident of the project: the failure
      rate and the lead time never have samples that the frequency lacks. */
  lemma InsufficientIff(db: Agg.Database, project: int, windowDays: int, now: int, t: Thresholds)
    requires windowDays > 0 && Agg.WellKeyed(db)
    ensures var since := now - windowDays * DAY;
            Overall(Measure(db, project, windowDays, now), t) == INSUFFICIENT
            <==> Agg.ProjectCount(db, project, since) == 0 && Agg.ProjectMttr(db, project, since).sampleSize == 0
  {
    hide Tiers, Known, Worst;
    var since := now - windowDays * DAY;
    var m := Measure(db, project, windowDays, now);
    var tiers := Tiers(m, t);
    MeasuredIff(db, project, windowDays, now);
    InsufficientIsUnknown();
    forall i: nat | i < 4 ensures Known(tiers[i]) <==> Measured(m, i) {
      KnownIffMeasured(m, t, i);
    }
    assert IsWorst(tiers, Worst(tiers));
    assert Measured(m, 0) ==> Known(tiers[0]) && tiers[0] in tiers;
    assert Measured(m, 3) ==> Known(tiers[3]) && tiers[3] in tiers;
  }

  lemma MeasuredIff(db: Agg.Database, project: int, windowDays: int, now: int)
    requires windowDays > 0 && Agg.WellKeyed(db)
    ensures var since, m := now - windowDays * DAY, Measure(db, project, windowDays, now);
      && (Measured(m, 0) <==> Agg.ProjectCount(db, project, since) > 0)
      && (Measured(m, 2) <==> Measured(m, 0))
      && (Measured(m, 1) ==> Measured(m, 0))
      && (Measured(m, 3) <==> Agg.ProjectMttr(db, project, since).sampleSize > 0)
  {
    hide Agg.ProjectCount, Agg.ProjectFailureRate, Agg.ProjectLeadTimes, Agg.ProjectMttr, TruncatedSeconds, PerDay;
    hide Agg.WellKeyed, Agg.MedianStat;
    var since := now - windowDays * DAY;
    SamplesNeedDeliveries(db, since, project);
    Agg.MedianSampleSize(Agg.ProjectLeadTimes(db, project, since));
    PerDayIsPositive(Agg.ProjectCount(db, project, since), windowDays);
  }

  lemma PerDayIsPositive(count: nat, days: int)
    requires days > 0
    ensures PerDay(count, days) > 0.0 <==> count > 0
  {}

  /** Neither the failure rate nor the lead time has samples the count lacks. */
  lemma SamplesNeedDeliveries(db: Agg.Database, since: int, project: int)
    requires Agg.WellKeyed(db)
    ensures Agg.ProjectFailureRate(db, project, since).sampleSize == Agg.ProjectCount(db, project, since)
    ensures |Agg.ProjectLeadTimes(db, project, since)| > 0 ==> Agg.ProjectCount(db, project, since) > 0
  {
    hide Agg.Leads, Agg.Deliveries, Agg.OfProject, Agg.FailureRate;
    Agg.FailureSampleIsDeploymentCount(db, since, project, 0);
    forall i | 0 <= i < |Agg.Leads(db, since)| ensures Agg.Leads(db, since)[i].0.0 in Agg.Deliveries(db, since) {
      Agg.LeadComesFromDelivery(db, since, Agg.Leads(db, since)[i]);
    }
    LeadsNeedDeliveries(Agg.Leads(db, since), Agg.Deliveries(db, since), project);
  }
}
