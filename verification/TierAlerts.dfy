/** Recomputing metric windows and raising tier alerts
    (backend/internal/collector/handlers.go, `HandleComputeMetricWindow` and
    `fanOutAlertsForTierChange`; metrics.sql.go; alerts.sql.go). */
module TierAlerts {
  import opened Wrappers
  import opened Classification
  import Agg = Aggregation

  /** One version of a metric window; versions are only appended. */
  datatype Window = Window(project: int, windowDays: int, computedAt: int, tier: string)

  datatype Rule = Rule(
    id: int, tenant: int, enabled: bool, kind: string, scopeKind: string, scope: Option<int>, windowDays: int)

  datatype Event = Event(rule: int, project: int, windowDays: int, previous: string, current: string)

  /** `FindMatchingAlertRules` selects the row; a rule without a scope covers all projects. */
  predicate Covers(r: Rule, tenant: int, project: int, windowDays: int) {
    && r.tenant == tenant && r.enabled && r.scopeKind == "project"
    && r.windowDays == windowDays && (r.scope.None? || r.scope.value == project)
  }

  /** `GetLatestMetricWindow`. No two rows of a window share their time. */
  function Latest(windows: seq<Window>, project: int, windowDays: int): (w: Option<Window>)
    ensures w.Some? ==>
      && w.value in windows && w.value.project == project && w.value.windowDays == windowDays
      && forall v :: v in windows && v.project == project && v.windowDays == windowDays ==>
           v.computedAt <= w.value.computedAt
    ensures w.None? ==> forall v :: v in windows ==> v.project != project || v.windowDays != windowDays
  {
    if |windows| == 0 then None
    else
      var rest, last := Latest(windows[..|windows| - 1], project, windowDays), windows[|windows| - 1];
      assert forall v :: v in windows <==> v in windows[..|windows| - 1] || v == last;
      if && last.project == project && last.windowDays == windowDays
         && (rest.None? || rest.value.computedAt <= last.computedAt)
      then Some(last)
      else rest
  }

  /** The tier read before the new one is stored; empty when there is none. */
  function PreviousTier(windows: seq<Window>, project: int, windowDays: int): string {
    var w := Latest(windows, project, windowDays);
    if w.Some? then w.value.tier else ""
  }

  function Announced(
      rules: seq<Rule>, p: Agg.Project, windowDays: int, previous: string, current: string, refused: set<int>)
    : seq<Event>
  {
    if |rules| == 0 then []
    else
      var k := |rules| - 1;
      var r := rules[k];
      Announced(rules[..k], p, windowDays, previous, current, refused)
      + if Covers(r, p.tenant, p.id, windowDays) && RuleMatchesChange(r.kind, previous, current) && r.id !in refused
        then [Event(r.id, p.id, windowDays, previous, current)] else []
  }

  // ---------- one recomputation on values ----------

  datatype Log = Log(windows: seq<Window>, events: seq<Event>)

  /** One recomputation, with the tiers of its four metrics beside the overall one. */
  datatype Computation = Computation(
    project: Agg.Project, windowDays: int, at: int, tier: string, metrics: seq<string>)

  function Computed(p: Agg.Project, windowDays: int, at: int, metrics: seq<string>): Computation {
    Computation(p, windowDays, at, Worst(metrics), metrics)
  }

  function Recompute(log: Log, rules: seq<Rule>, c: Computation): Log {
    var previous := PreviousTier(log.windows, c.project.id, c.windowDays);
    Log(log.windows + [Window(c.project.id, c.windowDays, c.at, c.tier)],
        log.events + if IsChange(previous, c.tier)
                     then Announced(rules, c.project, c.windowDays, previous, c.tier, {}) else [])
  }

  // ---------- the handler ----------

  /** What can go wrong around one recomputation. */
  datatype Faults = Faults(
    previousUnread: bool, queryFails: bool, storeFails: bool, rulesUnread: bool, refused: set<int>)

  const NO_FAULTS := Faults(false, false, false, false, {})

  class MetricStore {
    var windows: seq<Window>
    var events: seq<Event>
    var rules: seq<Rule>

    /** `fanOutAlertsForTierChange`: inserts in rule order; a refused insert is skipped. */
    method FanOutAlertsForTierChange(
        p: Agg.Project, windowDays: int, previous: string, current: string, rulesUnread: bool, refused: set<int>)
      modifies this`events
      ensures events == old(events) +
        if IsChange(previous, current) && !rulesUnread
        then Announced(rules, p, windowDays, previous, current, refused) else []
    {
      if !IsChange(previous, current) || rulesUnread {
        return;
      }
      for i := 0 to |rules|
        invariant events == old(events) + Announced(rules[..i], p, windowDays, previous, current, refused)
      {
        assert rules[..i + 1][..i] == rules[..i];
        var r := rules[i];
        if Covers(r, p.tenant, p.id, windowDays) {
          if RuleMatchesChange(r.kind, previous, current) {
            if r.id !in refused {
              events := events + [Event(r.id, p.id, windowDays, previous, current)];
            }
          }
        }
      }
      assert rules[..|rules|] == rules;
    }

    /** `HandleComputeMetricWindow`, for a project that exists: the previous tier is
        read before the new window is stored, and alerts follow the store. */
    method HandleComputeMetricWindow(
        db: Agg.Database, p: Agg.Project, windowDays: int, now: int, computedAt: int, t: Thresholds, faults: Faults)
      returns (failed: bool)
      requires windowDays > 0
      modifies this`windows, this`events
      ensures failed == (faults.queryFails || faults.storeFails)
      ensures failed ==> windows == old(windows) && events == old(events)
      ensures !failed ==>
        var tier := Overall(Measure(db, p.id, windowDays, now), t);
        && windows == old(windows) + [Window(p.id, windowDays, computedAt, tier)]
        && var previous := if faults.previousUnread then "" else PreviousTier(old(windows), p.id, windowDays);
           events == old(events) +
             if IsChange(previous, tier) && !faults.rulesUnread
             then Announced(rules, p, windowDays, previous, tier, faults.refused) else []
      ensures faults == NO_FAULTS ==>
        Log(windows, events) == Recompute(old(Log(windows, events)), rules,
          Computed(p, windowDays, computedAt, Tiers(Measure(db, p.id, windowDays, now), t)))
    {
      var previous := "";
      if !faults.previousUnread {
        previous := PreviousTier(windows, p.id, windowDays);
      }
      if faults.queryFails {
        return true;
      }
      var m := Measure(db, p.id, windowDays, now);
      var tiers := Tiers(m, t);
      var tier := WorstOf(tiers);
      WorstIsUnique(tiers, tier, Worst(tiers));
      if faults.storeFails {
        return true;
      }
      windows := windows + [Window(p.id, windowDays, computedAt, tier)];
      FanOutAlertsForTierChange(p, windowDays, previous, tier, faults.rulesUnread, faults.refused);
      failed := false;
    }
  }
}
