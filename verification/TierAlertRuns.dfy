/** Tier alerts over recomputations of many windows, each window's own times
    increasing. */
module TierAlertRuns {
  import opened Wrappers
  import opened Classification
  import opened TierAlerts

  predicate IsFor(c: Computation, project: int, windowDays: int) {
    c.project.id == project && c.windowDays == windowDays
  }

  /** Computations of one window carry increasing times; those of different windows
      and projects may carry any. */
  ghost predicate Increasing(run: seq<Computation>) {
    forall i, j | 0 <= i < j < |run| && IsFor(run[i], run[j].project.id, run[j].windowDays) :: run[i].at < run[j].at
  }

  ghost predicate DistinctRules(rules: seq<Rule>) {
    forall i, j :: 0 <= i < j < |rules| ==> rules[i].id != rules[j].id
  }

  /** The store after a run that starts empty. */
  function History(run: seq<Computation>, rules: seq<Rule>): Log {
    if |run| == 0 then Log([], [])
    else Recompute(History(run[..|run| - 1], rules), rules, run[|run| - 1])
  }

  /** The tiers computed for one window, in order. */
  function TiersOf(run: seq<Computation>, project: int, windowDays: int): seq<string> {
    if |run| == 0 then []
    else
      var c := run[|run| - 1];
      TiersOf(run[..|run| - 1], project, windowDays)
      + if c.project.id == project && c.windowDays == windowDays then [c.tier] else []
  }

  /** The transitions one rule reported for one window. */
  function Raised(events: seq<Event>, rule: int, project: int, windowDays: int): seq<(string, string)> {
    if |events| == 0 then []
    else
      var e := events[|events| - 1];
      Raised(events[..|events| - 1], rule, project, windowDays)
      + if e.rule == rule && e.project == project && e.windowDays == windowDays
        then [(e.previous, e.current)] else []
  }

  /** The adjacent pairs of tiers that a kind of rule reports. */
  function Changes(kind: string, tiers: seq<string>): seq<(string, string)> {
    if |tiers| < 2 then []
    else
      var k := |tiers| - 1;
      Changes(kind, tiers[..k])
      + if RuleMatchesChange(kind, tiers[k - 1], tiers[k]) then [(tiers[k - 1], tiers[k])] else []
  }

  // ---------- the previous tier ----------

  lemma {:induction false} WindowsAreComputations(run: seq<Computation>, rules: seq<Rule>, w: Window)
    requires w in History(run, rules).windows
    ensures exists i :: 0 <= i < |run| && run[i].at == w.computedAt && IsFor(run[i], w.project, w.windowDays)
  {
    if |run| != 0 {
      var front, c := run[..|run| - 1], run[|run| - 1];
      if w in History(front, rules).windows {
        WindowsAreComputations(front, rules, w);
        var i :| 0 <= i < |front| && front[i].at == w.computedAt && IsFor(front[i], w.project, w.windowDays);
        assert run[i] == front[i];
      } else {
        assert c.at == w.computedAt && IsFor(c, w.project, w.windowDays);
      }
    }
  }

  function LastOf(tiers: seq<string>): string { if |tiers| == 0 then "" else tiers[|tiers| - 1] }

  lemma LatestAppended(windows: seq<Window>, w: Window, project: int, windowDays: int)
    requires forall v | v in windows && v.project == w.project && v.windowDays == w.windowDays ::
               v.computedAt < w.computedAt
    ensures Latest(windows + [w], project, windowDays)
         == if w.project == project && w.windowDays == windowDays then Some(w) else Latest(windows, project, windowDays)
  {
    assert (windows + [w])[..|windows|] == windows;
  }

  lemma HistoryStep(run: seq<Computation>, rules: seq<Rule>)
    requires |run| > 0
    ensures var front, c := History(run[..|run| - 1], rules), run[|run| - 1];
      && History(run, rules).windows == front.windows + [Window(c.project.id, c.windowDays, c.at, c.tier)]
      && var previous := PreviousTier(front.windows, c.project.id, c.windowDays);
         History(run, rules).events == front.events +
           if IsChange(previous, c.tier) then Announced(rules, c.project, c.windowDays, previous, c.tier, {}) else []
  {
    hide Announced, IsChange, PreviousTier;
  }

  /** The latest window read back is the last one computed for the key. */
  lemma {:induction false} PreviousIsLast(run: seq<Computation>, rules: seq<Rule>, project: int, windowDays: int)
    requires Increasing(run)
    ensures PreviousTier(History(run, rules).windows, project, windowDays) == LastOf(TiersOf(run, project, windowDays))
  {
    if |run| != 0 {
      hide History, Latest, IsChange;
      var front, c := run[..|run| - 1], run[|run| - 1];
      PreviousIsLast(front, rules, project, windowDays);
      HistoryStep(run, rules);
      var windows := History(front, rules).windows;
      forall w | w in windows && w.project == c.project.id && w.windowDays == c.windowDays
        ensures w.computedAt < c.at
      {
        WindowsAreComputations(front, rules, w);
        var i :| 0 <= i < |front| && front[i].at == w.computedAt && IsFor(front[i], w.project, w.windowDays);
        assert run[i] == front[i];
      }
      LatestAppended(windows, Window(c.project.id, c.windowDays, c.at, c.tier), project, windowDays);
    }
  }

  // ---------- the events of one step ----------

  lemma {:induction false} RaisedConcat(a: seq<Event>, b: seq<Event>, rule: int, project: int, windowDays: int)
    ensures Raised(a + b, rule, project, windowDays)
         == Raised(a, rule, project, windowDays) + Raised(b, rule, project, windowDays)
  {
    if |b| == 0 {
      assert a + b == a;
    } else {
      assert (a + b)[..|a + b| - 1] == a + b[..|b| - 1];
      RaisedConcat(a, b[..|b| - 1], rule, project, windowDays);
    }
  }

  /** A rule is asked once, so it reports a transition at most once. */
  predicate Reports(rules: seq<Rule>, rule: int, c: Computation, previous: string) {
    exists r :: r in rules && r.id == rule && Covers(r, c.project.tenant, c.project.id, c.windowDays)
                && RuleMatchesChange(r.kind, previous, c.tier)
  }

  lemma {:induction false} RaisedByStep(
      rules: seq<Rule>, c: Computation, previous: string, rule: int, project: int, windowDays: int)
    requires DistinctRules(rules)
    ensures Raised(Announced(rules, c.project, c.windowDays, previous, c.tier, {}), rule, project, windowDays)
         == if c.project.id == project && c.windowDays == windowDays && Reports(rules, rule, c, previous)
            then [(previous, c.tier)] else []
  {
    hide Covers, RuleMatchesChange;
    if |rules| != 0 {
      var k := |rules| - 1;
      var r := rules[k];
      RaisedByStep(rules[..k], c, previous, rule, project, windowDays);
      var before := Announced(rules[..k], c.project, c.windowDays, previous, c.tier, {});
      var covers := Covers(r, c.project.tenant, c.project.id, c.windowDays);
      var fires := covers && RuleMatchesChange(r.kind, previous, c.tier);
      var added := if fires then [Event(r.id, c.project.id, c.windowDays, previous, c.tier)] else [];
      RaisedConcat(before, added, rule, project, windowDays);
      assert forall q :: q in rules <==> q in rules[..k] || q == r;
      assert Reports(rules, rule, c, previous) <==> Reports(rules[..k], rule, c, previous) || (r.id == rule && fires);
      assert r.id == rule ==> !Reports(rules[..k], rule, c, previous);
    }
  }

  lemma ReportsIff(rules: seq<Rule>, r: Rule, c: Computation, previous: string)
    requires DistinctRules(rules) && r in rules
    ensures Reports(rules, r.id, c, previous) <==>
              Covers(r, c.project.tenant, c.project.id, c.windowDays) && RuleMatchesChange(r.kind, previous, c.tier)
  {
    hide Covers, RuleMatchesChange;
  }

  lemma NoChangeNoReport(rules: seq<Rule>, rule: int, c: Computation, previous: string)
    requires !IsChange(previous, c.tier)
    ensures !Reports(rules, rule, c, previous)
  {
    hide TierOrder, Covers;
  }

  // ---------- the events of a run ----------

  /** What one computation adds to the reports of a rule. */
  lemma ReportedByStep(run: seq<Computation>, rules: seq<Rule>, r: Rule, project: int, windowDays: int)
    requires |run| > 0 && Increasing(run) && DistinctRules(rules) && r in rules
    ensures var front, c := run[..|run| - 1], run[|run| - 1];
      var previous := LastOf(TiersOf(front, project, windowDays));
      Raised(History(run, rules).events, r.id, project, windowDays)
      == Raised(History(front, rules).events, r.id, project, windowDays)
         + if && c.project.id == project && c.windowDays == windowDays
              && Covers(r, c.project.tenant, project, windowDays) && RuleMatchesChange(r.kind, previous, c.tier)
           then [(previous, c.tier)] else []
  {
    hide History, Covers, RuleMatchesChange, IsChange, PreviousTier, Announced, Raised, Reports;
    var front, c := run[..|run| - 1], run[|run| - 1];
    var log := History(front, rules);
    var previous := PreviousTier(log.windows, c.project.id, c.windowDays);
    var all := Announced(rules, c.project, c.windowDays, previous, c.tier, {});
    HistoryStep(run, rules);
    RaisedConcat(log.events, if IsChange(previous, c.tier) then all else [], r.id, project, windowDays);
    RaisedByStep(rules, c, previous, r.id, project, windowDays);
    ReportsIff(rules, r, c, previous);
    PreviousIsLast(front, rules, c.project.id, c.windowDays);
    if !IsChange(previous, c.tier) {
      NoChangeNoReport(rules, r.id, c, previous);
      NothingRaised(r.id, project, windowDays);
    }
  }

  lemma NothingRaised(rule: int, project: int, windowDays: int)
    ensures Raised([], rule, project, windowDays) == []
  {}

  lemma ChangesStep(kind: string, tiers: seq<string>, tier: string)
    ensures Changes(kind, tiers + [tier])
         == Changes(kind, tiers) + if RuleMatchesChange(kind, LastOf(tiers), tier) then [(LastOf(tiers), tier)] else []
  {
    hide RuleMatchesChange;
    FirstIsSilent(kind, tier);
    var all := tiers + [tier];
    assert all[..|all| - 1] == tiers;
    if |tiers| > 0 {
      assert all[|all| - 2] == LastOf(tiers);
    }
  }

  /** Main result. Over any run with increasing times, what a rule reports for a
      window is exactly the sequence of adjacent transitions of its kind among the
      tiers computed for that window, and nothing for windows it does not cover. */
  lemma {:induction false} EventsAreTheMatchingChanges(
      run: seq<Computation>, rules: seq<Rule>, r: Rule, tenant: int, project: int, windowDays: int)
    requires Increasing(run) && DistinctRules(rules) && r in rules
    requires forall i :: 0 <= i < |run| && run[i].project.id == project ==> run[i].project.tenant == tenant
    ensures Raised(History(run, rules).events, r.id, project, windowDays)
         == if Covers(r, tenant, project, windowDays) then Changes(r.kind, TiersOf(run, project, windowDays)) else []
  {
    if |run| != 0 {
      hide History, Raised, Covers, RuleMatchesChange, Changes;
      var front, c := run[..|run| - 1], run[|run| - 1];
      EventsAreTheMatchingChanges(front, rules, r, tenant, project, windowDays);
      ReportedByStep(run, rules, r, project, windowDays);
      var tiers := TiersOf(front, project, windowDays);
      ChangesStep(r.kind, tiers, c.tier);
      if c.project.id == project && c.windowDays == windowDays {
        assert TiersOf(run, project, windowDays) == tiers + [c.tier];
      } else {
        assert TiersOf(run, project, windowDays) == tiers;
      }
    }
  }

  /** The adjacent pairs of tiers that are among the given ones. */
  function AdjacentIn(tiers: seq<string>, pairs: set<(string, string)>): seq<(string, string)> {
    if |tiers| < 2 then []
    else
      var k := |tiers| - 1;
      AdjacentIn(tiers[..k], pairs) + if (tiers[k - 1], tiers[k]) in pairs then [(tiers[k - 1], tiers[k])] else []
  }

  /** The pairs of tiers a kind of rule is for: six falls, and for changes the six
      rises as well. */
  function PairsOf(kind: string): set<(string, string)> {
    if kind == "tier_regression" then FALLS else if kind == "tier_change" then FALLS + RISES else {}
  }

  lemma {:induction false} ChangesArePairs(kind: string, tiers: seq<string>)
    ensures Changes(kind, tiers) == AdjacentIn(tiers, PairsOf(kind))
  {
    hide RuleMatchesChange, PairsOf;
    if |tiers| >= 2 {
      var k := |tiers| - 1;
      ChangesArePairs(kind, tiers[..k]);
      FiresOnPairs(kind, tiers[k - 1], tiers[k]);
    }
  }

  lemma FiresOnPairs(kind: string, previous: string, current: string)
    ensures RuleMatchesChange(kind, previous, current) <==> (previous, current) in PairsOf(kind)
  {
    RuleFiresOn(kind, previous, current);
    hide RuleMatchesChange;
  }

  /** Main result, in the tiers' own names. Over any run an enabled rule of the
      window's tenant and length, for all projects or this one, has stored events for
      exactly the adjacent pairs that fell, if it is for regressions, or that fell or
      rose, if it is for changes; a rule of any other kind or reach has none. */
  lemma EventsByKind(
      run: seq<Computation>, rules: seq<Rule>, r: Rule, tenant: int, project: int, windowDays: int)
    requires Increasing(run) && DistinctRules(rules) && r in rules
    requires forall i :: 0 <= i < |run| && run[i].project.id == project ==> run[i].project.tenant == tenant
    ensures Raised(History(run, rules).events, r.id, project, windowDays)
         == if && r.enabled && r.tenant == tenant && r.scopeKind == "project" && r.windowDays == windowDays
               && (r.scope == None || r.scope == Some(project))
            then AdjacentIn(TiersOf(run, project, windowDays), PairsOf(r.kind)) else []
  {
    hide Changes, Raised, History, TiersOf, AdjacentIn, PairsOf;
    EventsAreTheMatchingChanges(run, rules, r, tenant, project, windowDays);
    ChangesArePairs(r.kind, TiersOf(run, project, windowDays));
  }

  lemma FirstIsSilent(kind: string, tier: string)
    ensures !RuleMatchesChange(kind, "", tier)
  {}

  // ---------- rank changes ----------

  function RankChange(pairs: seq<(string, string)>): int {
    if |pairs| == 0 then 0
    else
      var last := pairs[|pairs| - 1];
      RankChange(pairs[..|pairs| - 1]) + TierOrder(last.1) - TierOrder(last.0)
  }

  /** Across a stretch without insufficient data, reported rank changes add up to
      the last rank minus the first. */
  lemma {:induction false} RankChangesTelescope(tiers: seq<string>, i: nat)
    requires i < |tiers| && forall j :: i <= j < |tiers| ==> Known(tiers[j])
    ensures RankChange(Changes(TIER_CHANGE, tiers))
         == RankChange(Changes(TIER_CHANGE, tiers[..i + 1])) + TierOrder(tiers[|tiers| - 1]) - TierOrder(tiers[i])
  {
    hide TierOrder, Changes, RankChange, RuleMatchesChange;
    var k := |tiers| - 1;
    if i == k {
      assert tiers[..i + 1] == tiers;
    } else {
      var front := tiers[..k];
      RankChangesTelescope(front, i);
      assert front[..i + 1] == tiers[..i + 1] && tiers == front + [tiers[k]];
      assert Known(tiers[k - 1]) && Known(tiers[k]);
      ChangesStep(TIER_CHANGE, front, tiers[k]);
      KnownTiersChangeByRank(tiers[k - 1], tiers[k]);
      RankOfAppended(Changes(TIER_CHANGE, front), tiers[k - 1], tiers[k]);
      if TierOrder(tiers[k - 1]) == TierOrder(tiers[k]) {
        assert Changes(TIER_CHANGE, tiers) == Changes(TIER_CHANGE, front);
      }
    }
  }

  lemma KnownTiersChangeByRank(a: string, b: string)
    requires Known(a) && Known(b)
    ensures RuleMatchesChange(TIER_CHANGE, a, b) <==> TierOrder(a) != TierOrder(b)
  {}

  lemma RankOfAppended(pairs: seq<(string, string)>, a: string, b: string)
    ensures RankChange(pairs + [(a, b)]) == RankChange(pairs) + TierOrder(b) - TierOrder(a)
  {
    assert (pairs + [(a, b)])[..|pairs|] == pairs;
  }

  /** Main result, on the store: the rank changes reported after position i of a
      window's history telescope when every tier from there on is known. */
  lemma ReportedRanksTelescope(
      run: seq<Computation>, rules: seq<Rule>, r: Rule, tenant: int, project: int, windowDays: int, i: nat)
    requires Increasing(run) && DistinctRules(rules) && r in rules
    requires forall j :: 0 <= j < |run| && run[j].project.id == project ==> run[j].project.tenant == tenant
    requires r.kind == TIER_CHANGE && Covers(r, tenant, project, windowDays)
    requires i < |TiersOf(run, project, windowDays)|
    requires forall j :: i <= j < |TiersOf(run, project, windowDays)| ==> Known(TiersOf(run, project, windowDays)[j])
    ensures var tiers := TiersOf(run, project, windowDays);
            var raised := Raised(History(run, rules).events, r.id, project, windowDays);
      RankChange(raised)
      == RankChange(Changes(TIER_CHANGE, tiers[..i + 1])) + TierOrder(tiers[|tiers| - 1]) - TierOrder(tiers[i])
  {
    hide Covers, Known, TierOrder, Changes, RankChange, Raised, History, TiersOf;
    EventsAreTheMatchingChanges(run, rules, r, tenant, project, windowDays);
    var tiers := TiersOf(run, project, windowDays);
    assert Changes(r.kind, tiers) == Changes(TIER_CHANGE, tiers);
    assert Raised(History(run, rules).events, r.id, project, windowDays) == Changes(TIER_CHANGE, tiers);
    RankChangesTelescope(TiersOf(run, project, windowDays), i);
  }

  // ---------- why a tier fell ----------

  /** Each overall tier is the worst of its four metrics, as the handler computes it. */
  ghost predicate Classified(run: seq<Computation>) {
    forall i :: 0 <= i < |run| ==> |run[i].metrics| == 4 && run[i].tier == Worst(run[i].metrics)
  }

  /** The i-th computation is the last one before the j-th for the same window. */
  ghost predicate Adjacent(run: seq<Computation>, i: nat, j: nat, project: int, windowDays: int) {
    && i < j < |run| && IsFor(run[i], project, windowDays) && IsFor(run[j], project, windowDays)
    && forall k :: i < k < j ==> !IsFor(run[k], project, windowDays)
  }

  lemma {:induction false} LastComputation(run: seq<Computation>, project: int, windowDays: int) returns (i: nat)
    requires |TiersOf(run, project, windowDays)| > 0
    ensures i < |run| && IsFor(run[i], project, windowDays)
    ensures forall k :: i < k < |run| ==> !IsFor(run[k], project, windowDays)
    ensures run[i].tier == LastOf(TiersOf(run, project, windowDays))
  {
    i := |run| - 1;
    if !IsFor(run[i], project, windowDays) {
      i := LastComputation(run[..|run| - 1], project, windowDays);
    }
  }

  /** Every event ever stored tells of two adjacent computations of its window. */
  lemma {:induction false} EventsAreAdjacentComputations(run: seq<Computation>, rules: seq<Rule>, e: Event)
    returns (i: nat, j: nat)
    requires Increasing(run) && e in History(run, rules).events
    ensures Adjacent(run, i, j, e.project, e.windowDays)
    ensures run[i].tier == e.previous && run[j].tier == e.current && IsChange(e.previous, e.current)
  {
    hide Announced, IsChange, PreviousTier;
    var front, c := run[..|run| - 1], run[|run| - 1];
    HistoryStep(run, rules);
    if e in History(front, rules).events {
      i, j := EventsAreAdjacentComputations(front, rules, e);
    } else {
      var previous := PreviousTier(History(front, rules).windows, c.project.id, c.windowDays);
      AnnouncedAreChanges(rules, c, previous, e);
      PreviousIsLast(front, rules, c.project.id, c.windowDays);
      NoChangeFromNothing(c.tier);
      i := LastComputation(front, c.project.id, c.windowDays);
      j := |run| - 1;
    }
  }

  lemma NoChangeFromNothing(tier: string)
    ensures !IsChange("", tier)
  {}

  lemma {:induction false} AnnouncedAreChanges(rules: seq<Rule>, c: Computation, previous: string, e: Event)
    requires e in Announced(rules, c.project, c.windowDays, previous, c.tier, {})
    ensures e.previous == previous && e.current == c.tier && e.project == c.project.id && e.windowDays == c.windowDays
  {
    if |rules| != 0 && e in Announced(rules[..|rules| - 1], c.project, c.windowDays, previous, c.tier, {}) {
      AnnouncedAreChanges(rules[..|rules| - 1], c, previous, e);
    }
  }

  /** Main result. Every regression ever stored has a metric whose own tier fell or
      became known between the two adjacent computations it tells of. */
  lemma StoredRegressionsHaveACause(run: seq<Computation>, rules: seq<Rule>, e: Event)
    returns (i: nat, j: nat, metric: nat)
    requires Increasing(run) && Classified(run)
    requires e in History(run, rules).events && IsRegression(e.previous, e.current)
    ensures Adjacent(run, i, j, e.project, e.windowDays)
    ensures run[i].tier == e.previous && run[j].tier == e.current
    ensures metric < 4 && Known(run[j].metrics[metric])
    ensures !Known(run[i].metrics[metric]) || IsRegression(run[i].metrics[metric], run[j].metrics[metric])
  {
    hide History, IsRegression, IsChange, Known, Worst;
    i, j := EventsAreAdjacentComputations(run, rules, e);
    metric := RegressionHasACause(run[i].metrics, run[j].metrics);
  }

  // ---------- insufficient data ----------

  /** The history without its insufficient windows. */
  function KnownOnly(tiers: seq<string>): (known: seq<string>)
    ensures forall t :: t in known ==> Known(t)
  {
    if |tiers| == 0 then []
    else
      var k := |tiers| - 1;
      KnownOnly(tiers[..k]) + if Known(tiers[k]) then [tiers[k]] else []
  }

  /** How many known tiers follow an insufficient window and are a transition of the
      rule's kind from the last tier known before it. */
  function Hidden(kind: string, tiers: seq<string>): nat {
    if |tiers| == 0 then 0
    else
      var front, tier := tiers[..|tiers| - 1], tiers[|tiers| - 1];
      Hidden(kind, front)
      + if !Known(LastOf(front)) && RuleMatchesChange(kind, LastOf(KnownOnly(front)), tier) then 1 else 0
  }

  lemma MatchingTiersAreKnown(kind: string, previous: string, current: string)
    ensures RuleMatchesChange(kind, previous, current) ==> Known(previous) && Known(current)
  {}

  lemma {:induction false} LastKnownOnly(tiers: seq<string>)
    ensures Known(LastOf(tiers)) ==> LastOf(KnownOnly(tiers)) == LastOf(tiers)
  {}

  /** Main result, for any history. The transitions among the known tiers alone are
      those reported and those hidden behind insufficient windows; so all of them
      are reported if and only if none is hidden. */
  lemma {:induction false} ReportedPlusHidden(kind: string, tiers: seq<string>)
    ensures |Changes(kind, KnownOnly(tiers))| == |Changes(kind, tiers)| + Hidden(kind, tiers)
    ensures Changes(kind, tiers) == Changes(kind, KnownOnly(tiers)) <==> Hidden(kind, tiers) == 0
  {
    hide Changes, RuleMatchesChange, Known;
    if |tiers| == 0 {
      assert KnownOnly(tiers) == tiers;
    } else {
      var front, tier := tiers[..|tiers| - 1], tiers[|tiers| - 1];
      assert tiers == front + [tier];
      ReportedPlusHidden(kind, front);
      LastKnownOnly(front);
      ChangesStep(kind, front, tier);
      ChangesStep(kind, KnownOnly(front), tier);
      MatchingTiersAreKnown(kind, LastOf(front), tier);
      MatchingTiersAreKnown(kind, LastOf(KnownOnly(front)), tier);
      if Known(tier) {
        assert KnownOnly(tiers) == KnownOnly(front) + [tier];
      } else {
        assert KnownOnly(tiers) == KnownOnly(front);
      }
      if Hidden(kind, tiers) == 0 {
        assert Changes(kind, tiers) == Changes(kind, KnownOnly(tiers));
      }
    }
  }

  /** On the store: a covering rule's events for a window are all the transitions of
      its kind among the known tiers if and only if none is hidden, and are short by
      the number hidden otherwise. */
  lemma EventsTellEveryChangeIff(
      run: seq<Computation>, rules: seq<Rule>, r: Rule, tenant: int, project: int, windowDays: int)
    requires Increasing(run) && DistinctRules(rules) && r in rules
    requires forall i :: 0 <= i < |run| && run[i].project.id == project ==> run[i].project.tenant == tenant
    requires Covers(r, tenant, project, windowDays)
    ensures var tiers := TiersOf(run, project, windowDays);
            var told := Raised(History(run, rules).events, r.id, project, windowDays);
      && |Changes(r.kind, KnownOnly(tiers))| == |told| + Hidden(r.kind, tiers)
      && (told == Changes(r.kind, KnownOnly(tiers)) <==> Hidden(r.kind, tiers) == 0)
  {
    hide Covers, Changes, Raised, History, TiersOf, Hidden, KnownOnly;
    EventsAreTheMatchingChanges(run, rules, r, tenant, project, windowDays);
    ReportedPlusHidden(r.kind, TiersOf(run, project, windowDays));
  }

  /** A gap of any length, in any history, cuts the reports in two: nothing is ever
      reported across it. */
  lemma {:induction false} GapsAreSilent(kind: string, before: seq<string>, gap: seq<string>, after: seq<string>)
    requires |gap| > 0 && forall t :: t in gap ==> !Known(t)
    ensures Changes(kind, before + gap + after) == Changes(kind, before) + Changes(kind, after)
  {
    hide Changes, RuleMatchesChange, Known;
    if |after| > 0 {
      var k := |after| - 1;
      GapsAreSilent(kind, before, gap, after[..k]);
      assert before + gap + after == (before + gap + after[..k]) + [after[k]];
      assert after == after[..k] + [after[k]];
      ChangesStep(kind, before + gap + after[..k], after[k]);
      ChangesStep(kind, after[..k], after[k]);
      if k == 0 {
        assert LastOf(before + gap + after[..k]) in gap;
        MatchingTiersAreKnown(kind, LastOf(before + gap + after[..k]), after[k]);
        FirstIsSilent(kind, after[k]);
      }
    } else {
      var k := |gap| - 1;
      assert before + gap + after == (before + gap[..k]) + [gap[k]];
      assert gap[k] in gap;
      ChangesStep(kind, before + gap[..k], gap[k]);
      MatchingTiersAreKnown(kind, LastOf(before + gap[..k]), gap[k]);
      if k == 0 {
        assert before + gap[..k] == before;
      } else {
        GapsAreSilent(kind, before, gap[..k], []);
        assert before + gap[..k] + [] == before + gap[..k];
      }
      NoTiersNoChanges(kind);
    }
  }

  lemma NoTiersNoChanges(kind: string)
    ensures Changes(kind, []) == []
  {}
}
