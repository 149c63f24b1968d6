/** Delivering one alert event by webhook, with retries
    (backend/internal/collector/alerts.go, `HandleDispatchAlert`; tasks.go,
    `NewDispatchAlertTask`; alerts.sql.go, `MarkAlertEvent...`). */
module Dispatch {
  import opened Wrappers
  import opened Classification
  import opened TierAlerts
  import opened TierAlertRuns

  datatype Status = Pending | Delivered | Failed

  datatype EventRow = EventRow(rule: int, status: Status, httpStatus: Option<int>, lastError: bool)

  /** Done: no error. Again: a plain error. GiveUp: an error wrapping SkipRetry. */
  datatype Verdict = Done | Again | GiveUp

  /** What surrounds one attempt. `response` is the HTTP status, or None for a
      transport error; `writes` says whether the status update succeeds. */
  datatype Luck = Luck(
    eventReadable: bool, ruleReadable: bool, buildable: bool, response: Option<int>, writes: bool)

  datatype Outcome = Outcome(rows: map<int, EventRow>, verdict: Verdict, posted: bool)

  predicate Accepted(status: int) { 200 <= status < 300 }

  /** A client error that repeating will not cure. */
  predicate Permanent(status: int) { 400 <= status < 500 && status != 408 && status != 429 }

  class AlertEvents {
    var rows: map<int, EventRow>
    var rules: set<int>

    /** `MarkAlertEventDelivered`. */
    method MarkDelivered(id: int, httpStatus: int, writes: bool) returns (ok: bool)
      requires id in rows
      modifies this`rows
      ensures ok == writes
      ensures rows == if writes
                      then old(rows)[id := EventRow(old(rows)[id].rule, Delivered, Some(httpStatus), false)]
                      else old(rows)
    {
      if writes {
        rows := rows[id := rows[id].(status := Delivered, httpStatus := Some(httpStatus), lastError := false)];
      }
      ok := writes;
    }

    /** `MarkAlertEventFailed`. */
    method MarkFailed(id: int, httpStatus: Option<int>, writes: bool)
      requires id in rows
      modifies this`rows
      ensures rows == if writes
                      then old(rows)[id := EventRow(old(rows)[id].rule, Failed, httpStatus, true)]
                      else old(rows)
    {
      if writes {
        rows := rows[id := rows[id].(status := Failed, httpStatus := httpStatus, lastError := true)];
      }
    }

    /** `HandleDispatchAlert`, stated outcome class by outcome class. */
    method HandleDispatchAlert(id: int, luck: Luck) returns (verdict: Verdict, posted: bool)
      modifies this`rows
      ensures posted <==> && luck.eventReadable && id in old(rows) && luck.ruleReadable
                          && old(rows)[id].rule in rules && luck.buildable
      ensures rows.Keys == old(rows.Keys) && rows - {id} == old(rows) - {id}
      ensures posted && luck.response.Some? && Accepted(luck.response.value) ==>
        && verdict == (if luck.writes then Done else Again)
        && rows[id] == if luck.writes then EventRow(old(rows)[id].rule, Delivered, luck.response, false)
                       else old(rows)[id]
      ensures posted && !(luck.response.Some? && Accepted(luck.response.value)) ==>
        && verdict == (if luck.response.Some? && Permanent(luck.response.value) then GiveUp else Again)
        && rows[id] == if luck.writes then EventRow(old(rows)[id].rule, Failed, luck.response, true) else old(rows)[id]
      ensures !luck.eventReadable ==> verdict == Again && rows == old(rows)
      ensures luck.eventReadable && id !in old(rows) ==> verdict == Done && rows == old(rows)
      ensures luck.eventReadable && id in old(rows) && !luck.ruleReadable ==> verdict == Again && rows == old(rows)
      ensures luck.eventReadable && id in old(rows) && luck.ruleReadable && !posted ==>
        && verdict == (if old(rows)[id].rule in rules then GiveUp else Done)
        && rows[id] == if luck.writes then EventRow(old(rows)[id].rule, Failed, None, true) else old(rows)[id]
      ensures Outcome(rows, verdict, posted) == Handle(old(rows), rules, id, luck)
    {
      posted := false;
      if !luck.eventReadable {
        return Again, false;
      }
      if id !in rows {
        return Done, false;
      }
      if !luck.ruleReadable {
        return Again, false;
      }
      if rows[id].rule !in rules {
        MarkFailed(id, None, luck.writes);
        return Done, false;
      }
      if !luck.buildable {
        MarkFailed(id, None, luck.writes);
        return GiveUp, false;
      }
      posted := true;
      if luck.response.None? {
        MarkFailed(id, None, luck.writes);
        return Again, posted;
      }
      var status := luck.response.value;
      if Accepted(status) {
        var ok := MarkDelivered(id, status, luck.writes);
        return if ok then Done else Again, posted;
      }
      MarkFailed(id, Some(status), luck.writes);
      return if Permanent(status) then GiveUp else Again, posted;
    }
  }

  /** One attempt as a function of the tables and its luck. */
  function Handle(rows: map<int, EventRow>, rules: set<int>, id: int, luck: Luck): Outcome {
    if !luck.eventReadable then Outcome(rows, Again, false)
    else if id !in rows then Outcome(rows, Done, false)
    else if !luck.ruleReadable then Outcome(rows, Again, false)
    else
      var row := rows[id];
      var failed := if luck.writes then rows[id := EventRow(row.rule, Failed, None, true)] else rows;
      if row.rule !in rules then Outcome(failed, Done, false)
      else if !luck.buildable then Outcome(failed, GiveUp, false)
      else if luck.response.None? then Outcome(failed, Again, true)
      else
        var status := luck.response.value;
        var stored :=
          EventRow(row.rule, if Accepted(status) then Delivered else Failed, Some(status), !Accepted(status));
        Outcome(if luck.writes then rows[id := stored] else rows,
                if Accepted(status) then (if luck.writes then Done else Again)
                else if Permanent(status) then GiveUp else Again,
                true)
  }

  // ---------- calling the handler again ----------

  /** The attempt got as far as the request. */
  predicate Sends(rows: map<int, EventRow>, rules: set<int>, id: int, luck: Luck) {
    luck.eventReadable && id in rows && luck.ruleReadable && rows[id].rule in rules && luck.buildable
  }

  /** The attempt, on a row that is there, left it a status. */
  predicate Writes(luck: Luck) { luck.eventReadable && luck.ruleReadable && luck.writes }

  predicate AcceptedBy(luck: Luck) { luck.response.Some? && 200 <= luck.response.value <= 299 }

  predicate RejectedBy(luck: Luck) {
    luck.response.Some? && 400 <= luck.response.value <= 499 && luck.response.value !in {408, 429}
  }

  /** Exact conditions on one call, whatever status is stored: it POSTs if and only if
      nothing keeps it from the request, a delivered event included; and the row ends
      delivered if and only if the call wrote and its POST was accepted, or it did not
      write and the row was delivered before. */
  lemma HandledIff(rows: map<int, EventRow>, rules: set<int>, id: int, luck: Luck)
    requires id in rows
    ensures var out := Handle(rows, rules, id, luck);
      && (out.posted <==> Sends(rows, rules, id, luck))
      && id in out.rows && out.rows - {id} == rows - {id}
      && (out.rows[id].status == Delivered
          <==> if Writes(luck) then out.posted && AcceptedBy(luck) else rows[id].status == Delivered)
  {}

  /** What the queue is told of a POST, by the status in its answer: done on 2xx, if
      that was stored; give up on 4xx other than 408 and 429; try again otherwise. */
  lemma VerdictByStatus(rows: map<int, EventRow>, rules: set<int>, id: int, luck: Luck)
    requires Sends(rows, rules, id, luck)
    ensures var verdict := Handle(rows, rules, id, luck).verdict;
      && (verdict == Done <==> luck.writes && AcceptedBy(luck))
      && (verdict == GiveUp <==> RejectedBy(luck))
      && (luck.response in {Some(200), Some(202), Some(204), Some(299)} && luck.writes ==> verdict == Done)
      && (luck.response in {Some(400), Some(404), Some(410), Some(499)} ==> verdict == GiveUp)
      && (luck.response in {None, Some(300), Some(408), Some(429), Some(500), Some(503)} ==> verdict == Again)
  {}

  /** A second call on a delivered event POSTs again, and a 500 turns it to failed. */
  lemma DeliveredEventIsPostedAgain()
    ensures var rows := map[1 := EventRow(7, Delivered, Some(200), false)];
            var out := Handle(rows, {7}, 1, Luck(true, true, true, Some(500), true));
      out.posted && out.rows[1].status == Failed
  {}

  /** A call, with the rules alive at its time and whether the event row was deleted
      since the previous one. */
  datatype Occasion = Occasion(luck: Luck, rules: set<int>, gone: bool)

  function HandleOn(rows: map<int, EventRow>, id: int, o: Occasion): Outcome {
    Handle(if o.gone then rows - {id} else rows, o.rules, id, o.luck)
  }

  /** The tables after any calls at all, by retries, redelivery or hand. */
  function Calls(rows: map<int, EventRow>, id: int, occasions: seq<Occasion>): map<int, EventRow> {
    if |occasions| == 0 then rows
    else HandleOn(Calls(rows, id, occasions[..|occasions| - 1]), id, occasions[|occasions| - 1]).rows
  }

  /** What the last call that wrote left, or the start when none did. */
  function LastWrite(start: bool, occasions: seq<Occasion>, rule: int): bool {
    if |occasions| == 0 then start
    else
      var o := occasions[|occasions| - 1];
      if Writes(o.luck) then AcceptedBy(o.luck) && o.luck.buildable && rule in o.rules
      else LastWrite(start, occasions[..|occasions| - 1], rule)
  }

  /** Main result, for any calls and any start. The last call that wrote decides the
      status: a row still there is delivered if and only if that call's POST was
      accepted, or none wrote and it was delivered to begin with. */
  lemma {:induction false} LastWriteDecides(start: map<int, EventRow>, id: int, occasions: seq<Occasion>)
    ensures var rows := Calls(start, id, occasions);
      && rows - {id} == start - {id}
      && (id in rows ==>
            && id in start && rows[id].rule == start[id].rule
            && (rows[id].status == Delivered
                <==> LastWrite(start[id].status == Delivered, occasions, start[id].rule)))
  {
    if |occasions| != 0 {
      LastWriteDecides(start, id, occasions[..|occasions| - 1]);
    }
  }

  // ---------- the retry chain of one task ----------

  const MAX_RETRY := 5

  datatype Made = Made(luck: Luck, verdict: Verdict, posted: bool)

  datatype Chain = Chain(rows: map<int, EventRow>, made: seq<Made>)

  predicate Over(c: Chain) {
    |c.made| > 0 && (c.made[|c.made| - 1].verdict != Again || |c.made| == MAX_RETRY + 1)
  }

  /** The queue runs another attempt unless the chain is over. */
  function Try(c: Chain, id: int, o: Occasion): Chain {
    if Over(c) then c
    else
      var out := HandleOn(c.rows, id, o);
      Chain(out.rows, c.made + [Made(o.luck, out.verdict, out.posted)])
  }

  function RunTask(rows: map<int, EventRow>, id: int, occasions: seq<Occasion>): Chain {
    if |occasions| == 0 then Chain(rows, [])
    else Try(RunTask(rows, id, occasions[..|occasions| - 1]), id, occasions[|occasions| - 1])
  }

  /** The webhook took the alert. */
  predicate Took(m: Made) { m.posted && AcceptedBy(m.luck) }

  /** The webhook took the alert and that was stored. */
  predicate Recorded(m: Made) { Took(m) && m.luck.writes }

  predicate Rejected(m: Made) { m.posted && RejectedBy(m.luck) }

  ghost predicate ChainInv(c: Chain, start: map<int, EventRow>, id: int) {
    && |c.made| <= MAX_RETRY + 1
    && (forall i :: 0 <= i < |c.made| - 1 ==> c.made[i].verdict == Again)
    && (forall m :: m in c.made && (Recorded(m) || Rejected(m)) ==> m.verdict != Again)
    && (id in c.rows ==>
          && id in start
          && (c.rows[id].status == Delivered <==>
                || (exists m :: m in c.made && Recorded(m))
                || (start[id].status == Delivered && forall m :: m in c.made ==> !Writes(m.luck))))
    && c.rows - {id} == start - {id}
  }

  lemma TryKeepsInv(c: Chain, start: map<int, EventRow>, id: int, o: Occasion)
    requires ChainInv(c, start, id)
    ensures ChainInv(Try(c, id, o), start, id)
  {
    if !Over(c) {
      var d := Try(c, id, o);
      var m := d.made[|c.made|];
      assert forall n :: n in d.made <==> n in c.made || n == m;
      assert forall n :: n in c.made ==> !Recorded(n);
    }
  }

  lemma {:induction false} ChainInvAlways(start: map<int, EventRow>, id: int, occasions: seq<Occasion>)
    ensures ChainInv(RunTask(start, id, occasions), start, id)
  {
    if |occasions| != 0 {
      hide Try, ChainInv;
      var front := occasions[..|occasions| - 1];
      ChainInvAlways(start, id, front);
      TryKeepsInv(RunTask(start, id, front), start, id, occasions[|occasions| - 1]);
    }
  }

  function Posts(made: seq<Made>): nat {
    if |made| == 0 then 0 else Posts(made[..|made| - 1]) + if made[|made| - 1].posted then 1 else 0
  }

  lemma {:induction false} PostsAreAttempts(made: seq<Made>)
    ensures Posts(made) <= |made|
  {
    if |made| != 0 {
      PostsAreAttempts(made[..|made| - 1]);
    }
  }

  /** Main result. Whatever the event's status when the chain starts and however long
      the queue keeps trying, the chain POSTs at most six times, and never after a
      recorded delivery or a permanent rejection of its own. */
  lemma PostsAreBounded(start: map<int, EventRow>, id: int, occasions: seq<Occasion>)
    ensures var made := RunTask(start, id, occasions).made;
      && Posts(made) <= 6
      && forall i, j :: 0 <= i < j < |made| && made[j].posted ==> !Recorded(made[i]) && !Rejected(made[i])
  {
    ChainInvAlways(start, id, occasions);
    PostsAreAttempts(RunTask(start, id, occasions).made);
  }

  /** Nothing in the way of its request but a failing webhook, the chain does use all
      its six attempts, POSTing each time. */
  lemma {:induction false} KeepsTrying(start: map<int, EventRow>, id: int, occasions: seq<Occasion>)
    requires id in start
    requires forall i :: 0 <= i < |occasions| ==>
      && !occasions[i].gone && start[id].rule in occasions[i].rules
      && occasions[i].luck.eventReadable && occasions[i].luck.ruleReadable && occasions[i].luck.buildable
      && !AcceptedBy(occasions[i].luck) && !RejectedBy(occasions[i].luck)
    ensures var c := RunTask(start, id, occasions);
      && id in c.rows && c.rows[id].rule == start[id].rule
      && |c.made| == Posts(c.made) == (if |occasions| <= 6 then |occasions| else 6)
      && (forall m :: m in c.made ==> m.verdict == Again)
  {
    if |occasions| != 0 {
      KeepsTrying(start, id, occasions[..|occasions| - 1]);
      var c, d := RunTask(start, id, occasions[..|occasions| - 1]), RunTask(start, id, occasions);
      if !Over(c) {
        assert d.made[..|d.made| - 1] == c.made;
        assert forall m :: m in d.made <==> m in c.made || m == d.made[|c.made|];
      }
    }
  }

  /** Main result. The stored status is delivered exactly when some attempt was
      accepted and that was stored, or it was delivered before the chain and no
      attempt wrote; other events are untouched. */
  lemma DeliveredIffRecorded(start: map<int, EventRow>, id: int, occasions: seq<Occasion>)
    ensures var c := RunTask(start, id, occasions);
      && (id in c.rows ==>
            && id in start
            && (c.rows[id].status == Delivered <==>
                  || (exists m :: m in c.made && Recorded(m))
                  || (start[id].status == Delivered && forall m :: m in c.made ==> !Writes(m.luck))))
      && c.rows - {id} == start - {id}
  {
    ChainInvAlways(start, id, occasions);
  }

  lemma {:induction false} OverIsFinal(
      start: map<int, EventRow>, id: int, occasions: seq<Occasion>, more: seq<Occasion>)
    requires Over(RunTask(start, id, occasions))
    ensures RunTask(start, id, occasions + more) == RunTask(start, id, occasions)
  {
    if |more| == 0 {
      assert occasions + more == occasions;
    } else {
      assert (occasions + more)[..|occasions + more| - 1] == occasions + more[..|more| - 1];
      OverIsFinal(start, id, occasions, more[..|more| - 1]);
    }
  }

  /** The status an event has when its chain stops, delivered or not, stays as long as
      no other chain is started for it; and a delivery recorded by the chain stops it. */
  lemma DeliveredIsFinal(start: map<int, EventRow>, id: int, occasions: seq<Occasion>, more: seq<Occasion>)
    ensures var c := RunTask(start, id, occasions);
      && ((exists m :: m in c.made && Recorded(m)) ==> Over(c))
      && (Over(c) ==> RunTask(start, id, occasions + more) == c)
  {
    hide RunTask;
    ChainInvAlways(start, id, occasions);
    var c := RunTask(start, id, occasions);
    if m :| m in c.made && Recorded(m) {
      assert m.verdict != Again;
    }
    if Over(c) {
      OverIsFinal(start, id, occasions, more);
    }
  }

  /** Exact condition. Within its chain a delivered event stays delivered, come what
      may, if and only if the chain is over; one delivered before the chain and still
      being tried can be stored failed. */
  lemma DeliveredStaysIff(start: map<int, EventRow>, id: int, occasions: seq<Occasion>)
    requires var c := RunTask(start, id, occasions); id in c.rows && c.rows[id].status == Delivered
    ensures Over(RunTask(start, id, occasions)) <==>
      forall more: seq<Occasion> ::
        var c := RunTask(start, id, occasions + more); id in c.rows ==> c.rows[id].status == Delivered
  {
    var c := RunTask(start, id, occasions);
    forall more: seq<Occasion> ensures Over(c) ==> RunTask(start, id, occasions + more) == c {
      DeliveredIsFinal(start, id, occasions, more);
    }
    if !Over(c) {
      var refusal := Occasion(Luck(true, true, true, Some(500), true), {c.rows[id].rule}, false);
      assert (occasions + [refusal])[..|occasions|] == occasions;
      assert RunTask(start, id, occasions + [refusal]) == Try(c, id, refusal);
    }
  }

  /** Within one chain a webhook takes an alert again only after an acceptance that
      was not stored. */
  lemma TakenTwiceMeansLostWrite(start: map<int, EventRow>, id: int, occasions: seq<Occasion>, i: nat, j: nat)
    requires var made := RunTask(start, id, occasions).made; i < j < |made| && Took(made[i]) && Took(made[j])
    ensures !RunTask(start, id, occasions).made[i].luck.writes
  {
    PostsAreBounded(start, id, occasions);
  }

  /** And it does: accepted once with the write lost, then rejected for good, the
      event ends up failed although the webhook took it. */
  lemma TakenYetFailed()
    ensures var lost := Occasion(Luck(true, true, true, Some(200), false), {7}, false);
            var rejected := Occasion(Luck(true, true, true, Some(400), true), {7}, false);
            var c := RunTask(map[1 := EventRow(7, Pending, None, false)], 1, [lost, rejected]);
      && |c.made| == 2 && Took(c.made[0]) && Over(c) && 1 in c.rows && c.rows[1].status == Failed
  {
    var lost := Occasion(Luck(true, true, true, Some(200), false), {7}, false);
    var rejected := Occasion(Luck(true, true, true, Some(400), true), {7}, false);
    var start := map[1 := EventRow(7, Pending, None, false)];
    assert [lost, rejected][..1] == [lost] && [lost][..0] == [];
    assert RunTask(start, 1, []) == Chain(start, []);
    assert RunTask(start, 1, [lost]) == Try(Chain(start, []), 1, lost);
    assert RunTask(start, 1, [lost, rejected]) == Try(RunTask(start, 1, [lost]), 1, rejected);
  }

  // ---------- the message ----------

  /** `alertIsPromotion`, which keeps its own copy of the tier order. */
  predicate AlertIsPromotion(previous: string, current: string) {
    var order := (t: string) =>
      if t == "elite" then 4 else if t == "high" then 3 else if t == "medium" then 2 else if t == "low" then 1 else -1;
    var p, c := order(previous), order(current);
    if p < 0 || c < 0 then false else c > p
  }

  lemma {:induction false} EventsAreChanges(run: seq<Computation>, rules: seq<Rule>, e: Event)
    requires e in History(run, rules).events
    ensures IsChange(e.previous, e.current)
  {
    if |run| != 0 {
      hide IsChange, Announced, PreviousTier;
      var front, c := run[..|run| - 1], run[|run| - 1];
      HistoryStep(run, rules);
      if e in History(front, rules).events {
        EventsAreChanges(front, rules, e);
      } else {
        AnnouncedAreChanges(rules, c, PreviousTier(History(front, rules).windows, c.project.id, c.windowDays), e);
      }
    }
  }

  /** The generic message says "regressed" for every event that is not a promotion,
      and for every event ever stored that is what happened. */
  lemma WordingMatchesTransition(run: seq<Computation>, rules: seq<Rule>, e: Event)
    requires e in History(run, rules).events
    ensures IsRegression(e.previous, e.current) <==> !AlertIsPromotion(e.previous, e.current)
  {
    hide IsChange, IsRegression, AlertIsPromotion, History;
    EventsAreChanges(run, rules, e);
    ChangesRiseOrFall(e.previous, e.current);
  }

  lemma ChangesRiseOrFall(previous: string, current: string)
    requires IsChange(previous, current)
    ensures IsRegression(previous, current) <==> !AlertIsPromotion(previous, current)
  {}

  /** Where a rule's webhook goes, by the host of its URL. */
  datatype Destination = Generic | PagerDuty | Opsgenie

  /** Whether the message tells of a regression: by its verb, by triggering rather
      than resolving an incident, or, for Opsgenie, always. */
  predicate TellsRegression(to: Destination, previous: string, current: string) {
    match to
    case Generic => !AlertIsPromotion(previous, current)
    case PagerDuty => !AlertIsPromotion(previous, current)
    case Opsgenie => true
  }

  /** Exact condition. For every event ever stored the message tells what happened
      if and only if the tier fell or the destination is not Opsgenie. */
  lemma MessageIsRightIff(run: seq<Computation>, rules: seq<Rule>, e: Event, to: Destination)
    requires e in History(run, rules).events
    ensures (TellsRegression(to, e.previous, e.current) <==> IsRegression(e.previous, e.current))
            <==> IsRegression(e.previous, e.current) || to != Opsgenie
  {
    hide IsRegression, AlertIsPromotion, History;
    WordingMatchesTransition(run, rules, e);
  }

  /** A promotion told as a regression. */
  lemma OpsgeniePromotionIsMistold()
    ensures AlertIsPromotion("low", "elite") && TellsRegression(Opsgenie, "low", "elite")
  {}
}
