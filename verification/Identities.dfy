/** Suggesting identity merges (backend/internal/identities/automatch.go). Trimming
    and lower-casing are one parameter, `norm`. */
module Identities {
  import opened Wrappers

  /** A uuid as printed: always 36 characters. */
  type Uuid = s: string | |s| == 36 witness seq(36, _ => '0')

  datatype Identity = Identity(id: Uuid, kind: string, username: string, email: string)

  datatype Suggestion = Suggestion(a: Identity, b: Identity, reason: string, score: real)

  const EMAIL := "email_exact"
  const USERNAME := "username_exact"

  predicate SameEmail(norm: string -> string, a: Identity, b: Identity) {
    norm(a.email) != "" && norm(a.email) == norm(b.email)
  }

  predicate SameUsername(norm: string -> string, a: Identity, b: Identity) {
    norm(a.username) != "" && norm(a.username) == norm(b.username)
  }

  /** `score`: the email decides before the username is looked at. */
  function Score(norm: string -> string, a: Identity, b: Identity): (s: Option<Suggestion>)
    ensures s.Some? ==> s.value.a == a && s.value.b == b
  {
    if SameEmail(norm, a, b) then Some(Suggestion(a, b, EMAIL, 1.0))
    else if SameUsername(norm, a, b) then Some(Suggestion(a, b, USERNAME, 0.7))
    else None
  }

  // ---------- pair keys ----------

  /** Go's `<` on strings. */
  predicate Less(a: string, b: string) {
    if |b| == 0 then false
    else if |a| == 0 then true
    else a[0] < b[0] || (a[0] == b[0] && Less(a[1..], b[1..]))
  }

  function PairKey(a: Uuid, b: Uuid): string {
    if Less(a, b) then a + "|" + b else b + "|" + a
  }

  lemma {:induction false} LessIsTotal(a: string, b: string)
    ensures a == b || (Less(a, b) <==> !Less(b, a))
    ensures a == b ==> !Less(a, b)
  {
    if |a| > 0 && |b| > 0 {
      LessIsTotal(a[1..], b[1..]);
      assert a == [a[0]] + a[1..] && b == [b[0]] + b[1..];
    }
  }

  lemma KeyParts(x: Uuid, y: Uuid, u: Uuid, v: Uuid)
    requires x + "|" + y == u + "|" + v
    ensures x == u && y == v
  {
    assert (x + "|" + y)[..36] == x && (x + "|" + y)[37..] == y;
    assert (u + "|" + v)[..36] == u && (u + "|" + v)[37..] == v;
  }

  /** Two keys are equal exactly when the unordered pairs are. */
  lemma PairKeyIff(a: Uuid, b: Uuid, c: Uuid, d: Uuid)
    ensures PairKey(a, b) == PairKey(c, d) <==> (a == c && b == d) || (a == d && b == c)
  {
    LessIsTotal(a, b);
    LessIsTotal(c, d);
    hide Less;
    if PairKey(a, b) == PairKey(c, d) {
      var (x, y) := if Less(a, b) then (a, b) else (b, a);
      var (u, v) := if Less(c, d) then (c, d) else (d, c);
      KeyParts(x, y, u, v);
    }
  }

  // ---------- what the loops collect ----------

  function OfKind(ids: seq<Identity>, kind: string): (r: seq<Identity>)
    ensures forall x :: x in r <==> x in ids && x.kind == kind
  {
    if |ids| == 0 then []
    else
      var k := |ids| - 1;
      assert forall x :: x in ids <==> x in ids[..k] || x == ids[k];
      OfKind(ids[..k], kind) + if ids[k].kind == kind then [ids[k]] else []
  }

  function MatchesOf(norm: string -> string, g: Identity, jira: seq<Identity>): seq<Suggestion> {
    if |jira| == 0 then []
    else
      var k := |jira| - 1;
      var s := Score(norm, g, jira[k]);
      MatchesOf(norm, g, jira[..k]) + if s.Some? then [s.value] else []
  }

  /** Every matching pair, in nested-loop order. */
  function Candidates(norm: string -> string, gitlab: seq<Identity>, jira: seq<Identity>): seq<Suggestion> {
    if |gitlab| == 0 then []
    else
      var k := |gitlab| - 1;
      Candidates(norm, gitlab[..k], jira) + MatchesOf(norm, gitlab[k], jira)
  }

  function KeyOf(s: Suggestion): string { PairKey(s.a.id, s.b.id) }

  function KeysOf(s: seq<Suggestion>): set<string> { set i | 0 <= i < |s| :: KeyOf(s[i]) }

  /** The first suggestion for each pair of ids. */
  function FirstOfEach(s: seq<Suggestion>): seq<Suggestion> {
    if |s| == 0 then []
    else
      var rest, last := FirstOfEach(s[..|s| - 1]), s[|s| - 1];
      if KeyOf(last) in KeysOf(rest) then rest else rest + [last]
  }

  /** The library's stable sort by falling score. */
  function InsertByScore(s: seq<Suggestion>, x: Suggestion): seq<Suggestion> {
    if |s| == 0 then [x]
    else if x.score > s[|s| - 1].score then InsertByScore(s[..|s| - 1], x) + [s[|s| - 1]]
    else s + [x]
  }

  function StableByScore(s: seq<Suggestion>): seq<Suggestion> {
    if |s| == 0 then [] else InsertByScore(StableByScore(s[..|s| - 1]), s[|s| - 1])
  }

  /** What `Match` returns. */
  function Suggestions(norm: string -> string, identities: seq<Identity>): seq<Suggestion> {
    StableByScore(FirstOfEach(Candidates(norm, OfKind(identities, "gitlab"), OfKind(identities, "jira"))))
  }

  lemma FirstOfEachStep(s: seq<Suggestion>, x: Suggestion)
    ensures FirstOfEach(s + [x])
         == if KeyOf(x) in KeysOf(FirstOfEach(s)) then FirstOfEach(s) else FirstOfEach(s) + [x]
    ensures KeysOf(FirstOfEach(s) + [x]) == KeysOf(FirstOfEach(s)) + {KeyOf(x)}
  {
    assert (s + [x])[..|s|] == s;
    var t := FirstOfEach(s);
    assert (t + [x])[|t|] == x;
    assert forall i :: 0 <= i < |t| ==> (t + [x])[i] == t[i];
  }

  /** `Match`. */
  method Match(norm: string -> string, identities: seq<Identity>) returns (out: seq<Suggestion>)
    ensures out == Suggestions(norm, identities)
  {
    var gitlab: seq<Identity>, jira: seq<Identity> := [], [];
    for i := 0 to |identities|
      invariant gitlab == OfKind(identities[..i], "gitlab") && jira == OfKind(identities[..i], "jira")
    {
      assert identities[..i + 1][..i] == identities[..i];
      if identities[i].kind == "gitlab" {
        gitlab := gitlab + [identities[i]];
      } else if identities[i].kind == "jira" {
        jira := jira + [identities[i]];
      }
    }
    assert identities[..|identities|] == identities;
    out := Collect(norm, gitlab, jira);
    out := StableByScore(out);
  }

  /** The nested loops with the seen set. */
  method Collect(norm: string -> string, gitlab: seq<Identity>, jira: seq<Identity>) returns (out: seq<Suggestion>)
    ensures out == FirstOfEach(Candidates(norm, gitlab, jira))
  {
    hide FirstOfEach, KeyOf, KeysOf, Score;
    out := [];
    var seen: set<string> := {};
    NothingSeen();
    for i := 0 to |gitlab|
      invariant out == FirstOfEach(Candidates(norm, gitlab[..i], jira)) && seen == KeysOf(out)
    {
      var g := gitlab[i];
      ghost var before := Candidates(norm, gitlab[..i], jira);
      assert before + MatchesOf(norm, g, jira[..0]) == before;
      for k := 0 to |jira|
        invariant out == FirstOfEach(before + MatchesOf(norm, g, jira[..k])) && seen == KeysOf(out)
      {
        assert jira[..k + 1][..k] == jira[..k];
        var s := Score(norm, g, jira[k]);
        if s.None? {
          assert MatchesOf(norm, g, jira[..k + 1]) == MatchesOf(norm, g, jira[..k]);
        } else {
          ghost var so := before + MatchesOf(norm, g, jira[..k]);
          assert before + MatchesOf(norm, g, jira[..k + 1]) == so + [s.value];
          FirstOfEachStep(so, s.value);
          var key := PairKey(g.id, jira[k].id);
          assert key == KeyOf(s.value) by { KeyIsPairKey(s.value); }
          if key !in seen {
            seen := seen + {key};
            out := out + [s.value];
          }
        }
      }
      assert jira[..|jira|] == jira;
      assert gitlab[..i + 1][..i] == gitlab[..i];
    }
    assert gitlab[..|gitlab|] == gitlab;
  }

  lemma NothingSeen()
    ensures FirstOfEach([]) == [] && KeysOf([]) == {}
  {}

  lemma KeyIsPairKey(s: Suggestion)
    ensures KeyOf(s) == PairKey(s.a.id, s.b.id)
  {}

  // ---------- what Match returns ----------

  function WithReason(s: seq<Suggestion>, reason: string): seq<Suggestion> {
    if |s| == 0 then []
    else WithReason(s[..|s| - 1], reason) + if s[|s| - 1].reason == reason then [s[|s| - 1]] else []
  }

  predicate Scored(s: Suggestion) {
    (s.reason == EMAIL && s.score == 1.0) || (s.reason == USERNAME && s.score == 0.7)
  }

  predicate AllScored(s: seq<Suggestion>) { forall i :: 0 <= i < |s| ==> Scored(s[i]) }

  /** Inserting behind equals keeps emails before usernames and both in order. */
  lemma {:induction false} InsertEmail(emails: seq<Suggestion>, usernames: seq<Suggestion>, x: Suggestion)
    requires forall i :: 0 <= i < |emails| ==> emails[i].score == 1.0
    requires forall i :: 0 <= i < |usernames| ==> usernames[i].score == 0.7
    requires x.score == 1.0
    ensures InsertByScore(emails + usernames, x) == emails + [x] + usernames
  {
    if |usernames| == 0 {
      assert emails + usernames == emails;
      assert emails + [x] + usernames == emails + [x];
    } else {
      var k := |usernames| - 1;
      var all := emails + usernames;
      assert all[..|all| - 1] == emails + usernames[..k] && all[|all| - 1] == usernames[k];
      InsertEmail(emails, usernames[..k], x);
      assert emails + [x] + usernames[..k] + [usernames[k]] == emails + [x] + usernames;
    }
  }

  lemma {:induction false} ReasonsAreScored(s: seq<Suggestion>)
    requires AllScored(s)
    ensures forall i :: 0 <= i < |WithReason(s, EMAIL)| ==> WithReason(s, EMAIL)[i].score == 1.0
    ensures forall i :: 0 <= i < |WithReason(s, USERNAME)| ==> WithReason(s, USERNAME)[i].score == 0.7
  {
    if |s| != 0 {
      ReasonsAreScored(s[..|s| - 1]);
    }
  }

  lemma {:induction false} SortIsPartition(s: seq<Suggestion>)
    requires AllScored(s)
    ensures StableByScore(s) == WithReason(s, EMAIL) + WithReason(s, USERNAME)
  {
    if |s| != 0 {
      var front, x := s[..|s| - 1], s[|s| - 1];
      var emails, usernames := WithReason(front, EMAIL), WithReason(front, USERNAME);
      SortIsPartition(front);
      ReasonsAreScored(front);
      assert Scored(x);
      if x.reason == EMAIL {
        InsertEmail(emails, usernames, x);
      } else {
        assert emails + usernames + [x] == emails + (usernames + [x]);
      }
    }
  }

  lemma {:induction false} RowMembers(norm: string -> string, g: Identity, jira: seq<Identity>, s: Suggestion)
    ensures s in MatchesOf(norm, g, jira) <==> s.a == g && s.b in jira && Score(norm, g, s.b) == Some(s)
  {
    if |jira| != 0 {
      var k := |jira| - 1;
      RowMembers(norm, g, jira[..k], s);
      assert s.b in jira <==> s.b in jira[..k] || s.b == jira[k];
    }
  }

  lemma {:induction false} CandidateMembers(
      norm: string -> string, gitlab: seq<Identity>, jira: seq<Identity>, s: Suggestion)
    ensures s in Candidates(norm, gitlab, jira) <==> s.a in gitlab && s.b in jira && Score(norm, s.a, s.b) == Some(s)
  {
    if |gitlab| != 0 {
      var k := |gitlab| - 1;
      CandidateMembers(norm, gitlab[..k], jira, s);
      RowMembers(norm, gitlab[k], jira, s);
      assert s.a in gitlab <==> s.a in gitlab[..k] || s.a == gitlab[k];
    }
  }

  // ---------- no pair twice ----------

  ghost predicate DistinctKeys(s: seq<Suggestion>) {
    forall i, j :: 0 <= i < j < |s| ==> KeyOf(s[i]) != KeyOf(s[j])
  }

  lemma KeysOfAppended(s: seq<Suggestion>, x: Suggestion)
    ensures KeysOf(s + [x]) == KeysOf(s) + {KeyOf(x)}
  {
    hide KeyOf;
    assert (s + [x])[|s|] == x;
    assert forall i :: 0 <= i < |s| ==> (s + [x])[i] == s[i];
  }

  lemma {:induction false} FirstOfEachIsDistinct(s: seq<Suggestion>)
    ensures DistinctKeys(FirstOfEach(s)) && KeysOf(FirstOfEach(s)) == KeysOf(s)
    ensures forall x :: x in FirstOfEach(s) ==> x in s
  {
    if |s| != 0 {
      hide KeyOf, KeysOf;
      var front, x := s[..|s| - 1], s[|s| - 1];
      FirstOfEachIsDistinct(front);
      assert s == front + [x];
      KeysOfAppended(front, x);
      KeysOfAppended(FirstOfEach(front), x);
      NewKeyIsDistinct(FirstOfEach(front), x);
    }
  }

  lemma NewKeyIsDistinct(s: seq<Suggestion>, x: Suggestion)
    requires DistinctKeys(s)
    ensures KeyOf(x) !in KeysOf(s) <==> DistinctKeys(s + [x])
  {
    hide KeyOf;
    var all := s + [x];
    assert forall i :: 0 <= i < |s| ==> all[i] == s[i];
    if DistinctKeys(all) {
      assert forall i :: 0 <= i < |s| ==> KeyOf(all[i]) != KeyOf(all[|s|]);
    }
  }

  lemma {:induction false} DistinctStay(s: seq<Suggestion>)
    requires DistinctKeys(s)
    ensures FirstOfEach(s) == s
  {
    if |s| != 0 {
      hide KeyOf, KeysOf;
      var front := s[..|s| - 1];
      DistinctStay(front);
      assert s == front + [s[|s| - 1]];
      NewKeyIsDistinct(front, s[|s| - 1]);
    }
  }

  lemma {:induction false} PartitionIsDistinct(s: seq<Suggestion>)
    requires DistinctKeys(s)
    ensures DistinctKeys(WithReason(s, EMAIL) + WithReason(s, USERNAME))
    ensures forall x :: x in WithReason(s, EMAIL) + WithReason(s, USERNAME) ==> x in s
  {
    if |s| != 0 {
      hide KeyOf;
      var front, x := s[..|s| - 1], s[|s| - 1];
      PartitionIsDistinct(front);
      var emails, usernames := WithReason(front, EMAIL), WithReason(front, USERNAME);
      var all := emails + usernames;
      forall y | y in all ensures KeyOf(y) != KeyOf(x) {
        var i :| 0 <= i < |front| && front[i] == y;
        assert s[i] == y && s[|s| - 1] == x;
      }
      if x.reason == EMAIL {
        assert WithReason(s, EMAIL) + WithReason(s, USERNAME) == emails + [x] + usernames;
        InsertedIsDistinct(emails, x, usernames);
      } else if x.reason == USERNAME {
        assert WithReason(s, EMAIL) + WithReason(s, USERNAME) == all + [x] + [];
        assert all + [] == all;
        InsertedIsDistinct(all, x, []);
      } else {
        assert WithReason(s, EMAIL) + WithReason(s, USERNAME) == all;
      }
      assert forall y :: y in front ==> y in s;
    }
  }

  lemma InsertedIsDistinct(a: seq<Suggestion>, x: Suggestion, b: seq<Suggestion>)
    requires DistinctKeys(a + b)
    requires forall y :: y in a + b ==> KeyOf(y) != KeyOf(x)
    ensures DistinctKeys(a + [x] + b)
    ensures forall y :: y in a + [x] + b <==> y in a + b || y == x
  {
    hide KeyOf;
    var all := a + b;
    var r := a + [x] + b;
    forall i, j | 0 <= i < j < |r| ensures KeyOf(r[i]) != KeyOf(r[j]) {
      var i', j' := if i <= |a| then i else i - 1, if j <= |a| then j else j - 1;
      assert i != |a| ==> r[i] == all[i'];
      assert j != |a| ==> r[j] == all[j'];
    }
  }

  lemma {:induction false} CandidatesAreScored(norm: string -> string, gitlab: seq<Identity>, jira: seq<Identity>)
    ensures AllScored(Candidates(norm, gitlab, jira))
  {
    var c := Candidates(norm, gitlab, jira);
    forall i | 0 <= i < |c| ensures Scored(c[i]) {
      assert c[i] in c;
      CandidateMembers(norm, gitlab, jira, c[i]);
    }
  }

  lemma FirstsAreScored(c: seq<Suggestion>)
    requires AllScored(c)
    ensures AllScored(FirstOfEach(c))
  {
    var firsts := FirstOfEach(c);
    FirstOfEachIsDistinct(c);
    forall i | 0 <= i < |firsts| ensures Scored(firsts[i]) {
      assert firsts[i] in c;
    }
  }

  /** For any input at all no unordered pair of ids is suggested twice. */
  lemma NoPairTwice(norm: string -> string, identities: seq<Identity>)
    ensures DistinctKeys(Suggestions(norm, identities))
  {
    hide DistinctKeys, AllScored, FirstOfEach, StableByScore, Candidates, OfKind;
    var gitlab, jira := OfKind(identities, "gitlab"), OfKind(identities, "jira");
    var c := Candidates(norm, gitlab, jira);
    CandidatesAreScored(norm, gitlab, jira);
    FirstsAreScored(c);
    FirstOfEachIsDistinct(c);
    SortIsPartition(FirstOfEach(c));
    PartitionIsDistinct(FirstOfEach(c));
  }

  ghost predicate DistinctIds(ids: seq<Identity>) {
    forall i, j :: 0 <= i < j < |ids| ==> ids[i].id != ids[j].id
  }

  lemma {:induction false} OfKindKeepsDistinct(ids: seq<Identity>, kind: string)
    requires DistinctIds(ids)
    ensures DistinctIds(OfKind(ids, kind))
  {
    if |ids| != 0 {
      var k := |ids| - 1;
      OfKindKeepsDistinct(ids[..k], kind);
      assert forall x :: x in ids[..k] ==> x.id != ids[k].id;
    }
  }

  lemma {:induction false} RowIsDistinct(norm: string -> string, g: Identity, jira: seq<Identity>)
    requires DistinctIds(jira) && forall x :: x in jira ==> x.id != g.id
    ensures DistinctKeys(MatchesOf(norm, g, jira))
  {
    if |jira| != 0 {
      hide PairKey, Score;
      var k := |jira| - 1;
      RowIsDistinct(norm, g, jira[..k]);
      var front := MatchesOf(norm, g, jira[..k]);
      forall s | s in front ensures KeyOf(s) != PairKey(g.id, jira[k].id) {
        RowMembers(norm, g, jira[..k], s);
        PairKeyIff(s.a.id, s.b.id, g.id, jira[k].id);
      }
    }
  }

  lemma {:induction false} CandidatesAreDistinct(norm: string -> string, gitlab: seq<Identity>, jira: seq<Identity>)
    requires DistinctIds(gitlab) && DistinctIds(jira)
    requires forall x, y :: x in gitlab && y in jira ==> x.id != y.id
    ensures DistinctKeys(Candidates(norm, gitlab, jira))
  {
    if |gitlab| != 0 {
      hide PairKey, Score;
      var k := |gitlab| - 1;
      CandidatesAreDistinct(norm, gitlab[..k], jira);
      RowIsDistinct(norm, gitlab[k], jira);
      var front, row := Candidates(norm, gitlab[..k], jira), MatchesOf(norm, gitlab[k], jira);
      forall s, t | s in front && t in row ensures KeyOf(s) != KeyOf(t) {
        CandidateMembers(norm, gitlab[..k], jira, s);
        RowMembers(norm, gitlab[k], jira, t);
        PairKeyIff(s.a.id, s.b.id, t.a.id, t.b.id);
      }
    }
  }

  lemma SideBySide(ids: seq<Identity>)
    requires DistinctIds(ids)
    ensures forall x, y :: x in OfKind(ids, "gitlab") && y in OfKind(ids, "jira") ==> x.id != y.id
  {
    forall x, y | x in OfKind(ids, "gitlab") && y in OfKind(ids, "jira") ensures x.id != y.id {
      var i :| 0 <= i < |ids| && ids[i] == x;
      var j :| 0 <= j < |ids| && ids[j] == y;
      assert i < j || j < i;
    }
  }

  /** Main result. With distinct ids the suggestions are the email matches in
      nested-loop order followed by the username-only matches in nested-loop order. */
  lemma EmailsThenUsernames(norm: string -> string, identities: seq<Identity>)
    requires DistinctIds(identities)
    ensures var c := Candidates(norm, OfKind(identities, "gitlab"), OfKind(identities, "jira"));
            Suggestions(norm, identities) == WithReason(c, EMAIL) + WithReason(c, USERNAME)
  {
    hide DistinctKeys, AllScored, FirstOfEach, StableByScore, Candidates, DistinctIds, WithReason;
    var gitlab, jira := OfKind(identities, "gitlab"), OfKind(identities, "jira");
    OfKindKeepsDistinct(identities, "gitlab");
    OfKindKeepsDistinct(identities, "jira");
    SideBySide(identities);
    CandidatesAreDistinct(norm, gitlab, jira);
    var c := Candidates(norm, gitlab, jira);
    DistinctStay(c);
    CandidatesAreScored(norm, gitlab, jira);
    SortIsPartition(c);
  }

  lemma {:induction false} PartitionMembers(s: seq<Suggestion>, x: Suggestion)
    requires AllScored(s)
    ensures x in WithReason(s, EMAIL) + WithReason(s, USERNAME) <==> x in s
  {
    if |s| != 0 {
      var front, last := s[..|s| - 1], s[|s| - 1];
      PartitionMembers(front, x);
      assert Scored(last);
      assert x in s <==> x in front || x == last;
    }
  }

  /** And each matching gitlab-jira pair is suggested exactly once, for its email if
      the emails match and for its username otherwise. */
  lemma EachMatchExactlyOnce(norm: string -> string, identities: seq<Identity>, s: Suggestion)
    requires DistinctIds(identities)
    ensures DistinctKeys(Suggestions(norm, identities))
    ensures s in Suggestions(norm, identities) <==>
      && s.a in identities && s.a.kind == "gitlab" && s.b in identities && s.b.kind == "jira"
      && (|| (SameEmail(norm, s.a, s.b) && s.reason == EMAIL && s.score == 1.0)
          || (!SameEmail(norm, s.a, s.b) && SameUsername(norm, s.a, s.b) && s.reason == USERNAME && s.score == 0.7))
  {
    hide Candidates, WithReason, StableByScore, FirstOfEach, DistinctKeys, DistinctIds, AllScored;
    hide SameEmail, SameUsername;
    var gitlab, jira := OfKind(identities, "gitlab"), OfKind(identities, "jira");
    NoPairTwice(norm, identities);
    EmailsThenUsernames(norm, identities);
    CandidatesAreScored(norm, gitlab, jira);
    PartitionMembers(Candidates(norm, gitlab, jira), s);
    CandidateMembers(norm, gitlab, jira, s);
  }

  /** In plain terms: a gitlab and a jira identity are suggested exactly when their
      normalised emails are the same and not blank, and then with score 1.0, or else
      their normalised usernames are, and then with 0.7. */
  lemma SuggestedIff(
      norm: string -> string, identities: seq<Identity>, a: Identity, b: Identity, why: string, score: real)
    requires DistinctIds(identities) && a in identities && b in identities && a.kind == "gitlab" && b.kind == "jira"
    ensures var emails := norm(a.email) != "" && norm(a.email) == norm(b.email);
            var usernames := norm(a.username) != "" && norm(a.username) == norm(b.username);
      Suggestion(a, b, why, score) in Suggestions(norm, identities)
      <==> || (emails && why == "email_exact" && score == 1.0)
           || (!emails && usernames && why == "username_exact" && score == 0.7)
  {
    hide Suggestions, DistinctIds, DistinctKeys;
    EachMatchExactlyOnce(norm, identities, Suggestion(a, b, why, score));
  }
}
