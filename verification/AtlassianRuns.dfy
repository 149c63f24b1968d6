/** The connection service over any sequence of requests. */
module AtlassianRuns {
  import opened Wrappers
  import opened Envelope
  import opened Atlassian

  function After(v: Vault, calls: seq<Call>): World {
    if |calls| == 0 then World(map[], map[])
    else Serve(v, After(v, calls[..|calls| - 1]), calls[|calls| - 1]).0
  }

  function ReplyTo(v: Vault, calls: seq<Call>): Reply
    requires |calls| > 0
  {
    Serve(v, After(v, calls[..|calls| - 1]), calls[|calls| - 1]).1
  }

  // ---------- connect states ----------

  /** How often a state was handed out. */
  function Issued(v: Vault, calls: seq<Call>, state: string): nat {
    if |calls| == 0 then 0
    else Issued(v, calls[..|calls| - 1], state) + if ReplyTo(v, calls) == Started(state) then 1 else 0
  }

  /** How often a callback got past the state lookup. */
  function Consumed(v: Vault, calls: seq<Call>, state: string): nat {
    if |calls| == 0 then 0
    else
      var last := calls[|calls| - 1];
      Consumed(v, calls[..|calls| - 1], state)
      + if last.Complete? && last.state == state && ReplyTo(v, calls) != Failed(StateUnknown) then 1 else 0
  }

  /** Main result. States are conserved: each one handed out is consumed once or
      still stored, whatever else happens and whether or not it had expired. */
  lemma {:induction false} StatesAreConserved(v: Vault, calls: seq<Call>, state: string)
    ensures Issued(v, calls, state) == Consumed(v, calls, state) + if state in After(v, calls).states then 1 else 0
  {
    if |calls| != 0 {
      var front, last := calls[..|calls| - 1], calls[|calls| - 1];
      StatesAreConserved(v, front, state);
      ServeStates(v, After(v, front), last, state);
      hide Serve;
    }
  }

  lemma ServeStates(v: Vault, w: World, call: Call, state: string)
    ensures var (after, reply) := Serve(v, w, call);
      && (reply == Started(state) ==> !call.Complete? && state !in w.states && state in after.states)
      && (call.Complete? && call.state == state && reply != Failed(StateUnknown) ==>
            state in w.states && state !in after.states)
      && (reply != Started(state) && !(call.Complete? && call.state == state && reply != Failed(StateUnknown)) ==>
            (state in after.states <==> state in w.states))
  {
    hide Joined, Refreshed, Due, Usable;
  }

  /** So a state issued once is consumed at most once. */
  lemma StateIsConsumedOnce(v: Vault, calls: seq<Call>, state: string)
    requires Issued(v, calls, state) <= 1
    ensures Consumed(v, calls, state) <= 1
    ensures state in After(v, calls).states ==> Consumed(v, calls, state) == 0
  {
    StatesAreConserved(v, calls, state);
  }

  // ---------- encryption is transparent ----------

  /** Storage without a cipher. */
  function Plain(): Vault { Vault((nonce, text) => text, enc => Text(enc)) }

  ghost predicate Sized(p: Primitives, calls: seq<Call>) {
    forall i :: 0 <= i < |calls| && (calls[i].Complete? || calls[i].Access?) ==>
      |calls[i].nonce1| == p.nonceSize && |calls[i].nonce2| == p.nonceSize
  }

  /** The same connection, its two tokens deciphered. */
  ghost predicate Deciphers(p: Primitives, c: Connection, plain: Connection) {
    && Decrypt(p, c.accessEnc) == Text(plain.accessEnc)
    && Decrypt(p, c.refreshEnc) == Text(plain.refreshEnc)
    && c.(accessEnc := "", refreshEnc := "") == plain.(accessEnc := "", refreshEnc := "")
  }

  ghost predicate Represents(p: Primitives, w: World, plain: World) {
    && w.states == plain.states
    && w.connections.Keys == plain.connections.Keys
    && forall t :: t in w.connections ==> Deciphers(p, w.connections[t], plain.connections[t])
  }

  lemma JoinedDeciphers(p: Primitives, call: Call, t: TokenSet)
    requires Lawful(p) && call.Complete? && |call.nonce1| == p.nonceSize && |call.nonce2| == p.nonceSize
    ensures Deciphers(p, Joined(Ciphered(p), call, t), Joined(Plain(), call, t))
  {
    RoundTrip(p, call.nonce1, t.access);
    RoundTrip(p, call.nonce2, t.refresh);
    hide Decrypt, Encrypt, Lawful;
  }

  lemma RefreshedDeciphers(p: Primitives, c: Connection, plain: Connection, call: Call, t: TokenSet)
    requires Lawful(p) && call.Access? && |call.nonce1| == p.nonceSize && |call.nonce2| == p.nonceSize
    requires Deciphers(p, c, plain)
    ensures Deciphers(p, Refreshed(Ciphered(p), c, call, t), Refreshed(Plain(), plain, call, t))
  {
    RoundTrip(p, call.nonce1, t.access);
    RoundTrip(p, call.nonce2, t.refresh);
    hide Decrypt, Encrypt, Lawful;
  }

  lemma ServeIsTransparent(p: Primitives, w: World, plain: World, call: Call)
    requires Lawful(p) && Represents(p, w, plain)
    requires call.Complete? || call.Access? ==> |call.nonce1| == p.nonceSize && |call.nonce2| == p.nonceSize
    ensures Serve(Ciphered(p), w, call).1 == Serve(Plain(), plain, call).1
    ensures Represents(p, Serve(Ciphered(p), w, call).0, Serve(Plain(), plain, call).0)
  {
    hide Lawful, Decrypt, Encrypt, Joined, Refreshed;
    if call.Complete? && call.answer.Some? {
      JoinedDeciphers(p, call, call.answer.value);
    } else if call.Access? && call.tenant in w.connections && call.answer.Some? {
      RefreshedDeciphers(p, w.connections[call.tenant], plain.connections[call.tenant], call, call.answer.value);
    }
  }

  /** Main result. Over any run the service that stores ciphertexts answers exactly
      like one that stores the tokens themselves, and its tables decipher to that
      one's tables; in particular it never meets a ciphertext it cannot read. */
  lemma {:induction false} EncryptionIsTransparent(p: Primitives, calls: seq<Call>)
    requires Lawful(p) && Sized(p, calls)
    ensures Represents(p, After(Ciphered(p), calls), After(Plain(), calls))
    ensures |calls| > 0 ==> ReplyTo(Ciphered(p), calls) == ReplyTo(Plain(), calls) != Failed(Unreadable)
  {
    if |calls| != 0 {
      hide Lawful, Represents;
      var front, last := calls[..|calls| - 1], calls[|calls| - 1];
      EncryptionIsTransparent(p, front);
      ServeIsTransparent(p, After(Ciphered(p), front), After(Plain(), front), last);
      PlainIsReadable(After(Plain(), front), last);
      hide Serve;
    }
  }

  lemma PlainIsReadable(w: World, call: Call)
    ensures Serve(Plain(), w, call).1 != Failed(Unreadable)
  {}

  // ---------- what Atlassian answered and what is stored ----------

  /** A usable token set Atlassian answered for a tenant: to a connect callback or to
      a refresh, whether the table then took it, and when. */
  datatype Answer = Answer(tokens: TokenSet, connects: bool, saved: bool, storedAt: int)

  /** The answer a call gets for a tenant, stored or lost: a callback is answered on
      an unexpired state, a token request when a refresh is due and a refresh token
      can be read. */
  function AnswerTo(v: Vault, w: World, call: Call, tenant: int): Option<Answer> {
    match call
    case Complete(_, _, _, _, _, _, _, _, _, _) =>
      if && call.state in w.states && w.states[call.state].tenant == tenant
         && call.checkedAt <= w.states[call.state].expires && Usable(call.answer).Some?
      then Some(Answer(call.answer.value, true, call.saved, call.storedAt)) else None
    case Access(_, _, _, _, _, _, _, _) =>
      if && call.tenant == tenant && tenant in w.connections && Due(w.connections[tenant], call.checkedAt)
         && v.unlock(w.connections[tenant].refreshEnc).Text? && v.unlock(w.connections[tenant].refreshEnc) != Text("")
         && Usable(call.answer).Some?
      then Some(Answer(call.answer.value, false, call.saved, call.storedAt)) else None
    case Start(_, _, _, _, _) => None
    case Disconnect(_, _) => None
  }

  /** The answers for a tenant since it last disconnected, oldest first. */
  function Answers(v: Vault, calls: seq<Call>, tenant: int): seq<Answer> {
    if |calls| == 0 then []
    else
      var front, last := calls[..|calls| - 1], calls[|calls| - 1];
      var answer := AnswerTo(v, After(v, front), last, tenant);
      if last == Disconnect(tenant, true) then []
      else Answers(v, front, tenant) + if answer.Some? then [answer.value] else []
  }

  /** Those the table took. */
  function SavedOnly(answers: seq<Answer>): (saved: seq<Answer>)
    ensures forall a :: a in saved ==> a.saved && a in answers
  {
    if |answers| == 0 then []
    else
      var k := |answers| - 1;
      SavedOnly(answers[..k]) + if answers[k].saved then [answers[k]] else []
  }

  function NewestAccess(answers: seq<Answer>): string {
    if |answers| == 0 then "" else answers[|answers| - 1].tokens.access
  }

  /** The newest refresh token that is not empty since the last stored connect. */
  function NewestRefresh(answers: seq<Answer>): string {
    if |answers| == 0 then ""
    else
      var last := answers[|answers| - 1];
      if last.tokens.refresh != "" then last.tokens.refresh
      else if last.connects && last.saved then ""
      else NewestRefresh(answers[..|answers| - 1])
  }

  /** The stored tokens, deciphered, are the newest of the saved answers, and expire
      when the newest does by the lifetime it was answered with. */
  ghost predicate InForce(c: Connection, answers: seq<Answer>) {
    var saved := SavedOnly(answers);
    && |saved| > 0
    && c.accessEnc == NewestAccess(saved)
    && c.refreshEnc == NewestRefresh(saved)
    && c.expires == saved[|saved| - 1].storedAt + saved[|saved| - 1].tokens.expiresIn * 1_000_000_000
  }

  lemma SavedOnlyStep(answers: seq<Answer>, a: Answer)
    ensures SavedOnly(answers + [a]) == if a.saved then SavedOnly(answers) + [a] else SavedOnly(answers)
  {
    assert (answers + [a])[..|answers|] == answers;
  }

  lemma RefreshedInForce(c: Connection, answers: seq<Answer>, call: Call, t: TokenSet)
    requires call.Access? && InForce(c, answers)
    ensures InForce(Refreshed(Plain(), c, call, t), answers + [Answer(t, false, true, call.storedAt)])
  {
    var answer := Answer(t, false, true, call.storedAt);
    SavedOnlyStep(answers, answer);
    var saved := SavedOnly(answers);
    assert (saved + [answer])[..|saved|] == saved;
  }

  lemma JoinedInForce(answers: seq<Answer>, call: Call, t: TokenSet)
    requires call.Complete?
    ensures InForce(Joined(Plain(), call, t), answers + [Answer(t, true, true, call.storedAt)])
  {
    var answer := Answer(t, true, true, call.storedAt);
    SavedOnlyStep(answers, answer);
    var saved := SavedOnly(answers) + [answer];
    assert saved[|saved| - 1] == answer;
  }

  lemma StaysInForce(c: Connection, c': Connection, answers: seq<Answer>, a: Answer)
    requires InForce(c, answers) && c'.(lastRefreshError := None) == c.(lastRefreshError := None)
    ensures InForce(c', answers) && (!a.saved ==> InForce(c', answers + [a]))
  {
    SavedOnlyStep(answers, a);
  }

  /** What one call does to a tenant's connection. */
  lemma PlainServe(w: World, call: Call, tenant: int, answers: seq<Answer>)
    requires tenant in w.connections <==> |SavedOnly(answers)| > 0
    requires tenant in w.connections ==> InForce(w.connections[tenant], answers)
    ensures var after, answer := Serve(Plain(), w, call).0, AnswerTo(Plain(), w, call, tenant);
            var answers' := if call == Disconnect(tenant, true) then []
                            else answers + if answer.Some? then [answer.value] else [];
      && (tenant in after.connections <==> |SavedOnly(answers')| > 0)
      && (tenant in after.connections ==> InForce(after.connections[tenant], answers'))
  {
    hide InForce, Joined, Refreshed, Due, SavedOnly;
    var after, answer := Serve(Plain(), w, call).0, AnswerTo(Plain(), w, call, tenant);
    NothingSaved();
    assert answers + [] == answers;
    if answer.Some? {
      SavedOnlyStep(answers, answer.value);
      if answer.value.saved {
        if call.Complete? {
          JoinedInForce(answers, call, call.answer.value);
        } else {
          RefreshedInForce(w.connections[tenant], answers, call, call.answer.value);
        }
      } else if tenant in w.connections {
        StaysInForce(w.connections[tenant], after.connections[tenant], answers, answer.value);
      }
    } else if tenant in w.connections && tenant in after.connections {
      var none := Answer(TokenSet("", "", 0, ""), false, false, 0);
      StaysInForce(w.connections[tenant], after.connections[tenant], answers, none);
    }
  }

  lemma NothingSaved()
    ensures SavedOnly([]) == []
  {}

  lemma {:induction false} PlainTokensInForce(calls: seq<Call>, tenant: int)
    ensures tenant in After(Plain(), calls).connections <==> |SavedOnly(Answers(Plain(), calls, tenant))| > 0
    ensures tenant in After(Plain(), calls).connections ==>
              InForce(After(Plain(), calls).connections[tenant], Answers(Plain(), calls, tenant))
  {
    if |calls| != 0 {
      hide InForce, SavedOnly, Serve, AnswerTo;
      var front := calls[..|calls| - 1];
      PlainTokensInForce(front, tenant);
      PlainServe(After(Plain(), front), calls[|calls| - 1], tenant, Answers(Plain(), front, tenant));
    }
  }

  lemma {:induction false} AnswersAreTransparent(p: Primitives, calls: seq<Call>, tenant: int)
    requires Lawful(p) && Sized(p, calls)
    ensures Answers(Ciphered(p), calls, tenant) == Answers(Plain(), calls, tenant)
  {
    if |calls| != 0 {
      hide Lawful, Decrypt, Serve;
      AnswersAreTransparent(p, calls[..|calls| - 1], tenant);
      EncryptionIsTransparent(p, calls[..|calls| - 1]);
    }
  }

  /** Main result. At every point of every run a tenant is connected exactly when
      some answer since its last disconnect was saved; its stored ciphertexts decrypt
      to the newest access token and the newest non-empty refresh token saved. */
  lemma StoredTokensAreTheLatest(p: Primitives, calls: seq<Call>, tenant: int)
    requires Lawful(p) && Sized(p, calls)
    ensures var connections := After(Ciphered(p), calls).connections;
            var saved := SavedOnly(Answers(Ciphered(p), calls, tenant));
      && (tenant in connections <==> |saved| > 0)
      && (|saved| > 0 ==>
            && Decrypt(p, connections[tenant].refreshEnc) == Text(NewestRefresh(saved))
            && Decrypt(p, connections[tenant].accessEnc) == Text(NewestAccess(saved)))
  {
    hide Lawful, Decrypt, Serve;
    AnswersAreTransparent(p, calls, tenant);
    EncryptionIsTransparent(p, calls);
    PlainTokensInForce(calls, tenant);
  }

  // ---------- when the write of an answer is lost ----------

  /** The newest answer was not saved. */
  predicate AccessLost(answers: seq<Answer>) {
    |answers| > 0 && !answers[|answers| - 1].saved
  }

  /** Some answer that carried a refresh token was not saved, and none saved since
      carried one or was a connect. */
  predicate RefreshLost(answers: seq<Answer>) {
    if |answers| == 0 then false
    else
      var last := answers[|answers| - 1];
      if last.tokens.refresh != "" then !last.saved
      else if last.connects && last.saved then false
      else RefreshLost(answers[..|answers| - 1])
  }

  /** Atlassian does not answer the same access token twice. */
  ghost predicate FreshAccess(answers: seq<Answer>) {
    forall i, j :: 0 <= i < j < |answers| ==> answers[i].tokens.access != answers[j].tokens.access
  }

  /** Nor the same refresh token. */
  ghost predicate FreshRefresh(answers: seq<Answer>) {
    forall i, j | 0 <= i < j < |answers| && answers[i].tokens.refresh != "" ::
      answers[i].tokens.refresh != answers[j].tokens.refresh
  }

  lemma NewestAccessIsSavedIff(answers: seq<Answer>)
    requires |SavedOnly(answers)| > 0
    ensures !AccessLost(answers) ==> NewestAccess(SavedOnly(answers)) == NewestAccess(answers)
    ensures AccessLost(answers) && FreshAccess(answers) ==> NewestAccess(SavedOnly(answers)) != NewestAccess(answers)
  {
    var saved := SavedOnly(answers);
    var newest := saved[|saved| - 1];
    assert newest in answers;
    var i :| 0 <= i < |answers| && answers[i] == newest;
    if AccessLost(answers) {
      assert i < |answers| - 1;
      assert FreshAccess(answers) ==> answers[i].tokens.access != answers[|answers| - 1].tokens.access;
    }
  }

  /** The newest refresh token comes from an answer, if there is one. */
  lemma {:induction false} NewestRefreshIsAnswered(answers: seq<Answer>)
    ensures NewestRefresh(answers) != "" ==> exists a :: a in answers && a.tokens.refresh == NewestRefresh(answers)
    ensures RefreshLost(answers) ==>
              exists a :: a in answers && !a.saved && a.tokens.refresh == NewestRefresh(answers) != ""
  {
    if |answers| != 0 {
      var front, last := answers[..|answers| - 1], answers[|answers| - 1];
      NewestRefreshIsAnswered(front);
      assert last in answers && forall a :: a in front ==> a in answers;
    }
  }

  lemma {:induction false} KeptRefresh(answers: seq<Answer>)
    ensures !RefreshLost(answers) ==> NewestRefresh(SavedOnly(answers)) == NewestRefresh(answers)
  {
    if |answers| != 0 {
      var front, last := answers[..|answers| - 1], answers[|answers| - 1];
      KeptRefresh(front);
      assert answers == front + [last];
      SavedOnlyStep(front, last);
      var saved := SavedOnly(front);
      assert (saved + [last])[..|saved|] == saved;
    }
  }

  lemma NewestRefreshIsSavedIff(answers: seq<Answer>)
    ensures !RefreshLost(answers) ==> NewestRefresh(SavedOnly(answers)) == NewestRefresh(answers)
    ensures RefreshLost(answers) && FreshRefresh(answers) ==>
              NewestRefresh(SavedOnly(answers)) != NewestRefresh(answers)
  {
    hide NewestRefresh, SavedOnly, RefreshLost;
    KeptRefresh(answers);
    NewestRefreshIsAnswered(answers);
    NewestRefreshIsAnswered(SavedOnly(answers));
    if RefreshLost(answers) && FreshRefresh(answers) && NewestRefresh(SavedOnly(answers)) == NewestRefresh(answers) {
      var lost :| lost in answers && !lost.saved && lost.tokens.refresh == NewestRefresh(answers) != "";
      var kept :| kept in SavedOnly(answers) && kept.tokens.refresh == NewestRefresh(answers);
      SameTokenSameAnswer(answers, lost, kept);
    }
  }

  lemma SameTokenSameAnswer(answers: seq<Answer>, a: Answer, b: Answer)
    requires FreshRefresh(answers) && a in answers && b in answers
    requires a.tokens.refresh == b.tokens.refresh != ""
    ensures a == b
  {
    var i :| 0 <= i < |answers| && answers[i] == a;
    var j :| 0 <= j < |answers| && answers[j] == b;
  }

  /** Exact conditions, on any run. The stored access token is the newest answered
      when the newest answer was saved, and the stored refresh token is the newest
      answered when no answer with a refresh token was lost since the last one
      saved; and, Atlassian's tokens being fresh, only then. A later saved answer
      without a refresh token does not repair the loss. */
  lemma StoredTokensAreTheNewestAnsweredIff(p: Primitives, calls: seq<Call>, tenant: int)
    requires Lawful(p) && Sized(p, calls) && tenant in After(Ciphered(p), calls).connections
    ensures var c, answers := After(Ciphered(p), calls).connections[tenant], Answers(Ciphered(p), calls, tenant);
            var access, refresh := Text(NewestAccess(answers)), Text(NewestRefresh(answers));
      && (!AccessLost(answers) ==> Decrypt(p, c.accessEnc) == access)
      && (FreshAccess(answers) ==> (Decrypt(p, c.accessEnc) == access <==> !AccessLost(answers)))
      && (!RefreshLost(answers) ==> Decrypt(p, c.refreshEnc) == refresh)
      && (FreshRefresh(answers) ==> (Decrypt(p, c.refreshEnc) == refresh <==> !RefreshLost(answers)))
  {
    hide Lawful, Decrypt, After, Answers, SavedOnly, NewestAccess, NewestRefresh, AccessLost, RefreshLost;
    hide FreshAccess, FreshRefresh;
    StoredTokensAreTheLatest(p, calls, tenant);
    NewestAccessIsSavedIff(Answers(Ciphered(p), calls, tenant));
    NewestRefreshIsSavedIff(Answers(Ciphered(p), calls, tenant));
  }

  /** How long the newest saved answer lasts, by its own lifetime. */
  function LastsUntil(answers: seq<Answer>): int
    requires |SavedOnly(answers)| > 0
  {
    var saved := SavedOnly(answers);
    saved[|saved| - 1].storedAt + saved[|saved| - 1].tokens.expiresIn * 1_000_000_000
  }

  /** The access token handed out is the newest saved, so the newest answered unless
      that answer was lost. */
  lemma TokensHandedOutAreCurrent(p: Primitives, calls: seq<Call>)
    requires Lawful(p) && Sized(p, calls) && |calls| > 0
    requires calls[|calls| - 1].Access? && ReplyTo(Ciphered(p), calls).Token?
    ensures var last, reply := calls[|calls| - 1], ReplyTo(Ciphered(p), calls);
            var connections := After(Ciphered(p), calls).connections;
            var answers := Answers(Ciphered(p), calls, last.tenant);
      && last.tenant in connections && |SavedOnly(answers)| > 0
      && reply.text == NewestAccess(SavedOnly(answers))
      && (!AccessLost(answers) ==> reply.text == NewestAccess(answers))
      && (|| connections[last.tenant].expires >= last.checkedAt + SAFETY_MARGIN
          || (&& last.answer.Some? && reply.text == last.answer.value.access && !AccessLost(answers)
              && connections[last.tenant].expires == ExpiresAt(last.answer.value, last.storedAt)))
  {
    hide Lawful, Decrypt, Encrypt, NewestRefresh;
    var answers := Answers(Ciphered(p), calls, calls[|calls| - 1].tenant);
    StoredTokensAreTheLatest(p, calls, calls[|calls| - 1].tenant);
    if |SavedOnly(answers)| > 0 {
      NewestAccessIsSavedIff(answers);
    }
  }

  /** Main result, told by the lifetimes Atlassian answered. A token request is served
      from the table exactly while the newest saved answer lasts five more minutes,
      and then with that answer's access token; once it does not, a token is handed
      out only if a refresh token was saved, Atlassian answers with the token and the
      table takes it. */
  lemma TokensLastFiveMinutes(p: Primitives, calls: seq<Call>)
    requires Lawful(p) && Sized(p, calls) && |calls| > 0 && calls[|calls| - 1].Access?
    ensures var front, last, reply := calls[..|calls| - 1], calls[|calls| - 1], ReplyTo(Ciphered(p), calls);
            var answers := Answers(Ciphered(p), front, last.tenant);
            var saved := SavedOnly(answers);
      && (|saved| == 0 <==> reply == Failed(NotConnected))
      && (|saved| > 0 && LastsUntil(answers) >= last.checkedAt + 300_000_000_000 ==>
            reply == Token(saved[|saved| - 1].tokens.access))
      && (|saved| > 0 && LastsUntil(answers) < last.checkedAt + 300_000_000_000 ==>
            reply == if NewestRefresh(saved) == "" then Failed(NoRefreshToken)
                     else if last.answer.None? || last.answer.value.access == "" then Failed(RefreshFailed)
                     else if !last.saved then Failed(NotSaved)
                     else Token(last.answer.value.access))
  {
    hide Lawful, Decrypt, After, Answers, SavedOnly, NewestRefresh, Serve;
    var front, last := calls[..|calls| - 1], calls[|calls| - 1];
    EncryptionIsTransparent(p, calls);
    AnswersAreTransparent(p, front, last.tenant);
    PlainTokensInForce(front, last.tenant);
    PlainAccess(After(Plain(), front), last, Answers(Plain(), front, last.tenant));
  }

  lemma PlainAccess(w: World, call: Call, answers: seq<Answer>)
    requires call.Access?
    requires call.tenant in w.connections <==> |SavedOnly(answers)| > 0
    requires call.tenant in w.connections ==> InForce(w.connections[call.tenant], answers)
    ensures var reply, saved := Serve(Plain(), w, call).1, SavedOnly(answers);
      && (|saved| == 0 <==> reply == Failed(NotConnected))
      && (|saved| > 0 && LastsUntil(answers) >= call.checkedAt + 300_000_000_000 ==>
            reply == Token(saved[|saved| - 1].tokens.access))
      && (|saved| > 0 && LastsUntil(answers) < call.checkedAt + 300_000_000_000 ==>
            reply == if NewestRefresh(saved) == "" then Failed(NoRefreshToken)
                     else if call.answer.None? || call.answer.value.access == "" then Failed(RefreshFailed)
                     else if !call.saved then Failed(NotSaved)
                     else Token(call.answer.value.access))
  {
    hide SavedOnly, NewestRefresh;
  }

  // ---------- who gets connected ----------

  /** The request that handed a state out, and what it asked for. */
  ghost predicate StartedBy(v: Vault, calls: seq<Call>, i: nat, state: string, row: StateRow) {
    && i < |calls| && calls[i].Start? && calls[i].state == state && ReplyTo(v, calls[..i + 1]) == Started(state)
    && row.tenant == calls[i].tenant
    && row.returnTo == (if calls[i].returnTo == "" then "/settings" else calls[i].returnTo)
    && row.expires == calls[i].now + 600_000_000_000
  }

  lemma {:induction false} StatesComeFromStarts(v: Vault, calls: seq<Call>, state: string) returns (i: nat)
    requires state in After(v, calls).states
    ensures StartedBy(v, calls, i, state, After(v, calls).states[state])
  {
    var k := |calls| - 1;
    var front, last := calls[..k], calls[k];
    ServeKeepsRow(v, After(v, front), last, state);
    if state in After(v, front).states {
      i := StatesComeFromStarts(v, front, state);
      assert front[..i + 1] == calls[..i + 1];
    } else {
      i := k;
      assert calls[..i + 1] == calls;
    }
  }

  lemma ServeKeepsRow(v: Vault, w: World, call: Call, state: string)
    ensures var (after, reply) := Serve(v, w, call);
      && (state in w.states && state in after.states ==> after.states[state] == w.states[state])
      && (state !in w.states && state in after.states ==>
            && call.Start? && call.state == state && reply == Started(state)
            && after.states[state]
               == StateRow(call.tenant, if call.returnTo == "" then "/settings" else call.returnTo,
                           call.now + 600_000_000_000))
  {
    hide Joined, Refreshed, Due, Usable;
  }

  /** Main result. A callback connects exactly when its state is still stored, comes
      within ten minutes of the request that handed the state out, Atlassian answers
      with an access token and the table takes it; it connects the tenant of that
      request, returns where that request asked, and stores what Atlassian answered. */
  lemma CallbacksConnectTheStarter(v: Vault, calls: seq<Call>) returns (i: nat)
    requires |calls| > 0 && calls[|calls| - 1].Complete?
    requires calls[|calls| - 1].state in After(v, calls[..|calls| - 1]).states
    ensures i < |calls| - 1 && calls[i].Start? && calls[i].state == calls[|calls| - 1].state
    ensures ReplyTo(v, calls[..i + 1]) == Started(calls[i].state)
    ensures var start, last, reply := calls[i], calls[|calls| - 1], ReplyTo(v, calls);
      && (reply.Connected? <==>
            && last.checkedAt <= start.now + 600_000_000_000
            && last.answer.Some? && last.answer.value.access != "" && last.saved)
      && (reply.Connected? ==>
            && reply.tenant == start.tenant && reply.siteUrl == last.siteUrl
            && reply.returnTo == (if start.returnTo == "" then "/settings" else start.returnTo)
            && start.tenant in After(v, calls).connections
            && var c, t := After(v, calls).connections[start.tenant], last.answer.value;
               && c.accessEnc == v.lock(last.nonce1, t.access) && c.refreshEnc == v.lock(last.nonce2, t.refresh)
               && c.expires == last.storedAt + t.expiresIn * 1_000_000_000 && c.scope == t.scope
               && c.cloudId == last.cloudId && c.siteUrl == last.siteUrl && c.connectedBy == last.actor
               && c.lastRefreshed == last.storedAt && c.lastRefreshError == None)
  {
    var front := calls[..|calls| - 1];
    i := StatesComeFromStarts(v, front, calls[|calls| - 1].state);
    assert front[..i + 1] == calls[..i + 1];
  }

  /** A token request that fails leaves the tables alone, except that a refused
      refresh may set the error column. */
  lemma FailedAccessOnlyMarks(v: Vault, w: World, call: Call)
    requires call.Access? && Serve(v, w, call).1.Failed?
    ensures Serve(v, w, call).0 ==
      if call.saved && Serve(v, w, call).1 == Failed(RefreshFailed) && call.tenant in w.connections
      then w.(connections := w.connections[call.tenant :=
                w.connections[call.tenant].(lastRefreshError := Some(call.error))])
      else w
  {
    hide Due, Refreshed, Usable;
  }
}
