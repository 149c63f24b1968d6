/** Concurrent requests on the authorization server: every interleaving of the
    critical sections and of the unlocked checks between them
    (backend/internal/mcp/server/oauth.go; section 4.1.2 of RFC 6749, section 4.6
    of RFC 7636, section 2 of RFC 7009). Random names are fresh. */
module McpOAuthRuns {
  import opened Wrappers
  import opened McpOAuth

  /** What a request in flight remembers between two steps. */
  datatype Flight =
    | Approved(auth: AuthorizeRequest)
    | Holding(req: TokenRequest, pending: PendingCode)
    | Cleared(req: TokenRequest, pending: PendingCode, checkedAt: int)

  datatype Approval = Approval(auth: AuthorizeRequest, at: int)
  datatype Grant = Grant(req: TokenRequest, clientID: string, scope: string, checkedAt: int, at: int)

  /** The shared maps, the requests in flight and the clock, beside a ledger of
      everything that ever happened: codes stored, codes taken, tokens issued and
      tokens revoked after their issue. */
  datatype World = World(
    shared: Shared, flights: map<nat, Flight>, now: int,
    stored: map<string, Approval>, taken: set<string>, issued: map<string, Grant>, revoked: set<string>)

  datatype Step =
    | Tick(nanos: nat)
    | Authorize(rid: nat, auth: AuthorizeRequest)
    | Store(rid: nat, code: string)
    | Take(rid: nat, req: TokenRequest)
    | Check(rid: nat)
    | Issue(rid: nat, token: string)
    | Revoke(isPost: bool, formParses: bool, token: string)
    | Validate(token: string)

  const START := World(Shared(map[], map[]), map[], 0, map[], {}, map[], {})

  /** A step can be taken: its request is where the step needs it, and a name
      being drawn was never drawn before. */
  predicate Enabled(w: World, step: Step) {
    match step
    case Tick(_) => true
    case Authorize(rid, _) => rid !in w.flights
    case Store(rid, code) => rid in w.flights && w.flights[rid].Approved? && code !in w.stored
    case Take(rid, _) => rid !in w.flights
    case Check(rid) => rid in w.flights && w.flights[rid].Holding?
    case Issue(rid, token) => rid in w.flights && w.flights[rid].Cleared? && token !in w.issued
    case Revoke(_, _, _) => true
    case Validate(_) => true
  }

  function Next(cfg: Config, w: World, step: Step): World
    requires Enabled(w, step)
  {
    match step
    case Tick(nanos) => w.(now := w.now + nanos)
    case Authorize(rid, auth) =>
      if AuthorizeRefusal(cfg, auth).Some? then w
      else w.(flights := w.flights[rid := Approved(auth)])
    case Store(rid, code) =>
      var auth := w.flights[rid].auth;
      w.(shared := StoreCode(w.shared, code, auth, w.now),
         flights := w.flights - {rid},
         stored := w.stored[code := Approval(auth, w.now)])
    case Take(rid, req) =>
      if MalformedToken(req).Some? || LookUpCode(w.shared, req.code).None? then w
      else
        w.(shared := DropCode(w.shared, req.code),
           flights := w.flights[rid := Holding(req, LookUpCode(w.shared, req.code).value)],
           taken := w.taken + {req.code})
    case Check(rid) =>
      var f := w.flights[rid];
      if RedeemRefusal(cfg, f.pending, f.req, w.now).Some? then w.(flights := w.flights - {rid})
      else w.(flights := w.flights[rid := Cleared(f.req, f.pending, w.now)])
    case Issue(rid, token) =>
      var f := w.flights[rid];
      w.(shared := StoreToken(w.shared, token, f.pending, w.now),
         flights := w.flights - {rid},
         issued := w.issued[token := Grant(f.req, f.pending.clientID, f.pending.scope, f.checkedAt, w.now)])
    case Revoke(isPost, formParses, token) =>
      if !isPost || !formParses then w
      else
        w.(shared := DropToken(w.shared, token),
           revoked := if token in w.issued then w.revoked + {token} else w.revoked)
    case Validate(token) => w.(shared := AfterLookUp(w.shared, token, w.now))
  }

  /** The world after a run, or nothing when some step could not be taken. */
  function Run(cfg: Config, steps: seq<Step>): Option<World> {
    if |steps| == 0 then Some(START)
    else
      var k := |steps| - 1;
      match Run(cfg, steps[..k])
      case None => None
      case Some(w) => if Enabled(w, steps[k]) then Some(Next(cfg, w, steps[k])) else None
  }

  // ---------- the invariant ----------

  /** A pending code that an operator-approved request asked for. */
  predicate FromApproval(cfg: Config, w: World, code: string, pending: PendingCode) {
    && code in w.stored
    && AuthorizeRefusal(cfg, w.stored[code].auth).None?
    && pending == CodeFor(w.stored[code].auth, w.stored[code].at)
    && w.stored[code].at <= w.now
  }

  ghost predicate CodesAreOpen(cfg: Config, w: World) {
    && (forall c :: c in w.shared.codes ==> FromApproval(cfg, w, c, w.shared.codes[c]) && c !in w.taken)
    && (forall c :: c in w.taken ==> c in w.stored)
  }

  /** What a flight that took a code knows about it. */
  ghost predicate FlightHoldsCode(cfg: Config, w: World, f: Flight) {
    match f
    case Approved(auth) => AuthorizeRefusal(cfg, auth).None?
    case Holding(req, pending) =>
      FromApproval(cfg, w, req.code, pending) && req.code in w.taken
    case Cleared(req, pending, checkedAt) =>
      && FromApproval(cfg, w, req.code, pending) && req.code in w.taken
      && RedeemRefusal(cfg, pending, req, checkedAt).None?
      && w.stored[req.code].at <= checkedAt <= w.now
  }

  predicate Spends(f: Flight, code: string) { !f.Approved? && f.req.code == code }

  ghost predicate FlightsHoldCodes(cfg: Config, w: World) {
    forall r :: r in w.flights ==> FlightHoldsCode(cfg, w, w.flights[r])
  }

  /** A code is in the hands of at most one flight or one token. */
  ghost predicate FlightsAreExclusive(w: World) {
    && (forall r, r' :: r in w.flights && r' in w.flights && r != r' && !w.flights[r].Approved? ==>
          !Spends(w.flights[r'], w.flights[r].req.code))
    && (forall r, t :: r in w.flights && t in w.issued && !w.flights[r].Approved? ==>
          w.issued[t].req.code != w.flights[r].req.code)
  }

  /** The grant a token stands for was earned by a checked exchange. */
  predicate Earned(cfg: Config, w: World, g: Grant) {
    && g.req.code in w.stored && g.req.code in w.taken
    && var approval := w.stored[g.req.code];
       var pending := CodeFor(approval.auth, approval.at);
       && AuthorizeRefusal(cfg, approval.auth).None?
       && RedeemRefusal(cfg, pending, g.req, g.checkedAt).None?
       && g.clientID == approval.auth.clientID && g.scope == approval.auth.scope
       && approval.at <= g.checkedAt <= g.at <= w.now
  }

  ghost predicate TokensAreEarned(cfg: Config, w: World) {
    && (forall t :: t in w.issued ==> Earned(cfg, w, w.issued[t]))
    && (forall t, t' :: t in w.issued && t' in w.issued && t != t' ==>
          w.issued[t].req.code != w.issued[t'].req.code)
  }

  function TokenFor(g: Grant): IssuedToken { IssuedToken(g.clientID, g.scope, g.at + TOKEN_TTL) }

  /** The token map holds the issued tokens that were not revoked since, short of
      some that already expired. */
  ghost predicate TokenMapIsCurrent(w: World) {
    && w.revoked <= w.issued.Keys
    && (forall t :: t in w.shared.tokens ==>
          t in w.issued && t !in w.revoked && w.shared.tokens[t] == TokenFor(w.issued[t]))
    && (forall t :: t in w.issued && t !in w.revoked && t !in w.shared.tokens ==>
          w.now > w.issued[t].at + TOKEN_TTL)
  }

  ghost predicate Inv(cfg: Config, w: World) {
    && CodesAreOpen(cfg, w)
    && FlightsHoldCodes(cfg, w)
    && FlightsAreExclusive(w)
    && TokensAreEarned(cfg, w)
    && TokenMapIsCurrent(w)
  }

  // ---------- every step keeps it ----------

  /** The ledger only grows and the clock only advances. */
  predicate Extends(w: World, w': World) {
    && w.now <= w'.now
    && w.stored.Keys <= w'.stored.Keys && (forall c :: c in w.stored ==> w'.stored[c] == w.stored[c])
    && w.taken <= w'.taken
    && w.issued.Keys <= w'.issued.Keys && (forall t :: t in w.issued ==> w'.issued[t] == w.issued[t])
  }

  lemma StepExtends(cfg: Config, w: World, step: Step)
    requires Enabled(w, step)
    ensures Extends(w, Next(cfg, w, step))
  {}

  lemma StepKeepsCodes(cfg: Config, w: World, step: Step)
    requires Inv(cfg, w) && Enabled(w, step)
    ensures CodesAreOpen(cfg, Next(cfg, w, step))
  {
    hide AuthorizeRefusal, RedeemRefusal, MalformedToken;
    var w' := Next(cfg, w, step);
    StepExtends(cfg, w, step);
    if step.Store? {
      assert FlightHoldsCode(cfg, w, w.flights[step.rid]);
    }
  }

  lemma StepKeepsFlights(cfg: Config, w: World, step: Step)
    requires Inv(cfg, w) && Enabled(w, step)
    ensures FlightsHoldCodes(cfg, Next(cfg, w, step))
  {
    hide AuthorizeRefusal, RedeemRefusal, MalformedToken, FlightsAreExclusive, TokensAreEarned, TokenMapIsCurrent;
    var w' := Next(cfg, w, step);
    StepExtends(cfg, w, step);
    forall r | r in w'.flights
      ensures FlightHoldsCode(cfg, w', w'.flights[r])
    {
      if r in w.flights {
        assert FlightHoldsCode(cfg, w, w.flights[r]);
      }
    }
  }

  lemma StepKeepsExclusion(cfg: Config, w: World, step: Step)
    requires Inv(cfg, w) && Enabled(w, step)
    ensures FlightsAreExclusive(Next(cfg, w, step))
  {
    hide AuthorizeRefusal, RedeemRefusal, MalformedToken, TokenMapIsCurrent;
    if step.Take? {
      forall r | r in w.flights && !w.flights[r].Approved?
        ensures w.flights[r].req.code in w.taken
      {
        assert FlightHoldsCode(cfg, w, w.flights[r]);
      }
      forall t | t in w.issued
        ensures w.issued[t].req.code in w.taken
      {
        assert Earned(cfg, w, w.issued[t]);
      }
    }
  }

  lemma StepKeepsTokens(cfg: Config, w: World, step: Step)
    requires Inv(cfg, w) && Enabled(w, step)
    ensures TokensAreEarned(cfg, Next(cfg, w, step))
  {
    hide AuthorizeRefusal, RedeemRefusal, MalformedToken;
    var w' := Next(cfg, w, step);
    StepExtends(cfg, w, step);
    if step.Issue? {
      assert FlightHoldsCode(cfg, w, w.flights[step.rid]);
    }
    forall t | t in w'.issued
      ensures Earned(cfg, w', w'.issued[t])
    {
      if t in w.issued {
        assert Earned(cfg, w, w.issued[t]);
      }
    }
  }

  lemma StepKeepsTokenMap(cfg: Config, w: World, step: Step)
    requires TokenMapIsCurrent(w) && Enabled(w, step)
    ensures TokenMapIsCurrent(Next(cfg, w, step))
  {
    hide AuthorizeRefusal, RedeemRefusal, MalformedToken, CodeFor;
    match step
    case Tick(_) =>
    case Authorize(_, _) =>
    case Store(_, _) =>
    case Take(_, _) =>
    case Check(_) =>
    case Issue(rid, token) =>
      assert token !in w.issued;
    case Revoke(_, _, _) =>
    case Validate(_) =>
  }

  /** The invariant holds after every run. */
  lemma {:induction false} InvAlways(cfg: Config, steps: seq<Step>)
    requires Run(cfg, steps).Some?
    ensures Inv(cfg, Run(cfg, steps).value)
  {
    if |steps| != 0 {
      var k := |steps| - 1;
      var w := Run(cfg, steps[..k]).value;
      InvAlways(cfg, steps[..k]);
      StepKeepsCodes(cfg, w, steps[k]);
      StepKeepsFlights(cfg, w, steps[k]);
      StepKeepsExclusion(cfg, w, steps[k]);
      StepKeepsTokens(cfg, w, steps[k]);
      StepKeepsTokenMap(cfg, w, steps[k]);
    }
  }

  // ---------- main results ----------

  /** Section 4.1.2 of RFC 6749: in every interleaving a code yields at most one
      token. */
  lemma OneTokenPerCode(cfg: Config, steps: seq<Step>, t: string, t': string)
    requires Run(cfg, steps).Some?
    requires t in Run(cfg, steps).value.issued && t' in Run(cfg, steps).value.issued
    requires Run(cfg, steps).value.issued[t].req.code == Run(cfg, steps).value.issued[t'].req.code
    ensures t == t'
  {
    InvAlways(cfg, steps);
  }

  /** Every token carries the client and scope of an operator-approved PKCE code,
      exchanged by the same client at the same registered redirect URI with the
      matching verifier, checked within the code's minute. */
  lemma EveryTokenIsEarned(cfg: Config, steps: seq<Step>, t: string)
    requires Run(cfg, steps).Some? && t in Run(cfg, steps).value.issued
    ensures var w := Run(cfg, steps).value;
            var g := w.issued[t];
            && g.req.code in w.stored
            && var approval := w.stored[g.req.code];
               var auth := approval.auth;
               && cfg.operatorToken != "" && auth.operatorHeader == cfg.operatorToken
               && auth.clientID in cfg.clients && auth.redirectURI in cfg.clients[auth.clientID]
               && auth.method_ == "S256" && auth.codeChallenge != ""
               && g.clientID == g.req.clientID == auth.clientID
               && g.scope == auth.scope
               && g.req.redirectURI == auth.redirectURI
               && cfg.s256(g.req.verifier) == auth.codeChallenge
               && approval.at <= g.checkedAt <= approval.at + 60_000_000_000
               && g.checkedAt <= g.at
  {
    InvAlways(cfg, steps);
    assert Earned(cfg, Run(cfg, steps).value, Run(cfg, steps).value.issued[t]);
  }

  /** A token validates exactly when it was issued, was not revoked since, and is
      at most one hour old; it then answers the client and scope it was issued for. */
  lemma ValidatesIffIssuedUnrevokedAndFresh(cfg: Config, steps: seq<Step>, t: string)
    requires Run(cfg, steps).Some?
    ensures var w := Run(cfg, steps).value;
            var answer := LookUpToken(w.shared, t, w.now);
            && (answer.Some? <==> && t in w.issued && t !in w.revoked
                                  && w.now <= w.issued[t].at + 3_600_000_000_000)
            && (answer.Some? ==>
                  answer.value.clientID == w.issued[t].clientID && answer.value.scope == w.issued[t].scope)
  {
    InvAlways(cfg, steps);
  }

  /** No flight and no token spends the code, and it has been taken. */
  ghost predicate Burnt(w: World, code: string) {
    && code in w.taken
    && (forall r :: r in w.flights ==> !Spends(w.flights[r], code))
    && (forall t :: t in w.issued ==> w.issued[t].req.code != code)
  }

  lemma StepKeepsBurnt(cfg: Config, w: World, step: Step, code: string)
    requires Inv(cfg, w) && Enabled(w, step) && Burnt(w, code)
    ensures Burnt(Next(cfg, w, step), code)
  {
    hide AuthorizeRefusal, RedeemRefusal, MalformedToken, TokenMapIsCurrent, TokensAreEarned;
    if step.Issue? {
      assert !Spends(w.flights[step.rid], code);
    }
  }

  /** A code whose exchange failed a check is spent for good: however the run
      goes on, no token ever comes from it. */
  lemma {:induction false} FailedExchangeBurnsTheCode(cfg: Config, steps: seq<Step>, more: seq<Step>, code: string)
    requires Run(cfg, steps).Some? && Burnt(Run(cfg, steps).value, code)
    requires Run(cfg, steps + more).Some?
    ensures Burnt(Run(cfg, steps + more).value, code)
  {
    if |more| == 0 {
      assert steps + more == steps;
    } else {
      var k := |more| - 1;
      assert (steps + more)[..|steps + more| - 1] == steps + more[..k];
      FailedExchangeBurnsTheCode(cfg, steps, more[..k], code);
      InvAlways(cfg, steps + more[..k]);
      StepKeepsBurnt(cfg, Run(cfg, steps + more[..k]).value, more[k], code);
    }
  }

  /** Failing the unlocked checks leaves the code burnt. */
  lemma RefusedCheckBurns(cfg: Config, steps: seq<Step>, rid: nat)
    requires Run(cfg, steps).Some? && Enabled(Run(cfg, steps).value, Check(rid))
    requires var w := Run(cfg, steps).value;
             RedeemRefusal(cfg, w.flights[rid].pending, w.flights[rid].req, w.now).Some?
    ensures Run(cfg, steps + [Check(rid)]).Some?
    ensures Burnt(Run(cfg, steps + [Check(rid)]).value, Run(cfg, steps).value.flights[rid].req.code)
  {
    hide AuthorizeRefusal, RedeemRefusal, MalformedToken, TokenMapIsCurrent;
    assert (steps + [Check(rid)])[..|steps|] == steps;
    InvAlways(cfg, steps);
    var w := Run(cfg, steps).value;
    assert FlightHoldsCode(cfg, w, w.flights[rid]);
  }

  // ---------- a good exchange succeeds ----------

  lemma {:induction false} UntakenIsPending(cfg: Config, steps: seq<Step>, code: string)
    requires Run(cfg, steps).Some?
    ensures var w := Run(cfg, steps).value; code in w.stored && code !in w.taken ==> code in w.shared.codes
  {
    if |steps| != 0 {
      UntakenIsPending(cfg, steps[..|steps| - 1], code);
      hide AuthorizeRefusal, RedeemRefusal, MalformedToken, CodeFor;
    }
  }

  /** Main result, the other way round. Whatever happened before, a code that was
      stored less than a minute ago and not yet taken can be exchanged by a well-formed
      request of its client at its redirect URI with the matching verifier: the token
      carries the approved client and scope and validates at once. */
  lemma GoodExchangeSucceeds(cfg: Config, steps: seq<Step>, rid: nat, req: TokenRequest, token: string)
    requires Run(cfg, steps).Some?
    requires var w := Run(cfg, steps).value;
      && rid !in w.flights && token !in w.issued
      && req.isPost && req.formParses && req.grantType == "authorization_code"
      && req.code in w.stored && req.code !in w.taken
      && var approval := w.stored[req.code];
         && w.now <= approval.at + 60_000_000_000
         && req.clientID == approval.auth.clientID && req.redirectURI == approval.auth.redirectURI
         && cfg.s256(req.verifier) == approval.auth.codeChallenge
    ensures var run := Run(cfg, steps + [Take(rid, req), Check(rid), Issue(rid, token)]);
      && run.Some? && token in run.value.issued && req.code in run.value.stored
      && var auth := run.value.stored[req.code].auth;
         var answer := LookUpToken(run.value.shared, token, run.value.now);
         answer.Some? && answer.value.clientID == auth.clientID && answer.value.scope == auth.scope
  {
    hide AuthorizeRefusal, CodesAreOpen, FlightsHoldCodes, FlightsAreExclusive, TokensAreEarned, TokenMapIsCurrent;
    var w := Run(cfg, steps).value;
    UntakenIsPending(cfg, steps, req.code);
    PendingIsApproved(cfg, steps, req.code);
    var one, two := steps + [Take(rid, req)], steps + [Take(rid, req), Check(rid)];
    var three := steps + [Take(rid, req), Check(rid), Issue(rid, token)];
    assert one[..|steps|] == steps && two[..|one|] == one && three[..|two|] == two;
    assert Run(cfg, one) == Some(Next(cfg, w, Take(rid, req)));
    assert Run(cfg, two) == Some(Next(cfg, Run(cfg, one).value, Check(rid)));
    assert Run(cfg, three) == Some(Next(cfg, Run(cfg, two).value, Issue(rid, token)));
  }

  lemma PendingIsApproved(cfg: Config, steps: seq<Step>, code: string)
    requires Run(cfg, steps).Some? && code in Run(cfg, steps).value.shared.codes
    ensures var w := Run(cfg, steps).value;
      code in w.stored && w.shared.codes[code] == CodeFor(w.stored[code].auth, w.stored[code].at)
  {
    InvAlways(cfg, steps);
  }
}
