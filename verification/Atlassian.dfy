/** Connecting to Atlassian and keeping the token fresh
    (backend/internal/integrations/atlassian/service.go, oauth.go). */
module Atlassian {
  import opened Wrappers
  import opened Envelope

  const SECOND := 1_000_000_000
  const STATE_TTL := 600 * SECOND
  const SAFETY_MARGIN := 300 * SECOND

  datatype StateRow = StateRow(tenant: int, returnTo: string, expires: int)

  datatype Connection = Connection(
    cloudId: string, siteUrl: string, accessEnc: string, refreshEnc: string, expires: int,
    scope: string, connectedBy: string, lastRefreshed: int, lastRefreshError: Option<string>)

  /** The two tables. */
  datatype World = World(states: map<string, StateRow>, connections: map<int, Connection>)

  datatype TokenSet = TokenSet(access: string, refresh: string, expiresIn: int, scope: string)

  /** `postToken`: an answer without an access token is an error. */
  function Usable(answer: Option<TokenSet>): Option<TokenSet> {
    if answer.Some? && answer.value.access != "" then answer else None
  }

  function ExpiresAt(t: TokenSet, now: int): int { now + t.expiresIn * SECOND }

  datatype Failure =
    StateUnknown | StateExpired | ExchangeFailed | NotSaved | NotConnected | NoRefreshToken | RefreshFailed | Unreadable

  datatype Reply =
    | Started(state: string)
    | Connected(tenant: int, returnTo: string, siteUrl: string)
    | Token(text: string)
    | Disconnected
    | Failed(failure: Failure)

  /** A request with everything it meets outside the tables: the clock, the random
      state and nonces, Atlassian's answer, and whether the table accepts the write. */
  datatype Call =
    | Start(tenant: int, returnTo: string, state: string, now: int, saved: bool)
    | Complete(state: string, actor: string, answer: Option<TokenSet>, cloudId: string, siteUrl: string,
               checkedAt: int, storedAt: int, nonce1: string, nonce2: string, saved: bool)
    | Access(tenant: int, answer: Option<TokenSet>, error: string,
             checkedAt: int, storedAt: int, nonce1: string, nonce2: string, saved: bool)
    | Disconnect(tenant: int, saved: bool)

  /** How tokens are locked for storage and unlocked again. */
  datatype Vault = Vault(lock: (string, string) -> string, unlock: string -> Opened)

  function Ciphered(p: Primitives): Vault {
    Vault((nonce, text) => Encrypt(p, nonce, text), enc => Decrypt(p, enc))
  }

  predicate Due(c: Connection, now: int) { now + SAFETY_MARGIN > c.expires }

  function Joined(v: Vault, call: Call, t: TokenSet): Connection
    requires call.Complete?
  {
    Connection(call.cloudId, call.siteUrl, v.lock(call.nonce1, t.access), v.lock(call.nonce2, t.refresh),
               ExpiresAt(t, call.storedAt), t.scope, call.actor, call.storedAt, None)
  }

  function Refreshed(v: Vault, c: Connection, call: Call, t: TokenSet): Connection
    requires call.Access?
  {
    c.(accessEnc := v.lock(call.nonce1, t.access),
       refreshEnc := if t.refresh != "" then v.lock(call.nonce2, t.refresh) else c.refreshEnc,
       expires := ExpiresAt(t, call.storedAt), lastRefreshed := call.storedAt, lastRefreshError := None)
  }

  /** One request on the tables. */
  function Serve(v: Vault, w: World, call: Call): (World, Reply) {
    match call
    case Start(tenant, returnTo, state, now, saved) =>
      if !saved || state in w.states then (w, Failed(NotSaved))
      else
        var row := StateRow(tenant, if returnTo == "" then "/settings" else returnTo, now + STATE_TTL);
        (w.(states := w.states[state := row]), Started(state))
    case Complete(_, _, _, _, _, _, _, _, _, _) =>
      if call.state !in w.states then (w, Failed(StateUnknown))
      else
        var row, used := w.states[call.state], w.(states := w.states - {call.state});
        if call.checkedAt > row.expires then (used, Failed(StateExpired))
        else if Usable(call.answer).None? then (used, Failed(ExchangeFailed))
        else if !call.saved then (used, Failed(NotSaved))
        else (used.(connections := used.connections[row.tenant := Joined(v, call, call.answer.value)]),
              Connected(row.tenant, row.returnTo, call.siteUrl))
    case Access(_, _, _, _, _, _, _, _) =>
      if call.tenant !in w.connections then (w, Failed(NotConnected))
      else
        var c := w.connections[call.tenant];
        if !Due(c, call.checkedAt) then
          var token := v.unlock(c.accessEnc);
          (w, if token.Text? then Token(token.text) else Failed(Unreadable))
        else
          var token := v.unlock(c.refreshEnc);
          if token.Refused? then (w, Failed(Unreadable))
          else if token.text == "" then (w, Failed(NoRefreshToken))
          else if Usable(call.answer).None? then
            (if call.saved
             then w.(connections := w.connections[call.tenant := c.(lastRefreshError := Some(call.error))])
             else w, Failed(RefreshFailed))
          else if !call.saved then (w, Failed(NotSaved))
          else (w.(connections := w.connections[call.tenant := Refreshed(v, c, call, call.answer.value)]),
                Token(call.answer.value.access))
    case Disconnect(tenant, saved) =>
      if saved then (w.(connections := w.connections - {tenant}), Disconnected) else (w, Failed(NotSaved))
  }

  class Service {
    const cipher: Primitives
    var states: map<string, StateRow>
    var connections: map<int, Connection>

    constructor (cipher: Primitives)
      ensures this.cipher == cipher && View() == World(map[], map[])
    {
      this.cipher := cipher;
      states, connections := map[], map[];
    }

    function View(): World
      reads this`states, this`connections
    {
      World(states, connections)
    }

    /** `StartConnect`. */
    method StartConnect(tenant: int, returnTo: string, state: string, now: int, saved: bool) returns (reply: Reply)
      modifies this`states
      ensures (View(), reply) == Serve(Ciphered(cipher), old(View()), Start(tenant, returnTo, state, now, saved))
    {
      var target := returnTo;
      if target == "" {
        target := "/settings";
      }
      if !saved || state in states {
        return Failed(NotSaved);
      }
      states := states[state := StateRow(tenant, target, now + STATE_TTL)];
      reply := Started(state);
    }

    /** `CompleteConnect`: the state is deleted as it is read, before any check. */
    method CompleteConnect(call: Call) returns (reply: Reply)
      requires call.Complete?
      modifies this`states, this`connections
      ensures (View(), reply) == Serve(Ciphered(cipher), old(View()), call)
      ensures call.state !in states
    {
      if call.state !in states {
        return Failed(StateUnknown);
      }
      var row := states[call.state];
      states := states - {call.state};
      if call.checkedAt > row.expires {
        return Failed(StateExpired);
      }
      var tokens := Usable(call.answer);
      if tokens.None? {
        return Failed(ExchangeFailed);
      }
      var accessEnc := Encrypt(cipher, call.nonce1, tokens.value.access);
      var refreshEnc := Encrypt(cipher, call.nonce2, tokens.value.refresh);
      if !call.saved {
        return Failed(NotSaved);
      }
      connections := connections[row.tenant := Connection(
        call.cloudId, call.siteUrl, accessEnc, refreshEnc, ExpiresAt(tokens.value, call.storedAt),
        tokens.value.scope, call.actor, call.storedAt, None)];
      reply := Connected(row.tenant, row.returnTo, call.siteUrl);
    }

    /** `AccessToken`: refreshed now, or good for at least five more minutes. */
    method AccessToken(call: Call) returns (reply: Reply)
      requires call.Access?
      modifies this`connections
      ensures (View(), reply) == Serve(Ciphered(cipher), old(View()), call)
      ensures reply.Token? ==> call.tenant in old(connections) && call.tenant in connections
      ensures reply.Token? && !Due(old(connections)[call.tenant], call.checkedAt) ==>
        && connections == old(connections)
        && connections[call.tenant].expires >= call.checkedAt + SAFETY_MARGIN
        && Decrypt(cipher, connections[call.tenant].accessEnc) == Text(reply.text)
      ensures reply.Token? && Due(old(connections)[call.tenant], call.checkedAt) ==>
        && call.answer.Some? && reply.text == call.answer.value.access
        && connections[call.tenant].expires == ExpiresAt(call.answer.value, call.storedAt)
    {
      if call.tenant !in connections {
        return Failed(NotConnected);
      }
      var c := connections[call.tenant];
      if Due(c, call.checkedAt) {
        reply := RefreshConnection(c, call);
        assert old(connections)[call.tenant := c] == old(connections);
        return;
      }
      var token := Decrypt(cipher, c.accessEnc);
      reply := if token.Text? then Token(token.text) else Failed(Unreadable);
    }

    /** `refreshConnection`: a failure changes at most the error column, and a new
        refresh token replaces the stored one only if Atlassian sent one. */
    method RefreshConnection(c: Connection, call: Call) returns (reply: Reply)
      requires call.Access? && call.tenant in connections && connections[call.tenant] == c
      modifies this`connections
      ensures call.tenant in connections && connections == old(connections)[call.tenant := connections[call.tenant]]
      ensures reply.Token? || reply.Failed?
      ensures reply.Failed? ==>
        connections[call.tenant] ==
          if reply.failure == RefreshFailed && call.saved then c.(lastRefreshError := Some(call.error)) else c
      ensures reply.Token? ==>
        && call.answer.Some? && reply.text == call.answer.value.access && call.saved
        && connections[call.tenant] == Refreshed(Ciphered(cipher), c, call, call.answer.value)
      ensures Decrypt(cipher, c.refreshEnc).Refused? <==> reply == Failed(Unreadable)
      ensures Decrypt(cipher, c.refreshEnc) == Text("") <==> reply == Failed(NoRefreshToken)
      ensures Decrypt(cipher, c.refreshEnc).Text? && Decrypt(cipher, c.refreshEnc) != Text("") ==>
        reply == if Usable(call.answer).None? then Failed(RefreshFailed)
                 else if !call.saved then Failed(NotSaved) else Token(call.answer.value.access)
    {
      var token := Decrypt(cipher, c.refreshEnc);
      if token.Refused? {
        return Failed(Unreadable);
      }
      if token.text == "" {
        return Failed(NoRefreshToken);
      }
      var tokens := Usable(call.answer);
      if tokens.None? {
        if call.saved {
          connections := connections[call.tenant := c.(lastRefreshError := Some(call.error))];
        }
        return Failed(RefreshFailed);
      }
      var accessEnc := Encrypt(cipher, call.nonce1, tokens.value.access);
      var newRefreshEnc := c.refreshEnc;
      if tokens.value.refresh != "" {
        newRefreshEnc := Encrypt(cipher, call.nonce2, tokens.value.refresh);
      }
      if !call.saved {
        return Failed(NotSaved);
      }
      connections := connections[call.tenant := c.(
        accessEnc := accessEnc, refreshEnc := newRefreshEnc, expires := ExpiresAt(tokens.value, call.storedAt),
        lastRefreshed := call.storedAt, lastRefreshError := None)];
      reply := Token(tokens.value.access);
    }

    /** `Disconnect`. */
    method DisconnectTenant(tenant: int, saved: bool) returns (reply: Reply)
      modifies this`connections
      ensures (View(), reply) == Serve(Ciphered(cipher), old(View()), Disconnect(tenant, saved))
    {
      if !saved {
        return Failed(NotSaved);
      }
      connections := connections - {tenant};
      reply := Disconnected;
    }
  }
}
