/** The OAuth authorization server of the MCP endpoint
    (backend/internal/mcp/server/oauth.go). Times are integer nanoseconds; the
    S256 digest is an uninterpreted function; random names are parameters. */
module McpOAuth {
  import opened Wrappers

  const SECOND := 1_000_000_000
  const CODE_TTL := 60 * SECOND
  const TOKEN_TTL := 3600 * SECOND

  /** What never changes after start-up: redirect URIs by client, the operator
      token ("" when not configured) and the PKCE digest. */
  datatype Config = Config(clients: map<string, seq<string>>, operatorToken: string, s256: string -> string)

  datatype PendingCode = PendingCode(
    clientID: string, redirectURI: string, codeChallenge: string, codeChallengeMethod: string,
    scope: string, expiresAt: int)

  datatype IssuedToken = IssuedToken(clientID: string, scope: string, expiresAt: int)

  /** The two maps behind the mutex. */
  datatype Shared = Shared(codes: map<string, PendingCode>, tokens: map<string, IssuedToken>)

  datatype AuthorizeRequest = AuthorizeRequest(
    responseType: string, clientID: string, redirectURI: string, codeChallenge: string,
    method_: string, scope: string, operatorHeader: string)

  datatype TokenRequest = TokenRequest(
    isPost: bool, formParses: bool, grantType: string,
    code: string, clientID: string, redirectURI: string, verifier: string)

  datatype Refusal =
    | UnsupportedResponseType | InvalidClient | InvalidRedirectURI | PkceRequired
    | OperatorNotConfigured | OperatorApprovalRequired
    | MethodNotAllowed | InvalidRequest | UnsupportedGrantType
    | CodeNotFound | CodeExpired | ClientMismatch | RedirectMismatch | VerifierMismatch

  /** The checks of the authorize endpoint, in order; `None` means approved. */
  function AuthorizeRefusal(cfg: Config, req: AuthorizeRequest): Option<Refusal> {
    if req.responseType != "code" then Some(UnsupportedResponseType)
    else if req.clientID !in cfg.clients then Some(InvalidClient)
    else if req.redirectURI !in cfg.clients[req.clientID] then Some(InvalidRedirectURI)
    else if req.codeChallenge == "" || req.method_ != "S256" then Some(PkceRequired)
    else if cfg.operatorToken == "" then Some(OperatorNotConfigured)
    else if req.operatorHeader != cfg.operatorToken then Some(OperatorApprovalRequired)
    else None
  }

  /** What it takes to be approved. */
  lemma ApprovedIff(cfg: Config, req: AuthorizeRequest)
    ensures AuthorizeRefusal(cfg, req).None? <==>
      && req.responseType == "code" && req.method_ == "S256" && req.codeChallenge != ""
      && req.clientID in cfg.clients && req.redirectURI in cfg.clients[req.clientID]
      && cfg.operatorToken != "" && req.operatorHeader == cfg.operatorToken
  {}

  function CodeFor(req: AuthorizeRequest, now: int): PendingCode {
    PendingCode(req.clientID, req.redirectURI, req.codeChallenge, req.method_, req.scope, now + CODE_TTL)
  }

  /** The checks of the token endpoint before the first critical section. */
  function MalformedToken(req: TokenRequest): Option<Refusal> {
    if !req.isPost then Some(MethodNotAllowed)
    else if !req.formParses then Some(InvalidRequest)
    else if req.grantType != "authorization_code" then Some(UnsupportedGrantType)
    else None
  }

  /** The unlocked checks between the two critical sections. */
  function RedeemRefusal(cfg: Config, pending: PendingCode, req: TokenRequest, now: int): Option<Refusal> {
    if now > pending.expiresAt then Some(CodeExpired)
    else if pending.clientID != req.clientID then Some(ClientMismatch)
    else if pending.redirectURI != req.redirectURI then Some(RedirectMismatch)
    else if cfg.s256(req.verifier) != pending.codeChallenge then Some(VerifierMismatch)
    else None
  }

  // ---------- the critical sections, as functions on the two maps ----------

  function StoreCode(s: Shared, code: string, req: AuthorizeRequest, now: int): Shared {
    s.(codes := s.codes[code := CodeFor(req, now)])
  }

  function LookUpCode(s: Shared, code: string): Option<PendingCode> {
    if code in s.codes then Some(s.codes[code]) else None
  }

  function DropCode(s: Shared, code: string): Shared {
    s.(codes := s.codes - {code})
  }

  function StoreToken(s: Shared, token: string, pending: PendingCode, now: int): Shared {
    s.(tokens := s.tokens[token := IssuedToken(pending.clientID, pending.scope, now + TOKEN_TTL)])
  }

  function DropToken(s: Shared, token: string): Shared {
    s.(tokens := s.tokens - {token})
  }

  function LookUpToken(s: Shared, token: string, now: int): Option<IssuedToken> {
    if token in s.tokens && now <= s.tokens[token].expiresAt then Some(s.tokens[token]) else None
  }

  /** Looking a token up forgets it once it has expired. */
  function AfterLookUp(s: Shared, token: string, now: int): Shared {
    if LookUpToken(s, token, now).Some? then s else DropToken(s, token)
  }

  /** `contains`. */
  method Contains(haystack: seq<string>, needle: string) returns (found: bool)
    ensures found <==> needle in haystack
  {
    for i := 0 to |haystack|
      invariant needle !in haystack[..i]
    {
      if haystack[i] == needle {
        return true;
      }
    }
    return false;
  }

  class OAuthServer {
    const cfg: Config
    var pendingCodes: map<string, PendingCode>
    var activeTokens: map<string, IssuedToken>

    constructor (cfg: Config)
      ensures this.cfg == cfg
      ensures View() == Shared(map[], map[])
    {
      this.cfg := cfg;
      pendingCodes, activeTokens := map[], map[];
    }

    function View(): Shared
      reads this
    {
      Shared(pendingCodes, activeTokens)
    }

    /** `handleAuthorize`; `code` is the random name drawn, `now` the clock inside
        the critical section. Answers the refusal, or nothing when approved. */
    method HandleAuthorize(req: AuthorizeRequest, code: string, now: int) returns (refused: Option<Refusal>)
      modifies this
      ensures refused == AuthorizeRefusal(cfg, req)
      ensures View() == if refused.None? then StoreCode(old(View()), code, req, now) else old(View())
    {
      if req.responseType != "code" {
        return Some(UnsupportedResponseType);
      }
      if req.clientID !in cfg.clients {
        return Some(InvalidClient);
      }
      var known := Contains(cfg.clients[req.clientID], req.redirectURI);
      if !known {
        return Some(InvalidRedirectURI);
      }
      if req.codeChallenge == "" || req.method_ != "S256" {
        return Some(PkceRequired);
      }
      if cfg.operatorToken == "" {
        return Some(OperatorNotConfigured);
      }
      if req.operatorHeader != cfg.operatorToken {
        return Some(OperatorApprovalRequired);
      }
      pendingCodes := pendingCodes[code := PendingCode(
        req.clientID, req.redirectURI, req.codeChallenge, req.method_, req.scope, now + CODE_TTL)];
      return None;
    }

    /** First critical section of `handleToken`: a code is removed as it is read. */
    method TakeCode(code: string) returns (pending: Option<PendingCode>)
      modifies this`pendingCodes
      ensures pending == LookUpCode(old(View()), code)
      ensures View() == DropCode(old(View()), code)
    {
      if code in pendingCodes {
        pending := Some(pendingCodes[code]);
        pendingCodes := pendingCodes - {code};
      } else {
        pending := None;
        assert pendingCodes - {code} == pendingCodes;
      }
    }

    /** `handleToken`. `checkedAt` and `issuedAt` are its two clock readings. A
        well-formed request spends its code whatever the answer. */
    method HandleToken(req: TokenRequest, access: string, checkedAt: int, issuedAt: int)
      returns (refused: Option<Refusal>, scope: string)
      modifies this
      ensures MalformedToken(req).Some? ==> refused == MalformedToken(req) && View() == old(View())
      ensures MalformedToken(req).None? ==>
                var was := old(View());
                match LookUpCode(was, req.code)
                case None => refused == Some(CodeNotFound) && View() == was
                case Some(p) =>
                  && refused == RedeemRefusal(cfg, p, req, checkedAt)
                  && View() == (if refused.None? then StoreToken(DropCode(was, req.code), access, p, issuedAt)
                                else DropCode(was, req.code))
                  && (refused.None? ==> scope == p.scope)
    {
      scope := "";
      if !req.isPost {
        return Some(MethodNotAllowed), scope;
      }
      if !req.formParses {
        return Some(InvalidRequest), scope;
      }
      if req.grantType != "authorization_code" {
        return Some(UnsupportedGrantType), scope;
      }
      var taken := TakeCode(req.code);
      if taken.None? {
        assert DropCode(old(View()), req.code).codes == old(View()).codes;
        return Some(CodeNotFound), scope;
      }
      var pending := taken.value;
      if checkedAt > pending.expiresAt {
        return Some(CodeExpired), scope;
      }
      if pending.clientID != req.clientID {
        return Some(ClientMismatch), scope;
      }
      if pending.redirectURI != req.redirectURI {
        return Some(RedirectMismatch), scope;
      }
      var challenge := cfg.s256(req.verifier);
      if challenge != pending.codeChallenge {
        return Some(VerifierMismatch), scope;
      }
      activeTokens := activeTokens[access := IssuedToken(pending.clientID, pending.scope, issuedAt + TOKEN_TTL)];
      return None, pending.scope;
    }

    /** `handleRevoke` on a well-formed request. */
    method HandleRevoke(isPost: bool, formParses: bool, token: string) returns (refused: Option<Refusal>)
      modifies this`activeTokens
      ensures refused.None? <==> isPost && formParses
      ensures View() == if refused.None? then DropToken(old(View()), token) else old(View())
    {
      if !isPost {
        return Some(MethodNotAllowed);
      }
      if !formParses {
        return Some(InvalidRequest);
      }
      activeTokens := activeTokens - {token};
      return None;
    }

    /** `ValidateToken`. */
    method ValidateToken(token: string, now: int) returns (clientID: string, scope: string, ok: bool)
      modifies this`activeTokens
      ensures ok <==> LookUpToken(old(View()), token, now).Some?
      ensures ok ==> var t := LookUpToken(old(View()), token, now).value; clientID == t.clientID && scope == t.scope
      ensures View() == AfterLookUp(old(View()), token, now)
    {
      if token !in activeTokens {
        assert activeTokens - {token} == activeTokens;
        return "", "", false;
      }
      var t := activeTokens[token];
      if now > t.expiresAt {
        activeTokens := activeTokens - {token};
        return "", "", false;
      }
      return t.clientID, t.scope, true;
    }
  }

  /** One code, one token: the ordinary exchange, request after request. */
  method ExchangeOnce(o: OAuthServer, auth: AuthorizeRequest, code: string, access: string, verifier: string,
                      storedAt: int, checkedAt: int, issuedAt: int, usedAt: int)
    returns (clientID: string, scope: string, ok: bool, again: Option<Refusal>)
    requires auth.responseType == "code" && auth.method_ == "S256" && auth.codeChallenge != ""
    requires auth.clientID in o.cfg.clients && auth.redirectURI in o.cfg.clients[auth.clientID]
    requires o.cfg.operatorToken != "" && auth.operatorHeader == o.cfg.operatorToken
    requires auth.codeChallenge == o.cfg.s256(verifier)
    requires storedAt <= checkedAt <= storedAt + 60_000_000_000
    requires checkedAt <= issuedAt <= usedAt <= issuedAt + 3_600_000_000_000
    modifies o
    ensures ok && clientID == auth.clientID && scope == auth.scope
    ensures again == Some(CodeNotFound)
  {
    var req := TokenRequest(true, true, "authorization_code", code, auth.clientID, auth.redirectURI, verifier);
    var refused := o.HandleAuthorize(auth, code, storedAt);
    var granted;
    refused, granted := o.HandleToken(req, access, checkedAt, issuedAt);
    clientID, scope, ok := o.ValidateToken(access, usedAt);
    again, granted := o.HandleToken(req, access, usedAt, usedAt);
  }
}
