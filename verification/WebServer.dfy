/**
  One replica as the program runs it: handlers that return early and update
  the guard, the limiters, the metadata cache and the set of minted artifacts
  in place. Each is proved to do what its function in Handlers says.
 */
module WebServer {
  import opened Wrappers
  import opened Clock
  import opened Text
  import opened TtlStore
  import opened ReplayGuard
  import opened RateLimiter
  import opened Urls
  import opened AuthServer
  import opened Artifacts
  import opened Cimd
  import Scopes
  import opened Runs
  import H = Handlers

  /** The key all replicas share, seen through what was ever minted with it. */
  class KeyMaterial {
    var minted: Ledger

    constructor ()
      ensures minted == map[]
    {
      minted := map[];
    }

    method Seal(token: string, c: Claims)
      modifies this
      ensures minted == old(minted)[token := c]
    {
      minted := minted[token := c];
    }
  }

  class Server {
    const cfg: H.Config
    const keys: KeyMaterial
    const guard: MemoryReplayGuard
    const regLimiter: RateLimiter
    const tokenLimiter: RateLimiter
    const cimdLimiter: RateLimiter
    /** Null when metadata documents are not enabled. */
    const cimd: CimdResolver?

    ghost var Repr: set<object>

    ghost predicate Valid()
      reads this, Repr
      ensures Valid() ==> this in Repr
    {
      && {this, keys, guard.c, regLimiter, tokenLimiter, cimdLimiter} <= Repr
      && regLimiter.Repr() <= Repr && tokenLimiter.Repr() <= Repr && cimdLimiter.Repr() <= Repr
      && (cimd != null ==> cimd.cache in Repr)
      && Settled() && Apart()
      && regLimiter.Valid() && tokenLimiter.Valid() && cimdLimiter.Valid()
    }

    /** The parts are those the configuration asks for. */
    ghost predicate Settled() {
      && cfg.Sane() && guard.Valid() && guard.c.capacity == cfg.guardSize
      && regLimiter.limits == cfg.register && tokenLimiter.limits == cfg.token && cimdLimiter.limits == cfg.authorize
      && (cimd == null <==> cfg.cimd.None?)
      && (cimd != null ==> cimd.Valid() && cimd.GetSettings() == cfg.cimd.value)
    }

    /** No two parts share memory. */
    ghost predicate Apart()
      reads regLimiter, tokenLimiter, cimdLimiter
    {
      && regLimiter.Repr() !! tokenLimiter.Repr() && regLimiter.Repr() !! cimdLimiter.Repr()
      && tokenLimiter.Repr() !! cimdLimiter.Repr()
      && Others() !! regLimiter.Repr() && Others() !! tokenLimiter.Repr() && Others() !! cimdLimiter.Repr()
    }

    ghost function Others(): set<object> {
      {this, keys, guard.c} + (if cimd == null then {} else {cimd.cache})
    }

    ghost function State(): H.State
      reads keys, guard.c, regLimiter, tokenLimiter, cimdLimiter, if cimd == null then {} else {cimd.cache}
    {
      H.State(keys.minted,
              H.Replica(guard.c.State(), regLimiter.counts, tokenLimiter.counts, cimdLimiter.counts,
                        if cimd == null then Contents(map[], []) else cimd.cache.State()))
    }

    /** Put together from parts that fit the configuration and share nothing. */
    constructor (cfg: H.Config, keys: KeyMaterial, guard: MemoryReplayGuard, regLimiter: RateLimiter,
                 tokenLimiter: RateLimiter, cimdLimiter: RateLimiter, cimd: CimdResolver?)
      requires cfg.Sane() && guard.Valid() && guard.c.capacity == cfg.guardSize
      requires regLimiter.Valid() && tokenLimiter.Valid() && cimdLimiter.Valid()
      requires regLimiter.limits == cfg.register && tokenLimiter.limits == cfg.token
      requires cimdLimiter.limits == cfg.authorize
      requires cimd == null <==> cfg.cimd.None?
      requires cimd != null ==> cimd.Valid() && cimd.GetSettings() == cfg.cimd.value
      requires regLimiter.Repr() !! tokenLimiter.Repr() && regLimiter.Repr() !! cimdLimiter.Repr()
      requires tokenLimiter.Repr() !! cimdLimiter.Repr()
      requires {keys, guard.c} !! regLimiter.Repr() + tokenLimiter.Repr() + cimdLimiter.Repr()
      requires cimd != null ==> cimd.cache !in regLimiter.Repr() + tokenLimiter.Repr() + cimdLimiter.Repr()
      ensures Valid()
      ensures this.cfg == cfg && this.keys == keys && this.guard == guard && this.cimd == cimd
      ensures this.regLimiter == regLimiter && this.tokenLimiter == tokenLimiter && this.cimdLimiter == cimdLimiter
      ensures Repr == Others() + regLimiter.Repr() + tokenLimiter.Repr() + cimdLimiter.Repr()
    {
      hide RateLimiter.Valid;
      this.cfg, this.keys, this.guard, this.cimd := cfg, keys, guard, cimd;
      this.regLimiter, this.tokenLimiter, this.cimdLimiter := regLimiter, tokenLimiter, cimdLimiter;
      new;
      Repr := Others() + regLimiter.Repr() + tokenLimiter.Repr() + cimdLimiter.Repr();
    }

    static method NewLimiters(cfg: H.Config) returns (r: RateLimiter, t: RateLimiter, a: RateLimiter)
      requires cfg.Sane()
      ensures r.Valid() && t.Valid() && a.Valid() && fresh(r.Repr()) && fresh(t.Repr()) && fresh(a.Repr())
      ensures r.Repr() !! t.Repr() && r.Repr() !! a.Repr() && t.Repr() !! a.Repr()
      ensures r.limits == cfg.register && t.limits == cfg.token && a.limits == cfg.authorize
      ensures r.counts == t.counts == a.counts == Contents(map[], [])
    {
      r := new RateLimiter(cfg.register);
      t := new RateLimiter(cfg.token);
      a := new RateLimiter(cfg.authorize);
      assert r.Repr() == {r, r.c} && t.Repr() == {t, t.c} && a.Repr() == {a, a.c};
    }

    /** Null when metadata documents are not enabled. */
    static method NewResolver(cimd: Option<CIMDOptions>) returns (r: CimdResolver?)
      ensures r == null <==> cimd.None?
      ensures r != null ==> r.Valid() && r.GetSettings() == SettingsOf(cimd.value) && fresh(r.cache)
                            && r.cache.State() == Contents(map[], [])
    {
      r := null;
      if cimd.Some? {
        r := new CimdResolver(cimd.value);
      }
    }

    /** A replica with this configuration, which starts with nothing remembered. */
    static method Assemble(cfg: H.Config, cimd: Option<CIMDOptions>, keys: KeyMaterial) returns (s: Server)
      requires cfg.Sane() && cfg.cimd == if cimd.Some? then Some(SettingsOf(cimd.value)) else None
      ensures s.Valid() && s.cfg == cfg && s.keys == keys && fresh(s.Repr - {keys})
      ensures s.State() == H.State(keys.minted, BLANK)
    {
      hide RateLimiter.Valid, SettingsOf, Server.Valid;
      var resolver := NewResolver(cimd);
      var guard := new MemoryReplayGuard(cfg.guardSize);
      var register, token, authorize := NewLimiters(cfg);
      s := new Server(cfg, keys, guard, register, token, authorize, resolver);
    }

    /** The server as the program starts it, with its own limits. */
    static method NewServer(as_: AS, lib: Library, cimd: Option<CIMDOptions>,
                            allowedEmails: seq<string>, allowedDomains: seq<string>, keys: KeyMaterial)
      returns (s: Server)
      ensures s.Valid() && s.keys == keys && s.cfg == H.Deployed(as_, lib, cimd, allowedEmails, allowedDomains)
      ensures s.regLimiter.limits == Limits(16384, 20, 60_000_000_000) && s.tokenLimiter.limits == Limits(16384, 120,
                                                                                                         60_000_000_000)
      ensures s.cimdLimiter.limits == Limits(16384, 30, 60_000_000_000) && s.guard.c.capacity == 8192
      ensures s.State() == H.State(keys.minted, BLANK)
    {
      s := Assemble(H.Deployed(as_, lib, cimd, allowedEmails, allowedDomains), cimd, keys);
    }

    // ---- the pieces of the state, one at a time -------------------------------------------

    method AllowRegistration(ip: string, now: int) returns (ok: bool)
      requires Valid()
      modifies Repr
      ensures Valid() && fresh(Repr - old(Repr))
      ensures State() == old(State()).(replica := old(State()).replica.(register := regLimiter.counts))
      ensures (ok, regLimiter.counts) == OnHit(old(regLimiter.counts), cfg.register, ip, now)
    {
      hide OnHit, RateLimiter.Valid;
      ok := regLimiter.Allow(ip, now);
      Repr := Repr + regLimiter.Repr();
    }

    method AllowToken(ip: string, now: int) returns (ok: bool)
      requires Valid()
      modifies Repr
      ensures Valid() && fresh(Repr - old(Repr))
      ensures State() == old(State()).(replica := old(State()).replica.(token := tokenLimiter.counts))
      ensures (ok, tokenLimiter.counts) == OnHit(old(tokenLimiter.counts), cfg.token, ip, now)
    {
      hide OnHit, RateLimiter.Valid;
      ok := tokenLimiter.Allow(ip, now);
      Repr := Repr + tokenLimiter.Repr();
    }

    method AllowAuthorize(ip: string, now: int) returns (ok: bool)
      requires Valid()
      modifies Repr
      ensures Valid() && fresh(Repr - old(Repr))
      ensures State() == old(State()).(replica := old(State()).replica.(authorize := cimdLimiter.counts))
      ensures (ok, cimdLimiter.counts) == OnHit(old(cimdLimiter.counts), cfg.authorize, ip, now)
    {
      hide OnHit, RateLimiter.Valid;
      ok := cimdLimiter.Allow(ip, now);
      Repr := Repr + cimdLimiter.Repr();
    }

    method Seal(token: string, c: Claims)
      requires Valid()
      modifies Repr
      ensures Valid() && fresh(Repr - old(Repr))
      ensures State() == old(State()).(ledger := old(State()).ledger[token := c])
    {
      hide RateLimiter.Valid;
      keys.Seal(token, c);
    }

    method Burn(id: string, ttl: int, now: int) returns (seen: bool)
      requires Valid()
      modifies Repr
      ensures Valid() && fresh(Repr - old(Repr))
      ensures (seen, State()) == H.Burn(cfg, old(State()), now, id, ttl)
    {
      hide RateLimiter.Valid, Seen;
      seen := guard.SeenBefore(id, ttl, now);
    }

    method ResolveClient(clientID: string, now: int, fetch: Outcome) returns (client: Result<ClientMetadata>)
      requires Valid()
      modifies Repr
      ensures Valid() && fresh(Repr - old(Repr))
      ensures var (c, cache) := H.ResolveClient(cfg, old(State()), clientID, now, fetch);
              client == c && State() == old(State()).(replica := old(State()).replica.(cimd := cache))
    {
      hide RateLimiter.Valid, Resolve, Contains;
      if clientID == "" {
        return Err("client_id is required");
      }
      if IsURLClientID(clientID) {
        if cimd == null {
          return Err("client ID metadata documents are not enabled");
        }
        ghost var fetched;
        client, fetched := cimd.ResolveURL(cfg.lib.parse, clientID, now, fetch);
        return;
      }
      var c := VerifyClientID(keys.minted, clientID);
      if c.None? {
        return Err("client_id does not verify");
      }
      client := Ok(ClientMetadata(clientID, c.value.clientName, "", c.value.redirectURIs, false));
    }

    // ---- registration ------------------------------------------------------------------

    method HandleRegister(now: int, ip: string, body: Option<H.Registration>, f: H.Fresh)
      returns (response: H.Response)
      requires Valid()
      modifies Repr
      ensures Valid() && fresh(Repr - old(Repr))
      ensures (State(), response) == H.HandleRegister(cfg, old(State()), now, ip, body, f)
    {
      hide OnHit, FirstProblem, MintClient, Valid;
      var ok := AllowRegistration(ip, now);
      if !ok {
        return H.Failed(429, "temporarily_unavailable");
      }
      if body.None? {
        return H.Failed(400, "invalid_client_metadata");
      }
      var req := body.value;
      if req.authMethod != "" && req.authMethod != "none" {
        return H.Failed(400, "invalid_client_metadata");
      }
      if |req.redirectURIs| == 0 {
        return H.Failed(400, "invalid_redirect_uri");
      }
      var problem := CheckRedirectURIs(cfg.lib.parse, req.redirectURIs);
      if problem.Some? {
        return H.Failed(400, "invalid_redirect_uri");
      }
      Seal(f.token, MintClient(now, f.id, req.redirectURIs, req.clientName));
      response := H.Registered(f.token, req.redirectURIs);
    }

    // ---- authorization -------------------------------------------------------------------

    /** The checks whose errors go back to the client, and the scope a query without any is granted. */
    method CheckParameters(q: H.Values) returns (problem: Option<string>, scope: string)
      ensures problem == H.ParameterProblem(cfg, q)
      ensures problem.None? ==> Scopes.Granted(cfg.as_.scopesSupported, H.Get(q, "scope")) == Ok(scope)
    {
      hide MatchesResource, Scopes.Granted;
      scope := "";
      if H.Get(q, "response_type") != "code" {
        return Some("unsupported_response_type"), scope;
      }
      if H.Get(q, "code_challenge") == "" || H.Get(q, "code_challenge_method") != "S256" {
        return Some("invalid_request"), scope;
      }
      if !MatchesResource(cfg.lib.parse, cfg.as_.canonicalResource, H.Get(q, "resource")) {
        return Some("invalid_target"), scope;
      }
      var granted := Scopes.GrantScope(cfg.as_.scopesSupported, H.Get(q, "scope"));
      if granted.Err? {
        return Some("invalid_scope"), scope;
      }
      problem, scope := None, granted.value;
    }

    method HandleAuthorizeGET(now: int, ip: string, q: H.Values, cookies: H.Cookies, fetch: Outcome, f: H.Fresh)
      returns (response: H.Response)
      requires Valid()
      modifies Repr
      ensures Valid() && fresh(Repr - old(Repr))
      ensures (State(), response) == H.HandleAuthorizeGET(cfg, old(State()), now, ip, q, cookies, fetch, f)
    {
      hide OnHit, Valid, Matches, Contains, Scopes.Granted, MintAuthReq;
      hide H.ParameterProblem, H.ResolveClient, H.UserAllowed;
      var clientID := H.Get(q, "client_id");
      if IsURLClientID(clientID) {
        var ok := AllowAuthorize(ip, now);
        if !ok {
          return H.Failed(429, "Too many requests");
        }
      }
      var client := ResolveClient(clientID, now, fetch);
      if client.Err? {
        return H.Failed(400, "Invalid request");
      }
      var redirectURI := H.Get(q, "redirect_uri");
      var matched := MatchRedirectURI(cfg.lib.parse, client.value.redirectURIs, redirectURI);
      if !matched {
        return H.Failed(400, "Invalid request");
      }
      var state := H.Get(q, "state");
      var problem, scope := CheckParameters(q);
      if problem.Some? {
        return H.RedirectError(cfg, redirectURI, problem.value, state);
      }
      var session := H.VerifyCookies(cookies, q);
      if session.Diverted? {
        return session.response;
      }
      if !H.UserAllowed(cfg, session.id.email) {
        return H.Failed(403, "Access denied");
      }
      var sealed := AuthReqInput(clientID, redirectURI, H.Get(q, "code_challenge"), cfg.as_.resource, scope, state,
                                 session.id.subject, session.id.email);
      Seal(f.token, MintAuthReq(cfg.as_, now, f.id, f.csrf, sealed));
      response := H.Consent(f.token, f.csrf, client.value, scope);
    }

    method HandleAuthorizePOST(now: int, origin: string, expectedOrigin: string, form: Option<H.Values>,
                               cookies: H.Cookies, f: H.Fresh) returns (response: H.Response)
      requires Valid()
      modifies Repr
      ensures Valid() && fresh(Repr - old(Repr))
      ensures (State(), response) == H.HandleAuthorizePOST(cfg, old(State()), now, origin, expectedOrigin, form,
                                                           cookies, f)
    {
      hide Valid, H.UserAllowed, MintCode;
      if !H.SameOrigin(origin, expectedOrigin) {
        return H.Failed(403, "bad origin");
      }
      if form.None? {
        return H.Failed(400, "invalid form");
      }
      var authReq := VerifyAuthReq(keys.minted, H.Get(form.value, "authreq"), now);
      if authReq.None? {
        return H.Failed(400, "Request expired");
      }
      var a := authReq.value;
      if H.Get(form.value, "csrf") != a.csrf {
        return H.Failed(400, "Invalid request");
      }
      if H.Get(form.value, "action") != "approve" {
        return H.RedirectError(cfg, a.redirectURI, "access_denied", a.state);
      }
      var session := H.Reauthenticate(cookies, a);
      if session.Diverted? {
        return session.response;
      }
      if !H.UserAllowed(cfg, session.id.email) {
        return H.Failed(403, "Access denied");
      }
      Seal(f.token, MintCode(cfg.as_, now, f.id, a));
      if cfg.lib.parse(a.redirectURI).None? {
        return H.Crashed;
      }
      response := H.CodeRedirect(a.redirectURI, f.token, cfg.as_.issuer, a.state);
    }

    // ---- tokens --------------------------------------------------------------------------------

    method IssueGrant(now: int, g: GrantInput, f: H.Fresh) returns (response: H.Response)
      requires Valid()
      modifies Repr
      ensures Valid() && fresh(Repr - old(Repr))
      ensures (State(), response) == H.IssueGrant(cfg, old(State()), now, g, f)
    {
      hide Valid, MintAccess, MintRefresh;
      Seal(f.token, MintAccess(cfg.as_, now, f.id, g));
      Seal(f.token2, MintRefresh(cfg.as_, now, f.id2, f.family, g));
      response := H.TokenGrant(f.token, f.token2, cfg.as_.accessTTL / SECOND, g.scope);
    }

    method HandleToken(now: int, ip: string, form: Option<H.Values>, f: H.Fresh) returns (response: H.Response)
      requires Valid()
      modifies Repr
      ensures Valid() && fresh(Repr - old(Repr))
      ensures (State(), response) == H.HandleToken(cfg, old(State()), now, ip, form, f)
    {
      hide Valid, OnHit, H.RedeemCode, H.RotateRefresh;
      var ok := AllowToken(ip, now);
      if !ok {
        return H.Failed(429, "temporarily_unavailable");
      }
      if form.None? {
        return H.Failed(400, "invalid_request");
      }
      var grantType := H.Get(form.value, "grant_type");
      if grantType == "authorization_code" {
        response := TokenAuthorizationCode(now, form.value, f);
      } else if grantType == "refresh_token" {
        response := TokenRefresh(now, form.value, f);
      } else {
        response := H.Failed(400, "unsupported_grant_type");
      }
    }

    method TokenAuthorizationCode(now: int, form: H.Values, f: H.Fresh) returns (response: H.Response)
      requires Valid()
      modifies Repr
      ensures Valid() && fresh(Repr - old(Repr))
      ensures (State(), response) == H.RedeemCode(cfg, old(State()), now, form, f)
    {
      hide Valid, H.Burn, H.IssueGrant;
      var verified := VerifyCode(keys.minted, H.Get(form, "code"), now);
      if verified.None? {
        return H.BadGrant();
      }
      var code := verified.value;
      var seen := Burn(code.id, cfg.as_.codeTTL, now);
      if seen {
        return H.BadGrant();
      }
      if H.Get(form, "client_id") != code.clientID {
        return H.BadGrant();
      }
      if H.Get(form, "redirect_uri") != code.redirectURI {
        return H.BadGrant();
      }
      if !H.VerifyPKCE(cfg.lib.hash, H.Get(form, "code_verifier"), code.codeChallenge) {
        return H.BadGrant();
      }
      response := IssueGrant(now, FromCode(code), f);
    }

    method TokenRefresh(now: int, form: H.Values, f: H.Fresh) returns (response: H.Response)
      requires Valid()
      modifies Repr
      ensures Valid() && fresh(Repr - old(Repr))
      ensures (State(), response) == H.RotateRefresh(cfg, old(State()), now, form, f)
    {
      hide Valid, H.Burn, H.IssueGrant;
      var verdict := VerifyRefreshToken(keys.minted, H.Get(form, "refresh_token"), now);
      if !verdict.Good? {
        return H.BadGrant();
      }
      var refresh := verdict.claims;
      var cid := H.Get(form, "client_id");
      if cid != "" && cid != refresh.clientID {
        return H.BadGrant();
      }
      var seen := Burn(refresh.id, cfg.as_.refreshTTL, now);
      if seen {
        return H.BadGrant();
      }
      response := IssueGrant(now, FromRefresh(refresh), f);
    }

    // ---- the protected resource ---------------------------------------------------------------------

    method HandleMCPVerify(now: int, authorization: string) returns (response: H.Response)
      requires Valid()
      ensures response == H.HandleMCPVerify(cfg, State().ledger, now, authorization)
    {
      var needed := Join(cfg.as_.requiredScopes, ' ');
      if authorization == "" {
        return H.Challenge(401, "", needed);
      }
      var token := H.BearerToken(authorization);
      if token.None? {
        return H.Challenge(401, "invalid_request", needed);
      }
      var claims := VerifyAccessToken(cfg.as_, keys.minted, token.value, now);
      if claims.None? {
        return H.Challenge(401, "invalid_token", needed);
      }
      if !H.UserAllowed(cfg, claims.value.email) {
        return H.Failed(403, "forbidden");
      }
      var enough := Scopes.HasRequiredScopes(cfg.as_.requiredScopes, claims.value.scope);
      if !enough {
        return H.Challenge(403, "insufficient_scope", needed);
      }
      response := H.Forwarded(claims.value.email, claims.value.sub);
    }

    // ---- any request -----------------------------------------------------------------------------------

    method Handle(now: int, r: H.Request, f: H.Fresh) returns (response: H.Response)
      requires Valid()
      modifies Repr
      ensures Valid() && fresh(Repr - old(Repr))
      ensures (State(), response) == H.Handle(cfg, old(State()), now, r, f)
    {
      hide Valid, H.HandleRegister, H.HandleAuthorizeGET, H.HandleAuthorizePOST, H.HandleToken, H.HandleMCPVerify;
      match r {
        case Register(ip, body) => response := HandleRegister(now, ip, body, f);
        case AuthorizeGET(ip, query, cookies, fetch) => response := HandleAuthorizeGET(now, ip, query, cookies, fetch,
                                                                                       f);
        case AuthorizePOST(origin, expected, form, cookies) =>
          response := HandleAuthorizePOST(now, origin, expected, form, cookies, f);
        case Token(ip, form) => response := HandleToken(now, ip, form, f);
        case MCPVerify(authorization) => response := HandleMCPVerify(now, authorization);
      }
    }
  }
}
