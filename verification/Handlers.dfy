/**
  The endpoints as functions: from the state of one replica and the ledger, a
  request, the clock and fresh values, to the new state and the response.
 */
module Handlers {
  import opened Wrappers
  import opened Text
  import opened Clock
  import opened ReplayGuard
  import opened RateLimiter
  import opened Urls
  import opened AuthServer
  import opened Artifacts
  import opened Cimd
  import Scopes

  // ---- configuration and state ------------------------------------------------------

  datatype Config = Config(as_: AS, lib: Library, guardSize: nat, register: Limits, token: Limits, authorize: Limits,
                           cimd: Option<Settings>, allowedEmails: seq<string>, allowedDomains: seq<string>)
  {
    predicate Sane() {
      && guardSize >= 1 && register.Sane() && token.Sane() && authorize.Sane()
      && (cimd.Some? ==> cimd.value.capacity >= 1)
    }
  }

  /** The limits the server is started with: per address and minute, for 16384 addresses. */
  const REGISTER_LIMITS := Limits(16384, 20, MINUTE)
  const TOKEN_LIMITS := Limits(16384, 120, MINUTE)
  const AUTHORIZE_LIMITS := Limits(16384, 30, MINUTE)

  const GUARD_SIZE := 8192

  /** The configuration the program runs with: its own limits and guard size, the rest as set up. */
  function Deployed(as_: AS, lib: Library, cimd: Option<CIMDOptions>,
                    allowedEmails: seq<string>, allowedDomains: seq<string>): (cfg: Config)
    ensures cfg.Sane() && cfg.as_ == as_ && cfg.lib == lib && cfg.guardSize == 8192
    ensures cfg.register == Limits(16384, 20, 60_000_000_000) && cfg.token == Limits(16384, 120, 60_000_000_000)
    ensures cfg.authorize == Limits(16384, 30, 60_000_000_000)
    ensures cfg.allowedEmails == allowedEmails && cfg.allowedDomains == allowedDomains
    ensures cfg.cimd.Some? <==> cimd.Some?
  {
    Config(as_, lib, GUARD_SIZE, REGISTER_LIMITS, TOKEN_LIMITS, AUTHORIZE_LIMITS,
           if cimd.Some? then Some(SettingsOf(cimd.value)) else None, allowedEmails, allowedDomains)
  }

  /** What one replica remembers; there is no client, session or grant record. */
  datatype Replica = Replica(guard: Guard<string>, register: Counts<string>, token: Counts<string>,
                             authorize: Counts<string>, cimd: Cimd.Cache)

  datatype State = State(ledger: Ledger, replica: Replica)

  /** Random values drawn by a request, and the strings its artifacts serialise to. */
  datatype Fresh = Fresh(token: string, token2: string, id: string, id2: string, family: string, csrf: string)

  // ---- requests and responses -----------------------------------------------------------

  type Values = map<string, string>

  function Get(v: Values, key: string): string {
    if key in v then v[key] else ""
  }

  datatype Registration = Registration(authMethod: string, redirectURIs: seq<string>, clientName: string)

  datatype Identity = Identity(subject: string, email: string)

  /** The session cookies, and what the ID-token verifier says of the first. */
  datatype Cookies = Cookies(idToken: string, refreshToken: string, verified: Option<Identity>)

  datatype Request =
    | Register(ip: string, body: Option<Registration>)
    | AuthorizeGET(ip: string, query: Values, cookies: Cookies, fetch: Outcome)
    | AuthorizePOST(origin: string, expectedOrigin: string, form: Option<Values>, cookies: Cookies)
    | Token(ip: string, form: Option<Values>)
    | MCPVerify(authorization: string)

  datatype Response =
    | Failed(status: int, error: string)
    | Registered(clientID: string, redirectURIs: seq<string>)
    | Consent(blob: string, csrf: string, client: ClientMetadata, scope: string)
    | SignIn(rd: Values)
    | RefreshPage(rd: Values)
    | ErrorRedirect(uri: string, error: string, iss: string, state: string)
    | CodeRedirect(uri: string, code: string, iss: string, state: string)
    | TokenGrant(access: string, refresh: string, expiresIn: int, scope: string)
    | Forwarded(email: string, user: string)
    | Challenge(status: int, error: string, scope: string)
    | Crashed

  // ---- guards shared by the endpoints ------------------------------------------------------

  predicate UserAllowed(cfg: Config, email: string) {
    if cfg.allowedEmails == [] && cfg.allowedDomains == [] then true
    else
      var e := ToLower(email);
      var at := AfterLast(e, '@');
      e in cfg.allowedEmails || (at.Some? && e[at.value..] in cfg.allowedDomains)
  }

  /**
    Without any allowlist everybody is let in; with one an address is iff it is
    listed itself, or what follows its last "@" is, both in lower case.
   */
  lemma UserAllowedExactly(cfg: Config, email: string)
    ensures UserAllowed(cfg, email) <==>
              || (cfg.allowedEmails == [] && cfg.allowedDomains == [])
              || ToLower(email) in cfg.allowedEmails
              || exists local: string, domain: string {:trigger local + "@" + domain} ::
                   ToLower(email) == local + "@" + domain && '@' !in domain && domain in cfg.allowedDomains
  {
    hide ToLower, AfterLast;
    var e := ToLower(email);
    var at := AfterLast(e, '@');
    if at.Some? {
      assert e == e[..at.value - 1] + "@" + e[at.value..];
    }
    forall local: string, domain: string | e == local + "@" + domain && '@' !in domain
      ensures at == Some(|local| + 1) && e[|local| + 1..] == domain
    {
      LastAt(local, domain);
    }
  }

  lemma LastAt(local: string, domain: string)
    requires '@' !in domain
    ensures var e := local + "@" + domain;
            AfterLast(e, '@') == Some(|local| + 1) && e[|local| + 1..] == domain
  {
    hide AfterLast;
    var e := local + "@" + domain;
    assert e[|local|] == '@' && e[|local| + 1..] == domain;
    assert forall i :: |local| < i < |e| ==> e[i] == domain[i - |local| - 1];
    forall i | 0 <= i <= |local|
      ensures '@' in e[i..]
    {
      assert e[i..][|local| - i] == '@';
    }
    assert AfterLast(e, '@').value == |local| + 1;
  }

  predicate SameOrigin(origin: string, expected: string) { origin != "" && origin == expected }

  /** The identity behind the cookies, or where the browser is sent to get one. */
  datatype Session = Authenticated(id: Identity) | Diverted(response: Response)

  function VerifyCookies(c: Cookies, rd: Values): Session {
    if c.idToken != "" && c.verified.Some? then Authenticated(c.verified.value)
    else if c.refreshToken != "" then Diverted(RefreshPage(rd))
    else Diverted(SignIn(rd))
  }

  function VerifyPKCE(hash: string -> string, verifier: string, challenge: string): bool {
    verifier != "" && challenge != "" && hash(verifier) == challenge
  }

  /** An OAuth error goes back to the client only if its URI can be parsed. */
  function RedirectError(cfg: Config, uri: string, error: string, state: string): Response {
    if cfg.lib.parse(uri).None? then Failed(400, "Invalid request")
    else ErrorRedirect(uri, error, cfg.as_.issuer, state)
  }

  // ---- registration ----------------------------------------------------------------------------

  function HandleRegister(cfg: Config, s: State, now: int, ip: string, body: Option<Registration>, f: Fresh)
    : (State, Response)
    requires cfg.Sane()
  {
    var (ok, counts) := OnHit(s.replica.register, cfg.register, ip, now);
    var s1 := s.(replica := s.replica.(register := counts));
    if !ok then (s1, Failed(429, "temporarily_unavailable"))
    else if body.None? then (s1, Failed(400, "invalid_client_metadata"))
    else
      var req := body.value;
      if req.authMethod != "" && req.authMethod != "none" then (s1, Failed(400, "invalid_client_metadata"))
      else if req.redirectURIs == [] then (s1, Failed(400, "invalid_redirect_uri"))
      else if FirstProblem(cfg.lib.parse, req.redirectURIs).Some? then (s1, Failed(400, "invalid_redirect_uri"))
      else
        (s1.(ledger := s.ledger[f.token := MintClient(now, f.id, req.redirectURIs, req.clientName)]),
         Registered(f.token, req.redirectURIs))
  }

  // ---- authorization -----------------------------------------------------------------------------

  /** The client behind a client_id: a fetched document for a URL, a minted artifact otherwise. */
  function ResolveClient(cfg: Config, s: State, clientID: string, now: int, fetch: Outcome)
    : (Result<ClientMetadata>, Cimd.Cache)
    requires cfg.Sane()
  {
    if clientID == "" then (Err("client_id is required"), s.replica.cimd)
    else if IsURLClientID(clientID) then
      if cfg.cimd.None? then (Err("client ID metadata documents are not enabled"), s.replica.cimd)
      else
        var r := Resolve(cfg.cimd.value, cfg.lib.parse, s.replica.cimd, clientID, now, fetch);
        (r.result, r.cache)
    else
      match VerifyClientID(s.ledger, clientID)
      case None => (Err("client_id does not verify"), s.replica.cimd)
      case Some(c) => (Ok(ClientMetadata(clientID, c.clientName, "", c.redirectURIs, false)), s.replica.cimd)
  }

  /** The per-address limit that applies to requests naming a metadata document. */
  function LimitAuthorize(cfg: Config, s: State, now: int, ip: string, clientID: string): (bool, State)
    requires cfg.Sane()
  {
    if IsURLClientID(clientID) then
      var (ok, counts) := OnHit(s.replica.authorize, cfg.authorize, ip, now);
      (ok, s.(replica := s.replica.(authorize := counts)))
    else (true, s)
  }

  /** The parameters checked once client and redirect URI are known; their errors go to the client. */
  function ParameterProblem(cfg: Config, q: Values): Option<string> {
    if Get(q, "response_type") != "code" then Some("unsupported_response_type")
    else if Get(q, "code_challenge") == "" || Get(q, "code_challenge_method") != "S256" then Some("invalid_request")
    else if !MatchesResource(cfg.lib.parse, cfg.as_.canonicalResource, Get(q, "resource")) then Some("invalid_target")
    else if Scopes.Granted(cfg.as_.scopesSupported, Get(q, "scope")).Err? then Some("invalid_scope")
    else None
  }

  /** What a consent blob seals for a checked query and an identity. */
  function ToSeal(cfg: Config, q: Values, id: Identity): AuthReqInput
    requires ParameterProblem(cfg, q).None?
  {
    AuthReqInput(Get(q, "client_id"), Get(q, "redirect_uri"), Get(q, "code_challenge"), cfg.as_.resource,
                 Scopes.Granted(cfg.as_.scopesSupported, Get(q, "scope")).value, Get(q, "state"),
                 id.subject, id.email)
  }

  datatype Identified = Known(client: ClientMetadata) | Refused(response: Response)

  /** Rate limit, client and redirect URI: until all three are settled nothing goes back to the client. */
  function IdentifyClient(cfg: Config, s: State, now: int, ip: string, q: Values, fetch: Outcome): (State, Identified)
    requires cfg.Sane()
  {
    var clientID := Get(q, "client_id");
    var (ok, s1) := LimitAuthorize(cfg, s, now, ip, clientID);
    if !ok then (s1, Refused(Failed(429, "Too many requests")))
    else
      var (client, cache) := ResolveClient(cfg, s1, clientID, now, fetch);
      var s2 := s1.(replica := s1.replica.(cimd := cache));
      if client.Err? then (s2, Refused(Failed(400, "Invalid request")))
      else if !Matches(cfg.lib.parse, client.value.redirectURIs, Get(q, "redirect_uri")) then
        (s2, Refused(Failed(400, "Invalid request")))
      else (s2, Known(client.value))
  }

  function HandleAuthorizeGET(cfg: Config, s: State, now: int, ip: string, q: Values, cookies: Cookies,
                              fetch: Outcome, f: Fresh): (State, Response)
    requires cfg.Sane()
  {
    var (s1, identified) := IdentifyClient(cfg, s, now, ip, q, fetch);
    match identified
    case Refused(response) => (s1, response)
    case Known(client) =>
      match ParameterProblem(cfg, q)
      case Some(error) => (s1, RedirectError(cfg, Get(q, "redirect_uri"), error, Get(q, "state")))
      case None =>
        match VerifyCookies(cookies, q)
        case Diverted(response) => (s1, response)
        case Authenticated(id) =>
          if !UserAllowed(cfg, id.email) then (s1, Failed(403, "Access denied"))
          else
            var sealed := ToSeal(cfg, q, id);
            (s1.(ledger := s.ledger[f.token := MintAuthReq(cfg.as_, now, f.id, f.csrf, sealed)]),
             Consent(f.token, f.csrf, client, sealed.scope))
  }

  /** The query that resumes a sealed request after a sign-in. */
  function Reconstruct(a: Claims): Values
    requires a.AuthReq?
  {
    var q := map["client_id" := a.clientID, "redirect_uri" := a.redirectURI, "response_type" := "code",
                 "code_challenge" := a.codeChallenge, "code_challenge_method" := "S256", "resource" := a.resource];
    var q1 := if a.scope != "" then q["scope" := a.scope] else q;
    if a.state != "" then q1["state" := a.state] else q1
  }

  /** The cookie's identity, provided it is the one the blob was sealed for. */
  function Reauthenticate(c: Cookies, a: Claims): Session
    requires a.AuthReq?
  {
    match VerifyCookies(c, Reconstruct(a))
    case Diverted(response) => Diverted(response)
    case Authenticated(id) => if id.subject != a.sub then Diverted(SignIn(Reconstruct(a))) else Authenticated(id)
  }

  function HandleAuthorizePOST(cfg: Config, s: State, now: int, origin: string, expectedOrigin: string,
                               form: Option<Values>, cookies: Cookies, f: Fresh): (State, Response)
  {
    if !SameOrigin(origin, expectedOrigin) then (s, Failed(403, "bad origin"))
    else if form.None? then (s, Failed(400, "invalid form"))
    else
      match VerifyAuthReq(s.ledger, Get(form.value, "authreq"), now)
      case None => (s, Failed(400, "Request expired"))
      case Some(a) =>
        if Get(form.value, "csrf") != a.csrf then (s, Failed(400, "Invalid request"))
        else if Get(form.value, "action") != "approve" then
          (s, RedirectError(cfg, a.redirectURI, "access_denied", a.state))
        else
          match Reauthenticate(cookies, a)
          case Diverted(response) => (s, response)
          case Authenticated(id) =>
            if !UserAllowed(cfg, id.email) then (s, Failed(403, "Access denied"))
            else
              (s.(ledger := s.ledger[f.token := MintCode(cfg.as_, now, f.id, a)]),
               if cfg.lib.parse(a.redirectURI).None? then Crashed
               else CodeRedirect(a.redirectURI, f.token, cfg.as_.issuer, a.state))
  }

  // ---- tokens -----------------------------------------------------------------------------------

  function BadGrant(): Response { Failed(400, "invalid_grant") }

  /** An access and a refresh token for one grant. */
  function IssueGrant(cfg: Config, s: State, now: int, g: GrantInput, f: Fresh): (State, Response) {
    (s.(ledger := s.ledger[f.token := MintAccess(cfg.as_, now, f.id, g)]
                          [f.token2 := MintRefresh(cfg.as_, now, f.id2, f.family, g)]),
     TokenGrant(f.token, f.token2, cfg.as_.accessTTL / SECOND, g.scope))
  }

  /** Present an identifier to the replica's guard. */
  function Burn(cfg: Config, s: State, now: int, id: string, ttl: int): (bool, State)
    requires cfg.Sane()
  {
    var (seen, guard) := Seen(s.replica.guard, cfg.guardSize, id, ttl, now);
    (seen, s.(replica := s.replica.(guard := guard)))
  }

  function RedeemCode(cfg: Config, s: State, now: int, form: Values, f: Fresh): (State, Response)
    requires cfg.Sane()
  {
    match VerifyCode(s.ledger, Get(form, "code"), now)
    case None => (s, BadGrant())
    case Some(code) =>
      var (seen, s1) := Burn(cfg, s, now, code.id, cfg.as_.codeTTL);
      if seen then (s1, BadGrant())
      else if Get(form, "client_id") != code.clientID then (s1, BadGrant())
      else if Get(form, "redirect_uri") != code.redirectURI then (s1, BadGrant())
      else if !VerifyPKCE(cfg.lib.hash, Get(form, "code_verifier"), code.codeChallenge) then (s1, BadGrant())
      else IssueGrant(cfg, s1, now, FromCode(code), f)
  }

  function RotateRefresh(cfg: Config, s: State, now: int, form: Values, f: Fresh): (State, Response)
    requires cfg.Sane()
  {
    match VerifyRefreshToken(s.ledger, Get(form, "refresh_token"), now)
    case Expired => (s, BadGrant())
    case Invalid => (s, BadGrant())
    case Good(refresh) =>
      if Get(form, "client_id") != "" && Get(form, "client_id") != refresh.clientID then (s, BadGrant())
      else
        var (seen, s1) := Burn(cfg, s, now, refresh.id, cfg.as_.refreshTTL);
        if seen then (s1, BadGrant())
        else IssueGrant(cfg, s1, now, FromRefresh(refresh), f)
  }

  function HandleToken(cfg: Config, s: State, now: int, ip: string, form: Option<Values>, f: Fresh): (State, Response)
    requires cfg.Sane()
  {
    var (ok, counts) := OnHit(s.replica.token, cfg.token, ip, now);
    var s1 := s.(replica := s.replica.(token := counts));
    if !ok then (s1, Failed(429, "temporarily_unavailable"))
    else if form.None? then (s1, Failed(400, "invalid_request"))
    else if Get(form.value, "grant_type") == "authorization_code" then RedeemCode(cfg, s1, now, form.value, f)
    else if Get(form.value, "grant_type") == "refresh_token" then RotateRefresh(cfg, s1, now, form.value, f)
    else (s1, Failed(400, "unsupported_grant_type"))
  }

  // ---- the protected resource ------------------------------------------------------------------------

  const BEARER := "bearer "

  function BearerToken(authorization: string): Option<string> {
    if |authorization| <= |BEARER| || ToLower(authorization[..|BEARER|]) != BEARER then None
    else Some(TrimSpace(authorization[|BEARER|..]))
  }

  /** "Bearer " with each letter in either case. */
  predicate SpelledBearer(s: string) {
    && |s| == 7 && s[0] in "Bb" && s[1] in "Ee" && s[2] in "Aa" && s[3] in "Rr" && s[4] in "Ee" && s[5] in "Rr"
    && s[6] == ' '
  }

  lemma SchemeExactly(s: string)
    requires |s| == 7
    ensures ToLower(s) == "bearer " <==> SpelledBearer(s)
  {
    var t := ToLower(s);
    assert t == "bearer " <==> && t[0] == 'b' && t[1] == 'e' && t[2] == 'a' && t[3] == 'r' && t[4] == 'e' && t[5] == 'r'
                               && t[6] == ' ';
  }

  /** A header carries a token iff something follows the scheme; the token is that, trimmed. */
  lemma BearerExactly(authorization: string)
    ensures BearerToken(authorization).Some? <==> |authorization| > 7 && SpelledBearer(authorization[..7])
    ensures BearerToken(authorization).Some? ==> BearerToken(authorization).value == TrimSpace(authorization[7..])
  {
    if |authorization| > 7 {
      SchemeExactly(authorization[..7]);
    }
  }

  /** A token is read from every header that spells the scheme and puts nothing but white space around it. */
  lemma BearerReads(scheme: string, front: string, token: string, back: string)
    requires SpelledBearer(scheme) && AllSpace(front) && AllSpace(back) && token != "" && Tight(token)
    ensures BearerToken(scheme + front + token + back) == Some(token)
  {
    var header := scheme + front + token + back;
    assert header == scheme + (front + token + back);
    assert header[..7] == scheme && header[7..] == front + token + back;
    BearerExactly(header);
    TrimSpaceExactly(front, token, back);
  }

  function HandleMCPVerify(cfg: Config, l: Ledger, now: int, authorization: string): Response {
    var needed := Join(cfg.as_.requiredScopes, ' ');
    if authorization == "" then Challenge(401, "", needed)
    else
      match BearerToken(authorization)
      case None => Challenge(401, "invalid_request", needed)
      case Some(token) =>
        match VerifyAccessToken(cfg.as_, l, token, now)
        case None => Challenge(401, "invalid_token", needed)
        case Some(claims) =>
          if !UserAllowed(cfg, claims.email) then Failed(403, "forbidden")
          else if !Scopes.Covers(cfg.as_.requiredScopes, claims.scope) then Challenge(403, "insufficient_scope", needed)
          else Forwarded(claims.email, claims.sub)
  }

  // ---- one step of a replica -----------------------------------------------------------------------------

  function Handle(cfg: Config, s: State, now: int, r: Request, f: Fresh): (State, Response)
    requires cfg.Sane()
  {
    match r
    case Register(ip, body) => HandleRegister(cfg, s, now, ip, body, f)
    case AuthorizeGET(ip, query, cookies, fetch) => HandleAuthorizeGET(cfg, s, now, ip, query, cookies, fetch, f)
    case AuthorizePOST(origin, expected, form, cookies) =>
      HandleAuthorizePOST(cfg, s, now, origin, expected, form, cookies, f)
    case Token(ip, form) => HandleToken(cfg, s, now, ip, form, f)
    case MCPVerify(authorization) => (s, HandleMCPVerify(cfg, s.ledger, now, authorization))
  }
}
