/** What one request does to the ledger and to the guard of the replica it reaches. */
module Steps {
  import opened Clock
  import opened ReplayGuard
  import opened RateLimiter
  import opened Urls
  import opened Artifacts
  import opened Cimd
  import opened Handlers

  /** Everything drawn at random is new: to the ledger and to the request itself. */
  ghost predicate FreshFor(l: Ledger, f: Fresh) {
    && f.token !in l && f.token2 !in l && f.token != f.token2 && f.id != f.id2 && f.family != ""
    && (forall t :: t in l ==> l[t].id != f.id && l[t].id != f.id2)
    && (forall t :: t in l && l[t].Refresh? ==> l[t].family != f.family)
  }

  /** Artifacts are never taken back or changed. */
  ghost predicate Extends(l: Ledger, m: Ledger) {
    forall t :: t in l ==> t in m && m[t] == l[t]
  }

  // ---- who mints what ---------------------------------------------------------------

  /** The request registered a client under `t`. */
  ghost predicate MintsClient(cfg: Config, now: int, r: Request, f: Fresh, response: Response, t: string, c: Claims) {
    && r.Register? && r.body.Some?
    && response == Registered(t, r.body.value.redirectURIs)
    && c == MintClient(now, f.id, r.body.value.redirectURIs, r.body.value.clientName)
    && r.body.value.redirectURIs != [] && AllAcceptable(cfg.lib.parse, r.body.value.redirectURIs)
  }

  /** The request showed a consent page with blob `t`, after every check passed. */
  ghost predicate MintsBlob(cfg: Config, now: int, r: Request, f: Fresh, response: Response, t: string, c: Claims) {
    && r.AuthorizeGET? && response.Consent? && response.blob == t && response.csrf == f.csrf
    && ParameterProblem(cfg, r.query).None?
    && r.cookies.idToken != "" && r.cookies.verified.Some? && UserAllowed(cfg, r.cookies.verified.value.email)
    && Matches(cfg.lib.parse, response.client.redirectURIs, Get(r.query, "redirect_uri"))
    && c == MintAuthReq(cfg.as_, now, f.id, f.csrf, ToSeal(cfg, r.query, r.cookies.verified.value))
    && response.scope == c.scope
  }

  /** The request approved the live blob it presented, as the identity sealed in it, and got code `t`. */
  ghost predicate MintsCode(cfg: Config, l: Ledger, now: int, r: Request, f: Fresh, response: Response, t: string,
                            c: Claims) {
    && r.AuthorizePOST? && r.origin != "" && r.origin == r.expectedOrigin && r.form.Some?
    && var blob := VerifyAuthReq(l, Get(r.form.value, "authreq"), now);
       && blob.Some?
       && Get(r.form.value, "csrf") == blob.value.csrf && Get(r.form.value, "action") == "approve"
       && r.cookies.idToken != "" && r.cookies.verified.Some?
       && r.cookies.verified.value.subject == blob.value.sub && UserAllowed(cfg, r.cookies.verified.value.email)
       && c == MintCode(cfg.as_, now, f.id, blob.value)
       && response == (if cfg.lib.parse(blob.value.redirectURI).None? then Crashed
                       else CodeRedirect(blob.value.redirectURI, t, cfg.as_.issuer, blob.value.state))
  }

  /** The request presents this code in full: right client, right URI, right verifier. */
  ghost predicate Redeems(cfg: Config, now: int, r: Request, code: Claims) {
    && r.Token? && r.form.Some? && Get(r.form.value, "grant_type") == "authorization_code"
    && code.Code? && InForceCode(code, now)
    && Get(r.form.value, "client_id") == code.clientID
    && Get(r.form.value, "redirect_uri") == code.redirectURI
    && Get(r.form.value, "code_verifier") != "" && code.codeChallenge != ""
    && cfg.lib.hash(Get(r.form.value, "code_verifier")) == code.codeChallenge
  }

  ghost predicate InForceCode(code: Claims, now: int)
    requires code.Code?
  {
    code.iat <= now <= code.exp
  }

  /** The request presents this refresh token, and no client_id but its own. */
  ghost predicate Rotates(now: int, r: Request, refresh: Claims) {
    && r.Token? && r.form.Some? && Get(r.form.value, "grant_type") == "refresh_token"
    && refresh.Refresh? && refresh.iat - 60_000_000_000 <= now <= refresh.exp + 60_000_000_000
    && (Get(r.form.value, "client_id") == "" || Get(r.form.value, "client_id") == refresh.clientID)
  }

  /** The grant a token request is answered with comes from the artifact it presented. */
  ghost predicate GrantsFrom(cfg: Config, l: Ledger, now: int, r: Request, g: GrantInput) {
    && r.Token? && r.form.Some?
    && ((Get(r.form.value, "code") in l
         && Redeems(cfg, now, r, l[Get(r.form.value, "code")]) && g == FromCode(l[Get(r.form.value, "code")]))
        || (Get(r.form.value, "refresh_token") in l
            && Rotates(now, r, l[Get(r.form.value, "refresh_token")])
            && g == FromRefresh(l[Get(r.form.value, "refresh_token")])))
  }

  /** The request was answered with an access and a refresh token for one grant. */
  ghost predicate MintsGrant(cfg: Config, l: Ledger, now: int, r: Request, f: Fresh, response: Response,
                             m: Ledger, g: GrantInput)
  {
    && GrantsFrom(cfg, l, now, r, g)
    && response == TokenGrant(f.token, f.token2, cfg.as_.accessTTL / SECOND, g.scope)
    && m == l[f.token := MintAccess(cfg.as_, now, f.id, g)][f.token2 := MintRefresh(cfg.as_, now, f.id2, f.family, g)]
  }

  /** Every request either leaves the ledger alone or mints in one of these ways. */
  ghost predicate LedgerStep(cfg: Config, l: Ledger, now: int, r: Request, f: Fresh, response: Response, m: Ledger) {
    || (m == l && !response.TokenGrant? && !response.Consent? && !response.CodeRedirect? && !response.Registered?)
    || (f.token in m && m == l[f.token := m[f.token]] && !response.TokenGrant?
        && (|| MintsClient(cfg, now, r, f, response, f.token, m[f.token])
            || MintsBlob(cfg, now, r, f, response, f.token, m[f.token])
            || MintsCode(cfg, l, now, r, f, response, f.token, m[f.token])))
    || exists g :: MintsGrant(cfg, l, now, r, f, response, m, g)
  }

  lemma HandleIsLedgerStep(cfg: Config, s: State, now: int, r: Request, f: Fresh)
    requires cfg.Sane()
    ensures var (t, response) := Handle(cfg, s, now, r, f);
            LedgerStep(cfg, s.ledger, now, r, f, response, t.ledger)
  {
    match r
    case Register(_, _) => RegisterIsLedgerStep(cfg, s, now, r, f);
    case AuthorizeGET(_, _, _, _) => GETIsLedgerStep(cfg, s, now, r, f);
    case AuthorizePOST(_, _, _, _) => POSTIsLedgerStep(cfg, s, now, r, f);
    case MCPVerify(_) => VerifyIsLedgerStep(cfg, s, now, r, f);
    case Token(_, _) => TokenIsLedgerStep(cfg, s, now, r, f);
  }

  lemma RegisterIsLedgerStep(cfg: Config, s: State, now: int, r: Request, f: Fresh)
    requires cfg.Sane() && r.Register?
    ensures var (t, response) := HandleRegister(cfg, s, now, r.ip, r.body, f);
            LedgerStep(cfg, s.ledger, now, r, f, response, t.ledger)
  {
  }

  lemma IdentifyOnlyReads(cfg: Config, s: State, now: int, ip: string, q: Values, fetch: Outcome)
    requires cfg.Sane()
    ensures var (t, who) := IdentifyClient(cfg, s, now, ip, q, fetch);
            && t.ledger == s.ledger && t.replica.guard == s.replica.guard
            && (who.Known? ==> Matches(cfg.lib.parse, who.client.redirectURIs, Get(q, "redirect_uri")))
            && (who.Refused? ==> who.response.Failed?)
            // nothing is fetched, or remembered, but for an address within its limit
            && (t.replica.cimd != s.replica.cimd ==>
                  IsURLClientID(Get(q, "client_id")) && cfg.cimd.Some? && OnHit(s.replica.authorize, cfg.authorize, ip,
                                                                                now).0)
  {
    hide Matches, Resolve, OnHit;
  }

  lemma GETIsLedgerStep(cfg: Config, s: State, now: int, r: Request, f: Fresh)
    requires cfg.Sane() && r.AuthorizeGET?
    ensures var (t, response) := HandleAuthorizeGET(cfg, s, now, r.ip, r.query, r.cookies, r.fetch, f);
            LedgerStep(cfg, s.ledger, now, r, f, response, t.ledger)
  {
    hide Matches, Resolve, OnHit, UserAllowed, MatchesResource;
    IdentifyOnlyReads(cfg, s, now, r.ip, r.query, r.fetch);
    var (t, response) := HandleAuthorizeGET(cfg, s, now, r.ip, r.query, r.cookies, r.fetch, f);
    if response.Consent? {
      assert MintsBlob(cfg, now, r, f, response, f.token, t.ledger[f.token]);
    }
  }

  lemma POSTIsLedgerStep(cfg: Config, s: State, now: int, r: Request, f: Fresh)
    requires cfg.Sane() && r.AuthorizePOST?
    ensures var (t, response) := HandleAuthorizePOST(cfg, s, now, r.origin, r.expectedOrigin, r.form, r.cookies, f);
            LedgerStep(cfg, s.ledger, now, r, f, response, t.ledger)
  {
  }

  lemma VerifyIsLedgerStep(cfg: Config, s: State, now: int, r: Request, f: Fresh)
    requires cfg.Sane() && r.MCPVerify?
    ensures LedgerStep(cfg, s.ledger, now, r, f, HandleMCPVerify(cfg, s.ledger, now, r.authorization), s.ledger)
  {
  }

  lemma TokenIsLedgerStep(cfg: Config, s: State, now: int, r: Request, f: Fresh)
    requires cfg.Sane() && r.Token?
    ensures var (t, response) := HandleToken(cfg, s, now, r.ip, r.form, f);
            LedgerStep(cfg, s.ledger, now, r, f, response, t.ledger)
  {
    hide OnHit, Seen;
    var (t, response) := HandleToken(cfg, s, now, r.ip, r.form, f);
    if response.TokenGrant? {
      var form := r.form.value;
      var g := if Get(form, "grant_type") == "authorization_code" then FromCode(s.ledger[Get(form, "code")])
               else FromRefresh(s.ledger[Get(form, "refresh_token")]);
      assert MintsGrant(cfg, s.ledger, now, r, f, response, t.ledger, g);
    }
  }
}
