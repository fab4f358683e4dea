/**
  What each endpoint answers, case by case, in the words and numbers of the
  protocol: which status, which error code, sent where, and with what effect on
  what has been minted.
 */
module Answers {
  import opened Wrappers
  import opened Text
  import opened RateLimiter
  import opened ReplayGuard
  import opened Urls
  import opened AuthServer
  import opened Artifacts
  import opened Cimd
  import opened Handlers
  import opened Steps
  import opened Runs
  import opened Provenance
  import opened Redirects
  import Scopes

  // ---- registration --------------------------------------------------------------------

  /** A body that asks for a public client with redirect URIs that may all be registered. */
  ghost predicate WellFormed(parse: Parser, body: Registration) {
    && body.authMethod in ["", "none"] && body.redirectURIs != []
    && forall uri <- body.redirectURIs :: Registrable(parse, uri)
  }

  lemma RegistrationAnswers(cfg: Config, s: State, now: int, ip: string, body: Option<Registration>, f: Fresh)
    requires cfg.Sane()
    ensures var (t, response) := HandleRegister(cfg, s, now, ip, body, f);
            if !OnHit(s.replica.register, cfg.register, ip, now).0 then
              response == Failed(429, "temporarily_unavailable") && t.ledger == s.ledger
            else if body.None? || body.value.authMethod !in ["", "none"] then
              response == Failed(400, "invalid_client_metadata") && t.ledger == s.ledger
            else if !WellFormed(cfg.lib.parse, body.value) then
              response == Failed(400, "invalid_redirect_uri") && t.ledger == s.ledger
            else
              && response == Registered(f.token, body.value.redirectURIs)
              && t.ledger == s.ledger[f.token := Client(now / 1_000_000_000 * 1_000_000_000, f.id,
                                                        body.value.redirectURIs, body.value.clientName)]
  {
    hide OnHit, Acceptable, Registrable;
    if body.Some? {
      forall uri | uri in body.value.redirectURIs
        ensures Acceptable(cfg.lib.parse, uri) <==> Registrable(cfg.lib.parse, uri)
      {
        AcceptableExactly(cfg.lib.parse, uri);
      }
    }
  }

  // ---- authorization ---------------------------------------------------------------------

  /** Before the client and its URI are settled, errors stay here: too many documents asked for, or a bad request. */
  lemma UnidentifiedAnswers(cfg: Config, s: State, now: int, ip: string, q: Values, fetch: Outcome)
    requires cfg.Sane()
    ensures var who := IdentifyClient(cfg, s, now, ip, q, fetch).1;
            who.Refused? ==>
              who.response == if IsURLClientID(Get(q, "client_id")) && !OnHit(s.replica.authorize, cfg.authorize, ip,
                                                                              now).0
                              then Failed(429, "Too many requests") else Failed(400, "Invalid request")
  {
    hide OnHit, Resolve, Matches, IsURLClientID;
  }

  /** A client_id that is no URL is known exactly if it was registered, and then by what it registered. */
  lemma RegisteredClientIsKnown(cfg: Config, s: State, now: int, ip: string, q: Values, fetch: Outcome)
    requires cfg.Sane() && !IsURLClientID(Get(q, "client_id"))
    ensures var clientID, who := Get(q, "client_id"), IdentifyClient(cfg, s, now, ip, q, fetch).1;
            && (who.Known? <==> && clientID != "" && clientID in s.ledger && s.ledger[clientID].Client?
                                && s.ledger[clientID].redirectURIs != []
                                && Matches(cfg.lib.parse, s.ledger[clientID].redirectURIs, Get(q, "redirect_uri")))
            && (who.Known? ==> who.client == ClientMetadata(clientID, s.ledger[clientID].clientName, "",
                                                            s.ledger[clientID].redirectURIs, false))
  {
    hide OnHit, Resolve, Matches, IsURLClientID;
  }

  /** Where a browser without a session is sent, and that it comes back with the same query. */
  function Detour(c: Cookies, back: Values): Response {
    if c.refreshToken != "" then RefreshPage(back) else SignIn(back)
  }

  /** Somebody signed in behind these cookies. */
  predicate SignedIn(c: Cookies) { c.idToken != "" && c.verified.Some? }

  /**
    Once client and URI are known, the first check that fails gives the answer;
    errors go to the client with the issuer and its own state; the page shows
    what is asked for, by whom and for what.
   */
  lemma AuthorizationAnswers(run: Run, n: nat, client: ClientMetadata)
    requires run.Genuine() && n < |run.actions| && run.actions[n].request.AuthorizeGET?
    requires var r := run.actions[n].request;
             IdentifyClient(run.cfg, run.StateAt(n), run.actions[n].now, r.ip, r.query, r.fetch).1 == Known(client)
    ensures var a := run.actions[n];
            var q, c, as_ := a.request.query, a.request.cookies, run.cfg.as_;
            var uri, state := Get(q, "redirect_uri"), Get(q, "state");
            run.responses[n] ==
              if Get(q, "response_type") != "code" then
                ErrorRedirect(uri, "unsupported_response_type", as_.issuer, state)
              else if Get(q, "code_challenge") == "" || Get(q, "code_challenge_method") != "S256" then
                ErrorRedirect(uri, "invalid_request", as_.issuer, state)
              else if !MatchesResource(run.cfg.lib.parse, as_.canonicalResource, Get(q, "resource")) then
                ErrorRedirect(uri, "invalid_target", as_.issuer, state)
              else if exists scope <- Fields(Get(q, "scope")) :: scope !in as_.scopesSupported then
                ErrorRedirect(uri, "invalid_scope", as_.issuer, state)
              else if !SignedIn(c) then Detour(c, q)
              else if !UserAllowed(run.cfg, c.verified.value.email) then Failed(403, "Access denied")
              else Consent(a.random.token, a.random.csrf, client,
                           Scopes.Granted(as_.scopesSupported, Get(q, "scope")).value)
  {
    hide OnHit, Resolve, Matches, MatchesResource, UserAllowed, Fields, IsURLClientID, IdentifyClient, IdentifiedAt,
         AllAcceptable, Get, Scopes.Granted;
    var q := run.actions[n].request.query;
    Identification(run, n, client);
    assert Matches(run.cfg.lib.parse, client.redirectURIs, Get(q, "redirect_uri")) by {
      MatchedThere(run, n, client, Get(q, "redirect_uri"));
    }
    MatchedIsSafe(run.cfg.lib.parse, client.redirectURIs, Get(q, "redirect_uri"));
    Scopes.GrantMeansRequest(run.cfg.as_.scopesSupported, Get(q, "scope"));
    assert run.StepHolds(n);
  }

  lemma MatchedThere(run: Run, n: nat, client: ClientMetadata, uri: string)
    requires run.Shaped() && IdentifiedAt(run, n, client, uri)
    ensures Matches(run.cfg.lib.parse, client.redirectURIs, uri)
  {
  }

  /** The blob a form sends back, while it is in force. */
  ghost predicate InHand(l: Ledger, form: Values, now: int) {
    && Get(form, "authreq") in l && l[Get(form, "authreq")].AuthReq?
    && l[Get(form, "authreq")].iat <= now <= l[Get(form, "authreq")].exp
  }

  /**
    The consent form, sent back: from another origin, or from none, it has no
    effect at all; a browser without a session, or with another person's, goes
    to sign in and comes back with the request it had been shown.
   */
  lemma ApprovalAnswers(cfg: Config, s: State, now: int, origin: string, expected: string,
                        form: Option<Values>, c: Cookies, f: Fresh)
    ensures var (t, response) := HandleAuthorizePOST(cfg, s, now, origin, expected, form, c, f);
            if origin == "" || origin != expected then t == s && response == Failed(403, "bad origin")
            else if form.None? then t == s && response == Failed(400, "invalid form")
            else if !InHand(s.ledger, form.value, now) then t == s && response == Failed(400, "Request expired")
            else
              var a := s.ledger[Get(form.value, "authreq")];
              if Get(form.value, "csrf") != a.csrf then t == s && response == Failed(400, "Invalid request")
              else if Get(form.value, "action") != "approve" then
                && t == s
                && response == if cfg.lib.parse(a.redirectURI).None? then Failed(400, "Invalid request")
                               else ErrorRedirect(a.redirectURI, "access_denied", cfg.as_.issuer, a.state)
              else if !SignedIn(c) then t == s && response == Detour(c, Reconstruct(a))
              else if c.verified.value.subject != a.sub then t == s && response == SignIn(Reconstruct(a))
              else if !UserAllowed(cfg, c.verified.value.email) then t == s && response == Failed(403, "Access denied")
              else
                && t.replica == s.replica
                && t.ledger == s.ledger[f.token := Code(a.sub, now / 1_000_000_000 * 1_000_000_000,
                                                        (now + cfg.as_.codeTTL) / 1_000_000_000 * 1_000_000_000,
                                                        f.id, a.clientID, a.redirectURI, a.codeChallenge,
                                                        a.resource, a.scope, a.email)]
                && response == if cfg.lib.parse(a.redirectURI).None? then Crashed
                               else CodeRedirect(a.redirectURI, f.token, cfg.as_.issuer, a.state)
  {
    hide UserAllowed, Reconstruct;
  }

  /** Over runs: whatever a form brings about, a code or an error for the client, it was sent from this very origin. */
  lemma OnlySameOriginCounts(run: Run, n: nat)
    requires run.Valid() && n < |run.actions| && run.actions[n].request.AuthorizePOST?
    ensures var r := run.actions[n].request;
            if r.origin == "" || r.origin != r.expectedOrigin then
              run.responses[n] == Failed(403, "bad origin") && run.worlds[n + 1] == run.worlds[n]
            else
              run.responses[n] != Failed(403, "bad origin")
    ensures var r := run.actions[n].request;
            (run.responses[n].CodeRedirect? || run.responses[n].ErrorRedirect? || run.worlds[n + 1] != run.worlds[n])
            ==> r.origin != "" && r.origin == r.expectedOrigin
  {
    hide HandleAuthorizePOST, UserAllowed, Reconstruct;
    var a := run.actions[n];
    assert run.StepHolds(n);
    ApprovalAnswers(run.cfg, run.StateAt(n), a.now, a.request.origin, a.request.expectedOrigin, a.request.form,
                    a.request.cookies, a.random);
  }

  // ---- tokens -----------------------------------------------------------------------------

  /** The token endpoint: its errors, and what a grant says of itself. */
  lemma TokenAnswers(cfg: Config, s: State, now: int, ip: string, form: Option<Values>, f: Fresh)
    requires cfg.Sane()
    ensures var (t, response) := HandleToken(cfg, s, now, ip, form, f);
            if !OnHit(s.replica.token, cfg.token, ip, now).0 then response == Failed(429, "temporarily_unavailable")
            else if form.None? then response == Failed(400, "invalid_request")
            else if Get(form.value, "grant_type") !in ["authorization_code", "refresh_token"] then
              response == Failed(400, "unsupported_grant_type")
            else if response.TokenGrant? then
              && response.access == f.token && response.refresh == f.token2
              && response.expiresIn == cfg.as_.accessTTL / 1_000_000_000
            else response == Failed(400, "invalid_grant")
    ensures var (t, response) := HandleToken(cfg, s, now, ip, form, f);
            !response.TokenGrant? ==> t.ledger == s.ledger
  {
    hide OnHit, Seen;
  }

  // ---- the protected resource -----------------------------------------------------------------

  /** A token the resource accepts: an access token of this issuer for this resource, within its time and the leeway. */
  ghost predicate Accepted(as_: AS, l: Ledger, t: string, now: int) {
    && t in l && l[t].Access? && l[t].iss == as_.issuer && l[t].aud == as_.resource
    && l[t].nbf - 60_000_000_000 <= now && l[t].iat - 60_000_000_000 <= now && now <= l[t].exp + 60_000_000_000
  }

  /** The resource check: what each header is answered, with the scopes that are required. */
  lemma ResourceAnswers(cfg: Config, l: Ledger, now: int, header: string)
    ensures var needed := Join(cfg.as_.requiredScopes, ' ');
            HandleMCPVerify(cfg, l, now, header) ==
              if header == "" then Challenge(401, "", needed)
              else if |header| <= 7 || !SpelledBearer(header[..7]) then Challenge(401, "invalid_request", needed)
              else if !Accepted(cfg.as_, l, TrimSpace(header[7..]), now) then Challenge(401, "invalid_token", needed)
              else
                var c := l[TrimSpace(header[7..])];
                if !UserAllowed(cfg, c.email) then Failed(403, "forbidden")
                else if exists scope <- cfg.as_.requiredScopes :: scope !in Fields(c.scope) then
                  Challenge(403, "insufficient_scope", needed)
                else Forwarded(c.email, c.sub)
  {
    hide UserAllowed, Fields, TrimSpace, SpelledBearer, BearerToken, Join;
    BearerExactly(header);
  }

  // ---- verifying ----------------------------------------------------------------------------------

  /** When the other artifacts verify, in numbers: codes and blobs without leeway, refresh tokens with a minute's. */
  lemma VerifyExactly(l: Ledger, t: string, now: int)
    ensures VerifyClientID(l, t).Some? <==> t in l && l[t].Client? && l[t].redirectURIs != []
    ensures VerifyAuthReq(l, t, now).Some? <==> t in l && l[t].AuthReq? && l[t].iat <= now <= l[t].exp
    ensures VerifyCode(l, t, now).Some? <==> t in l && l[t].Code? && l[t].iat <= now <= l[t].exp
    ensures VerifyRefreshToken(l, t, now).Good?
       <==> t in l && l[t].Refresh? && l[t].iat - 60_000_000_000 <= now <= l[t].exp + 60_000_000_000
    ensures VerifyRefreshToken(l, t, now).Expired?
       <==> t in l && l[t].Refresh? && now > l[t].exp + 60_000_000_000
    ensures VerifyClientID(l, t).Some? ==> VerifyClientID(l, t).value == l[t]
    ensures VerifyAuthReq(l, t, now).Some? ==> VerifyAuthReq(l, t, now).value == l[t]
    ensures VerifyCode(l, t, now).Some? ==> VerifyCode(l, t, now).value == l[t]
    ensures VerifyRefreshToken(l, t, now).Good? ==> VerifyRefreshToken(l, t, now).claims == l[t]
  {
  }
}
