/** Resuming an authorization that lost its session: the rebuilt request is as good as the original. */
module Resume {
  import opened Wrappers
  import opened Text
  import opened RateLimiter
  import opened Urls
  import opened AuthServer
  import opened Artifacts
  import opened Cimd
  import opened Handlers
  import opened Runs
  import opened Provenance
  import opened Redirects
  import Scopes

  /** Two blobs seal the same request for the same person. */
  ghost predicate SameSeal(a: Claims, b: Claims) {
    && a.AuthReq? && b.AuthReq?
    && a.sub == b.sub && a.email == b.email && a.clientID == b.clientID && a.redirectURI == b.redirectURI
    && a.codeChallenge == b.codeChallenge && a.resource == b.resource && a.scope == b.scope && a.state == b.state
  }

  /** The rebuilt query says everything the blob does. */
  lemma ReconstructReads(a: Claims)
    requires a.AuthReq?
    ensures var q := Reconstruct(a);
            && Get(q, "client_id") == a.clientID && Get(q, "redirect_uri") == a.redirectURI
            && Get(q, "response_type") == "code" && Get(q, "code_challenge") == a.codeChallenge
            && Get(q, "code_challenge_method") == "S256" && Get(q, "resource") == a.resource
            && Get(q, "scope") == a.scope && Get(q, "state") == a.state
  {
  }

  /** What a blob seals has passed every parameter check once already. */
  lemma SealedParameters(run: Run, k: nat, blob: string, a: Claims)
    requires run.Genuine() && SealedAt(run, k, blob, a)
    ensures a.codeChallenge != ""
  {
    LedgerStepAt(run, k);
    var r := run.actions[k].request;
    assert ParameterProblem(run.cfg, r.query).None?;
  }

  /** What the scopes of a request have to be for it to be resumed: named, or advertised as they read back. */
  ghost predicate Resumable(cfg: Config, scope: string) {
    Fields(scope) != [] || Scopes.ReadsBack(cfg.as_.scopesSupported)
  }

  /** They all pass again in the rebuilt query, but for the scope, which is granted unchanged iff resumable. */
  lemma ParametersPassAgain(run: Run, k: nat, blob: string, a: Claims)
    requires run.Genuine() && WellBuilt(run.cfg.lib, run.cfg.as_) && SealedAt(run, k, blob, a)
    ensures Scopes.Granted(run.cfg.as_.scopesSupported, a.scope) == Ok(a.scope)
       <==> Resumable(run.cfg, Get(run.actions[k].request.query, "scope"))
    ensures a.AuthReq? && (ParameterProblem(run.cfg, Reconstruct(a)).None?
                           <==> Scopes.Granted(run.cfg.as_.scopesSupported, a.scope).Ok?)
    ensures a.resource == run.cfg.as_.resource && UserAllowed(run.cfg, a.email)
  {
    hide MatchesResource, UserAllowed, Scopes.Granted;
    ReconstructReads(a);
    SealedParameters(run, k, blob, a);
    Scopes.RegrantedExactly(run.cfg.as_.scopesSupported, Get(run.actions[k].request.query, "scope"));
  }

  /** The rate limiter lets the query through and its client is still known with the given redirect URIs. */
  ghost predicate StillKnown(cfg: Config, s: State, now: int, ip: string, q: Values, fetch: Outcome,
                             redirectURIs: seq<string>)
    requires cfg.Sane()
  {
    var (ok, s1) := LimitAuthorize(cfg, s, now, ip, Get(q, "client_id"));
    var found := ResolveClient(cfg, s1, Get(q, "client_id"), now, fetch).0;
    ok && found.Ok? && found.value.redirectURIs == redirectURIs
  }

  /** The request was answered with a consent page whose blob seals the same as `a`, and rebuilds the same query. */
  ghost predicate ConsentsAgain(cfg: Config, s: State, now: int, ip: string, cookies: Cookies, fetch: Outcome, f: Fresh,
                                a: Claims, redirectURIs: seq<string>)
    requires cfg.Sane() && a.AuthReq?
  {
    var (t, response) := HandleAuthorizeGET(cfg, s, now, ip, Reconstruct(a), cookies, fetch, f);
    && response.Consent? && response.blob == f.token && response.scope == a.scope
    && response.client.redirectURIs == redirectURIs
    && f.token in t.ledger && SameSeal(a, t.ledger[f.token]) && Reconstruct(t.ledger[f.token]) == Reconstruct(a)
  }

  /**
    Resuming with the query rebuilt from a blob, as the same person, while the
    client is still known with the same redirect URIs and the rate limiter lets
    the request through. Consent is shown again, with a new blob that seals
    exactly what the old one did and would be rebuilt to the same query once
    more, if and only if the request named a scope or the supported list, as
    advertised, reads back as it is.
   */
  lemma ResumeIsFaithful(run: Run, k: nat, blob: string, a: Claims, client: ClientMetadata,
                         s: State, now: int, ip: string, cookies: Cookies, fetch: Outcome, f: Fresh)
    requires run.Genuine() && WellBuilt(run.cfg.lib, run.cfg.as_)
    requires SealedAt(run, k, blob, a) && IdentifiedAt(run, k, client, a.redirectURI)
    requires cookies.idToken != "" && cookies.verified == Some(Identity(a.sub, a.email))
    requires StillKnown(run.cfg, s, now, ip, Reconstruct(a), fetch, client.redirectURIs)
    ensures ConsentsAgain(run.cfg, s, now, ip, cookies, fetch, f, a, client.redirectURIs)
       <==> Resumable(run.cfg, Get(run.actions[k].request.query, "scope"))
  {
    hide OnHit, Resolve, Matches, MatchesResource, UserAllowed, Scopes.Granted, ParameterProblem, LimitAuthorize,
         ResolveClient, HandleAuthorizeGET, IdentifyClient, StillKnown, ConsentsAgain, Resumable;
    ReconstructReads(a);
    ParametersPassAgain(run, k, blob, a);
    IdentifiesAgain(run.cfg, s, now, ip, Reconstruct(a), fetch, client);
    SealsAgain(run.cfg, s, now, ip, Reconstruct(a), cookies, fetch, f, a);
  }

  lemma IdentifiesAgain(cfg: Config, s: State, now: int, ip: string, q: Values, fetch: Outcome, client: ClientMetadata)
    requires cfg.Sane() && Matches(cfg.lib.parse, client.redirectURIs, Get(q, "redirect_uri"))
    requires StillKnown(cfg, s, now, ip, q, fetch, client.redirectURIs)
    ensures var who := IdentifyClient(cfg, s, now, ip, q, fetch).1;
            who.Known? && who.client.redirectURIs == client.redirectURIs
  {
    hide OnHit, Resolve, Matches;
  }

  lemma SealsAgain(cfg: Config, s: State, now: int, ip: string, q: Values, cookies: Cookies, fetch: Outcome, f: Fresh,
                   a: Claims)
    requires cfg.Sane() && a.AuthReq? && q == Reconstruct(a)
    requires ParameterProblem(cfg, q).None? <==> Scopes.Granted(cfg.as_.scopesSupported, a.scope).Ok?
    requires a.resource == cfg.as_.resource && UserAllowed(cfg, a.email)
    requires cookies.idToken != "" && cookies.verified == Some(Identity(a.sub, a.email))
    requires IdentifyClient(cfg, s, now, ip, q, fetch).1.Known?
    ensures ConsentsAgain(cfg, s, now, ip, cookies, fetch, f, a, IdentifyClient(cfg, s, now, ip, q,
                                                                                fetch).1.client.redirectURIs)
       <==> Scopes.Granted(cfg.as_.scopesSupported, a.scope) == Ok(a.scope)
  {
    hide OnHit, Resolve, Matches, MatchesResource, UserAllowed, Scopes.Granted, IdentifyClient;
    ReconstructReads(a);
  }

  /**
    A request that left its scope out, on a server whose one supported scope
    has a space inside: it was shown consent, and when resumed is sent back to
    the client with an error.
   */
  lemma SpacedScopeIsNotResumed(run: Run, k: nat, blob: string, a: Claims, client: ClientMetadata, x: string, y: string,
                                s: State, now: int, ip: string, cookies: Cookies, fetch: Outcome, f: Fresh)
    requires run.Genuine() && WellBuilt(run.cfg.lib, run.cfg.as_)
    requires SealedAt(run, k, blob, a) && IdentifiedAt(run, k, client, a.redirectURI)
    requires Get(run.actions[k].request.query, "scope") == ""
    requires IsToken(x) && IsToken(y) && run.cfg.as_.scopesSupported == [x + [' '] + y]
    requires StillKnown(run.cfg, s, now, ip, Reconstruct(a), fetch, client.redirectURIs)
    ensures HandleAuthorizeGET(run.cfg, s, now, ip, Reconstruct(a), cookies, fetch, f).1
         == RedirectError(run.cfg, a.redirectURI, "invalid_scope", a.state)
  {
    hide OnHit, Resolve, Matches, MatchesResource, UserAllowed, IdentifyClient, StillKnown, Scopes.Granted;
    ReconstructReads(a);
    Scopes.SpacedIsRefused(x, y);
    SealedParameters(run, k, blob, a);
    IdentifiesAgain(run.cfg, s, now, ip, Reconstruct(a), fetch, client);
  }

  /** A registered client is known with the same redirect URIs for the rest of the run, at every replica. */
  lemma RegisteredClientStays(run: Run, k: nat, n: nat, client: ClientMetadata, uri: string,
                              replica: Replica, now: int, fetch: Outcome)
    requires run.Genuine() && IdentifiedAt(run, k, client, uri) && k <= n <= |run.actions|
    requires var clientID := Get(run.actions[k].request.query, "client_id"); !IsURLClientID(clientID) && clientID != ""
    ensures var found := ResolveClient(run.cfg, State(run.worlds[n].ledger, replica),
                                       Get(run.actions[k].request.query, "client_id"), now, fetch).0;
            found.Ok? && found.value.redirectURIs == client.redirectURIs
  {
    hide OnHit, Resolve, AllAcceptable;
    LedgerKeeps(run, k, n);
    assert client.redirectURIs != [] by {
      assert Matches(run.cfg.lib.parse, client.redirectURIs, uri);
    }
  }
}
