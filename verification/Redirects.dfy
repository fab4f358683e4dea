/** Where browsers are sent with codes and errors, over whole runs. */
module Redirects {
  import opened Wrappers
  import opened ReplayGuard
  import opened RateLimiter
  import opened Urls
  import opened Artifacts
  import opened Cimd
  import opened Handlers
  import opened Steps
  import opened Runs
  import opened Provenance
  import HostPolicy

  // ---- what clients are known by ----------------------------------------------------

  /** A remembered success is valid for the client_id it is stored under. */
  ghost predicate CacheSound(parse: Parser, c: Cimd.Cache) {
    forall k :: k in c.entries && Recall(c.entries[k].value).Ok? ==> ValidFor(parse, Recall(c.entries[k].value).value,
                                                                              k)
  }

  lemma ResolveKeepsCacheSound(s: Settings, parse: Parser, c: Cimd.Cache, clientID: string, now: int, fetch: Outcome)
    requires s.capacity >= 1 && CacheSound(parse, c)
    ensures var r := Resolve(s, parse, c, clientID, now, fetch);
            && CacheSound(parse, r.cache)
            && (r.result.Ok? ==> ValidFor(parse, r.result.value, clientID) && Refusal(s, parse, clientID).None?)
  {
    FetchedIsSound(parse, clientID, fetch, s.defaultTTL);
    ResolveEntries(s, parse, c, clientID, now, fetch);
  }

  lemma ResolveEntries(s: Settings, parse: Parser, c: Cimd.Cache, clientID: string, now: int, fetch: Outcome)
    requires s.capacity >= 1
    ensures var r := Resolve(s, parse, c, clientID, now, fetch);
            forall k :: k in r.cache.entries ==>
              || (k in c.entries && r.cache.entries[k] == c.entries[k])
              || (k == clientID && r.cache.entries[k] == ToEntry(Fetched(parse, clientID, fetch, s.defaultTTL), now))
  {
    hide Fetched, Refusal;
  }

  /** One step keeps the replica's cache sound. */
  lemma HandleKeepsCacheSound(cfg: Config, s: State, now: int, r: Request, f: Fresh)
    requires cfg.Sane() && CacheSound(cfg.lib.parse, s.replica.cimd)
    ensures CacheSound(cfg.lib.parse, Handle(cfg, s, now, r, f).0.replica.cimd)
  {
    hide CacheSound, Matches, OnHit;
    match r
    case Register(_, _) =>
    case AuthorizeGET(ip, query, cookies, fetch) =>
      IdentifyKeepsCacheSound(cfg, s, now, ip, query, fetch);
    case AuthorizePOST(_, _, _, _) =>
    case MCPVerify(_) =>
    case Token(_, _) =>
  }

  /** Metadata documents are enabled, and the URL is one the trust policy lets the server fetch. */
  predicate Trusted(cfg: Config, clientID: string) {
    cfg.cimd.Some? && cfg.lib.parse(clientID).Some? && CIMDProblem(cfg.lib.parse, clientID).None?
    && HostPolicy.Allows(cfg.cimd.value.policy, cfg.lib.parse(clientID).value.hostname)
  }

  /** The client behind a request that got past identification has only acceptable redirect URIs. */
  ghost predicate KnownBy(cfg: Config, l: Ledger, clientID: string, client: ClientMetadata) {
    if IsURLClientID(clientID) then Trusted(cfg, clientID) && ValidFor(cfg.lib.parse, client, clientID)
    else clientID in l && l[clientID].Client? && client.redirectURIs == l[clientID].redirectURIs
  }

  lemma IdentifyKeepsCacheSound(cfg: Config, s: State, now: int, ip: string, q: Values, fetch: Outcome)
    requires cfg.Sane() && CacheSound(cfg.lib.parse, s.replica.cimd)
    ensures var (t, who) := IdentifyClient(cfg, s, now, ip, q, fetch);
            && CacheSound(cfg.lib.parse, t.replica.cimd)
            && (who.Known? ==> KnownBy(cfg, s.ledger, Get(q, "client_id"), who.client)
                               && Matches(cfg.lib.parse, who.client.redirectURIs, Get(q, "redirect_uri")))
  {
    hide CacheSound, Matches, OnHit, Resolve, ValidFor;
    if cfg.cimd.Some? {
      ResolveKeepsCacheSound(cfg.cimd.value, cfg.lib.parse, s.replica.cimd, Get(q, "client_id"), now, fetch);
    }
  }

  lemma {:induction false} CachesStaySound(run: Run, r: nat, n: nat)
    requires run.Valid() && n <= |run.actions| && r < |run.worlds[0].replicas|
    ensures |run.worlds[n].replicas| == |run.worlds[0].replicas|
    ensures CacheSound(run.cfg.lib.parse, run.worlds[n].replicas[r].cimd)
  {
    if n == 0 {
      assert run.worlds[0].replicas[r] in run.worlds[0].replicas;
    } else {
      CachesStaySound(run, r, n - 1);
      StepKeepsCacheSound(run, r, n - 1);
    }
  }

  lemma StepKeepsCacheSound(run: Run, r: nat, n: nat)
    requires run.Valid() && n < |run.actions| && r < |run.worlds[0].replicas|
    requires CacheSound(run.cfg.lib.parse, run.worlds[n].replicas[r].cimd)
    ensures CacheSound(run.cfg.lib.parse, run.worlds[n + 1].replicas[r].cimd)
  {
    hide CacheSound, Handle;
    var a := run.actions[n];
    assert run.StepHolds(n);
    if a.replica == r {
      HandleKeepsCacheSound(run.cfg, run.StateAt(n), a.now, a.request, a.random);
    }
  }

  lemma RegisteredAreAcceptable(run: Run, n: nat, t: string)
    requires run.Genuine() && n <= |run.actions| && t in run.worlds[n].ledger && run.worlds[n].ledger[t].Client?
    ensures AllAcceptable(run.cfg.lib.parse, run.worlds[n].ledger[t].redirectURIs)
  {
    var k := MintedAt(run, n, t);
    LedgerStepAt(run, k);
  }

  // ---- identification in a run ------------------------------------------------------------

  /** Step `k` is an authorization request that identified `client` and matched `uri` against its list. */
  ghost predicate IdentifiedAt(run: Run, k: nat, client: ClientMetadata, uri: string)
    requires run.Shaped()
  {
    && k < |run.actions| && run.actions[k].request.AuthorizeGET?
    && var r := run.actions[k].request;
       && IdentifyClient(run.cfg, run.StateAt(k), run.actions[k].now, r.ip, r.query, r.fetch).1 == Known(client)
       && uri == Get(r.query, "redirect_uri")
       && KnownBy(run.cfg, run.worlds[k].ledger, Get(r.query, "client_id"), client)
       && Matches(run.cfg.lib.parse, client.redirectURIs, uri)
  }

  lemma Identification(run: Run, k: nat, client: ClientMetadata)
    requires run.Genuine() && k < |run.actions| && run.actions[k].request.AuthorizeGET?
    requires var r := run.actions[k].request;
             IdentifyClient(run.cfg, run.StateAt(k), run.actions[k].now, r.ip, r.query, r.fetch).1 == Known(client)
    ensures IdentifiedAt(run, k, client, Get(run.actions[k].request.query, "redirect_uri"))
    ensures AllAcceptable(run.cfg.lib.parse, client.redirectURIs)
  {
    var r := run.actions[k].request;
    CachesStaySound(run, run.actions[k].replica, k);
    IdentifyKeepsCacheSound(run.cfg, run.StateAt(k), run.actions[k].now, r.ip, r.query, r.fetch);
    var clientID := Get(r.query, "client_id");
    if !IsURLClientID(clientID) {
      RegisteredAreAcceptable(run, k, clientID);
    }
  }

  /** An authorization request answered with a consent page or an error redirect had its client identified. */
  lemma GETIdentifies(run: Run, k: nat) returns (client: ClientMetadata)
    requires run.Genuine() && k < |run.actions| && run.actions[k].request.AuthorizeGET?
    requires run.responses[k].Consent? || run.responses[k].ErrorRedirect?
    ensures IdentifiedAt(run, k, client, Get(run.actions[k].request.query, "redirect_uri"))
    ensures AllAcceptable(run.cfg.lib.parse, client.redirectURIs)
    ensures run.responses[k].ErrorRedirect? ==> run.responses[k].uri == Get(run.actions[k].request.query,
                                                                            "redirect_uri")
    ensures run.responses[k].Consent? ==> client == run.responses[k].client
  {
    hide IdentifiedAt, AllAcceptable, UserAllowed, Resolve, OnHit, Matches;
    var r := run.actions[k].request;
    assert run.StepHolds(k);
    IdentifyOnlyReads(run.cfg, run.StateAt(k), run.actions[k].now, r.ip, r.query, r.fetch);
    client := IdentifyClient(run.cfg, run.StateAt(k), run.actions[k].now, r.ip, r.query, r.fetch).1.client;
    Identification(run, k, client);
  }

  // ---- every redirect of a run ---------------------------------------------------------------

  /** A URI sealed in a blob was matched against its client's list when the blob was made. */
  lemma SealedIsVouched(run: Run, n: nat, blob: string) returns (k: nat, client: ClientMetadata)
    requires run.Genuine() && n <= |run.actions| && blob in run.worlds[n].ledger && run.worlds[n].ledger[blob].AuthReq?
    ensures k < n && SealedAt(run, k, blob, run.worlds[n].ledger[blob])
    ensures IdentifiedAt(run, k, client, run.worlds[n].ledger[blob].redirectURI)
    ensures AllAcceptable(run.cfg.lib.parse, client.redirectURIs)
  {
    hide IdentifiedAt, AllAcceptable;
    k := BlobOrigin(run, n, blob);
    client := GETIdentifies(run, k);
  }

  function TargetOf(r: Response): Option<string> {
    if r.CodeRedirect? || r.ErrorRedirect? then Some(r.uri) else None
  }

  /** The claims sealed in the blob that a request sends back. */
  ghost function PresentedBlob(run: Run, n: nat): Claims
    requires run.Shaped() && n < |run.actions|
    requires run.actions[n].request.AuthorizePOST? && run.actions[n].request.form.Some?
    requires Get(run.actions[n].request.form.value, "authreq") in run.worlds[n].ledger
  {
    run.worlds[n].ledger[Get(run.actions[n].request.form.value, "authreq")]
  }

  /**
    The authorization request that step `n` answers: step `n` itself, or the
    one that sealed the blob it was sent.
   */
  ghost predicate Answers(run: Run, n: nat, k: nat)
    requires run.Shaped() && n < |run.actions|
  {
    var r := run.actions[n].request;
    || (r.AuthorizeGET? && k == n)
    || (r.AuthorizePOST? && r.form.Some? && Get(r.form.value, "authreq") in run.worlds[n].ledger
        && k < n && SealedAt(run, k, Get(r.form.value, "authreq"), PresentedBlob(run, n)))
  }

  /**
    Redirect safety. Whatever URI a code or an error is sent to was matched
    against the list of the client identified at the very authorization request
    that is being answered: it is one of that list byte for byte, or loopback
    and different in the port only; and it is https or http on this machine,
    without a fragment. A code sent there is for that client and that URI, and
    for nobody else's. The response always names the issuer (section 2 of
    RFC 9207).
   */
  lemma RedirectsAreVouched(run: Run, n: nat) returns (k: nat, client: ClientMetadata)
    requires run.Genuine() && n < |run.actions| && TargetOf(run.responses[n]).Some?
    ensures var uri := TargetOf(run.responses[n]).value;
            && k <= n && Answers(run, n, k) && IdentifiedAt(run, k, client, uri)
            && SafeTarget(run.cfg.lib.parse, uri) && Vouched(run.cfg.lib.parse, client.redirectURIs, uri)
            && run.responses[n].iss == run.cfg.as_.issuer
    ensures run.responses[n].CodeRedirect? ==>
              var code, l := run.responses[n].code, run.worlds[n + 1].ledger;
              && code in l && l[code].Code? && code !in run.worlds[n].ledger
              && l[code].clientID == Get(run.actions[k].request.query, "client_id")
              && l[code].redirectURI == run.responses[n].uri
  {
    var uri := TargetOf(run.responses[n]).value;
    RedirectSource(run, n);
    if run.actions[n].request.AuthorizeGET? {
      k := n;
      client := GETIdentifies(run, n);
    } else {
      k, client := SealedIsVouched(run, n, Get(run.actions[n].request.form.value, "authreq"));
      CodeIsForThePresenter(run, n);
    }
    MatchedIsSafe(run.cfg.lib.parse, client.redirectURIs, uri);
  }

  /** A code goes out with the client and the URI of the blob it is given for. */
  lemma CodeIsForThePresenter(run: Run, n: nat)
    requires run.Genuine() && n < |run.actions|
    ensures run.responses[n].CodeRedirect? ==>
              var r, l := run.actions[n].request, run.worlds[n + 1].ledger;
              && r.AuthorizePOST? && r.form.Some? && Get(r.form.value, "authreq") in run.worlds[n].ledger
              && var a := PresentedBlob(run, n);
                 && a.AuthReq? && run.responses[n].code in l && run.responses[n].code !in run.worlds[n].ledger
                 && var c := l[run.responses[n].code];
                    c.Code? && c.clientID == a.clientID && c.redirectURI == a.redirectURI == run.responses[n].uri
  {
    LedgerStepAt(run, n);
    assert run.FreshAt(n);
  }

  /** Redirects come from the authorization endpoint, and those after consent go where the blob says. */
  lemma RedirectSource(run: Run, n: nat)
    requires run.Valid() && n < |run.actions| && TargetOf(run.responses[n]).Some?
    ensures run.responses[n].iss == run.cfg.as_.issuer
    ensures var r := run.actions[n].request;
            || (r.AuthorizeGET? && run.responses[n].ErrorRedirect?)
            || (r.AuthorizePOST? && r.form.Some? && Get(r.form.value, "authreq") in run.worlds[n].ledger
                && run.worlds[n].ledger[Get(r.form.value, "authreq")].AuthReq?
                && run.responses[n].uri == run.worlds[n].ledger[Get(r.form.value, "authreq")].redirectURI)
  {
    hide OnHit, Seen, UserAllowed, Resolve, Matches, Get;
    assert run.StepHolds(n);
    var a := run.actions[n];
    if a.request.AuthorizeGET? {
      IdentifyOnlyReads(run.cfg, run.StateAt(n), a.now, a.request.ip, a.request.query, a.request.fetch);
    }
  }

  /** Approving never fails on the redirect URI: what was sealed can always be parsed. */
  lemma NeverCrashes(run: Run, n: nat)
    requires run.Genuine() && n < |run.actions|
    ensures !run.responses[n].Crashed?
  {
    LedgerStepAt(run, n);
    if run.responses[n].Crashed? {
      CrashSource(run, n);
      var k, client := SealedIsVouched(run, n, Get(run.actions[n].request.form.value, "authreq"));
      MatchedIsSafe(run.cfg.lib.parse, client.redirectURIs, Get(run.actions[k].request.query, "redirect_uri"));
      assert false;
    }
  }

  lemma CrashSource(run: Run, n: nat)
    requires run.Valid() && n < |run.actions| && run.responses[n].Crashed?
    ensures var r := run.actions[n].request;
            && r.AuthorizePOST? && r.form.Some? && Get(r.form.value, "authreq") in run.worlds[n].ledger
            && run.worlds[n].ledger[Get(r.form.value, "authreq")].AuthReq?
            && run.cfg.lib.parse(run.worlds[n].ledger[Get(r.form.value, "authreq")].redirectURI).None?
  {
    hide OnHit, Seen, UserAllowed, Resolve, Matches, Get;
    assert run.StepHolds(n);
    var a := run.actions[n];
    if a.request.AuthorizeGET? {
      IdentifyOnlyReads(run.cfg, run.StateAt(n), a.now, a.request.ip, a.request.query, a.request.fetch);
    }
  }

  // ---- clients named by a URL -------------------------------------------------------------------

  /** The client an artifact is for, if it is for one. */
  function ClientOf(c: Claims): Option<string> {
    match c
    case Client(_, _, _, _) => None
    case _ => Some(c.clientID)
  }

  /**
    Whatever is minted in a run for a client named by a URL, be it a consent
    page, a code, an access or a refresh token, documents are enabled and the
    trust policy admits that URL's host: none of it is ever for any other.
   */
  lemma NothingForRefusedHosts(run: Run, n: nat, t: string)
    requires run.Genuine() && n <= |run.actions| && t in run.worlds[n].ledger
    requires var client := ClientOf(run.worlds[n].ledger[t]); client.Some? && IsURLClientID(client.value)
    ensures Trusted(run.cfg, ClientOf(run.worlds[n].ledger[t]).value)
  {
    hide Trusted, IsURLClientID, AllAcceptable, Matches, Descends;
    match run.worlds[n].ledger[t]
    case AuthReq(_, _, _, _, _, _, _, _, _, _, _, _) =>
      var k, client := SealedIsVouched(run, n, t);
    case Code(_, _, _, _, _, _, _, _, _, _) =>
      var p, blob, a := CodeOrigin(run, n, t);
      var k, client := SealedIsVouched(run, p, blob);
    case Access(_, _, _, _, _, _, _, _, _, _) => GrantIsTrusted(run, n, t);
    case Refresh(_, _, _, _, _, _, _, _, _) => GrantIsTrusted(run, n, t);
  }

  lemma GrantIsTrusted(run: Run, n: nat, t: string)
    requires run.Genuine() && n <= |run.actions| && t in run.worlds[n].ledger
    requires run.worlds[n].ledger[t].Access? || run.worlds[n].ledger[t].Refresh?
    requires IsURLClientID(run.worlds[n].ledger[t].clientID)
    ensures Trusted(run.cfg, run.worlds[n].ledger[t].clientID)
  {
    hide Trusted, IsURLClientID, AllAcceptable, Matches;
    var m, g := GrantOrigin(run, n, t);
    var lin, a := GrantDescends(run, m, g);
    GrantClient(run, n, t, m, g);
    var k, client := SealedIsVouched(run, lin.get + 1, lin.blob);
  }

  /** A token is for the client of its grant. */
  lemma GrantClient(run: Run, n: nat, t: string, k: nat, g: GrantInput)
    requires run.Genuine() && k < n <= |run.actions| && t in run.worlds[n].ledger && run.Granted(k)
    requires run.worlds[n].ledger[t].Access? || run.worlds[n].ledger[t].Refresh?
    requires t in run.worlds[k + 1].ledger && run.worlds[k + 1].ledger[t] == run.worlds[n].ledger[t]
    requires run.worlds[n].ledger[t].Access? ==> t == run.responses[k].access
    requires run.worlds[n].ledger[t].Refresh? ==> t == run.responses[k].refresh
    requires var a := run.actions[k];
             MintsGrant(run.cfg, run.worlds[k].ledger, a.now, a.request, a.random, run.responses[k],
                        run.worlds[k + 1].ledger, g)
    ensures run.worlds[n].ledger[t].clientID == g.clientID
  {
    assert run.FreshAt(k);
  }
}
