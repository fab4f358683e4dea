/** Metadata documents over runs: how old the ones shown can be, and how often they are fetched. */
module Documents {
  import opened Wrappers
  import opened Clock
  import opened Recency
  import opened ReplayGuard
  import opened RateLimiter
  import opened Urls
  import opened Cimd
  import opened Handlers
  import opened Runs
  import opened AuthServer
  import opened Redirects
  import HostPolicy

  /** The request gets as far as the resolver: it names a URL and its address is within the limit. */
  predicate Resolving(cfg: Config, s: State, now: int, r: Request)
    requires cfg.Sane()
  {
    && r.AuthorizeGET? && cfg.cimd.Some? && IsURLClientID(Get(r.query, "client_id"))
    && OnHit(s.replica.authorize, cfg.authorize, r.ip, now).0
  }

  /** What a request asks the resolver. */
  function QueryOf(r: Request, now: int): Query
    requires r.AuthorizeGET?
  {
    Query(Get(r.query, "client_id"), now, r.fetch)
  }

  /** The cache changes by exactly what is asked; a client named by a URL is the one resolved. */
  lemma HandleResolves(cfg: Config, s: State, now: int, r: Request, f: Fresh)
    requires cfg.Sane()
    ensures var (t, response) := Handle(cfg, s, now, r, f);
            if Resolving(cfg, s, now, r) then
              var q := QueryOf(r, now);
              var answer := Resolve(cfg.cimd.value, cfg.lib.parse, s.replica.cimd, q.clientID, now, q.outcome);
              t.replica.cimd == answer.cache && (response.Consent? ==> answer.result == Ok(response.client))
            else
              && t.replica.cimd == s.replica.cimd
              && (response.Consent? ==> r.AuthorizeGET? && !IsURLClientID(Get(r.query, "client_id")))
  {
    hide OnHit, Seen, Resolve, Matches, MatchesResource, UserAllowed, IsURLClientID;
    match r
    case Register(_, _) =>
    case AuthorizeGET(ip, query, cookies, fetch) => GETResolves(cfg, s, now, r, f);
    case AuthorizePOST(_, _, _, _) =>
    case Token(_, _) =>
    case MCPVerify(_) =>
  }

  lemma GETResolves(cfg: Config, s: State, now: int, r: Request, f: Fresh)
    requires cfg.Sane() && r.AuthorizeGET?
    ensures var (t, response) := HandleAuthorizeGET(cfg, s, now, r.ip, r.query, r.cookies, r.fetch, f);
            if Resolving(cfg, s, now, r) then
              var q := QueryOf(r, now);
              var answer := Resolve(cfg.cimd.value, cfg.lib.parse, s.replica.cimd, q.clientID, now, q.outcome);
              t.replica.cimd == answer.cache && (response.Consent? ==> answer.result == Ok(response.client))
            else
              && t.replica.cimd == s.replica.cimd
              && (response.Consent? ==> !IsURLClientID(Get(r.query, "client_id")))
  {
    hide OnHit, Resolve, Matches, MatchesResource, UserAllowed, IsURLClientID, ParameterProblem, ToSeal, Get;
    NoURL();
  }

  lemma NoURL()
    ensures !IsURLClientID("")
  {
  }

  // ---- the queries of a run ---------------------------------------------------------------

  /** Step `n` asks the resolver of replica `r`. */
  predicate Consults(run: Run, r: nat, n: nat)
    requires run.Shaped() && n < |run.actions|
  {
    run.actions[n].replica == r && Resolving(run.cfg, run.StateAt(n), run.actions[n].now, run.actions[n].request)
  }

  function QueryAt(run: Run, n: nat): Query
    requires n < |run.actions| && run.actions[n].request.AuthorizeGET?
  {
    QueryOf(run.actions[n].request, run.actions[n].now)
  }

  /** What the resolver of a replica is asked in the first `n` steps. */
  function Queries(run: Run, r: nat, n: nat): seq<Query>
    requires run.Shaped() && n <= |run.actions|
  {
    if n == 0 then [] else Queries(run, r, n - 1) + (if Consults(run, r, n - 1) then [QueryAt(run, n - 1)] else [])
  }

  lemma {:induction false} QueriesGrow(run: Run, r: nat, n: nat, m: nat)
    requires run.Shaped() && n <= m <= |run.actions|
    ensures Queries(run, r, n) <= Queries(run, r, m)
    decreases m
  {
    if n < m {
      QueriesGrow(run, r, n, m - 1);
    }
  }

  /** The step of a query. */
  lemma {:induction false} StepOf(run: Run, r: nat, j: nat, a: nat) returns (n: nat)
    requires run.Shaped() && j <= |run.actions| && a < |Queries(run, r, j)|
    ensures n < j && Consults(run, r, n) && |Queries(run, r, n)| == a && Queries(run, r, j)[a] == QueryAt(run, n)
    decreases j
  {
    hide Resolving;
    if a < |Queries(run, r, j - 1)| {
      n := StepOf(run, r, j - 1, a);
    } else {
      n := j - 1;
    }
  }

  lemma QueriesInOrder(run: Run, r: nat, j: nat, a: nat, b: nat)
    requires run.Shaped() && run.OneClock() && j <= |run.actions| && a <= b < |Queries(run, r, j)|
    ensures Queries(run, r, j)[a].now <= Queries(run, r, j)[b].now
  {
    hide Consults;
    var m := StepOf(run, r, j, a);
    var n := StepOf(run, r, j, b);
    if n < m {
      QueriesGrow(run, r, n, m);
    }
  }

  lemma StepResolves(run: Run, r: nat, n: nat)
    requires run.Valid() && n < |run.actions| && r < |run.worlds[0].replicas|
    ensures var before, after := run.worlds[n].replicas[r].cimd, run.worlds[n + 1].replicas[r].cimd;
            if Consults(run, r, n) then
              var q := QueryAt(run, n);
              var answer := Resolve(run.cfg.cimd.value, run.cfg.lib.parse, before, q.clientID, q.now, q.outcome);
              after == answer.cache && (run.responses[n].Consent? ==> answer.result == Ok(run.responses[n].client))
            else after == before
  {
    hide Handle, Resolve, OnHit;
    var a := run.actions[n];
    assert run.StepHolds(n);
    HandleResolves(run.cfg, run.StateAt(n), a.now, a.request, a.random);
  }

  /** The cache of a replica is that of its queries. */
  lemma {:induction false} CacheOverRun(run: Run, r: nat, n: nat)
    requires run.Valid() && n <= |run.actions| && r < |run.worlds[0].replicas| && run.cfg.cimd.Some?
    ensures var queries := Queries(run, r, |run.actions|);
            && |Queries(run, r, n)| <= |queries|
            && run.worlds[n].replicas[r].cimd == After(run.cfg.cimd.value, run.cfg.lib.parse, queries, |Queries(run, r,
                                                                                                                n)|)
  {
    hide Resolve, OnHit, Handle;
    QueriesGrow(run, r, n, |run.actions|);
    if n == 0 {
      assert run.worlds[0].replicas[r] in run.worlds[0].replicas;
    } else {
      CacheOverRun(run, r, n - 1);
      StepResolves(run, r, n - 1);
      QueriesGrow(run, r, n - 1, |run.actions|);
      if Consults(run, r, n - 1) {
        assert Queries(run, r, |run.actions|)[|Queries(run, r, n - 1)|] == QueryAt(run, n - 1);
      }
    }
  }

  /** Step `n` makes an outbound request, on replica `r`. */
  predicate Fetches(run: Run, r: nat, n: nat)
    requires run.Shaped() && n < |run.actions| && r < |run.worlds[0].replicas|
  {
    && Consults(run, r, n)
    && var q := QueryAt(run, n);
       Resolve(run.cfg.cimd.value, run.cfg.lib.parse, run.worlds[n].replicas[r].cimd, q.clientID, q.now,
               q.outcome).fetched
  }

  /** A query of the run is answered as in the history of queries. */
  lemma AnswerOverRun(run: Run, r: nat, n: nat)
    requires run.Valid() && n < |run.actions| && r < |run.worlds[0].replicas| && Consults(run, r, n)
    ensures var queries, at := Queries(run, r, |run.actions|), |Queries(run, r, n)|;
            && at < |queries| && queries[at] == QueryAt(run, n)
            && AnswerTo(run.cfg.cimd.value, run.cfg.lib.parse, queries, at)
                 == Resolve(run.cfg.cimd.value, run.cfg.lib.parse, run.worlds[n].replicas[r].cimd,
                            QueryAt(run, n).clientID, QueryAt(run, n).now, QueryAt(run, n).outcome)
  {
    hide Resolve, OnHit, Handle;
    CacheOverRun(run, r, n);
    QueriesGrow(run, r, n + 1, |run.actions|);
  }

  // ---- what that means for the users ------------------------------------------------------------

  /**
    Whatever client a consent page shows under a URL, the replica itself fetched
    that document, for exactly this URL, at most 24 hours before.
   */
  lemma ShownDocumentsAreRecent(run: Run, n: nat) returns (p: nat)
    requires run.Valid() && run.OneClock() && n < |run.actions| && run.responses[n].Consent?
    requires run.actions[n].request.AuthorizeGET? && IsURLClientID(Get(run.actions[n].request.query, "client_id"))
    ensures run.cfg.cimd.Some? && p <= n && run.actions[p].replica == run.actions[n].replica
    ensures Fetches(run, run.actions[n].replica, p) && QueryAt(run, p).clientID == QueryAt(run, n).clientID
    ensures run.actions[n].now - run.actions[p].now <= 86_400_000_000_000
    ensures var q := QueryAt(run, p);
            var fetched := Fetched(run.cfg.lib.parse, q.clientID, q.outcome, run.cfg.cimd.value.defaultTTL);
            fetched.Ok? && fetched.value.0 == run.responses[n].client
  {
    hide Handle, Resolve, OnHit, Fetched, IsURLClientID;
    var r := run.actions[n].replica;
    assert run.StepHolds(n);
    HandleResolves(run.cfg, run.StateAt(n), run.actions[n].now, run.actions[n].request, run.actions[n].random);
    assert Consults(run, r, n);
    AnswerOverRun(run, r, n);
    var s, parse := run.cfg.cimd.value, run.cfg.lib.parse;
    var queries, at := Queries(run, r, |run.actions|), |Queries(run, r, n)|;
    forall a, b | 0 <= a <= b < |queries|
      ensures queries[a].now <= queries[b].now
    {
      QueriesInOrder(run, r, |run.actions|, a, b);
    }
    assert Refusal(s, parse, queries[at].clientID).None? by {
      NotRefused(s, parse, run.worlds[n].replicas[r].cimd, queries[at]);
    }
    AnswersAreTheLatestFetch(s, parse, queries, at);
    var b := LatestFetch(s, parse, queries, at + 1, queries[at].clientID).value;
    LatestFetchFetches(s, parse, queries, at + 1, queries[at].clientID);
    p := StepOf(run, r, |run.actions|, b);
    AnswerOverRun(run, r, p);
    if n < p {
      QueriesGrow(run, r, n + 1, p);
      assert false;
    }
  }

  lemma NotRefused(s: Settings, parse: Parser, c: Cimd.Cache, q: Query)
    requires s.capacity >= 1 && Resolve(s, parse, c, q.clientID, q.now, q.outcome).result.Ok?
    ensures Refusal(s, parse, q.clientID).None?
  {
  }

  lemma {:induction false} LatestFetchFetches(s: Settings, parse: Parser, queries: seq<Query>, n: nat, clientID: string)
    requires s.capacity >= 1 && n <= |queries| && LatestFetch(s, parse, queries, n, clientID).Some?
    ensures AnswerTo(s, parse, queries, LatestFetch(s, parse, queries, n, clientID).value).fetched
  {
    if queries[n - 1].clientID == clientID && AnswerTo(s, parse, queries, n - 1).fetched {
    } else {
      LatestFetchFetches(s, parse, queries, n - 1, clientID);
    }
  }

  /** The other documents a replica is asked for strictly between two steps. */
  function OthersConsulted(run: Run, r: nat, clientID: string, p: nat, n: nat): set<string>
    requires run.Shaped() && n <= |run.actions|
  {
    set m | p < m < n && Consults(run, r, m) && QueryAt(run, m).clientID != clientID :: QueryAt(run, m).clientID
  }

  /**
    One replica makes two outbound requests for one URL more than a minute
    apart, whatever came of the first, unless it was asked for as many other
    documents as its cache holds in between.
   */
  lemma OutboundRequestsAreSpaced(run: Run, r: nat, p: nat, n: nat)
    requires run.Valid() && run.OneClock() && p < n < |run.actions| && r < |run.worlds[0].replicas|
    requires Fetches(run, r, p) && Fetches(run, r, n) && QueryAt(run, p).clientID == QueryAt(run, n).clientID
    ensures run.actions[n].now - run.actions[p].now > 60_000_000_000
            || |OthersConsulted(run, r, QueryAt(run, n).clientID, p, n)| >= run.cfg.cimd.value.capacity
  {
    hide Resolve, OnHit, Handle;
    AnswerOverRun(run, r, p);
    AnswerOverRun(run, r, n);
    QueriesGrow(run, r, p + 1, n);
    var s, parse, queries := run.cfg.cimd.value, run.cfg.lib.parse, Queries(run, r, |run.actions|);
    var a, b := |Queries(run, r, p)|, |Queries(run, r, n)|;
    forall x, y | 0 <= x <= y < |queries|
      ensures queries[x].now <= queries[y].now
    {
      QueriesInOrder(run, r, |run.actions|, x, y);
    }
    FetchesAreSpaced(s, parse, queries, a, b);
    var id := QueryAt(run, n).clientID;
    forall c | a < c < b && queries[c].clientID != id
      ensures queries[c].clientID in OthersConsulted(run, r, id, p, n)
    {
      var m := StepOf(run, r, |run.actions|, c);
      if m <= p {
        QueriesGrow(run, r, m, p);
        assert false;
      }
      if n <= m {
        QueriesGrow(run, r, n, m);
        assert false;
      }
    }
    Subset(OthersAsked(s, parse, queries, id, a, b), OthersConsulted(run, r, id, p, n));
  }

  // ---- the configured hosts ------------------------------------------------------------------------

  /** If any host is configured, some setting names the host of this URL. */
  ghost predicate Admitted(parse: Parser, opts: CIMDOptions, clientID: string) {
    && parse(clientID).Some?
    && (Restricts(opts) ==> exists h <- opts.allowedHosts :: Names(h, parse(clientID).value.hostname))
  }

  /**
    Nothing exists for a client named by a URL whose host is not configured, if
    any host is: no consent page, no code and no token of any run.
   */
  lemma ConfiguredHostsBind(run: Run, as_: AS, lib: Library, opts: CIMDOptions, emails: seq<string>,
                            domains: seq<string>,
                            n: nat, t: string)
    requires run.Genuine() && run.cfg == Deployed(as_, lib, Some(opts), emails, domains)
    requires n <= |run.actions| && t in run.worlds[n].ledger
    requires var client := ClientOf(run.worlds[n].ledger[t]); client.Some? && IsURLClientID(client.value)
    ensures Admitted(lib.parse, opts, ClientOf(run.worlds[n].ledger[t]).value)
  {
    hide SettingsOf, IsURLClientID, HostPolicy.Allows, CIMDProblem, Names, Restricts;
    NothingForRefusedHosts(run, n, t);
    var clientID := ClientOf(run.worlds[n].ledger[t]).value;
    SettingsExactly(opts, lib.parse(clientID).value.hostname);
  }

  /** And no request is made for one, on any replica. */
  lemma OnlyConfiguredHostsAreFetched(run: Run, as_: AS, lib: Library, opts: CIMDOptions,
                                      emails: seq<string>, domains: seq<string>, r: nat, n: nat)
    requires run.Valid() && run.cfg == Deployed(as_, lib, Some(opts), emails, domains)
    requires n < |run.actions| && r < |run.worlds[0].replicas| && Fetches(run, r, n)
    ensures Admitted(lib.parse, opts, QueryAt(run, n).clientID)
  {
    hide SettingsOf, IsURLClientID, HostPolicy.Allows, OnHit, Fetched, Names, Restricts;
    var q := QueryAt(run, n);
    FetchIsAllowed(run.cfg.cimd.value, lib.parse, run.worlds[n].replicas[r].cimd, q);
    SettingsExactly(opts, lib.parse(q.clientID).value.hostname);
  }

  lemma FetchIsAllowed(s: Settings, parse: Parser, c: Cimd.Cache, q: Query)
    requires s.capacity >= 1 && Resolve(s, parse, c, q.clientID, q.now, q.outcome).fetched
    ensures parse(q.clientID).Some? && HostPolicy.Allows(s.policy, parse(q.clientID).value.hostname)
  {
    hide HostPolicy.Allows, Fetched;
  }

  /** No consent page is shown for one. */
  lemma OnlyConfiguredHostsAreShown(run: Run, as_: AS, lib: Library, opts: CIMDOptions,
                                    emails: seq<string>, domains: seq<string>, n: nat)
    requires run.Genuine() && run.OneClock() && run.cfg == Deployed(as_, lib, Some(opts), emails, domains)
    requires n < |run.actions| && run.responses[n].Consent?
    requires run.actions[n].request.AuthorizeGET? && IsURLClientID(Get(run.actions[n].request.query, "client_id"))
    ensures Admitted(lib.parse, opts, Get(run.actions[n].request.query, "client_id"))
  {
    hide Admitted, Fetches, IsURLClientID;
    var p := ShownDocumentsAreRecent(run, n);
    OnlyConfiguredHostsAreFetched(run, as_, lib, opts, emails, domains, run.actions[n].replica, p);
  }

  /** The program requests one URL twice in a minute only after as many others as are configured to be kept. */
  lemma DeployedRequestsAreSpaced(run: Run, as_: AS, lib: Library, opts: CIMDOptions,
                                  emails: seq<string>, domains: seq<string>, r: nat, p: nat, n: nat)
    requires run.Valid() && run.OneClock() && run.cfg == Deployed(as_, lib, Some(opts), emails, domains)
    requires p < n < |run.actions| && r < |run.worlds[0].replicas|
    requires Fetches(run, r, p) && Fetches(run, r, n) && QueryAt(run, p).clientID == QueryAt(run, n).clientID
    ensures run.actions[n].now - run.actions[p].now > 60_000_000_000
            || |OthersConsulted(run, r, QueryAt(run, n).clientID, p, n)|
                 >= (if opts.cacheSize > 0 then opts.cacheSize else 512)
  {
    hide Fetches, OthersConsulted, OnHit;
    OutboundRequestsAreSpaced(run, r, p, n);
    SettingsExactly(opts, "");
  }
}
