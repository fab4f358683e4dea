/** What the rate limits come to over runs: how many requests of one address get past them. */
module Rates {
  import opened Wrappers
  import opened Clock
  import opened Recency
  import opened ReplayGuard
  import opened RateLimiter
  import opened Urls
  import opened AuthServer
  import opened Cimd
  import opened Handlers
  import opened Runs

  /** The three limited endpoints; authorization is limited only for clients named by a URL. */
  datatype Endpoint = Registering | Redeeming | Fetching

  function LimitsOf(cfg: Config, e: Endpoint): Limits {
    match e
    case Registering => cfg.register
    case Redeeming => cfg.token
    case Fetching => cfg.authorize
  }

  function CountsOf(r: Replica, e: Endpoint): Counts<string> {
    match e
    case Registering => r.register
    case Redeeming => r.token
    case Fetching => r.authorize
  }

  /** The address a request is counted under at an endpoint. */
  function Address(e: Endpoint, r: Request): Option<string> {
    match r
    case Register(ip, _) => if e.Registering? then Some(ip) else None
    case Token(ip, _) => if e.Redeeming? then Some(ip) else None
    case AuthorizeGET(ip, query, _, _) =>
      if e.Fetching? && IsURLClientID(Get(query, "client_id")) then Some(ip) else None
    case AuthorizePOST(_, _, _, _) => None
    case MCPVerify(_) => None
  }

  predicate TooMany(r: Response) { r.Failed? && r.status == 429 }

  /** A step counts at most one hit, and is turned away with status 429 exactly when the limiter says so. */
  lemma HandleCounts(cfg: Config, s: State, now: int, r: Request, f: Fresh, e: Endpoint)
    requires cfg.Sane()
    ensures var (t, response) := Handle(cfg, s, now, r, f);
            match Address(e, r)
            case None => CountsOf(t.replica, e) == CountsOf(s.replica, e)
            case Some(ip) =>
              var (ok, counts) := OnHit(CountsOf(s.replica, e), LimitsOf(cfg, e), ip, now);
              CountsOf(t.replica, e) == counts && (TooMany(response) <==> !ok)
  {
    hide OnHit, Seen;
    match r
    case Register(_, _) =>
    case AuthorizeGET(ip, query, cookies, fetch) => GETCounts(cfg, s, now, ip, query, cookies, fetch, f);
    case AuthorizePOST(_, _, _, _) =>
    case Token(_, _) =>
    case MCPVerify(_) =>
  }

  lemma GETCounts(cfg: Config, s: State, now: int, ip: string, q: Values, cookies: Cookies, fetch: Outcome, f: Fresh)
    requires cfg.Sane()
    ensures var (t, response) := HandleAuthorizeGET(cfg, s, now, ip, q, cookies, fetch, f);
            var (ok, counts) := OnHit(s.replica.authorize, cfg.authorize, ip, now);
            && t.replica.register == s.replica.register && t.replica.token == s.replica.token
            && (if IsURLClientID(Get(q, "client_id")) then t.replica.authorize == counts && (TooMany(response) <==> !ok)
                else t.replica.authorize == s.replica.authorize)
  {
    hide OnHit, Matches, MatchesResource, Resolve, UserAllowed, ResolveClient, IsURLClientID, ParameterProblem, ToSeal;
  }

  // ---- the hits of a run -----------------------------------------------------------------

  function Presses(run: Run, r: nat, e: Endpoint, n: nat): bool
    requires n < |run.actions|
  {
    run.actions[n].replica == r && Address(e, run.actions[n].request).Some?
  }

  function HitAt(run: Run, r: nat, e: Endpoint, n: nat): Hit<string>
    requires n < |run.actions| && Presses(run, r, e, n)
  {
    Hit(Address(e, run.actions[n].request).value, run.actions[n].now)
  }

  /** The hits on one limiter of one replica in the first `n` steps. */
  function Hits(run: Run, r: nat, e: Endpoint, n: nat): seq<Hit<string>>
    requires n <= |run.actions|
  {
    if n == 0 then []
    else Hits(run, r, e, n - 1) + (if Presses(run, r, e, n - 1) then [HitAt(run, r, e, n - 1)] else [])
  }

  /** The requests of one address that got past the limiter at steps i, ..., j - 1. */
  function Passes(run: Run, r: nat, e: Endpoint, ip: string, i: nat, j: nat): nat
    requires run.Shaped() && j <= |run.actions|
    decreases j
  {
    if j <= i then 0
    else Passes(run, r, e, ip, i, j - 1)
         + (if Presses(run, r, e, j - 1) && HitAt(run, r, e, j - 1).key == ip && !TooMany(run.responses[j - 1])
            then 1 else 0)
  }

  lemma {:induction false} HitsGrow(run: Run, r: nat, e: Endpoint, n: nat, m: nat)
    requires n <= m <= |run.actions|
    ensures Hits(run, r, e, n) <= Hits(run, r, e, m)
    decreases m
  {
    if n == m {
    } else {
      HitsGrow(run, r, e, n, m - 1);
    }
  }

  /** Hits of steps i, ..., j - 1 come at the times of those steps. */
  lemma {:induction false} HitsBetween(run: Run, r: nat, e: Endpoint, i: nat, j: nat, a: nat)
    requires run.OneClock() && i < j <= |run.actions| && |Hits(run, r, e, i)| <= a < |Hits(run, r, e, j)|
    ensures run.actions[i].now <= Hits(run, r, e, j)[a].now <= run.actions[j - 1].now
    decreases j
  {
    if a < |Hits(run, r, e, j - 1)| {
      HitsGrow(run, r, e, i, j - 1);
      assert i < j - 1;
      HitsBetween(run, r, e, i, j - 1, a);
    }
  }

  lemma {:induction false} HitsInOrder(run: Run, r: nat, e: Endpoint, j: nat, a: nat, b: nat)
    requires run.OneClock() && j <= |run.actions| && a <= b < |Hits(run, r, e, j)|
    ensures Hits(run, r, e, j)[a].now <= Hits(run, r, e, j)[b].now
    decreases j
  {
    if b < |Hits(run, r, e, j - 1)| {
      HitsInOrder(run, r, e, j - 1, a, b);
    } else if a < b {
      HitsBetween(run, r, e, 0, j - 1, a);
    }
  }

  /** The counters of a replica are those of its hits. */
  lemma {:induction false} CountersOverRun(run: Run, r: nat, e: Endpoint, n: nat)
    requires run.Valid() && n <= |run.actions| && r < |run.worlds[0].replicas|
    ensures var hits := Hits(run, r, e, |run.actions|);
            && |Hits(run, r, e, n)| <= |hits|
            && CountsOf(run.worlds[n].replicas[r], e) == AfterHits(LimitsOf(run.cfg, e), hits, |Hits(run, r, e, n)|)
  {
    hide OnHit;
    HitsGrow(run, r, e, n, |run.actions|);
    if n == 0 {
      assert run.worlds[0].replicas[r] in run.worlds[0].replicas;
    } else {
      CountersOverRun(run, r, e, n - 1);
      StepCounts(run, r, e, n - 1);
      HitsGrow(run, r, e, n - 1, |run.actions|);
      if Presses(run, r, e, n - 1) {
        assert Hits(run, r, e, |run.actions|)[|Hits(run, r, e, n - 1)|] == HitAt(run, r, e, n - 1);
      }
    }
  }

  lemma StepCounts(run: Run, r: nat, e: Endpoint, n: nat)
    requires run.Valid() && n < |run.actions| && r < |run.worlds[0].replicas|
    ensures |run.worlds[n].replicas| == |run.worlds[n + 1].replicas| == |run.worlds[0].replicas|
    ensures var before, after := CountsOf(run.worlds[n].replicas[r], e), CountsOf(run.worlds[n + 1].replicas[r], e);
            if Presses(run, r, e, n) then
              var (ok, counts) := OnHit(before, LimitsOf(run.cfg, e), HitAt(run, r, e, n).key, HitAt(run, r, e, n).now);
              after == counts && (TooMany(run.responses[n]) <==> !ok)
            else after == before
  {
    hide OnHit, Address;
    var a := run.actions[n];
    assert run.StepHolds(n);
    HandleCounts(run.cfg, run.StateAt(n), a.now, a.request, a.random, e);
  }

  /** The verdict on a hit of the run is the limiter's on that hit of the history. */
  lemma PassIsAllowed(run: Run, r: nat, e: Endpoint, n: nat)
    requires run.Valid() && n < |run.actions| && r < |run.worlds[0].replicas| && Presses(run, r, e, n)
    ensures var hits, at := Hits(run, r, e, |run.actions|), |Hits(run, r, e, n)|;
            && at < |hits| && hits[at] == HitAt(run, r, e, n) && |Hits(run, r, e, n + 1)| == at + 1
            && (TooMany(run.responses[n]) <==> !Allowed(LimitsOf(run.cfg, e), hits, at))
  {
    hide OnHit, AfterHits, Address, LimitsOf, CountsOf;
    HitsGrow(run, r, e, n + 1, |run.actions|);
    StepCounts(run, r, e, n);
    CountersOverRun(run, r, e, n);
  }

  /**
    Exactly which requests of a run are answered with status 429, on every
    replica: those beyond the limit of the window they fall in, as told from
    the requests alone.
   */
  lemma TurnedAwayExactly(run: Run, r: nat, e: Endpoint, n: nat)
    requires run.Valid() && n < |run.actions| && r < |run.worlds[0].replicas| && Presses(run, r, e, n)
    ensures var hits, at := Hits(run, r, e, |run.actions|), |Hits(run, r, e, n)|;
            && at < |hits| && hits[at] == HitAt(run, r, e, n)
            && var l := LimitsOf(run.cfg, e);
               var rank := Rank(hits, hits[at].key, Opener(l, hits, at), at);
               TooMany(run.responses[n]) <==> rank > 1 && rank > l.limit
  {
    hide Allowed, Address, LimitsOf;
    SaneLimits(run.cfg, e);
    PassIsAllowed(run, r, e, n);
    AllowedIffWithinLimit(LimitsOf(run.cfg, e), Hits(run, r, e, |run.actions|), |Hits(run, r, e, n)|);
    RankOfHit(LimitsOf(run.cfg, e), Hits(run, r, e, |run.actions|), |Hits(run, r, e, n)|);
  }

  /** What passes over a run is what the limiter allows of its hits. */
  lemma {:induction false} PassesAreAllowed(run: Run, r: nat, e: Endpoint, ip: string, i: nat, j: nat)
    requires run.Valid() && i <= j <= |run.actions| && r < |run.worlds[0].replicas|
    ensures |Hits(run, r, e, j)| <= |Hits(run, r, e, |run.actions|)|
    ensures Passes(run, r, e, ip, i, j)
         == AllowedCount(LimitsOf(run.cfg, e), Hits(run, r, e, |run.actions|), ip,
                         |Hits(run, r, e, i)|, |Hits(run, r, e, j)|)
    decreases j
  {
    hide Allowed, Address, LimitsOf;
    HitsGrow(run, r, e, j, |run.actions|);
    if i == j {
    } else {
      PassesAreAllowed(run, r, e, ip, i, j - 1);
      HitsGrow(run, r, e, i, j - 1);
      if Presses(run, r, e, j - 1) {
        PassIsAllowed(run, r, e, j - 1);
      }
    }
  }

  // ---- how many pass ---------------------------------------------------------------------

  /** The windows of an address opened early, for its counter having been evicted, at steps i, ..., j - 1. */
  function Resets(run: Run, r: nat, e: Endpoint, ip: string, i: nat, j: nat): nat
    requires i <= j <= |run.actions|
  {
    HitsGrow(run, r, e, j, |run.actions|);
    EarlyResets(LimitsOf(run.cfg, e), Hits(run, r, e, |run.actions|), ip, |Hits(run, r, e, i)|, |Hits(run, r, e, j)|)
  }

  /**
    Over any run, in any stretch of it that takes at most k windows, at most
    (k + 1) times the limit of one address's requests to an endpoint of one
    replica are answered otherwise than with status 429, and as much again for
    each time its window was opened early.
   */
  lemma PassesBounded(run: Run, r: nat, e: Endpoint, ip: string, i: nat, j: nat, from: int, to: int, k: nat)
    requires run.Valid() && run.OneClock() && r < |run.worlds[0].replicas|
    requires i <= j <= |run.actions| && from <= to <= from + k * LimitsOf(run.cfg, e).window
    requires forall n :: i <= n < j ==> from <= run.actions[n].now <= to
    ensures Passes(run, r, e, ip, i, j)
              <= (k + 1 + Resets(run, r, e, ip, i, j)) * Max(LimitsOf(run.cfg, e).limit, 1)
  {
    hide LimitsOf, Address, Allowed, EarlyResets;
    var hits := Hits(run, r, e, |run.actions|);
    PassesAreAllowed(run, r, e, ip, i, j);
    HitsGrow(run, r, e, i, j);
    HitsGrow(run, r, e, j, |run.actions|);
    forall a, b | 0 <= a <= b < |hits|
      ensures hits[a].now <= hits[b].now
    {
      HitsInOrder(run, r, e, |run.actions|, a, b);
    }
    forall a | |Hits(run, r, e, i)| <= a < |Hits(run, r, e, j)|
      ensures from <= hits[a].now <= to
    {
      HitsBetween(run, r, e, i, j, a);
      assert hits[a] == Hits(run, r, e, j)[a];
    }
    SaneLimits(run.cfg, e);
    RateBound(LimitsOf(run.cfg, e), hits, ip, |Hits(run, r, e, i)|, |Hits(run, r, e, j)|, from, to, k);
  }

  lemma SaneLimits(cfg: Config, e: Endpoint)
    requires cfg.Sane()
    ensures LimitsOf(cfg, e).Sane()
  {
  }

  // ---- crowds --------------------------------------------------------------------------------

  /** The other addresses that reach an endpoint of a replica strictly between two steps. */
  function Crowd(run: Run, r: nat, e: Endpoint, ip: string, p: nat, n: nat): set<string>
    requires n <= |run.actions|
  {
    set s | p < s < n && Presses(run, r, e, s) && HitAt(run, r, e, s).key != ip :: HitAt(run, r, e, s).key
  }

  /** Steps `p` and `n` are hits of one address, and no step in between is. */
  ghost predicate Consecutive(run: Run, r: nat, e: Endpoint, ip: string, p: nat, n: nat) {
    && p < n < |run.actions|
    && Presses(run, r, e, p) && HitAt(run, r, e, p).key == ip && Presses(run, r, e, n) && HitAt(run, r, e, n).key == ip
    && forall s :: p < s < n && Presses(run, r, e, s) ==> HitAt(run, r, e, s).key != ip
  }

  /** Before each request of the address, fewer others came since its previous one than there are counters. */
  ghost predicate Uncrowded(run: Run, r: nat, e: Endpoint, ip: string, i: nat, j: nat)
    requires j <= |run.actions|
  {
    forall p, n :: i <= n < j && Consecutive(run, r, e, ip, p, n)
      ==> |Crowd(run, r, e, ip, p, n)| < LimitsOf(run.cfg, e).capacity
  }

  /** The step of a hit. */
  lemma {:induction false} StepOf(run: Run, r: nat, e: Endpoint, j: nat, a: nat) returns (n: nat)
    requires j <= |run.actions| && a < |Hits(run, r, e, j)|
    ensures n < j && Presses(run, r, e, n) && |Hits(run, r, e, n)| == a && Hits(run, r, e, j)[a] == HitAt(run, r, e, n)
    decreases j
  {
    if a < |Hits(run, r, e, j - 1)| {
      n := StepOf(run, r, e, j - 1, a);
    } else {
      n := j - 1;
    }
  }

  /** Steps come in the order of their hits. */
  lemma EarlierHit(run: Run, r: nat, e: Endpoint, m: nat, n: nat)
    requires m < |run.actions| && n < |run.actions| && Presses(run, r, e, m) && Presses(run, r, e, n)
    ensures m < n <==> |Hits(run, r, e, m)| < |Hits(run, r, e, n)|
  {
    hide Address;
    if m < n {
      HitsGrow(run, r, e, m + 1, n);
    } else {
      HitsGrow(run, r, e, n, m);
    }
  }

  /** The steps of a hit and of the one before it on its key are consecutive. */
  lemma ConsecutiveHits(run: Run, r: nat, e: Endpoint, ip: string, j: nat, b: nat, a: nat, p: nat, n: nat)
    requires j <= |run.actions| && b < a < |Hits(run, r, e, j)| && p < j && n < j
    requires Presses(run, r, e, p) && |Hits(run, r, e, p)| == b && HitAt(run, r, e, p).key == ip
    requires Presses(run, r, e, n) && |Hits(run, r, e, n)| == a && HitAt(run, r, e, n).key == ip
    requires forall c :: b < c < a ==> Hits(run, r, e, j)[c].key != ip
    ensures Consecutive(run, r, e, ip, p, n)
    ensures |Between(Hits(run, r, e, j), ip, b, a)| <= |Crowd(run, r, e, ip, p, n)|
  {
    hide Address, Hits;
    var hits := Hits(run, r, e, j);
    EarlierHit(run, r, e, p, n);
    forall s | p < s < n && Presses(run, r, e, s)
      ensures HitAt(run, r, e, s).key != ip
    {
      EarlierHit(run, r, e, p, s);
      EarlierHit(run, r, e, s, n);
      HitIsThere(run, r, e, s, j);
    }
    forall c | b < c < a
      ensures hits[c].key in Crowd(run, r, e, ip, p, n)
    {
      var s := StepOf(run, r, e, j, c);
      EarlierHit(run, r, e, p, s);
      EarlierHit(run, r, e, s, n);
    }
    Subset(Between(hits, ip, b, a), Crowd(run, r, e, ip, p, n));
  }

  lemma HitIsThere(run: Run, r: nat, e: Endpoint, s: nat, j: nat)
    requires s < j <= |run.actions| && Presses(run, r, e, s)
    ensures |Hits(run, r, e, s)| < |Hits(run, r, e, j)|
    ensures Hits(run, r, e, j)[|Hits(run, r, e, s)|] == HitAt(run, r, e, s)
  {
    HitsGrow(run, r, e, s + 1, j);
  }

  lemma UncrowdedHit(run: Run, r: nat, e: Endpoint, ip: string, i: nat, j: nat, a: nat)
    requires i <= j <= |run.actions| && Uncrowded(run, r, e, ip, i, j)
    requires |Hits(run, r, e, i)| <= a < |Hits(run, r, e, j)|
    requires var hits := Hits(run, r, e, j); hits[a].key == ip && LatestBefore(hits, ip, a).Some?
    ensures var hits := Hits(run, r, e, j);
            !Crowded(LimitsOf(run.cfg, e), hits, LatestBefore(hits, ip, a).value, a)
  {
    hide LimitsOf, Address, Hits, LatestBefore, Between, Crowd, Consecutive, HitAt, Presses;
    var hits := Hits(run, r, e, j);
    var b := LatestBefore(hits, ip, a).value;
    var n := StepOf(run, r, e, j, a);
    var p := StepOf(run, r, e, j, b);
    ConsecutiveHits(run, r, e, ip, j, b, a, p, n);
    if n < i {
      HitIsThere(run, r, e, n, i);
      assert false;
    }
  }

  /** An address that is not crowded out has no window opened early. */
  lemma UncrowdedHasFullWindows(run: Run, r: nat, e: Endpoint, ip: string, i: nat, j: nat)
    requires i <= j <= |run.actions| && Uncrowded(run, r, e, ip, i, j)
    ensures Resets(run, r, e, ip, i, j) == 0
  {
    hide LimitsOf, Address, Crowded, Uncrowded;
    var hits, past := Hits(run, r, e, |run.actions|), Hits(run, r, e, j);
    HitsGrow(run, r, e, j, |run.actions|);
    forall a | |Hits(run, r, e, i)| <= a < |past| && hits[a].key == ip && LatestBefore(hits, ip, a).Some?
      ensures !Crowded(LimitsOf(run.cfg, e), hits, LatestBefore(hits, ip, a).value, a)
    {
      SameLatest(past, hits, ip, a);
      UncrowdedHit(run, r, e, ip, i, j, a);
      SameCrowd(LimitsOf(run.cfg, e), past, hits, LatestBefore(hits, ip, a).value, a);
    }
    UncrowdedHasNoResets(LimitsOf(run.cfg, e), hits, ip, |Hits(run, r, e, i)|, |past|);
  }

  lemma {:induction false} SameLatest(past: seq<Hit<string>>, hits: seq<Hit<string>>, ip: string, a: nat)
    requires past <= hits && a <= |past|
    ensures LatestBefore(past, ip, a) == LatestBefore(hits, ip, a)
  {
    if a > 0 {
      SameLatest(past, hits, ip, a - 1);
    }
  }

  lemma SameCrowd(l: Limits, past: seq<Hit<string>>, hits: seq<Hit<string>>, p: nat, a: nat)
    requires past <= hits && p < a < |past|
    ensures Crowded(l, past, p, a) <==> Crowded(l, hits, p, a)
  {
    assert Between(past, hits[a].key, p, a) == Between(hits, hits[a].key, p, a);
  }

  /**
    A server set up as the program sets it up answers so many of an address's
    requests in any minute, if fewer than 16384 others come to the same replica
    between one of them and the next.
   */
  lemma EndpointRates(run: Run, as_: AS, lib: Library, cimd: Option<CIMDOptions>,
                      emails: seq<string>, domains: seq<string>,
                      r: nat, ip: string, i: nat, j: nat, from: int)
    requires run.Valid() && run.OneClock() && r < |run.worlds[0].replicas|
    requires run.cfg == Deployed(as_, lib, cimd, emails, domains)
    requires i <= j <= |run.actions| && forall n :: i <= n < j ==> from <= run.actions[n].now <= from + 60_000_000_000
    ensures Uncrowded(run, r, Registering, ip, i, j) ==> Passes(run, r, Registering, ip, i, j) <= 40
    ensures Uncrowded(run, r, Redeeming, ip, i, j) ==> Passes(run, r, Redeeming, ip, i, j) <= 240
    ensures Uncrowded(run, r, Fetching, ip, i, j) ==> Passes(run, r, Fetching, ip, i, j) <= 60
    ensures Passes(run, r, Registering, ip, i, j) <= 20 * (2 + Resets(run, r, Registering, ip, i, j))
    ensures Passes(run, r, Redeeming, ip, i, j) <= 120 * (2 + Resets(run, r, Redeeming, ip, i, j))
    ensures Passes(run, r, Fetching, ip, i, j) <= 30 * (2 + Resets(run, r, Fetching, ip, i, j))
  {
    hide Passes, Resets, Uncrowded;
    forall e: Endpoint | Uncrowded(run, r, e, ip, i, j)
      ensures Resets(run, r, e, ip, i, j) == 0
    {
      UncrowdedHasFullWindows(run, r, e, ip, i, j);
    }
    PassesBounded(run, r, Registering, ip, i, j, from, from + MINUTE, 1);
    PassesBounded(run, r, Redeeming, ip, i, j, from, from + MINUTE, 1);
    PassesBounded(run, r, Fetching, ip, i, j, from, from + MINUTE, 1);
  }
}
