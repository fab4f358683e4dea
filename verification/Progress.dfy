/**
  What can always still happen: from every reachable state an honest client
  can go through the whole flow, and the leeway on refresh tokens can be used.
 */
module Progress {
  import opened Wrappers
  import opened Text
  import opened Clock
  import opened RateLimiter
  import opened Urls
  import opened AuthServer
  import opened Artifacts
  import opened Cimd
  import opened Handlers
  import opened Steps
  import opened Runs
  import opened SingleUse
  import opened Lineages
  import opened Flow
  import Rates
  import Scopes

  // ---- there is always something new to draw ------------------------------------------

  function Name(n: nat): string { seq(n, _ => 'x') }

  lemma {:induction false} LongerThan(s: set<string>) returns (n: nat)
    ensures forall x <- s :: |x| < n
  {
    if s == {} {
      n := 0;
    } else {
      var x :| x in s;
      n := LongerThan(s - {x});
      if n <= |x| {
        n := |x| + 1;
      }
    }
  }

  lemma {:induction false} NamesAreNoURLs(s: string)
    requires ':' !in s
    ensures !IsURLClientID(s)
  {
    if s == "" {
    } else {
      NamesAreNoURLs(s[1..]);
      assert "://"[0] == ':' && s[0] != ':';
    }
  }

  lemma SomeFresh(l: Ledger) returns (f: Fresh)
    ensures FreshFor(l, f) && !IsURLClientID(f.token) && f.token != ""
  {
    var families := set t <- l | l[t].Refresh? :: l[t].family;
    var ids := set t <- l :: l[t].id;
    var n := LongerThan(l.Keys + ids + families);
    var a, b := Name(n + 1), Name(n + 2);
    assert |a| == n + 1 && |b| == n + 2;
    f := Fresh(a, b, a, b, a, a);
    NamesAreNoURLs(a);
    forall t | t in l
      ensures l[t].id != a && l[t].id != b && t != a && t != b && (l[t].Refresh? ==> l[t].family != a)
    {
      assert t in l.Keys && l[t].id in ids;
      assert l[t].Refresh? ==> l[t].family in families;
    }
  }

  /** An address nobody has used is never over its limit. */
  lemma SomeAddress(c: Counts<string>, l: Limits, now: int) returns (ip: string)
    requires l.Sane()
    ensures ip !in c.entries && OnHit(c, l, ip, now).0
  {
    var n := LongerThan(c.entries.Keys);
    ip := Name(n);
    assert |ip| == n;
    assert ip in c.entries ==> ip in c.entries.Keys;
  }

  // ---- continuing a run -----------------------------------------------------------------

  ghost predicate NotBefore(run: Run, now: int) {
    forall n :: 0 <= n < |run.actions| ==> run.actions[n].now <= now
  }

  /** A genuine run on one clock, to be continued at `now` on replica `r`. */
  ghost predicate Open(run: Run, r: nat, now: int) {
    run.Genuine() && run.OneClock() && NotBefore(run, now) && r < |run.worlds[0].replicas|
  }

  ghost predicate Later(run: Run, longer: Run) {
    && longer.cfg == run.cfg && run.actions <= longer.actions
    && run.worlds <= longer.worlds && run.responses <= longer.responses
  }

  function LastResponse(run: Run): Response
    requires run.Shaped() && run.responses != []
  {
    run.responses[|run.responses| - 1]
  }

  function LastLedger(run: Run): Ledger
    requires run.Shaped()
  {
    run.worlds[|run.actions|].ledger
  }

  function Here(run: Run, r: nat): State
    requires run.Shaped() && r < |run.worlds[0].replicas|
  {
    State(LastLedger(run), run.worlds[|run.actions|].replicas[r])
  }

  lemma OneMoreStep(run: Run, r: nat, now: int, request: Request, f: Fresh) returns (longer: Run)
    requires Open(run, r, now) && FreshFor(LastLedger(run), f)
    ensures Open(longer, r, now) && Later(run, longer) && |longer.actions| == |run.actions| + 1
    ensures longer.actions[|run.actions|] == Action(r, now, request, f)
    ensures var (s, response) := Handle(run.cfg, Here(run, r), now, request, f);
            LastResponse(longer) == response && Here(longer, r) == s
  {
    hide Handle, FreshFor;
    var a := Action(r, now, request, f);
    longer := Extend(run, a);
    ExtendIsValid(run, a);
    assert longer.StepHolds(|run.actions|);
    assert longer.StateAt(|run.actions|) == Here(run, r);
  }

  // ---- the flow of an honest client ---------------------------------------------------------

  /** The token endpoint of a replica still lets the address through. */
  predicate MayRedeem(run: Run, r: nat, now: int, ip: string)
    requires run.Shaped() && r < |run.worlds[0].replicas|
  {
    OnHit(Here(run, r).replica.token, run.cfg.token, ip, now).0
  }

  lemma ClientRegisters(run: Run, r: nat, now: int, ip: string, uri: string) returns (longer: Run, clientID: string)
    requires Open(run, r, now) && Acceptable(run.cfg.lib.parse, uri)
    requires OnHit(Here(run, r).replica.register, run.cfg.register, ip, now).0
    ensures Open(longer, r, now) && Later(run, longer)
    ensures VerifyClientID(LastLedger(longer), clientID).Some? && LastLedger(longer)[clientID].redirectURIs == [uri]
    ensures !IsURLClientID(clientID) && clientID != ""
    ensures Here(longer, r).replica.token == Here(run, r).replica.token
  {
    hide OnHit, IsURLClientID, Acceptable;
    var f := SomeFresh(LastLedger(run));
    longer := OneMoreStep(run, r, now, Register(ip, Some(Registration("none", [uri], ""))), f);
    clientID := f.token;
  }

  function Asking(cfg: Config, clientID: string, uri: string, challenge: string): Values {
    map["client_id" := clientID, "redirect_uri" := uri, "response_type" := "code",
        "code_challenge" := challenge, "code_challenge_method" := "S256", "resource" := cfg.as_.resource]
  }

  /** Such a query passes every check. */
  lemma AskingIsInOrder(cfg: Config, s: State, now: int, clientID: string, uri: string, challenge: string)
    requires cfg.Sane() && WellBuilt(cfg.lib, cfg.as_) && challenge != "" && uri != ""
    requires VerifyClientID(s.ledger, clientID).Some? && s.ledger[clientID].redirectURIs == [uri]
    requires !IsURLClientID(clientID) && clientID != ""
    ensures var q := Asking(cfg, clientID, uri, challenge);
            && ParameterProblem(cfg, q).None?
            && Get(q, "client_id") == clientID && Get(q, "redirect_uri") == uri && Get(q, "code_challenge") == challenge
            && IdentifyClient(cfg, s, now, "", q, TransportFailed("")).1.Known?
            && IdentifyClient(cfg, s, now, "", q, TransportFailed("")).0.ledger == s.ledger
  {
    hide OnHit, IsURLClientID, MatchesResource, Resolve;
    var q := Asking(cfg, clientID, uri, challenge);
    assert Scopes.Granted(cfg.as_.scopesSupported, Get(q, "scope")).Ok? by {
      assert Fields("") == [];
    }
  }

  lemma ConsentIsShown(run: Run, r: nat, now: int, clientID: string, uri: string, challenge: string, id: Identity)
    returns (longer: Run)
    requires Open(run, r, now) && WellBuilt(run.cfg.lib, run.cfg.as_)
    requires VerifyClientID(LastLedger(run), clientID).Some? && LastLedger(run)[clientID].redirectURIs == [uri]
    requires !IsURLClientID(clientID) && clientID != "" && uri != "" && challenge != "" && UserAllowed(run.cfg,
                                                                                                       id.email)
    ensures Open(longer, r, now) && Later(run, longer) && |longer.actions| == |run.actions| + 1
    ensures longer.actions[|run.actions|].now == now && LastResponse(longer).Consent?
    ensures var blob := LastResponse(longer).blob;
            && blob in LastLedger(longer) && LastLedger(longer)[blob].AuthReq?
            && var a := LastLedger(longer)[blob];
               a.clientID == clientID && a.redirectURI == uri && a.codeChallenge == challenge
               && a.sub == id.subject && a.email == id.email
    ensures Here(longer, r).replica.token == Here(run, r).replica.token
  {
    hide OnHit, IsURLClientID, UserAllowed, ParameterProblem, IdentifyClient, WellBuilt, Asking;
    var f := SomeFresh(LastLedger(run));
    var q := Asking(run.cfg, clientID, uri, challenge);
    AskingIsInOrder(run.cfg, Here(run, r), now, clientID, uri, challenge);
    var cookies := Cookies("x", "", Some(id));
    longer := OneMoreStep(run, r, now, AuthorizeGET("", q, cookies, TransportFailed("")), f);
    Rates.HandleCounts(run.cfg, Here(run, r), now, AuthorizeGET("", q, cookies, TransportFailed("")), f,
                       Rates.Redeeming);
  }

  lemma ConsentIsApproved(run: Run, r: nat, now: int, id: Identity) returns (longer: Run)
    requires Open(run, r, now) && run.cfg.as_.authReqTTL >= SECOND && run.actions != []
    requires run.actions[|run.actions| - 1].now == now && LastResponse(run).Consent?
    requires var blob := LastResponse(run).blob;
             && blob in LastLedger(run) && LastLedger(run)[blob].AuthReq?
             && LastLedger(run)[blob].sub == id.subject && LastLedger(run)[blob].email == id.email
    requires UserAllowed(run.cfg, id.email)
    ensures Open(longer, r, now) && Later(run, longer) && |longer.actions| == |run.actions| + 1
    ensures longer.actions[|run.actions|].now == now && LastResponse(longer).CodeRedirect?
    ensures LastResponse(longer).uri == LastLedger(run)[LastResponse(run).blob].redirectURI
    ensures var code, a := LastResponse(longer).code, LastLedger(run)[LastResponse(run).blob];
            && code in LastLedger(longer) && LastLedger(longer)[code].Code?
            && var c := LastLedger(longer)[code];
               c.clientID == a.clientID && c.redirectURI == a.redirectURI && c.codeChallenge == a.codeChallenge
    ensures Here(longer, r).replica.token == Here(run, r).replica.token
  {
    hide UserAllowed, Handle;
    var f := SomeFresh(LastLedger(run));
    var g, p := |run.actions| - 1, |run.actions|;
    var form := map["authreq" := LastResponse(run).blob, "csrf" := LastResponse(run).csrf, "action" := "approve"];
    var request := AuthorizePOST("x", "x", Some(form), Cookies("x", "", Some(id)));
    longer := OneMoreStep(run, r, now, request, f);
    Rates.HandleCounts(run.cfg, Here(run, r), now, request, f, Rates.Redeeming);
    assert longer.responses[g] == LastResponse(run) && longer.worlds[p] == run.worlds[p];
    assert SendsBack(longer, g, p);
    ApprovalExactly(longer, g, p);
    LedgerStepAt(longer, p);
  }

  lemma CodeIsExchanged(run: Run, r: nat, now: int, ip: string, verifier: string) returns (longer: Run)
    requires Open(run, r, now) && MayRedeem(run, r, now, ip)
    requires run.cfg.as_.codeTTL >= SECOND && run.actions != []
    requires run.actions[|run.actions| - 1].now == now && LastResponse(run).CodeRedirect?
    requires LastResponse(run).code in LastLedger(run) && LastLedger(run)[LastResponse(run).code].Code?
    requires VerifyPKCE(run.cfg.lib.hash, verifier, LastLedger(run)[LastResponse(run).code].codeChallenge)
    ensures Open(longer, r, now) && Later(run, longer) && |longer.actions| == |run.actions| + 1
    ensures longer.actions[|run.actions|].now == now && LastResponse(longer).TokenGrant?
  {
    hide Handle, OnHit;
    var f := SomeFresh(LastLedger(run));
    var p, j := |run.actions| - 1, |run.actions|;
    var code := LastLedger(run)[LastResponse(run).code];
    var form := map["grant_type" := "authorization_code", "code" := LastResponse(run).code,
                    "client_id" := code.clientID, "redirect_uri" := code.redirectURI, "code_verifier" := verifier];
    longer := OneMoreStep(run, r, now, Token(ip, Some(form)), f);
    assert longer.responses[p] == LastResponse(run) && longer.worlds[j] == run.worlds[j];
    assert longer.StateAt(j) == Here(run, r);
    assert BringsCode(longer, p, j);
    FirstRedemptionExactly(longer, p, j);
  }

  /**
    From every reachable state, on every replica, a new client with an
    acceptable URI, at an address within its limits, and a user who is allowed
    in can register, be shown consent, approve and exchange the code. Of all
    that came before only the hits on these two limits can prevent it.
   */
  lemma AnyoneCanBeServed(run: Run, r: nat, now: int, ip: string, uri: string, verifier: string, id: Identity)
    returns (longer: Run)
    requires Open(run, r, now) && WellBuilt(run.cfg.lib, run.cfg.as_)
    requires run.cfg.as_.authReqTTL >= SECOND && run.cfg.as_.codeTTL >= SECOND
    requires OnHit(Here(run, r).replica.register, run.cfg.register, ip, now).0 && MayRedeem(run, r, now, ip)
    requires Acceptable(run.cfg.lib.parse, uri) && uri != "" && UserAllowed(run.cfg, id.email)
    requires verifier != "" && run.cfg.lib.hash(verifier) != ""
    ensures Open(longer, r, now) && Later(run, longer) && longer.actions != []
    ensures longer.actions[|longer.actions| - 1].now == now && LastResponse(longer).TokenGrant?
  {
    hide UserAllowed, Acceptable, WellBuilt, IsURLClientID, VerifyClientID, OnHit;
    var registered, clientID := ClientRegisters(run, r, now, ip, uri);
    var shown := ConsentIsShown(registered, r, now, clientID, uri, run.cfg.lib.hash(verifier), id);
    var approved := ConsentIsApproved(shown, r, now, id);
    longer := CodeIsExchanged(approved, r, now, ip, verifier);
  }

  // ---- the second use of a refresh token ---------------------------------------------------------

  function Refreshing(t: string): Values { map["grant_type" := "refresh_token", "refresh_token" := t] }

  /**
    The second use does happen. Every run that ends with a grant continues to
    one in which its refresh token is redeemed at once, and again one nanosecond
    after a full lifetime, at the token endpoint of one replica, and honoured
    both times.
   */
  lemma EveryGrantCanBeUsedTwice(run: Run, r: nat, now: int) returns (longer: Run, t: string)
    requires Open(run, r, now) && run.cfg.as_.refreshTTL > 0 && run.actions != []
    requires run.actions[|run.actions| - 1].now == now && LastResponse(run).TokenGrant?
    ensures longer.Genuine() && longer.OneClock() && Later(run, longer) && |longer.actions| == |run.actions| + 2
    ensures t == LastResponse(run).refresh
    ensures Honours(longer, |run.actions|, t) && Honours(longer, |run.actions| + 1, t)
    ensures longer.actions[|run.actions|].now == now
    ensures longer.actions[|run.actions| + 1].now == now + run.cfg.as_.refreshTTL + 1
  {
    hide Handle, OnHit, GuardCall;
    t := LastResponse(run).refresh;
    var n, again := |run.actions|, now + run.cfg.as_.refreshTTL + 1;
    var f := SomeFresh(LastLedger(run));
    var ip := SomeAddress(Here(run, r).replica.token, run.cfg.token, now);
    var once := OneMoreStep(run, r, now, Token(ip, Some(Refreshing(t))), f);
    assert Open(once, r, again);
    var f2 := SomeFresh(LastLedger(once));
    var ip2 := SomeAddress(Here(once, r).replica.token, run.cfg.token, again);
    longer := OneMoreStep(once, r, again, Token(ip2, Some(Refreshing(t))), f2);
    SecondUse(longer, n, r, now, ip, ip2, t);
  }

  lemma SecondUse(run: Run, n: nat, r: nat, now: int, ip: string, ip2: string, t: string)
    requires run.Genuine() && run.OneClock() && run.cfg.as_.refreshTTL > 0 && n >= 1 && |run.actions| == n + 2
    requires run.actions[n - 1].now == now && run.Granted(n - 1) && t == run.responses[n - 1].refresh
    requires var a := run.actions[n]; a.replica == r && a.now == now && a.request == Token(ip, Some(Refreshing(t)))
    requires var b := run.actions[n + 1];
             b.replica == r && b.now == now + run.cfg.as_.refreshTTL + 1 && b.request == Token(ip2, Some(Refreshing(t)))
    requires OnHit(run.StateAt(n).replica.token, run.cfg.token, ip, run.actions[n].now).0
    requires OnHit(run.StateAt(n + 1).replica.token, run.cfg.token, ip2, run.actions[n + 1].now).0
    ensures Honours(run, n, t) && Honours(run, n + 1, t)
  {
    hide Handle, OnHit;
    HandedOut(run, n - 1);
    LedgerKeeps(run, n, n + 1);
    assert Continues(run, n - 1, n);
    NewestHonouredExactly(run, n - 1, n);
    assert Honours(run, n, t);
    assert Presents(run, n + 1, t);
    HonouredAgainExactly(run, n, n, n + 1, t);
  }

  // ---- the second use through a flooded guard ---------------------------------------------------------

  /** Step `n` rotates the refresh token handed out at the step before. */
  ghost predicate Rotation(run: Run, r: nat, now: int, n: nat)
    requires run.Shaped()
  {
    && 1 <= n < |run.actions| && run.Granted(n - 1) && run.Granted(n)
    && run.actions[n].replica == r && run.actions[n].now == now
    && IsRefresh(run.actions[n].request) && PresentedToken(run.actions[n].request) == run.responses[n - 1].refresh
  }

  /** A run that ends with a grant can be continued by a rotation at the same instant. */
  lemma OneRotation(run: Run, r: nat, now: int) returns (longer: Run)
    requires Open(run, r, now) && run.cfg.as_.refreshTTL > 0 && run.actions != []
    requires run.actions[|run.actions| - 1].now == now && LastResponse(run).TokenGrant?
    ensures Open(longer, r, now) && Later(run, longer) && |longer.actions| == |run.actions| + 1
    ensures Rotation(longer, r, now, |run.actions|) && LastResponse(longer).TokenGrant?
  {
    hide Handle, OnHit, GuardCall;
    var n, t := |run.actions|, LastResponse(run).refresh;
    var f := SomeFresh(LastLedger(run));
    var ip := SomeAddress(Here(run, r).replica.token, run.cfg.token, now);
    longer := OneMoreStep(run, r, now, Token(ip, Some(Refreshing(t))), f);
    assert longer.StateAt(n) == Here(run, r) && longer.responses[n - 1] == LastResponse(run);
    HandedOut(longer, n - 1);
    assert Continues(longer, n - 1, n);
    NewestHonouredExactly(longer, n - 1, n);
  }

  lemma {:induction false} Rotations(run: Run, r: nat, now: int, k: nat) returns (longer: Run)
    requires Open(run, r, now) && run.cfg.as_.refreshTTL > 0 && run.actions != []
    requires run.actions[|run.actions| - 1].now == now && LastResponse(run).TokenGrant?
    ensures Open(longer, r, now) && Later(run, longer) && |longer.actions| == |run.actions| + k
    ensures longer.actions[|longer.actions| - 1].now == now && LastResponse(longer).TokenGrant?
    ensures forall n :: |run.actions| <= n < |longer.actions| ==> Rotation(longer, r, now, n)
  {
    if k == 0 {
      longer := run;
    } else {
      hide Open;
      var before := Rotations(run, r, now, k - 1);
      longer := OneRotation(before, r, now);
      forall n | |run.actions| <= n < |longer.actions|
        ensures Rotation(longer, r, now, n)
      {
        assert n < |before.actions| ==> Rotation(before, r, now, n);
      }
    }
  }

  /** What a rotation presents was new a step before. */
  lemma RotationPresents(run: Run, r: nat, now: int, n: nat)
    requires run.Genuine() && Rotation(run, r, now, n)
    ensures var t := run.responses[n - 1].refresh;
            && Presents(run, n, t) && t !in run.worlds[n - 1].ledger && t in run.worlds[n].ledger
            && CallAt(run, n).value.jti == run.worlds[n].ledger[t].id
            && run.worlds[n].ledger[t].Refresh?
  {
    hide GuardCall;
    HandedOut(run, n - 1);
    GuardStepAt(run, r, n);
    PresentedArtifact(run, n, run.responses[n - 1].refresh);
  }

  /** What a rotation presents was not presented before, and is not what was there at step `i`. */
  lemma RotationIsARival(run: Run, r: nat, now: int, i: nat, m: nat, t: string)
    requires run.Genuine() && i < m < |run.actions| && t in run.worlds[i].ledger && Rotation(run, r, now, m)
    ensures var id := run.worlds[i].ledger[t].id;
            Rival(run, r, m, id) && CallAt(run, m).value.jti !in Rivals(run, r, i, m, id)
  {
    hide GuardCall, Handle;
    RotationPresents(run, r, now, m);
    var id, u := run.worlds[i].ledger[t].id, run.responses[m - 1].refresh;
    var new_ := run.worlds[m].ledger[u].id;
    LedgerKeeps(run, i, m);
    LedgerKeeps(run, i, m - 1);
    if new_ == id {
      UniqueIds(run, m, t, u);
      assert false;
    }
    if new_ in Rivals(run, r, i, m, id) {
      var k :| i < k < m && Rival(run, r, k, id) && CallAt(run, k).value.jti == new_;
      PresentedBefore(run, k, m, u);
      assert false;
    }
  }

  /** An artifact presented at a step was there at that step. */
  lemma PresentedBefore(run: Run, k: nat, m: nat, u: string)
    requires run.Genuine() && k < m < |run.actions| && CallAt(run, k).Some? && u in run.worlds[m].ledger
    requires CallAt(run, k).value.jti == run.worlds[m].ledger[u].id
    ensures u in run.worlds[m - 1].ledger
  {
    hide GuardCall, Handle;
    var p := PresentedToken(run.actions[k].request);
    PresentedArtifact(run, k, p);
    LedgerKeeps(run, k, m - 1);
    LedgerKeeps(run, k, m);
    UniqueIds(run, m, p, u);
  }

  /** Each rotation after step `i` presents one more identifier. */
  lemma {:induction false} RotationsFlood(run: Run, r: nat, now: int, i: nat, n: nat, t: string)
    requires run.Genuine() && i < n <= |run.actions| && t in run.worlds[i].ledger
    requires forall m :: i < m < n ==> Rotation(run, r, now, m)
    ensures |Rivals(run, r, i, n, run.worlds[i].ledger[t].id)| >= n - i - 1
    decreases n
  {
    hide GuardCall, Rotation, Rivals, Rival, Handle;
    if n > i + 1 {
      RotationsFlood(run, r, now, i, n - 1, t);
      RotationIsARival(run, r, now, i, n - 1, t);
      RivalsGrow(run, r, i, n - 1, run.worlds[i].ledger[t].id);
    }
  }

  /**
    The other second use. Every run that ends with a grant continues, all at one
    instant, to one in which its refresh token is redeemed, as many newer tokens
    are rotated at the same replica as its guard holds, and the first token is
    then honoured again.
   */
  lemma EveryGrantCanBeFlooded(run: Run, r: nat, now: int) returns (longer: Run, i: nat, j: nat, t: string)
    requires Open(run, r, now) && run.cfg.as_.refreshTTL > 0 && run.actions != []
    requires run.actions[|run.actions| - 1].now == now && LastResponse(run).TokenGrant?
    ensures Open(longer, r, now) && Later(run, longer) && t == LastResponse(run).refresh
    ensures i == |run.actions| && j == i + run.cfg.guardSize + 1 && |longer.actions| == j + 1
    ensures forall n :: i <= n <= j ==> longer.actions[n].now == now && longer.actions[n].replica == r
    ensures Honours(longer, i, t) && Honours(longer, j, t)
  {
    hide Handle, OnHit, GuardCall;
    t := LastResponse(run).refresh;
    i, j := |run.actions|, |run.actions| + run.cfg.guardSize + 1;
    var rotated := Rotations(run, r, now, run.cfg.guardSize + 1);
    var f := SomeFresh(LastLedger(rotated));
    var ip := SomeAddress(Here(rotated, r).replica.token, run.cfg.token, now);
    longer := OneMoreStep(rotated, r, now, Token(ip, Some(Refreshing(t))), f);
    forall n | i <= n < j
      ensures Rotation(longer, r, now, n) && longer.actions[n].replica == r && longer.actions[n].now == now
    {
      assert Rotation(rotated, r, now, n);
    }
    assert longer.StateAt(j) == Here(rotated, r);
    FloodedUse(longer, i, j, r, now, ip, t);
  }

  lemma FloodedUse(run: Run, i: nat, j: nat, r: nat, now: int, ip: string, t: string)
    requires run.Genuine() && run.OneClock() && run.cfg.as_.refreshTTL > 0
    requires 1 <= i && j == i + run.cfg.guardSize + 1 && |run.actions| == j + 1
    requires forall n :: i <= n < j ==> Rotation(run, r, now, n)
    requires run.Granted(i - 1) && t == run.responses[i - 1].refresh
    requires var b := run.actions[j]; b.replica == r && b.now == now && b.request == Token(ip, Some(Refreshing(t)))
    requires OnHit(run.StateAt(j).replica.token, run.cfg.token, ip, now).0
    ensures Honours(run, i, t) && Honours(run, j, t)
  {
    hide Handle, OnHit, Rotation;
    assert Rotation(run, r, now, i);
    RotationPresents(run, r, now, i);
    assert run.Granted(i) && run.actions[i].replica == r && run.actions[i].now == now by { RotationIs(run, r, now, i); }
    LedgerKeeps(run, i, j);
    PresentedArtifact(run, i, t);
    var k := StampedAt(run, i, t);
    assert Presents(run, j, t) by { CanPresent(run, i, j, ip, t); }
    forall m | i < m < j
      ensures !Presents(run, m, t)
    {
      RotationPresents(run, r, now, m);
      LedgerKeeps(run, i, m - 1);
    }
    RotationsFlood(run, r, now, i, j, t);
    HonouredAgainExactly(run, i, i, j, t);
  }

  /** A token honoured at an instant is presented to the guard again at that instant. */
  lemma CanPresent(run: Run, i: nat, j: nat, ip: string, t: string)
    requires run.Genuine() && i < j < |run.actions| && Presents(run, i, t)
    requires t in run.worlds[i].ledger && run.worlds[i].ledger[t].Refresh?
    requires run.actions[j].now == run.actions[i].now && run.actions[j].request == Token(ip, Some(Refreshing(t)))
    requires OnHit(run.StateAt(j).replica.token, run.cfg.token, ip, run.actions[j].now).0
    ensures Presents(run, j, t)
  {
    hide OnHit;
    PresentedArtifact(run, i, t);
    LedgerKeeps(run, i, j);
  }

  lemma RotationIs(run: Run, r: nat, now: int, n: nat)
    requires run.Shaped() && Rotation(run, r, now, n)
    ensures 1 <= n < |run.actions| && run.Granted(n - 1) && run.Granted(n)
    ensures run.actions[n].replica == r && run.actions[n].now == now
  {
  }

  // ---- runs from nothing ----------------------------------------------------------------------------------

  /** A server whose lifetimes make sense, with one URI it would register and one person it lets in. */
  predicate Hospitable(cfg: Config, uri: string, verifier: string, id: Identity) {
    && cfg.Sane() && WellBuilt(cfg.lib, cfg.as_) && cfg.as_.authReqTTL >= SECOND && cfg.as_.codeTTL >= SECOND
    && Acceptable(cfg.lib.parse, uri) && uri != "" && UserAllowed(cfg, id.email)
    && verifier != "" && cfg.lib.hash(verifier) != ""
  }

  lemma FirstGrant(cfg: Config, uri: string, verifier: string, id: Identity) returns (run: Run)
    requires Hospitable(cfg, uri, verifier, id)
    ensures Open(run, 0, 0) && run.cfg == cfg && |run.worlds[0].replicas| == 1 && run.actions != []
    ensures run.actions[|run.actions| - 1].now == 0 && LastResponse(run).TokenGrant?
  {
    hide UserAllowed, Acceptable;
    ExecuteIsValid(cfg, 1, []);
    var blank := Execute(cfg, 1, []);
    assert Here(blank, 0).replica == BLANK;
    run := AnyoneCanBeServed(blank, 0, 0, "", uri, verifier, id);
  }

  /**
    On any hospitable server there are runs in which one replica honours a
    refresh token twice: after its lifetime, with nothing else presented to the
    guard in between, and at one and the same instant, with a flood.
   */
  lemma TokensAreUsedTwice(cfg: Config, uri: string, verifier: string, id: Identity)
    returns (late: Run, flooded: Run, i: nat, j: nat, k: nat, t: string)
    requires Hospitable(cfg, uri, verifier, id)
    ensures late.cfg == cfg && late.Genuine() && late.OneClock()
    ensures flooded.cfg == cfg && flooded.Genuine() && flooded.OneClock()
    ensures |late.worlds[0].replicas| == |flooded.worlds[0].replicas| == 1
    ensures i < j && Honours(late, i, t) && Honours(late, j, t) && !Flooded(late, i, j, t)
    ensures i < k && Honours(flooded, i, t) && Honours(flooded, k, t)
            && flooded.actions[k].now == flooded.actions[i].now
  {
    hide GuardCall, Hospitable;
    var served := FirstGrant(cfg, uri, verifier, id);
    assert cfg.as_.refreshTTL > 0 by { HospitableIs(cfg, uri, verifier, id); }
    late, t := EveryGrantCanBeUsedTwice(served, 0, 0);
    i, j := |served.actions|, |served.actions| + 1;
    assert Rivals(late, late.actions[i].replica, i, j, late.worlds[i].ledger[t].id) == {};
    var n, u;
    flooded, n, k, u := EveryGrantCanBeFlooded(served, 0, 0);
  }

  lemma HospitableIs(cfg: Config, uri: string, verifier: string, id: Identity)
    requires Hospitable(cfg, uri, verifier, id)
    ensures cfg.as_.refreshTTL > 0 && cfg.guardSize >= 1
  {
  }
}
