/**
  Single use of codes and refresh tokens, as far as a guard per replica takes
  it: exact in time and in the number of identifiers a guard can hold.
 */
module SingleUse {
  import opened Wrappers
  import opened Clock
  import opened Recency
  import opened TtlStore
  import opened ReplayGuard
  import opened RateLimiter
  import opened AuthServer
  import opened Artifacts
  import opened Handlers
  import opened Cimd
  import opened Steps
  import opened Runs

  // ---- what a request presents to the guard -------------------------------------------

  /** The call on the guard a request leads to, if it gets that far. */
  function GuardCall(cfg: Config, s: State, now: int, r: Request): Option<Call<string>>
    requires cfg.Sane()
  {
    if !r.Token? || !OnHit(s.replica.token, cfg.token, r.ip, now).0 || r.form.None? then None
    else
      var form := r.form.value;
      if Get(form, "grant_type") == "authorization_code" then
        match VerifyCode(s.ledger, Get(form, "code"), now)
        case None => None
        case Some(code) => Some(Call(code.id, cfg.as_.codeTTL, now))
      else if Get(form, "grant_type") == "refresh_token" then
        match VerifyRefreshToken(s.ledger, Get(form, "refresh_token"), now)
        case Expired => None
        case Invalid => None
        case Good(refresh) =>
          if Get(form, "client_id") != "" && Get(form, "client_id") != refresh.clientID then None
          else Some(Call(refresh.id, cfg.as_.refreshTTL, now))
      else None
  }

  function IsRefresh(r: Request): bool { r.Token? && r.form.Some? && Get(r.form.value,
                                                                         "grant_type") == "refresh_token" }

  /**
    The guard changes by exactly the call; a grant needs a call that is not
    "seen"; and a refresh needs nothing more.
   */
  lemma HandleCallsGuard(cfg: Config, s: State, now: int, r: Request, f: Fresh)
    requires cfg.Sane()
    ensures var (t, response) := Handle(cfg, s, now, r, f);
            match GuardCall(cfg, s, now, r)
            case None => t.replica.guard == s.replica.guard && !response.TokenGrant?
            case Some(call) =>
              var (seen, guard) := Seen(s.replica.guard, cfg.guardSize, call.jti, call.ttl, call.now);
              && t.replica.guard == guard
              && (response.TokenGrant? ==> !seen)
              && (IsRefresh(r) ==> (response.TokenGrant? <==> !seen))
  {
    match r
    case Register(_, _) =>
    case AuthorizeGET(ip, query, cookies, fetch) => GETLeavesGuard(cfg, s, now, ip, query, cookies, fetch, f);
    case AuthorizePOST(_, _, _, _) =>
    case MCPVerify(_) =>
    case Token(ip, form) => TokenCallsGuard(cfg, s, now, r, f);
  }

  lemma GETLeavesGuard(cfg: Config, s: State, now: int, ip: string, q: Values, cookies: Cookies, fetch: Cimd.Outcome,
                       f: Fresh)
    requires cfg.Sane()
    ensures var (t, response) := HandleAuthorizeGET(cfg, s, now, ip, q, cookies, fetch, f);
            t.replica.guard == s.replica.guard && !response.TokenGrant?
  {
    hide Resolve, OnHit, UserAllowed;
    IdentifyOnlyReads(cfg, s, now, ip, q, fetch);
  }

  lemma TokenCallsGuard(cfg: Config, s: State, now: int, r: Request, f: Fresh)
    requires cfg.Sane() && r.Token?
    ensures var (t, response) := HandleToken(cfg, s, now, r.ip, r.form, f);
            match GuardCall(cfg, s, now, r)
            case None => t.replica.guard == s.replica.guard && !response.TokenGrant?
            case Some(call) =>
              var (seen, guard) := Seen(s.replica.guard, cfg.guardSize, call.jti, call.ttl, call.now);
              && t.replica.guard == guard
              && (response.TokenGrant? ==> !seen)
              && (IsRefresh(r) ==> (response.TokenGrant? <==> !seen))
  {
  }

  // ---- the guard of one replica over a run ------------------------------------------------

  ghost function CallAt(run: Run, n: nat): Option<Call<string>>
    requires run.Shaped() && n < |run.actions|
  {
    GuardCall(run.cfg, run.StateAt(n), run.actions[n].now, run.actions[n].request)
  }

  function GuardOf(run: Run, r: nat, n: nat): Guard<string>
    requires run.Shaped() && n <= |run.actions| && r < |run.worlds[0].replicas|
  {
    run.worlds[n].replicas[r].guard
  }

  lemma GuardStepAt(run: Run, r: nat, n: nat)
    requires run.Valid() && n < |run.actions| && r < |run.worlds[0].replicas|
    ensures var g, h := GuardOf(run, r, n), GuardOf(run, r, n + 1);
            if run.actions[n].replica == r && CallAt(run, n).Some? then
              var call := CallAt(run, n).value;
              var (seen, guard) := Seen(g, run.cfg.guardSize, call.jti, call.ttl, call.now);
              && h == guard && (run.Granted(n) ==> !seen)
              && (IsRefresh(run.actions[n].request) ==> (run.Granted(n) <==> !seen))
            else h == g && (run.actions[n].replica == r ==> !run.Granted(n))
  {
    var a := run.actions[n];
    assert run.StepHolds(n);
    HandleCallsGuard(run.cfg, run.StateAt(n), a.now, a.request, a.random);
  }

  lemma GuardStartsBlank(run: Run, r: nat)
    requires run.Valid() && r < |run.worlds[0].replicas|
    ensures GuardOf(run, r, 0) == Contents(map[], [])
  {
    assert run.worlds[0].replicas[r] in run.worlds[0].replicas;
  }

  /** No replica's guard ever outgrows its size. */
  lemma {:induction false} GuardConsistent(run: Run, r: nat, n: nat)
    requires run.Valid() && n <= |run.actions| && r < |run.worlds[0].replicas|
    ensures Consistent(GuardOf(run, r, n), run.cfg.guardSize)
  {
    hide GuardCall;
    if n == 0 {
      GuardStartsBlank(run, r);
    } else {
      GuardConsistent(run, r, n - 1);
      GuardStepAt(run, r, n - 1);
      if CallAt(run, n - 1).Some? {
        SeenConsistent(GuardOf(run, r, n - 1), run.cfg.guardSize, CallAt(run, n - 1).value);
      }
    }
  }

  // ---- artifacts and their identifiers -----------------------------------------------------

  /** The token a request to the token endpoint presents. */
  function PresentedToken(r: Request): string {
    if !r.Token? || r.form.None? then ""
    else if Get(r.form.value, "grant_type") == "authorization_code" then Get(r.form.value, "code")
    else Get(r.form.value, "refresh_token")
  }

  /** Step `n` presents `t` to the guard of its replica: every check before the guard has passed. */
  ghost predicate Presents(run: Run, n: nat, t: string)
    requires run.Shaped()
  {
    && n < |run.actions| && CallAt(run, n).Some?
    && PresentedToken(run.actions[n].request) == t
  }

  function LifetimeOf(as_: AS, c: Claims): int { if c.Code? then as_.codeTTL else as_.refreshTTL }

  lemma PresentedArtifact(run: Run, n: nat, t: string)
    requires run.Valid() && Presents(run, n, t)
    ensures t in run.worlds[n].ledger
    ensures var c, call := run.worlds[n].ledger[t], CallAt(run, n).value;
            && (c.Code? || c.Refresh?)
            && call == Call(c.id, LifetimeOf(run.cfg.as_, c), run.actions[n].now)
            && (c.Code? ==> c.iat <= call.now <= c.exp)
            && (c.Refresh? <==> IsRefresh(run.actions[n].request))
            && (c.Refresh? ==> c.iat - LEEWAY <= call.now <= c.exp + LEEWAY)
  {
  }

  /** The identifiers other than `jti` presented at replica `r` strictly between two steps. */
  ghost function Rivals(run: Run, r: nat, i: nat, j: nat, jti: string): set<string>
    requires run.Shaped() && i < j <= |run.actions|
  {
    set k | i < k < j && Rival(run, r, k, jti) :: CallAt(run, k).value.jti
  }

  ghost predicate Rival(run: Run, r: nat, k: nat, jti: string)
    requires run.Shaped() && k < |run.actions|
  {
    run.actions[k].replica == r && CallAt(run, k).Some? && CallAt(run, k).value.jti != jti
  }

  /** Between two steps, `jti` is presented at replica `r` only before its entry of step `i` expires. */
  ghost predicate StillFound(run: Run, r: nat, i: nat, j: nat, jti: string)
    requires run.Shaped() && i < j <= |run.actions| && r < |run.worlds[0].replicas|
    requires jti in GuardOf(run, r, i + 1).entries
  {
    forall k :: i < k < j && Recalls(run, r, k, jti)
      ==> run.actions[k].now <= GuardOf(run, r, i + 1).entries[jti].expiresAt
  }

  ghost predicate Recalls(run: Run, r: nat, k: nat, jti: string)
    requires run.Shaped() && k < |run.actions|
  {
    run.actions[k].replica == r && CallAt(run, k).Some? && CallAt(run, k).value.jti == jti
  }

  /** Lifetimes are positive. */
  ghost predicate Timely(run: Run) { run.cfg.as_.codeTTL > 0 && run.cfg.as_.refreshTTL > 0 }

  lemma {:induction false} RetainedOverRun(run: Run, r: nat, i: nat, j: nat, jti: string)
    requires run.Valid() && Timely(run) && i < j <= |run.actions| && r < |run.worlds[0].replicas|
    requires var g := GuardOf(run, r, i + 1); jti in g.entries && g.order != [] && g.order[0] == jti
    requires |Rivals(run, r, i, j, jti)| < run.cfg.guardSize
    ensures var g, h := GuardOf(run, r, i + 1), GuardOf(run, r, j);
            && jti in h.entries && Ahead(h.order, jti) <= Rivals(run, r, i, j, jti)
            && h.entries[jti].expiresAt >= g.entries[jti].expiresAt
            && (StillFound(run, r, i, j, jti) ==> h.entries[jti].expiresAt == g.entries[jti].expiresAt)
    decreases j
  {
    hide GuardCall, Consistent, Seen, GuardOf;
    if j == i + 1 {
    } else {
      var n := j - 1;
      FewerRivals(run, r, i, n, j, jti);
      RetainedOverRun(run, r, i, n, jti);
      GuardConsistent(run, r, n);
      GuardStepAt(run, r, n);
      if run.actions[n].replica == r && CallAt(run, n).Some? {
        var call := CallAt(run, n).value;
        PresentedArtifact(run, n, PresentedToken(run.actions[n].request));
        assert call.jti != jti ==> Rival(run, r, n, jti);
        assert call.jti == jti ==> Recalls(run, r, n, jti);
        RetainedByThisCall(run, r, i, n, jti, call);
      }
    }
  }

  lemma RetainedByThisCall(run: Run, r: nat, i: nat, n: nat, jti: string, call: Call<string>)
    requires run.Valid() && i < n < |run.actions| && r < |run.worlds[0].replicas| && CallAt(run, n) == Some(call)
    requires run.actions[n].replica == r
    requires var g := GuardOf(run, r, n);
             Consistent(g, run.cfg.guardSize) && jti in g.entries && Ahead(g.order, jti) <= Rivals(run, r, i, n, jti)
    requires |Rivals(run, r, i, n + 1, jti)| < run.cfg.guardSize
    ensures var g, h := GuardOf(run, r, n), Seen(GuardOf(run, r, n), run.cfg.guardSize, call.jti, call.ttl, call.now).1;
            && jti in h.entries && Ahead(h.order, jti) <= Rivals(run, r, i, n + 1, jti)
            && h.entries[jti].expiresAt == (if call.jti == jti && !Live(g, jti, call.now)
                                            then call.now + call.ttl else g.entries[jti].expiresAt)
  {
    hide GuardCall, Consistent, Seen, GuardOf, Ahead;
    var now, later := Rivals(run, r, i, n, jti), Rivals(run, r, i, n + 1, jti);
    if call.jti != jti {
      assert Rival(run, r, n, jti);
      assert later == now + {call.jti};
    }
    RetainedByCall(GuardOf(run, r, n), run.cfg.guardSize, jti, call, now);
    assert now <= later;
  }

  lemma FewerRivals(run: Run, r: nat, i: nat, k: nat, j: nat, jti: string)
    requires run.Shaped() && i < k <= j <= |run.actions|
    ensures Rivals(run, r, i, k, jti) <= Rivals(run, r, i, j, jti)
    ensures |Rivals(run, r, i, k, jti)| <= |Rivals(run, r, i, j, jti)|
  {
    hide GuardCall;
    Subset(Rivals(run, r, i, k, jti), Rivals(run, r, i, j, jti));
  }

  /**
    Exactly how long a guard keeps an identifier over a run: until as many
    others as it holds have come to the replica since the identifier last did.
   */
  lemma {:induction false} KeptOverRun(run: Run, r: nat, i: nat, j: nat, jti: string)
    requires run.Valid() && i < j <= |run.actions| && r < |run.worlds[0].replicas|
    requires var g := GuardOf(run, r, i + 1); jti in g.entries && g.order != [] && g.order[0] == jti
    requires forall k :: i < k < j ==> !Recalls(run, r, k, jti)
    ensures var g, h, rivals := GuardOf(run, r, i + 1), GuardOf(run, r, j), Rivals(run, r, i, j, jti);
            && (jti in h.entries <==> |rivals| < run.cfg.guardSize)
            && (jti in h.entries ==> Ahead(h.order, jti) == rivals && h.entries[jti] == g.entries[jti])
    decreases j
  {
    hide GuardCall, Consistent, Seen, GuardOf;
    if j == i + 1 {
      assert Rivals(run, r, i, j, jti) == {};
    } else {
      hide Recalls, Rivals;
      var n := j - 1;
      KeptOverRun(run, r, i, n, jti);
      GuardConsistent(run, r, n);
      GuardStepAt(run, r, n);
      RivalsGrow(run, r, i, n, jti);
      if run.actions[n].replica == r && CallAt(run, n).Some? {
        var call := CallAt(run, n).value;
        assert call.jti != jti by { NoRecall(run, r, n, jti); }
        CallUses(GuardOf(run, r, n), run.cfg.guardSize, call);
        OthersPushOut(GuardOf(run, r, n), GuardOf(run, r, j), run.cfg.guardSize, jti, call.jti, Rivals(run, r, i, n,
                                                                                                       jti));
      }
    }
  }

  lemma NoRecall(run: Run, r: nat, n: nat, jti: string)
    requires run.Shaped() && n < |run.actions| && !Recalls(run, r, n, jti)
    ensures run.actions[n].replica == r && CallAt(run, n).Some? ==> CallAt(run, n).value.jti != jti
  {
    hide GuardCall;
  }

  /** The rivals up to one step later are those, and the identifier that step presents, if another. */
  lemma RivalsGrow(run: Run, r: nat, i: nat, n: nat, jti: string)
    requires run.Shaped() && i < n < |run.actions|
    ensures var now := Rivals(run, r, i, n, jti);
            Rivals(run, r, i, n + 1, jti) == if Rival(run, r, n, jti) then now + {CallAt(run, n).value.jti} else now
  {
    hide GuardCall;
  }

  /**
    An identifier presented at step `i` and next at step `j` is recognised
    exactly when it has not expired and fewer others than the guard holds came
    to the replica in between.
   */
  lemma PresentedAgain(run: Run, i: nat, j: nat)
    requires run.Valid() && i < j < |run.actions| && run.actions[i].replica == run.actions[j].replica
    requires CallAt(run, i).Some? && CallAt(run, j).Some? && CallAt(run, i).value.jti == CallAt(run, j).value.jti
    requires forall k :: i < k < j ==> !Recalls(run, run.actions[i].replica, k, CallAt(run, i).value.jti)
    ensures CallAt(run, i).value.jti in GuardOf(run, run.actions[i].replica, i + 1).entries
    ensures var r, call := run.actions[i].replica, CallAt(run, j).value;
            Live(GuardOf(run, r, j), call.jti, call.now) <==>
              && call.now <= GuardOf(run, r, i + 1).entries[call.jti].expiresAt
              && |Rivals(run, r, i, j, call.jti)| < run.cfg.guardSize
  {
    hide GuardCall;
    GuardStepAt(run, run.actions[i].replica, i);
    KeptOverRun(run, run.actions[i].replica, i, j, CallAt(run, i).value.jti);
  }

  /** A code or refresh token is stamped with the time of the step that minted it. */
  lemma StampedAt(run: Run, n: nat, t: string) returns (k: nat)
    requires run.Genuine() && n <= |run.actions| && t in run.worlds[n].ledger
    requires run.worlds[n].ledger[t].Code? || run.worlds[n].ledger[t].Refresh?
    ensures k < n && t !in run.worlds[k].ledger && t in run.worlds[k + 1].ledger
    ensures var c := run.worlds[n].ledger[t];
            && c.iat == run.actions[k].now / 1_000_000_000 * 1_000_000_000
            && c.exp == (run.actions[k].now + (if c.Code? then run.cfg.as_.codeTTL else run.cfg.as_.refreshTTL))
                        / 1_000_000_000 * 1_000_000_000
  {
    hide Handle, GuardCall, ParameterProblem, ToSeal, Redeems, Rotates, Reconstruct;
    k := MintedAt(run, n, t);
    LedgerStepAt(run, k);
  }

  /** Identifiers name artifacts. */
  lemma {:induction false} UniqueIds(run: Run, n: nat, t: string, u: string)
    requires run.Genuine() && n <= |run.actions| && t in run.worlds[n].ledger && u in run.worlds[n].ledger
    requires run.worlds[n].ledger[t].id == run.worlds[n].ledger[u].id
    ensures t == u
  {
    hide Handle, GuardCall;
    LedgerStepAt(run, n - 1);
    assert run.FreshAt(n - 1);
    var l := run.worlds[n - 1].ledger;
    NewIds(run, n - 1, t);
    NewIds(run, n - 1, u);
    if t in l && u in l {
      LedgerGrows(run, n - 1);
      UniqueIds(run, n - 1, t, u);
    }
  }

  /** What a step mints has one of its two fresh identifiers, and which one tells the token. */
  lemma NewIds(run: Run, k: nat, t: string)
    requires run.Genuine() && k < |run.actions| && t in run.worlds[k + 1].ledger
    ensures var f, c := run.actions[k].random, run.worlds[k + 1].ledger[t];
            if t in run.worlds[k].ledger then c == run.worlds[k].ledger[t] && c.id != f.id && c.id != f.id2
            else (t == f.token && c.id == f.id) || (t == f.token2 && c.id == f.id2)
  {
    LedgerStepAt(run, k);
    assert run.FreshAt(k);
  }

  /** A call adds no identifier but its own. */
  lemma OnlyItsOwn(g: Guard<string>, capacity: nat, call: Call<string>)
    requires capacity >= 1
    ensures forall k :: k in Seen(g, capacity, call.jti, call.ttl, call.now).1.entries
              ==> k in g.entries || k == call.jti
  {
  }

  /** A guard holds nothing but identifiers of artifacts. */
  lemma {:induction false} GuardKeysAreIds(run: Run, r: nat, n: nat, jti: string)
    requires run.Genuine() && n <= |run.actions| && r < |run.worlds[0].replicas|
    requires jti in GuardOf(run, r, n).entries
    ensures exists t :: t in run.worlds[n].ledger && run.worlds[n].ledger[t].id == jti
  {
    if n == 0 {
      GuardStartsBlank(run, r);
    } else {
      hide GuardCall, Handle, Seen;
      GuardStepAt(run, r, n - 1);
      LedgerGrows(run, n - 1);
      if jti in GuardOf(run, r, n - 1).entries {
        GuardKeysAreIds(run, r, n - 1, jti);
      } else {
        OnlyItsOwn(GuardOf(run, r, n - 1), run.cfg.guardSize, CallAt(run, n - 1).value);
        PresentedArtifact(run, n - 1, PresentedToken(run.actions[n - 1].request));
      }
    }
  }

  /**
    Retention covers validity: while a guard remembers a code or a refresh
    token at all, it does so at least until the expiry written in it. The entry
    counts from redemption and the expiry from minting, cut to a second, so
    this needs one clock.
   */
  lemma {:induction false} RetentionCoversExpiry(run: Run, r: nat, n: nat, t: string)
    requires run.Genuine() && run.OneClock() && n <= |run.actions| && r < |run.worlds[0].replicas|
    requires t in run.worlds[n].ledger && (run.worlds[n].ledger[t].Code? || run.worlds[n].ledger[t].Refresh?)
    requires run.worlds[n].ledger[t].id in GuardOf(run, r, n).entries
    ensures GuardOf(run, r, n).entries[run.worlds[n].ledger[t].id].expiresAt >= run.worlds[n].ledger[t].exp
  {
    hide GuardCall;
    var c := run.worlds[n].ledger[t];
    if n == 0 {
    } else {
      GuardStepAt(run, r, n - 1);
      LedgerGrows(run, n - 1);
      OwnerOfNewKey(run, r, n - 1, t);
      var g, h := GuardOf(run, r, n - 1), GuardOf(run, r, n);
      if c.id in g.entries && h.entries[c.id] == g.entries[c.id] {
        assert t in run.worlds[n - 1].ledger;
        RetentionCoversExpiry(run, r, n - 1, t);
      } else {
        PresentedArtifact(run, n - 1, t);
        var k := StampedAt(run, n, t);
        assert run.actions[k].now <= run.actions[n - 1].now;
      }
    }
  }

  /** If an artifact's identifier is in a guard, the artifact was there before, and only it can renew the entry. */
  lemma OwnerOfNewKey(run: Run, r: nat, n: nat, t: string)
    requires run.Genuine() && n < |run.actions| && r < |run.worlds[0].replicas| && t in run.worlds[n + 1].ledger
    requires run.worlds[n + 1].ledger[t].id in GuardOf(run, r, n + 1).entries
    ensures t in run.worlds[n].ledger
    ensures CallAt(run, n).Some? && CallAt(run, n).value.jti == run.worlds[n + 1].ledger[t].id ==> Presents(run, n, t)
  {
    GuardStepAt(run, r, n);
    NewIds(run, n, t);
    var id := run.worlds[n + 1].ledger[t].id;
    if CallAt(run, n).Some? {
      var p := PresentedToken(run.actions[n].request);
      PresentedArtifact(run, n, p);
      if CallAt(run, n).value.jti == id && t in run.worlds[n].ledger {
        UniqueIds(run, n, t, p);
      }
    }
    if t !in run.worlds[n].ledger {
      assert run.FreshAt(n);
      if id in GuardOf(run, r, n).entries {
        GuardKeysAreIds(run, r, n, id);
      }
    }
  }

  // ---- presentations of one artifact ------------------------------------------------------------

  /** Steps `i` and `j` present `t` at the same replica, and no step in between does. */
  ghost predicate PresentsNext(run: Run, i: nat, j: nat, t: string)
    requires run.Shaped()
  {
    && i < j && Presents(run, i, t) && Presents(run, j, t)
    && run.actions[i].replica == run.actions[j].replica
    && forall k :: i < k < j && run.actions[k].replica == run.actions[i].replica ==> !Presents(run, k, t)
  }

  /** At least as many other identifiers as the guard holds came to the replica of step `i` between two steps. */
  ghost predicate Flooded(run: Run, i: nat, j: nat, t: string)
    requires run.Shaped() && i < j < |run.actions| && t in run.worlds[i].ledger
  {
    |Rivals(run, run.actions[i].replica, i, j, run.worlds[i].ledger[t].id)| >= run.cfg.guardSize
  }

  lemma FloodedLonger(run: Run, i: nat, k: nat, j: nat, t: string)
    requires run.Genuine() && i <= k < j < |run.actions| && run.actions[i].replica == run.actions[k].replica
    requires t in run.worlds[i].ledger && t in run.worlds[k].ledger && Flooded(run, k, j, t)
    ensures Flooded(run, i, j, t)
  {
    hide GuardCall;
    LedgerKeeps(run, i, k);
    var r, id := run.actions[i].replica, run.worlds[i].ledger[t].id;
    Subset(Rivals(run, r, k, j, id), Rivals(run, r, i, j, id));
  }

  /** A presentation of an identifier is one of the artifact it names. */
  lemma RecallPresents(run: Run, k: nat, t: string, i: nat)
    requires run.Genuine() && i <= k < |run.actions| && t in run.worlds[i].ledger
    requires Recalls(run, run.actions[k].replica, k, run.worlds[i].ledger[t].id)
    ensures Presents(run, k, t)
  {
    hide GuardCall;
    var p := PresentedToken(run.actions[k].request);
    LedgerKeeps(run, i, k);
    PresentedArtifact(run, k, p);
    UniqueIds(run, k, p, t);
  }

  /**
    Exactly when a replica still knows an artifact at its next presentation:
    while the entry the previous one left is in force, unless the guard was
    flooded in between. It grants only if it does not know it, and then always
    on a refresh token.
   */
  lemma NextPresentation(run: Run, i: nat, j: nat, t: string)
    requires run.Genuine() && PresentsNext(run, i, j, t)
    ensures t in run.worlds[i].ledger && t in run.worlds[j].ledger && run.worlds[i].ledger[t] == run.worlds[j].ledger[t]
    ensures run.worlds[i].ledger[t].id in GuardOf(run, run.actions[i].replica, i + 1).entries
    ensures var known := run.actions[j].now <= GuardOf(run, run.actions[i].replica,
                                                       i + 1).entries[run.worlds[i].ledger[t].id].expiresAt
                         && !Flooded(run, i, j, t);
            && (known <==> Live(GuardOf(run, run.actions[j].replica, j), run.worlds[j].ledger[t].id,
                                run.actions[j].now))
            && (run.Granted(j) ==> !known) && (run.worlds[i].ledger[t].Refresh? ==> (run.Granted(j) <==> !known))
  {
    hide GuardCall;
    var r := run.actions[i].replica;
    PresentedArtifact(run, i, t);
    PresentedArtifact(run, j, t);
    LedgerKeeps(run, i, j);
    forall k | i < k < j
      ensures !Recalls(run, r, k, run.worlds[i].ledger[t].id)
    {
      if Recalls(run, r, k, run.worlds[i].ledger[t].id) {
        RecallPresents(run, k, t, i);
      }
    }
    PresentedAgain(run, i, j);
    GuardStepAt(run, r, j);
  }

  /** The latest presentation at a replica before a step, given an earlier one. */
  lemma {:induction false} LatestPresentation(run: Run, i: nat, j: nat, t: string) returns (p: nat)
    requires run.Genuine() && i < j < |run.actions| && Presents(run, i, t)
    ensures i <= p < j && Presents(run, p, t) && run.actions[p].replica == run.actions[i].replica
    ensures forall k :: p < k < j && run.actions[k].replica == run.actions[i].replica ==> !Presents(run, k, t)
    decreases j - i
  {
    hide GuardCall;
    if k :| i < k < j && run.actions[k].replica == run.actions[i].replica && Presents(run, k, t) {
      p := LatestPresentation(run, k, j, t);
    } else {
      p := i;
    }
  }

  // ---- codes -----------------------------------------------------------------------------------

  /**
    Exactly when a replica grants on a code it has been presented before: only
    if, since the last presentation, as many others came as its guard holds,
    and then for the right client, URI and verifier. Whether that earlier
    presentation was granted makes no difference.
   */
  lemma CodeGrantedAgainExactly(run: Run, i: nat, j: nat, code: string)
    requires run.Genuine() && run.OneClock() && PresentsNext(run, i, j, code)
    requires code in run.worlds[i].ledger && run.worlds[i].ledger[code].Code?
    ensures run.Granted(j) <==>
              Flooded(run, i, j, code) && Redeems(run.cfg, run.actions[j].now, run.actions[j].request,
                                                  run.worlds[i].ledger[code])
  {
    hide GuardCall;
    var r := run.actions[i].replica;
    NextPresentation(run, i, j, code);
    LedgerKeeps(run, i, i + 1);
    PresentedArtifact(run, j, code);
    RetentionCoversExpiry(run, r, i + 1, code);
    CodeAtGuard(run, j, code);
  }

  /** A code the guard does not know is granted on exactly when presented in full. */
  lemma CodeAtGuard(run: Run, j: nat, code: string)
    requires run.Valid() && Presents(run, j, code) && code in run.worlds[j].ledger && run.worlds[j].ledger[code].Code?
    ensures run.Granted(j) <==>
              && !Live(GuardOf(run, run.actions[j].replica, j), run.worlds[j].ledger[code].id, run.actions[j].now)
              && Redeems(run.cfg, run.actions[j].now, run.actions[j].request, run.worlds[j].ledger[code])
  {
    assert run.StepHolds(j);
  }

  /**
    A replica that has seen a code at all, even in a presentation that then
    failed its client, URI or verifier check, does not grant on it again unless
    its guard was flooded since.
   */
  lemma CodeIsSpentByAnyPresentation(run: Run, i: nat, j: nat, code: string)
    requires run.Genuine() && run.OneClock() && i < j < |run.actions|
    requires run.actions[i].replica == run.actions[j].replica
    requires Presents(run, i, code) && code in run.worlds[i].ledger && run.worlds[i].ledger[code].Code?
    requires PresentedToken(run.actions[j].request) == code
    ensures run.Granted(j) ==> Flooded(run, i, j, code)
  {
    hide GuardCall;
    if run.Granted(j) {
      GuardStepAt(run, run.actions[j].replica, j);
      var p := LatestPresentation(run, i, j, code);
      LedgerKeeps(run, i, p);
      CodeGrantedAgainExactly(run, p, j, code);
      FloodedLonger(run, i, p, j, code);
    }
  }

  function ReplicaOf(run: Run, n: nat): nat {
    if n < |run.actions| then run.actions[n].replica else 0
  }

  ghost predicate GrantsOnCode(run: Run, i: nat, code: string)
    requires run.Shaped()
  {
    i < |run.actions| && run.Granted(i) && Presents(run, i, code)
    && code in run.worlds[i].ledger && run.worlds[i].ledger[code].Code?
  }

  /** Two of the steps are at one replica, whose guard was flooded between them. */
  ghost predicate FloodedBetween(run: Run, steps: set<nat>, i: nat, j: nat, t: string)
    requires run.Shaped()
  {
    && i in steps && j in steps && i < j < |run.actions| && run.actions[i].replica == run.actions[j].replica
    && t in run.worlds[i].ledger && Flooded(run, i, j, t)
  }

  /** R replicas grant on one code at most R times, or the guard of one was flooded between two of the grants. */
  lemma CodeGrantsAtMostPerReplica(run: Run, code: string, steps: set<nat>)
    requires run.Genuine() && run.OneClock()
    requires forall i :: i in steps ==> GrantsOnCode(run, i, code)
    ensures |steps| <= |run.worlds[0].replicas| || exists i, j :: FloodedBetween(run, steps, i, j, code)
  {
    hide GuardCall, Flooded;
    forall i, j | i in steps && j in steps && i < j
      ensures run.actions[i].replica != run.actions[j].replica || FloodedBetween(run, steps, i, j, code)
    {
      if run.actions[i].replica == run.actions[j].replica {
        CodeIsSpentByAnyPresentation(run, i, j, code);
      }
    }
    if forall i, j :: !FloodedBetween(run, steps, i, j, code) {
      Pigeonhole(steps, n => ReplicaOf(run, n), |run.worlds[0].replicas|);
    }
  }

  lemma {:induction false} Pigeonhole(s: set<nat>, f: nat -> nat, bound: nat)
    requires forall i :: i in s ==> f(i) < bound
    requires forall i, j :: i in s && j in s && i < j ==> f(i) != f(j)
    ensures |s| <= bound
    decreases bound
  {
    if bound == 0 {
      assert s == {};
    } else if exists i :: i in s && f(i) == bound - 1 {
      var i :| i in s && f(i) == bound - 1;
      Pigeonhole(s - {i}, f, bound - 1);
    } else {
      Pigeonhole(s, f, bound - 1);
    }
  }

  // ---- refresh tokens ------------------------------------------------------------------------------

  /** Step `n` honours refresh token `t`. */
  ghost predicate Honours(run: Run, n: nat, t: string)
    requires run.Shaped()
  {
    n < |run.actions| && run.Granted(n) && Presents(run, n, t)
    && t in run.worlds[n].ledger && run.worlds[n].ledger[t].Refresh?
  }

  /** While a guard remembers a token since it was honoured, that is for one refresh lifetime. */
  lemma {:induction false} BurnedUntil(run: Run, i: nat, n: nat, t: string)
    requires run.Genuine() && i < n <= |run.actions| && Honours(run, i, t)
    requires forall k :: i < k < n && run.actions[k].replica == run.actions[i].replica ==> !Honours(run, k, t)
    ensures var g, id := GuardOf(run, run.actions[i].replica, n), run.worlds[i].ledger[t].id;
            id in g.entries ==> g.entries[id].expiresAt == run.actions[i].now + run.cfg.as_.refreshTTL
    decreases n
  {
    hide GuardCall;
    var r, id, k := run.actions[i].replica, run.worlds[i].ledger[t].id, n - 1;
    GuardStepAt(run, r, k);
    if k == i {
      PresentedArtifact(run, i, t);
    } else {
      BurnedUntil(run, i, k, t);
      if Recalls(run, r, k, id) {
        RecallPresents(run, k, t, i);
        LedgerKeeps(run, i, k);
        PresentedArtifact(run, k, t);
        assert !Honours(run, k, t);
      }
    }
  }

  /**
    Exactly when a replica honours a refresh token again, after honouring it at
    step `i`: at a presentation more than a whole lifetime after that, or one
    before which as many others came, since the last presentation `p`, as the
    guard holds.
   */
  lemma HonouredAgainExactly(run: Run, i: nat, p: nat, j: nat, t: string)
    requires run.Genuine() && i <= p && Honours(run, i, t) && PresentsNext(run, p, j, t)
    requires run.actions[i].replica == run.actions[j].replica
    requires forall k :: i < k < j && run.actions[k].replica == run.actions[i].replica ==> !Honours(run, k, t)
    ensures t in run.worlds[p].ledger
    ensures run.Granted(j) <==>
              run.actions[j].now > run.actions[i].now + run.cfg.as_.refreshTTL || Flooded(run, p, j, t)
  {
    hide GuardCall;
    LedgerKeeps(run, i, p);
    NextPresentation(run, p, j, t);
    BurnedUntil(run, i, p + 1, t);
  }

  /** The latest honour at a replica before a step, given an earlier one. */
  lemma {:induction false} LatestHonour(run: Run, i: nat, j: nat, t: string) returns (p: nat)
    requires run.Genuine() && i < j < |run.actions| && Honours(run, i, t)
    ensures i <= p < j && Honours(run, p, t) && run.actions[p].replica == run.actions[i].replica
    ensures forall k :: p < k < j && run.actions[k].replica == run.actions[i].replica ==> !Honours(run, k, t)
    decreases j - i
  {
    hide GuardCall;
    if k :| i < k < j && run.actions[k].replica == run.actions[i].replica && Honours(run, k, t) {
      p := LatestHonour(run, k, j, t);
    } else {
      p := i;
    }
  }

  /** Two honours of one token at one replica are more than a refresh lifetime apart, or the guard was flooded. */
  lemma HonoursAreSpaced(run: Run, i: nat, j: nat, t: string)
    requires run.Genuine() && run.OneClock() && i < j < |run.actions|
    requires run.actions[i].replica == run.actions[j].replica
    requires Honours(run, i, t) && Honours(run, j, t)
    ensures run.actions[j].now > run.actions[i].now + run.cfg.as_.refreshTTL || Flooded(run, i, j, t)
  {
    hide GuardCall, Flooded;
    var h := LatestHonour(run, i, j, t);
    var p := LatestPresentation(run, h, j, t);
    assert forall k :: p < k < j && run.actions[k].replica == run.actions[p].replica ==> !Presents(run, k, t);
    HonouredAgainExactly(run, h, p, j, t);
    if Flooded(run, p, j, t) {
      FloodedLonger(run, i, p, j, t);
    }
  }

  /**
    Once honoured, a token is not honoured again at that replica up to its
    expiry; and if it was first honoured a leeway or more after the step that
    minted it, never: unless the guard was flooded in between.
   */
  lemma HonouredOnceWithinExpiry(run: Run, i: nat, j: nat, t: string)
    requires run.Genuine() && run.OneClock() && i < j < |run.actions|
    requires run.actions[i].replica == run.actions[j].replica
    requires Honours(run, i, t) && Honours(run, j, t) && !Flooded(run, i, j, t)
    ensures run.actions[j].now > run.worlds[j].ledger[t].exp
    ensures exists k :: 0 <= k < i && t !in run.worlds[k].ledger && t in run.worlds[k + 1].ledger
                        && run.actions[i].now < run.actions[k].now + 60_000_000_000
  {
    hide GuardCall, Flooded;
    HonoursAreSpaced(run, i, j, t);
    LedgerKeeps(run, i, j);
    PresentedArtifact(run, j, t);
    var k := StampedAt(run, i, t);
  }

  /** The m-th of a series of steps honours `t` at the same replica as the one before it. */
  ghost predicate HonoursNext(run: Run, steps: seq<nat>, m: nat, t: string)
    requires run.Shaped() && m < |steps|
  {
    && Honours(run, steps[m], t)
    && (m > 0 ==> && steps[m - 1] < steps[m] && Honours(run, steps[m - 1], t)
                  && run.actions[steps[m - 1]].replica == run.actions[steps[m]].replica)
  }

  /** The guard was flooded between the m-th of a series of steps and the one before. */
  ghost predicate FloodedBefore(run: Run, steps: seq<nat>, m: nat, t: string)
    requires run.Shaped() && 1 <= m < |steps| && HonoursNext(run, steps, m, t)
  {
    Flooded(run, steps[m - 1], steps[m], t)
  }

  /**
    However often a replica honours one refresh token without its guard being
    flooded in between, the repetitions fit in the leeway: all but two of them,
    at a lifetime each, take less than a minute. With a lifetime of a minute or
    more that is twice at most.
   */
  lemma HonoursFitInLeeway(run: Run, steps: seq<nat>, t: string)
    requires run.Genuine() && run.OneClock() && run.cfg.as_.refreshTTL > 0 && |steps| >= 2
    requires forall m :: 0 <= m < |steps| ==> HonoursNext(run, steps, m, t)
    requires forall m :: 1 <= m < |steps| ==> !FloodedBefore(run, steps, m, t)
    ensures (|steps| - 2) * run.cfg.as_.refreshTTL < 60_000_000_000
    ensures run.cfg.as_.refreshTTL >= 60_000_000_000 ==> |steps| == 2
  {
    hide GuardCall, Flooded;
    var ttl, last := run.cfg.as_.refreshTTL, |steps| - 1;
    assert HonoursNext(run, steps, last, t) && HonoursNext(run, steps, 0, t);
    HonoursAddUp(run, steps, t, last);
    PresentedArtifact(run, steps[last], t);
    var k := StampedAt(run, steps[last], t);
    if k >= steps[0] {
      LedgerKeeps(run, steps[0], k);
    }
    assert (|steps| - 1) * ttl == (|steps| - 2) * ttl + ttl;
    if |steps| > 2 {
      MulMonotone(ttl, 1, |steps| - 2);
    }
  }

  lemma MulMonotone(m: int, a: int, b: int)
    requires m >= 0 && a <= b
    ensures a * m <= b * m
  {
  }

  lemma {:induction false} HonoursAddUp(run: Run, steps: seq<nat>, t: string, n: nat)
    requires run.Genuine() && run.OneClock() && n < |steps|
    requires forall m :: 0 <= m < |steps| ==> HonoursNext(run, steps, m, t)
    requires forall m :: 1 <= m < |steps| ==> !FloodedBefore(run, steps, m, t)
    ensures steps[0] < |run.actions| && steps[n] < |run.actions|
    ensures run.actions[steps[n]].now >= run.actions[steps[0]].now + n * run.cfg.as_.refreshTTL + n
    decreases n
  {
    hide GuardCall, Flooded;
    assert HonoursNext(run, steps, n, t);
    if n == 0 {
    } else {
      HonoursAddUp(run, steps, t, n - 1);
      assert !FloodedBefore(run, steps, n, t);
      HonoursAreSpaced(run, steps[n - 1], steps[n], t);
      assert n * run.cfg.as_.refreshTTL == (n - 1) * run.cfg.as_.refreshTTL + run.cfg.as_.refreshTTL;
    }
  }
}
