/** Refresh-token families: where each starts, that it is a chain, and how long it lasts. */
module Lineages {
  import opened Clock
  import opened RateLimiter
  import opened Artifacts
  import opened Handlers
  import opened Steps
  import opened Runs
  import opened SingleUse
  import opened Provenance

  // ---- one redemption per family ----------------------------------------------------

  /** Step `root` redeemed a code and so started the family named by its own random value. */
  ghost predicate Starts(run: Run, root: nat, family: string)
    requires run.Shaped()
  {
    && root < |run.actions| && run.Granted(root) && family == run.actions[root].random.family
    && var r := run.actions[root].request;
       && r.Token? && r.form.Some? && Get(r.form.value, "code") in run.worlds[root].ledger
       && Redeems(run.cfg, run.actions[root].now, r, run.worlds[root].ledger[Get(r.form.value, "code")])
  }

  /** The code a token request presents, as it stands in the ledger. */
  ghost function RedeemedCode(run: Run, root: nat): Claims
    requires run.Shaped() && root < |run.actions|
    requires run.actions[root].request.Token? && run.actions[root].request.form.Some?
    requires Get(run.actions[root].request.form.value, "code") in run.worlds[root].ledger
  {
    run.worlds[root].ledger[Get(run.actions[root].request.form.value, "code")]
  }

  ghost predicate SameGrant(t: Claims, g: GrantInput)
    requires t.Refresh?
  {
    t.sub == g.sub && t.email == g.email && t.clientID == g.clientID && t.resource == g.resource && t.scope == g.scope
  }

  /** Every refresh token is traced to the redemption that started its family, and carries what the code did. */
  lemma {:induction false} FamilyRoot(run: Run, n: nat, t: string) returns (root: nat)
    requires run.Genuine() && n <= |run.actions| && t in run.worlds[n].ledger && run.worlds[n].ledger[t].Refresh?
    ensures root < n && Starts(run, root, run.worlds[n].ledger[t].family)
    ensures SameGrant(run.worlds[n].ledger[t], FromCode(RedeemedCode(run, root)))
    decreases n
  {
    var k, g := GrantOrigin(run, n, t);
    assert run.FreshAt(k);
    var x := run.actions[k];
    var l := run.worlds[k].ledger;
    assert GrantsFrom(run.cfg, l, x.now, x.request, g);
    var form := x.request.form.value;
    if && Get(form, "code") in l && Redeems(run.cfg, x.now, x.request, l[Get(form, "code")])
       && g == FromCode(l[Get(form, "code")]) {
      root := k;
    } else {
      root := FamilyRoot(run, k, Get(form, "refresh_token"));
      assert run.FreshAt(root);
    }
  }

  /**
    A family comes from exactly one redemption, so all its members are for the
    same person, client and resource, with the same scope: rotation never
    widens anything.
   */
  lemma OneRedemptionPerFamily(run: Run, n: nat, t: string, u: string) returns (root: nat)
    requires run.Genuine() && n <= |run.actions| && t in run.worlds[n].ledger && u in run.worlds[n].ledger
    requires run.worlds[n].ledger[t].Refresh? && run.worlds[n].ledger[u].Refresh?
    requires run.worlds[n].ledger[t].family == run.worlds[n].ledger[u].family
    ensures root < n && Starts(run, root, run.worlds[n].ledger[t].family)
    ensures SameGrant(run.worlds[n].ledger[t], FromCode(RedeemedCode(run, root)))
    ensures SameGrant(run.worlds[n].ledger[u], FromCode(RedeemedCode(run, root)))
    ensures forall k :: Starts(run, k, run.worlds[n].ledger[t].family) ==> k == root
  {
    root := FamilyRoot(run, n, t);
    var other := FamilyRoot(run, n, u);
    var family := run.worlds[n].ledger[t].family;
    forall k | Starts(run, k, family)
      ensures k == root
    {
      StartsOnce(run, k, root, family);
    }
  }

  lemma StartsOnce(run: Run, j: nat, k: nat, family: string)
    requires run.Genuine() && Starts(run, j, family) && Starts(run, k, family)
    ensures j == k
  {
    if j < k {
      StartedIsUsed(run, j, k);
    } else if k < j {
      StartedIsUsed(run, k, j);
    }
  }

  lemma StartedIsUsed(run: Run, j: nat, k: nat)
    requires run.Genuine() && j < k < |run.actions| && Starts(run, j, run.actions[j].random.family)
    ensures run.actions[k].random.family != run.actions[j].random.family
  {
    var t := run.responses[j].refresh;
    LedgerStepAt(run, j);
    assert run.FreshAt(j) && run.FreshAt(k);
    var a := run.actions[j];
    var g :| MintsGrant(run.cfg, run.worlds[j].ledger, a.now, a.request, a.random, run.responses[j],
                        run.worlds[j + 1].ledger, g);
    assert g == FromCode(RedeemedCode(run, j));
    LedgerKeeps(run, j + 1, k);
    assert run.worlds[k].ledger[t].family == a.random.family;
  }

  // ---- a family is a chain ---------------------------------------------------------------

  /**
    Only replica `r` answers token requests, no refresh token is presented after
    its expiry, and none comes again after its guard was flooded in between.
   */
  ghost predicate Orderly(run: Run, r: nat)
    requires run.Shaped()
  {
    && r < |run.worlds[0].replicas|
    && (forall n :: 0 <= n < |run.actions| ==> OrderlyStep(run, r, n))
    && forall i, n, t :: RefreshesNext(run, i, n, t) ==> !Flooded(run, i, n, t)
  }

  ghost predicate OrderlyStep(run: Run, r: nat, n: nat)
    requires run.Shaped() && n < |run.actions|
  {
    CallAt(run, n).Some? ==>
      && run.actions[n].replica == r
      && var t := PresentedToken(run.actions[n].request);
         var l := run.worlds[n].ledger;
         t in l && l[t].Refresh? ==> run.actions[n].now <= l[t].exp
  }

  /** Refresh token `t` is presented at step `i` and next at step `n` of the same replica. */
  ghost predicate RefreshesNext(run: Run, i: nat, n: nat, t: string)
    requires run.Shaped()
  {
    i < n && PresentsNext(run, i, n, t) && t in run.worlds[i].ledger && run.worlds[i].ledger[t].Refresh?
  }

  /** Minted, and never presented. */
  ghost predicate Unspent(run: Run, n: nat, t: string)
    requires run.Shaped() && n <= |run.actions|
  {
    && t in run.worlds[n].ledger && run.worlds[n].ledger[t].Refresh?
    && forall k :: 0 <= k < n ==> !Presents(run, k, t)
  }

  lemma UnspentBefore(run: Run, n: nat, t: string)
    requires run.Genuine() && n < |run.actions| && Unspent(run, n + 1, t) && t in run.worlds[n].ledger
    ensures Unspent(run, n, t)
  {
    hide GuardCall;
    LedgerGrows(run, n);
  }

  /** In an orderly run only a token that was never presented is honoured. */
  lemma HonouredWasUnspent(run: Run, r: nat, n: nat, t: string)
    requires run.Genuine() && run.OneClock() && Orderly(run, r) && Honours(run, n, t)
    ensures Unspent(run, n, t)
  {
    hide GuardCall, Flooded;
    if k :| 0 <= k < n && Presents(run, k, t) {
      assert OrderlyStep(run, r, k) && OrderlyStep(run, r, n);
      var p := LatestPresentation(run, k, n, t);
      NextPresentation(run, p, n, t);
      assert RefreshesNext(run, p, n, t);
      LedgerKeeps(run, p, p + 1);
      RetentionCoversExpiry(run, r, p + 1, t);
      assert false;
    }
  }

  /** A rotation that leaves a new member in a family spends one of it that was unspent. */
  lemma NewMemberReplaces(run: Run, r: nat, n: nat, t: string, u: string)
    requires run.Genuine() && run.OneClock() && Orderly(run, r) && n < |run.actions|
    requires Unspent(run, n + 1, t) && t !in run.worlds[n].ledger
    requires Unspent(run, n + 1, u) && Unspent(run, n, u)
    requires run.worlds[n + 1].ledger[t].family == run.worlds[n + 1].ledger[u].family
    ensures exists o :: o != u && Unspent(run, n, o) && run.worlds[n].ledger[o].family == run.worlds[n].ledger[u].family
  {
    hide GuardCall, Orderly;
    assert run.FreshAt(n);
    LedgerGrows(run, n);
    var g := GrantAt(run, n, t);
    GuardStepAt(run, run.actions[n].replica, n);
    var o := PresentedToken(run.actions[n].request);
    PresentedArtifact(run, n, o);
    var l := run.worlds[n].ledger;
    assert GrantsFrom(run.cfg, l, run.actions[n].now, run.actions[n].request, g);
    assert l[o].Refresh? && g == FromRefresh(l[o]);
    HonouredWasUnspent(run, r, n, o);
  }

  /**
    At every point of an orderly run each family has at most one refresh token
    that was not yet presented: its members form a chain.
   */
  lemma {:induction false} AtMostOneUnspent(run: Run, r: nat, n: nat, t: string, u: string)
    requires run.Genuine() && run.OneClock() && Orderly(run, r) && n <= |run.actions|
    requires Unspent(run, n, t) && Unspent(run, n, u)
    requires run.worlds[n].ledger[t].family == run.worlds[n].ledger[u].family
    ensures t == u
    decreases n
  {
    hide GuardCall, Orderly;
    if n == 0 {
    } else {
      var l := run.worlds[n - 1].ledger;
      LedgerGrows(run, n - 1);
      if t in l {
        UnspentBefore(run, n - 1, t);
      }
      if u in l {
        UnspentBefore(run, n - 1, u);
      }
      if t in l && u in l {
        AtMostOneUnspent(run, r, n - 1, t, u);
      } else if t !in l && u !in l {
        var g := GrantAt(run, n - 1, t);
        var h := GrantAt(run, n - 1, u);
      } else {
        var old_, new_ := if t in l then t else u, if t in l then u else t;
        NewMemberReplaces(run, r, n - 1, new_, old_);
        var o :| o != old_ && Unspent(run, n - 1, o) && l[o].family == l[old_].family;
        AtMostOneUnspent(run, r, n - 1, o, old_);
        assert false;
      }
    }
  }

  // ---- the sliding window --------------------------------------------------------------------

  /**
    Step `j` asks for a refresh with the token handed out at step `i`, which
    nobody has presented at that replica in between; the rate limiter lets it
    through and the client_id, if given, is the right one.
   */
  ghost predicate Continues(run: Run, i: nat, j: nat)
    requires run.Shaped() && i < |run.actions| && run.Granted(i)
  {
    && i < j < |run.actions|
    && var a := run.actions[j];
       && IsRefresh(a.request) && Get(a.request.form.value, "refresh_token") == run.responses[i].refresh
       && OnHit(run.StateAt(j).replica.token, run.cfg.token, a.request.ip, a.now).0
       && run.responses[i].refresh in run.worlds[j].ledger && run.worlds[j].ledger[run.responses[i].refresh].Refresh?
       && Get(a.request.form.value, "client_id") in ["", run.worlds[j].ledger[run.responses[i].refresh].clientID]
       && forall k :: i < k < j && run.actions[k].replica == a.replica ==> !Presents(run, k, run.responses[i].refresh)
  }

  /** A token nobody has presented at a replica is not in that replica's guard. */
  lemma {:induction false} UnpresentedIsUnknown(run: Run, r: nat, i: nat, j: nat, t: string)
    requires run.Genuine() && i < j <= |run.actions| && r < |run.worlds[0].replicas|
    requires t !in run.worlds[i].ledger && t in run.worlds[i + 1].ledger && t in run.worlds[j].ledger
    requires forall k :: i < k < j && run.actions[k].replica == r ==> !Presents(run, k, t)
    ensures run.worlds[j].ledger[t].id !in GuardOf(run, r, j).entries
    decreases j
  {
    hide GuardCall;
    var id := run.worlds[j].ledger[t].id;
    if id in GuardOf(run, r, j).entries {
      OwnerOfNewKey(run, r, j - 1, t);
      if j > i + 1 {
        LedgerGrows(run, j - 1);
        UnpresentedIsUnknown(run, r, i, j - 1, t);
        GuardStepAt(run, r, j - 1);
      }
      assert false;
    }
  }

  /** The newest token of a lineage is honoured up to a leeway after the second its lifetime ends in, and not after. */
  lemma NewestHonouredExactly(run: Run, i: nat, j: nat)
    requires run.Genuine() && run.OneClock() && i < |run.actions| && run.Granted(i) && Continues(run, i, j)
    ensures run.Granted(j) <==>
              run.actions[j].now
                <= (run.actions[i].now + run.cfg.as_.refreshTTL) / 1_000_000_000 * 1_000_000_000 + 60_000_000_000
  {
    var t := run.responses[i].refresh;
    HandedOut(run, i);
    LedgerKeeps(run, i + 1, j);
    assert run.actions[i].now <= run.actions[j].now;
    UnpresentedIsUnknown(run, run.actions[j].replica, i, j, t);
    GuardStepAt(run, run.actions[j].replica, j);
  }

  /** The refresh token handed out at a step is new, and stamped with the step's time. */
  lemma HandedOut(run: Run, i: nat)
    requires run.Genuine() && i < |run.actions| && run.Granted(i)
    ensures var t := run.responses[i].refresh;
            && t !in run.worlds[i].ledger && t in run.worlds[i + 1].ledger
            && var c := run.worlds[i + 1].ledger[t];
               && c.Refresh? && c.iat == Stamp(run.actions[i].now)
               && c.exp == Stamp(run.actions[i].now + run.cfg.as_.refreshTTL)
  {
    LedgerStepAt(run, i);
    assert run.FreshAt(i);
  }

  /** Each step asks with the token of the one before, as long as that handed one out. */
  ghost predicate Session(run: Run, steps: seq<nat>)
    requires run.Shaped()
  {
    && steps != [] && (forall m :: 0 <= m < |steps| ==> steps[m] < |run.actions|)
    && run.Granted(steps[0])
    && forall m :: 1 <= m < |steps| && run.Granted(steps[m - 1]) ==> Continues(run, steps[m - 1], steps[m])
  }

  /** The m-th request of a session comes in time after the one before it. */
  ghost predicate InTime(run: Run, steps: seq<nat>, m: nat)
    requires run.Shaped() && Session(run, steps) && 1 <= m < |steps|
  {
    run.actions[steps[m]].now
      <= (run.actions[steps[m - 1]].now + run.cfg.as_.refreshTTL) / 1_000_000_000 * 1_000_000_000 + 60_000_000_000
  }

  /**
    The sliding window: a session of any length, always using its newest token,
    goes through entirely iff every request comes within the refresh lifetime
    of the one before, to the second, plus the leeway. There is no other limit
    to how long it may last.
   */
  lemma SlidingWindow(run: Run, steps: seq<nat>)
    requires run.Genuine() && run.OneClock() && Session(run, steps)
    ensures (forall m :: 1 <= m < |steps| ==> run.Granted(steps[m]))
       <==> (forall m :: 1 <= m < |steps| ==> InTime(run, steps, m))
  {
    hide GuardCall;
    if forall m :: 1 <= m < |steps| ==> run.Granted(steps[m]) {
      forall m | 1 <= m < |steps|
        ensures InTime(run, steps, m)
      {
        assert run.Granted(steps[m - 1]);
        NewestHonouredExactly(run, steps[m - 1], steps[m]);
      }
    }
    if forall m :: 1 <= m < |steps| ==> InTime(run, steps, m) {
      forall m | 1 <= m < |steps|
        ensures run.Granted(steps[m])
      {
        InTimeIsGranted(run, steps, m);
      }
    }
  }

  lemma {:induction false} InTimeIsGranted(run: Run, steps: seq<nat>, m: nat)
    requires run.Genuine() && run.OneClock() && Session(run, steps) && m < |steps|
    requires forall k :: 1 <= k < |steps| ==> InTime(run, steps, k)
    ensures run.Granted(steps[m])
    decreases m
  {
    hide GuardCall;
    if m == 0 {
    } else {
      InTimeIsGranted(run, steps, m - 1);
      assert InTime(run, steps, m);
      NewestHonouredExactly(run, steps[m - 1], steps[m]);
    }
  }
}
