/** The other direction: what an honest client and user get, and exactly when. */
module Flow {
  import opened Wrappers
  import opened Text
  import opened Clock
  import opened RateLimiter
  import opened Artifacts
  import opened Handlers
  import opened Runs
  import opened Provenance
  import opened SingleUse
  import opened Lineages
  import opened Redirects
  import Scopes

  // ---- consent to code ---------------------------------------------------------------

  /** The blob of a consent page is stamped with the time of the page. */
  lemma ConsentStamps(run: Run, g: nat)
    requires run.Genuine() && g < |run.actions| && run.responses[g].Consent?
    ensures var blob := run.responses[g].blob;
            && blob in run.worlds[g + 1].ledger && run.worlds[g + 1].ledger[blob].AuthReq?
            && var a := run.worlds[g + 1].ledger[blob];
               && a.iat == Stamp(run.actions[g].now) && a.exp == Stamp(run.actions[g].now + run.cfg.as_.authReqTTL)
               && a.csrf == run.responses[g].csrf
  {
    LedgerStepAt(run, g);
  }

  /** The form on the consent page, sent back same-origin with approval. */
  ghost predicate SendsBack(run: Run, g: nat, p: nat)
    requires run.Shaped() && g < |run.actions| && run.responses[g].Consent?
  {
    && g < p < |run.actions|
    && var r := run.actions[p].request;
       && r.AuthorizePOST? && r.origin != "" && r.origin == r.expectedOrigin && r.form.Some?
       && Get(r.form.value, "authreq") == run.responses[g].blob && Get(r.form.value, "csrf") == run.responses[g].csrf
       && Get(r.form.value, "action") == "approve"
  }

  /**
    Approving a consent page yields a code exactly while the page is in force,
    from a session of the person it was made for, who is still allowed; it goes
    to the URI and with the state of the request.
   */
  lemma ApprovalExactly(run: Run, g: nat, p: nat)
    requires run.Genuine() && g < |run.actions| && run.responses[g].Consent? && SendsBack(run, g, p)
    ensures var a := run.worlds[g + 1].ledger; run.responses[g].blob in a && a[run.responses[g].blob].AuthReq?
    ensures var a, c := run.worlds[g + 1].ledger[run.responses[g].blob], run.actions[p].request.cookies;
            run.responses[p].CodeRedirect? <==>
              && run.actions[g].now / 1_000_000_000 * 1_000_000_000 <= run.actions[p].now
              && run.actions[p].now <= (run.actions[g].now + run.cfg.as_.authReqTTL) / 1_000_000_000 * 1_000_000_000
              && c.idToken != "" && c.verified.Some?
              && c.verified.value.subject == a.sub && UserAllowed(run.cfg, c.verified.value.email)
    ensures var a := run.worlds[g + 1].ledger[run.responses[g].blob];
            run.responses[p].CodeRedirect? ==> && run.responses[p].uri == a.redirectURI
                                               && run.responses[p].state == a.state
                                               && run.responses[p].code == run.actions[p].random.token
  {
    hide OnHit, UserAllowed, Reconstruct;
    ConsentStamps(run, g);
    LedgerKeeps(run, g + 1, p);
    NeverCrashes(run, p);
    assert run.StepHolds(p);
  }

  // ---- code to tokens -------------------------------------------------------------------

  /** The code of a redirect is new, and stamped with the time of the approval. */
  lemma CodeStamps(run: Run, p: nat)
    requires run.Genuine() && p < |run.actions| && run.responses[p].CodeRedirect?
    ensures var code := run.responses[p].code;
            && code !in run.worlds[p].ledger && code in run.worlds[p + 1].ledger && run.worlds[p + 1].ledger[code].Code?
            && var c := run.worlds[p + 1].ledger[code];
               && c.iat == Stamp(run.actions[p].now) && c.exp == Stamp(run.actions[p].now + run.cfg.as_.codeTTL)
               && c.redirectURI == run.responses[p].uri
  {
    LedgerStepAt(run, p);
    assert run.FreshAt(p);
  }

  /** Step `j` redeems the code of step `p`, which its replica has not been presented before, within the rate limit. */
  ghost predicate BringsCode(run: Run, p: nat, j: nat)
    requires run.Shaped() && p < |run.actions| && run.responses[p].CodeRedirect?
  {
    && p < j < |run.actions|
    && var a := run.actions[j];
       && a.request.Token? && a.request.form.Some?
       && Get(a.request.form.value, "grant_type") == "authorization_code"
       && Get(a.request.form.value, "code") == run.responses[p].code
       && OnHit(run.StateAt(j).replica.token, run.cfg.token, a.request.ip, a.now).0
       && forall k :: p < k < j && run.actions[k].replica == a.replica ==> !Presents(run, k, run.responses[p].code)
  }

  /** The claims of the code a redirect delivered. */
  ghost function CodeOf(run: Run, p: nat): Claims
    requires run.Genuine() && p < |run.actions| && run.responses[p].CodeRedirect?
    ensures CodeOf(run, p).Code?
  {
    CodeStamps(run, p);
    run.worlds[p + 1].ledger[run.responses[p].code]
  }

  /**
    A code brought to a replica for the first time is exchanged exactly while
    it is in force, to the second, for the client and URI it was made for and
    a verifier whose hash is the challenge.
   */
  lemma FirstRedemptionExactly(run: Run, p: nat, j: nat)
    requires run.Genuine() && p < |run.actions| && run.responses[p].CodeRedirect? && BringsCode(run, p, j)
    ensures var c, form := CodeOf(run, p), run.actions[j].request.form.value;
            run.Granted(j) <==>
              && run.actions[p].now / 1_000_000_000 * 1_000_000_000 <= run.actions[j].now
              && run.actions[j].now <= (run.actions[p].now + run.cfg.as_.codeTTL) / 1_000_000_000 * 1_000_000_000
              && Get(form, "client_id") == c.clientID && Get(form, "redirect_uri") == c.redirectURI
              && Get(form, "code_verifier") != "" && c.codeChallenge != ""
              && run.cfg.lib.hash(Get(form, "code_verifier")) == c.codeChallenge
  {
    var code := run.responses[p].code;
    CodeStamps(run, p);
    LedgerKeeps(run, p + 1, j);
    UnpresentedIsUnknown(run, run.actions[j].replica, p, j, code);
    assert run.StepHolds(j);
    RedeemsExactly(run.cfg, run.StateAt(j), run.actions[j].now, run.actions[j].request, run.actions[j].random);
  }

  lemma RedeemsExactly(cfg: Config, s: State, now: int, r: Request, f: Fresh)
    requires cfg.Sane() && r.Token? && r.form.Some? && Get(r.form.value, "grant_type") == "authorization_code"
    requires OnHit(s.replica.token, cfg.token, r.ip, now).0
    requires var t := Get(r.form.value, "code");
             t in s.ledger && s.ledger[t].Code? && s.ledger[t].id !in s.replica.guard.entries
    ensures var c, form := s.ledger[Get(r.form.value, "code")], r.form.value;
            HandleToken(cfg, s, now, r.ip, r.form, f).1.TokenGrant? <==>
              && c.iat <= now <= c.exp
              && Get(form, "client_id") == c.clientID && Get(form, "redirect_uri") == c.redirectURI
              && Get(form, "code_verifier") != "" && c.codeChallenge != ""
              && cfg.lib.hash(Get(form, "code_verifier")) == c.codeChallenge
  {
    hide OnHit;
  }

  // ---- tokens to access ----------------------------------------------------------------------

  /**
    What was handed out works: sent in a header that spells "Bearer " in any
    case, with or without white space around it, a bearer token of the run
    passes /mcp-verify at an instant exactly when that lies between a minute
    before the second of minting and a minute after the second its lifetime ends
    in, its user is allowed and its scope covers what is required. Whatever
    spelling of the resource was asked for, the audience is the server's own.
   */
  lemma GrantedTokenPassesExactly(run: Run, k: nat, n: nat, now: int, scheme: string, front: string, back: string)
    requires run.Genuine() && k < n <= |run.actions| && run.Granted(k)
    requires SpelledBearer(scheme) && AllSpace(front) && AllSpace(back)
    requires run.responses[k].access != "" && Tight(run.responses[k].access)
    ensures run.responses[k].access in run.worlds[n].ledger && run.worlds[n].ledger[run.responses[k].access].Access?
    ensures var c := run.worlds[n].ledger[run.responses[k].access];
            var header := scheme + front + run.responses[k].access + back;
            && c.aud == run.cfg.as_.resource
            && (HandleMCPVerify(run.cfg, run.worlds[n].ledger, now, header) == Forwarded(c.email, c.sub) <==>
                  && run.actions[k].now / 1_000_000_000 * 1_000_000_000 - 60_000_000_000 <= now
                  && now <= (run.actions[k].now + run.cfg.as_.accessTTL) / 1_000_000_000 * 1_000_000_000
                            + 60_000_000_000
                  && UserAllowed(run.cfg, c.email)
                  && forall s <- run.cfg.as_.requiredScopes :: s in Fields(c.scope))
    ensures run.actions[k].now <= now <= run.actions[k].now + run.cfg.as_.accessTTL ==>
              VerifyAccessToken(run.cfg.as_, run.worlds[n].ledger, run.responses[k].access, now).Some?
    ensures run.responses[k].expiresIn == run.cfg.as_.accessTTL / 1_000_000_000
  {
    hide UserAllowed, Fields, VerifyAccessToken, HandleMCPVerify, SpelledBearer, AllSpace, Tight;
    AccessStamps(run, k);
    AudienceIsTheServers(run, k);
    LedgerKeeps(run, k + 1, n);
    BearerReads(scheme, front, run.responses[k].access, back);
    PassesExactly(run.cfg, run.worlds[n].ledger, run.responses[k].access, now,
                  scheme + front + run.responses[k].access + back);
  }

  lemma PassesExactly(cfg: Config, l: Ledger, t: string, now: int, authorization: string)
    requires authorization != "" && BearerToken(authorization) == Some(t) && t in l && l[t].Access?
    requires l[t].iss == cfg.as_.issuer && l[t].aud == cfg.as_.resource && l[t].nbf == l[t].iat
    ensures HandleMCPVerify(cfg, l, now, authorization) == Forwarded(l[t].email, l[t].sub) <==>
              && l[t].iat - 60_000_000_000 <= now <= l[t].exp + 60_000_000_000
              && UserAllowed(cfg, l[t].email) && forall s <- cfg.as_.requiredScopes :: s in Fields(l[t].scope)
    ensures VerifyAccessToken(cfg.as_, l, t, now).Some?
       <==> l[t].iat - 60_000_000_000 <= now <= l[t].exp + 60_000_000_000
  {
    hide UserAllowed, Fields, BearerToken;
  }

  lemma AudienceIsTheServers(run: Run, k: nat)
    requires run.Genuine() && k < |run.actions| && run.Granted(k)
    ensures var t := run.responses[k].access;
            t in run.worlds[k + 1].ledger && run.worlds[k + 1].ledger[t].Access?
            && run.worlds[k + 1].ledger[t].aud == run.cfg.as_.resource
  {
    AccessStamps(run, k);
    var lin, a := AccessTokensDescend(run, k + 1, run.responses[k].access);
    TokensAreUnique(run, k, lin.grants[|lin.grants| - 1]);
  }

  lemma AccessStamps(run: Run, k: nat)
    requires run.Genuine() && k < |run.actions| && run.Granted(k)
    ensures var t := run.responses[k].access;
            && t !in run.worlds[k].ledger && t in run.worlds[k + 1].ledger
            && var c := run.worlds[k + 1].ledger[t];
               c.Access? && c.iat == c.nbf == Stamp(run.actions[k].now)
               && c.exp == Stamp(run.actions[k].now + run.cfg.as_.accessTTL) && c.iss == run.cfg.as_.issuer
    ensures run.responses[k].expiresIn == run.cfg.as_.accessTTL / 1_000_000_000
  {
    LedgerStepAt(run, k);
    assert run.FreshAt(k);
  }

  /** No two grants hand out the same access token. */
  lemma TokensAreUnique(run: Run, j: nat, k: nat)
    requires run.Genuine() && j < |run.actions| && k < |run.actions| && run.Granted(j) && run.Granted(k)
    requires run.responses[j].access == run.responses[k].access
    ensures j == k
  {
    AccessStamps(run, j);
    AccessStamps(run, k);
    if j < k {
      LedgerKeeps(run, j + 1, k);
    } else if k < j {
      LedgerKeeps(run, k + 1, j);
    }
  }
}
