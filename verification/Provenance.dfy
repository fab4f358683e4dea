/**
  Where tokens come from. The server keeps no grant record, so what an access
  token entitles to has to be traced through the artifacts of the run: one
  consent page, one approval, one redemption, and any number of rotations.
 */
module Provenance {
  import opened Wrappers
  import opened Text
  import opened Artifacts
  import opened Handlers
  import opened Steps
  import opened Runs
  import Scopes

  /** Step `n` showed the consent page whose blob seals `a`. */
  ghost predicate SealedAt(run: Run, n: nat, blob: string, a: Claims)
    requires run.Shaped()
  {
    && n < |run.actions| && a.AuthReq?
    && var r := run.actions[n].request;
       && r.AuthorizeGET? && run.responses[n].Consent? && run.responses[n].blob == blob
       && blob in run.worlds[n + 1].ledger && run.worlds[n + 1].ledger[blob] == a
       // the page shows the scope that is sealed
       && run.responses[n].scope == a.scope
       // the client, its URI and its challenge are those of the query
       && a.clientID == Get(r.query, "client_id") && a.redirectURI == Get(r.query, "redirect_uri")
       && a.codeChallenge == Get(r.query, "code_challenge") && a.state == Get(r.query, "state")
       // the resource is the server's, the scope what the query was granted
       && a.resource == run.cfg.as_.resource
       && Scopes.Granted(run.cfg.as_.scopesSupported, Get(r.query, "scope")) == Ok(a.scope)
       // the identity is that of the verified cookie, and is allowed
       && r.cookies.verified == Some(Identity(a.sub, a.email)) && UserAllowed(run.cfg, a.email)
  }

  /** Step `n` approved the blob, same origin and same subject, and got the code. */
  ghost predicate ApprovedAt(run: Run, n: nat, blob: string, a: Claims, code: string)
    requires run.Shaped()
  {
    && n < |run.actions| && a.AuthReq?
    && var r := run.actions[n].request;
       && r.AuthorizePOST? && r.origin != "" && r.origin == r.expectedOrigin && r.form.Some?
       && Get(r.form.value, "authreq") == blob && Get(r.form.value, "csrf") == a.csrf
       && Get(r.form.value, "action") == "approve"
       && r.cookies.verified.Some? && r.cookies.verified.value.subject == a.sub
       && code in run.worlds[n + 1].ledger && run.worlds[n + 1].ledger[code].Code?
       && (run.responses[n].Crashed?
           || run.responses[n] == CodeRedirect(a.redirectURI, code, run.cfg.as_.issuer, a.state))
  }

  /** Step `n` redeemed the code for tokens, presenting everything sealed in `a`. */
  ghost predicate RedeemedAt(run: Run, n: nat, code: string, a: Claims)
    requires run.Shaped()
  {
    && n < |run.actions| && a.AuthReq? && run.Granted(n)
    && var r := run.actions[n].request;
       && r.Token? && r.form.Some? && Get(r.form.value, "grant_type") == "authorization_code"
       && Get(r.form.value, "code") == code
       && Get(r.form.value, "client_id") == a.clientID
       && Get(r.form.value, "redirect_uri") == a.redirectURI
       && Get(r.form.value, "code_verifier") != ""
       && run.cfg.lib.hash(Get(r.form.value, "code_verifier")) == a.codeChallenge
  }

  /** Step `n` rotated the refresh token handed out at the earlier step `from`. */
  ghost predicate RotatedAt(run: Run, n: nat, from: nat)
    requires run.Shaped()
  {
    && from < n < |run.actions| && run.Granted(from) && run.Granted(n)
    && var r := run.actions[n].request;
       && r.Token? && r.form.Some? && Get(r.form.value, "grant_type") == "refresh_token"
       && Get(r.form.value, "refresh_token") == run.responses[from].refresh
  }

  /** The whole descent of the tokens handed out at the last of `grants`. */
  datatype Lineage = Lineage(get: nat, blob: string, post: nat, code: string, grants: seq<nat>)

  ghost predicate Descends(run: Run, lin: Lineage, a: Claims)
    requires run.Shaped()
  {
    && lin.get < lin.post && lin.grants != [] && lin.post < lin.grants[0]
    && SealedAt(run, lin.get, lin.blob, a)
    && ApprovedAt(run, lin.post, lin.blob, a, lin.code)
    && RedeemedAt(run, lin.grants[0], lin.code, a)
    && forall i :: 1 <= i < |lin.grants| ==> RotatedAt(run, lin.grants[i], lin.grants[i - 1])
  }

  /** The tokens handed out at step `n` are for exactly the person, client, resource and scope sealed in `a`. */
  ghost predicate Carries(run: Run, n: nat, a: Claims)
    requires run.Shaped()
  {
    && n < |run.actions| && run.Granted(n) && a.AuthReq?
    && var l, r := run.worlds[n + 1].ledger, run.responses[n];
       && r.access in l && l[r.access].Access? && r.refresh in l && l[r.refresh].Refresh?
       && var t, u := l[r.access], l[r.refresh];
          && t.sub == a.sub && t.email == a.email && t.clientID == a.clientID
          && t.aud == a.resource && t.scope == a.scope
          && u.sub == a.sub && u.email == a.email && u.clientID == a.clientID
          && u.resource == a.resource && u.scope == a.scope
          && r.scope == a.scope
  }

  // ---- tracing back ----------------------------------------------------------------------

  lemma BlobOrigin(run: Run, n: nat, blob: string) returns (k: nat)
    requires run.Genuine() && n <= |run.actions| && blob in run.worlds[n].ledger && run.worlds[n].ledger[blob].AuthReq?
    ensures k < n && SealedAt(run, k, blob, run.worlds[n].ledger[blob])
  {
    k := MintedAt(run, n, blob);
    LedgerStepAt(run, k);
  }

  lemma CodeOrigin(run: Run, n: nat, code: string) returns (post: nat, blob: string, a: Claims)
    requires run.Genuine() && n <= |run.actions| && code in run.worlds[n].ledger && run.worlds[n].ledger[code].Code?
    ensures post < n && blob in run.worlds[post].ledger && run.worlds[post].ledger[blob] == a && a.AuthReq?
    ensures ApprovedAt(run, post, blob, a, code)
    ensures var c := run.worlds[n].ledger[code];
            && c.sub == a.sub && c.email == a.email && c.clientID == a.clientID && c.redirectURI == a.redirectURI
            && c.codeChallenge == a.codeChallenge && c.resource == a.resource && c.scope == a.scope
  {
    post := MintedAt(run, n, code);
    LedgerStepAt(run, post);
    blob := Get(run.actions[post].request.form.value, "authreq");
    a := run.worlds[post].ledger[blob];
  }

  /** The step that minted an access or refresh token handed it out, in a grant from what it was presented. */
  lemma GrantOrigin(run: Run, n: nat, t: string) returns (k: nat, g: GrantInput)
    requires run.Genuine() && n <= |run.actions| && t in run.worlds[n].ledger
    requires run.worlds[n].ledger[t].Access? || run.worlds[n].ledger[t].Refresh?
    ensures k < n && run.Granted(k)
    ensures var a := run.actions[k];
            MintsGrant(run.cfg, run.worlds[k].ledger, a.now, a.request, a.random, run.responses[k],
                       run.worlds[k + 1].ledger, g)
    ensures t in run.worlds[k + 1].ledger && run.worlds[k + 1].ledger[t] == run.worlds[n].ledger[t]
    ensures run.worlds[n].ledger[t].Access? ==> t == run.responses[k].access
    ensures run.worlds[n].ledger[t].Refresh? ==> t == run.responses[k].refresh
  {
    k := MintedAt(run, n, t);
    g := GrantAt(run, k, t);
  }

  lemma GrantAt(run: Run, k: nat, t: string) returns (g: GrantInput)
    requires run.Genuine() && k < |run.actions| && t in run.worlds[k + 1].ledger && t !in run.worlds[k].ledger
    requires run.worlds[k + 1].ledger[t].Access? || run.worlds[k + 1].ledger[t].Refresh?
    ensures run.Granted(k)
    ensures var a := run.actions[k];
            MintsGrant(run.cfg, run.worlds[k].ledger, a.now, a.request, a.random, run.responses[k],
                       run.worlds[k + 1].ledger, g)
    ensures run.worlds[k + 1].ledger[t].Access? ==> t == run.responses[k].access
    ensures run.worlds[k + 1].ledger[t].Refresh? ==> t == run.responses[k].refresh
  {
    LedgerStepAt(run, k);
    assert run.FreshAt(k);
    var a := run.actions[k];
    g :| MintsGrant(run.cfg, run.worlds[k].ledger, a.now, a.request, a.random, run.responses[k],
                    run.worlds[k + 1].ledger, g);
  }

  /** The tokens of a granting step have a descent, and are what was sealed at its start. */
  lemma {:induction false} GrantDescends(run: Run, k: nat, g: GrantInput) returns (lin: Lineage, a: Claims)
    requires run.Genuine() && k < |run.actions| && run.Granted(k)
    requires var x := run.actions[k];
             MintsGrant(run.cfg, run.worlds[k].ledger, x.now, x.request, x.random, run.responses[k],
                        run.worlds[k + 1].ledger, g)
    ensures Descends(run, lin, a) && lin.grants[|lin.grants| - 1] == k
    ensures a.AuthReq? && g.sub == a.sub && g.email == a.email && g.clientID == a.clientID
            && g.resource == a.resource && g.scope == a.scope
    decreases k
  {
    var x := run.actions[k];
    var form := x.request.form.value;
    var l := run.worlds[k].ledger;
    assert GrantsFrom(run.cfg, l, x.now, x.request, g);
    if && Get(form, "code") in l && Redeems(run.cfg, x.now, x.request, l[Get(form, "code")])
       && g == FromCode(l[Get(form, "code")]) {
      lin, a := RedemptionDescends(run, k);
    } else {
      var old_ := Get(form, "refresh_token");
      var from, h := GrantOrigin(run, k, old_);
      lin, a := GrantDescends(run, from, h);
      lin := OneMore(run, lin, a, k);
    }
  }

  lemma OneMore(run: Run, before: Lineage, a: Claims, k: nat) returns (lin: Lineage)
    requires run.Shaped() && Descends(run, before, a) && RotatedAt(run, k, before.grants[|before.grants| - 1])
    ensures Descends(run, lin, a) && lin.grants[|lin.grants| - 1] == k
  {
    lin := before.(grants := before.grants + [k]);
    forall i | 1 <= i < |lin.grants|
      ensures RotatedAt(run, lin.grants[i], lin.grants[i - 1])
    {
      assert i < |before.grants| ==> RotatedAt(run, before.grants[i], before.grants[i - 1]);
    }
  }

  lemma RedemptionDescends(run: Run, k: nat) returns (lin: Lineage, a: Claims)
    requires run.Genuine() && k < |run.actions| && run.Granted(k)
    requires var x := run.actions[k];
             && x.request.Token? && x.request.form.Some?
             && Get(x.request.form.value, "code") in run.worlds[k].ledger
             && Redeems(run.cfg, x.now, x.request, run.worlds[k].ledger[Get(x.request.form.value, "code")])
    ensures Descends(run, lin, a) && lin.grants == [k]
    ensures var c := run.worlds[k].ledger[Get(run.actions[k].request.form.value, "code")];
            a.AuthReq? && c.sub == a.sub && c.email == a.email && c.clientID == a.clientID
            && c.resource == a.resource && c.scope == a.scope
  {
    var code := Get(run.actions[k].request.form.value, "code");
    var post, blob, b := CodeOrigin(run, k, code);
    var get := BlobOrigin(run, post, blob);
    lin, a := Lineage(get, blob, post, code, [k]), b;
    assert RedeemedAt(run, k, code, a);
  }

  /**
    Every access token there is at any point of any run descends, through zero
    or more rotations, from one redemption of one code for one approved consent
    page, and carries exactly what that page sealed.
   */
  lemma AccessTokensDescend(run: Run, n: nat, t: string) returns (lin: Lineage, a: Claims)
    requires run.Genuine() && n <= |run.actions| && t in run.worlds[n].ledger && run.worlds[n].ledger[t].Access?
    ensures Descends(run, lin, a)
    ensures var k := lin.grants[|lin.grants| - 1];
            k < n && Carries(run, k, a) && run.responses[k].access == t
  {
    var k, g := GrantOrigin(run, n, t);
    lin, a := GrantDescends(run, k, g);
    CarriesGrant(run, k, g, a);
  }

  lemma CarriesGrant(run: Run, k: nat, g: GrantInput, a: Claims)
    requires run.Genuine() && k < |run.actions| && run.Granted(k) && a.AuthReq?
    requires var x := run.actions[k];
             MintsGrant(run.cfg, run.worlds[k].ledger, x.now, x.request, x.random, run.responses[k],
                        run.worlds[k + 1].ledger, g)
    requires g.sub == a.sub && g.email == a.email && g.clientID == a.clientID
             && g.resource == a.resource && g.scope == a.scope
    ensures Carries(run, k, a)
  {
    assert run.FreshAt(k);
  }

  /**
    What the protected resource is told. Whenever /mcp-verify lets a request
    through, the bearer token it carried descends from a consent page that the
    forwarded user approved, for this resource, with the scope that page showed,
    which covers what is required, and the token is within its lifetime give or
    take the leeway.
   */
  lemma ForwardedIsConsented(run: Run, n: nat) returns (lin: Lineage, a: Claims)
    requires run.Genuine() && n < |run.actions|
    requires run.actions[n].request.MCPVerify? && run.responses[n].Forwarded?
    ensures Descends(run, lin, a)
    ensures var k := lin.grants[|lin.grants| - 1];
            && k < n && Carries(run, k, a)
            && (var header := run.actions[n].request.authorization;
                |header| > 7 && SpelledBearer(header[..7]) && TrimSpace(header[7..]) == run.responses[k].access)
            && run.responses[n] == Forwarded(a.email, a.sub)
            && run.responses[lin.get].Consent? && run.responses[lin.get].scope == a.scope
            && a.resource == run.cfg.as_.resource && (forall s <- run.cfg.as_.requiredScopes :: s in Fields(a.scope))
            && UserAllowed(run.cfg, a.email)
            && run.actions[n].now <= run.worlds[k + 1].ledger[run.responses[k].access].exp + 60_000_000_000
  {
    assert run.StepHolds(n);
    var t := BearerToken(run.actions[n].request.authorization).value;
    BearerExactly(run.actions[n].request.authorization);
    lin, a := AccessTokensDescend(run, n, t);
    var k := lin.grants[|lin.grants| - 1];
    LedgerKeeps(run, k + 1, n);
  }
}
