/**
  The five self-contained artifacts, what minting puts in them and when they
  verify. Signing and encryption are ideal: the ledger holds every token ever
  minted with its claims, and a token verifies iff it is there under the
  right use. All replicas share the key, hence the ledger.
 */
module Artifacts {
  import opened Wrappers
  import opened Clock
  import opened AuthServer

  datatype Claims =
    | Client(iat: int, id: string, redirectURIs: seq<string>, clientName: string)
    | AuthReq(sub: string, iat: int, exp: int, id: string, clientID: string, redirectURI: string,
              codeChallenge: string, resource: string, scope: string, state: string, email: string, csrf: string)
    | Code(sub: string, iat: int, exp: int, id: string, clientID: string, redirectURI: string,
           codeChallenge: string, resource: string, scope: string, email: string)
    | Access(iss: string, sub: string, aud: string, exp: int, iat: int, nbf: int, id: string,
             scope: string, email: string, clientID: string)
    | Refresh(sub: string, iat: int, exp: int, id: string, clientID: string, resource: string,
              scope: string, email: string, family: string)

  type Ledger = map<string, Claims>

  /** Tolerated on the signed artifacts only; codes and consent blobs get none. */
  const LEEWAY := 60 * SECOND

  // ---- minting ----------------------------------------------------------------------

  datatype AuthReqInput = AuthReqInput(clientID: string, redirectURI: string, codeChallenge: string, resource: string,
                                       scope: string, state: string, sub: string, email: string)

  datatype GrantInput = GrantInput(sub: string, email: string, clientID: string, resource: string,
                                   scope: string, family: string)

  function MintClient(now: int, id: string, redirectURIs: seq<string>, clientName: string): Claims {
    Client(Stamp(now), id, redirectURIs, clientName)
  }

  function MintAuthReq(as_: AS, now: int, id: string, csrf: string, q: AuthReqInput): Claims {
    AuthReq(q.sub, Stamp(now), Stamp(now + as_.authReqTTL), id, q.clientID, q.redirectURI, q.codeChallenge,
            q.resource, q.scope, q.state, q.email, csrf)
  }

  function MintCode(as_: AS, now: int, id: string, req: Claims): Claims
    requires req.AuthReq?
  {
    Code(req.sub, Stamp(now), Stamp(now + as_.codeTTL), id, req.clientID, req.redirectURI, req.codeChallenge,
         req.resource, req.scope, req.email)
  }

  function MintAccess(as_: AS, now: int, id: string, g: GrantInput): Claims {
    Access(as_.issuer, g.sub, g.resource, Stamp(now + as_.accessTTL), Stamp(now), Stamp(now), id,
           g.scope, g.email, g.clientID)
  }

  /** An empty family starts a new lineage. */
  function MintRefresh(as_: AS, now: int, id: string, newFamily: string, g: GrantInput): Claims {
    Refresh(g.sub, Stamp(now), Stamp(now + as_.refreshTTL), id, g.clientID, g.resource, g.scope, g.email,
            if g.family == "" then newFamily else g.family)
  }

  function FromCode(c: Claims): GrantInput
    requires c.Code?
  {
    GrantInput(c.sub, c.email, c.clientID, c.resource, c.scope, "")
  }

  function FromRefresh(c: Claims): GrantInput
    requires c.Refresh?
  {
    GrantInput(c.sub, c.email, c.clientID, c.resource, c.scope, c.family)
  }

  // ---- verifying ----------------------------------------------------------------------

  function VerifyClientID(l: Ledger, token: string): Option<Claims> {
    if token in l && l[token].Client? && l[token].redirectURIs != [] then Some(l[token]) else None
  }

  function VerifyAuthReq(l: Ledger, token: string, now: int): (r: Option<Claims>)
    ensures r.Some? ==> r.value.AuthReq?
  {
    if token in l && l[token].AuthReq? && InForce(l[token].iat, l[token].exp, 0, now) then Some(l[token]) else None
  }

  function VerifyCode(l: Ledger, token: string, now: int): (r: Option<Claims>)
    ensures r.Some? ==> r.value.Code?
  {
    if token in l && l[token].Code? && InForce(l[token].iat, l[token].exp, 0, now) then Some(l[token]) else None
  }

  function VerifyAccessToken(as_: AS, l: Ledger, token: string, now: int): (r: Option<Claims>)
    ensures r.Some? ==> r.value.Access?
  {
    if token in l && l[token].Access? && l[token].iss == as_.issuer && l[token].aud == as_.resource
       && l[token].nbf - LEEWAY <= now && InForce(l[token].iat, l[token].exp, LEEWAY, now) then Some(l[token])
    else None
  }

  /** A refresh token past its expiry is told apart from every other failure. */
  datatype RefreshVerdict = Good(claims: Claims) | Expired | Invalid

  function VerifyRefreshToken(l: Ledger, token: string, now: int): (r: RefreshVerdict)
    ensures r.Good? ==> r.claims.Refresh?
  {
    if token !in l || !l[token].Refresh? then Invalid
    else if now - LEEWAY > l[token].exp then Expired
    else if now + LEEWAY < l[token].iat then Invalid
    else Good(l[token])
  }

  /**
    When an access token is accepted, exactly: from a minute before the second
    it was minted in until a minute after the second its lifetime ends in. That
    covers its whole lifetime, cut-off seconds included.
   */
  lemma AccessWindow(as_: AS, l: Ledger, token: string, minted: int, id: string, g: GrantInput, now: int)
    requires token in l && l[token] == MintAccess(as_, minted, id, g) && g.resource == as_.resource
    ensures VerifyAccessToken(as_, l, token, now).Some?
       <==> && minted / 1_000_000_000 * 1_000_000_000 - 60_000_000_000 <= now
            && now <= (minted + as_.accessTTL) / 1_000_000_000 * 1_000_000_000 + 60_000_000_000
    ensures minted <= now <= minted + as_.accessTTL ==> VerifyAccessToken(as_, l, token, now).Some?
  {
  }
}
