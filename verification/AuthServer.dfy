/** The settings of an authorization server, and how they are accepted. */
module AuthServer {
  import opened Wrappers
  import opened Text
  import opened Clock
  import opened Urls
  import Scopes

  /** The library operations the server is built on, taken as given. */
  datatype Library = Library(parse: Parser, render: Url -> string, hash: string -> string)

  /** Rendering an accepted URL and parsing it again gives the same parts. */
  ghost predicate RoundTrips(lib: Library) {
    forall raw :: HttpsProblem(lib.parse, raw).None? ==>
      var u := lib.parse(TrimSpace(raw)).value;
      lib.render(u) != "" && lib.parse(lib.render(u)) == Some(u)
  }

  datatype Options = Options(issuer: string, resource: string,
                             scopesSupported: seq<string>, requiredScopes: seq<string>,
                             accessTTL: int, refreshTTL: int, codeTTL: int, authReqTTL: int)

  /** All fields are set at construction and never change. */
  datatype AS = AS(issuer: string, resource: string, canonicalResource: string,
                   scopesSupported: seq<string>, requiredScopes: seq<string>,
                   accessTTL: int, refreshTTL: int, codeTTL: int, authReqTTL: int)

  function OrDefault(d: int, fallback: int): int {
    if d <= 0 then fallback else d
  }

  function TrimSlashes(s: string): (r: string)
    ensures r <= s && (r != "" ==> r[|r| - 1] != '/')
    ensures forall c <- s[|r|..] :: c == '/'
  {
    if s != "" && s[|s| - 1] == '/' then
      var r := TrimSlashes(s[..|s| - 1]);
      assert s[|r|..] == s[..|s| - 1][|r|..] + [s[|s| - 1]];
      r
    else s
  }

  /** What every part of the server may rely on. */
  predicate WellBuilt(lib: Library, as_: AS) {
    && as_.scopesSupported != [] && (forall r <- as_.requiredScopes :: r in as_.scopesSupported)
    && as_.accessTTL > 0 && as_.refreshTTL > 0 && as_.codeTTL > 0 && as_.authReqTTL > 0
    && MatchesResource(lib.parse, as_.canonicalResource, as_.resource)
  }

  predicate AcceptableOptions(lib: Library, opts: Options) {
    && HttpsProblem(lib.parse, opts.issuer).None?
    && HttpsProblem(lib.parse, opts.resource).None?
    && forall r <- opts.requiredScopes ::
         r in (if opts.scopesSupported == [] then ["mcp"] else opts.scopesSupported)
  }

  /** The issuer and the resource are the configured ones, the issuer without its trailing slashes. */
  ghost predicate Identifies(lib: Library, opts: Options, as_: AS)
    requires AcceptableOptions(lib, opts)
  {
    var issuer, resource := lib.parse(TrimSpace(opts.issuer)).value, lib.parse(TrimSpace(opts.resource)).value;
    && (exists n: nat :: n <= |lib.render(issuer)| && as_.issuer == lib.render(issuer)[..n]
                         && forall c <- lib.render(issuer)[n..] :: c == '/')
    && (as_.issuer != "" ==> as_.issuer[|as_.issuer| - 1] != '/')
    && as_.resource == lib.render(resource) && as_.canonicalResource == NormalizeResource(resource)
  }

  /** Each lifetime is the configured one where that is positive, else its own default. */
  predicate KeepsTTLs(opts: Options, as_: AS) {
    && as_.accessTTL == (if opts.accessTTL > 0 then opts.accessTTL else 900_000_000_000)
    && as_.refreshTTL == (if opts.refreshTTL > 0 then opts.refreshTTL else 2_592_000_000_000_000)
    && as_.codeTTL == (if opts.codeTTL > 0 then opts.codeTTL else 60_000_000_000)
    && as_.authReqTTL == (if opts.authReqTTL > 0 then opts.authReqTTL else 300_000_000_000)
  }

  /**
    Settings are accepted exactly when they are usable and the keys loaded, and
    then the server is well built. `keys` is what loading the keys came to.
   */
  method New(lib: Library, opts: Options, keys: Result<()>) returns (r: Result<AS>)
    ensures r.Ok? <==> AcceptableOptions(lib, opts) && keys.Ok?
    ensures r.Ok? && RoundTrips(lib) ==> WellBuilt(lib, r.value)
    ensures r.Ok? ==> r.value.requiredScopes == opts.requiredScopes
    ensures r.Ok? ==> r.value.scopesSupported == if opts.scopesSupported == [] then ["mcp"] else opts.scopesSupported
    ensures r.Ok? ==> Identifies(lib, opts, r.value) && KeepsTTLs(opts, r.value)
  {
    var why := HttpsProblem(lib.parse, opts.issuer);
    if why.Some? {
      return Err("MCP_ISSUER " + why.value);
    }
    why := HttpsProblem(lib.parse, opts.resource);
    if why.Some? {
      return Err("MCP_RESOURCE " + why.value);
    }
    if keys.Err? {
      return Err(keys.error);
    }
    var issuer, resource := lib.parse(TrimSpace(opts.issuer)).value, lib.parse(TrimSpace(opts.resource)).value;
    var scopes := if |opts.scopesSupported| == 0 then ["mcp"] else opts.scopesSupported;
    for i := 0 to |opts.requiredScopes|
      invariant forall j :: 0 <= j < i ==> opts.requiredScopes[j] in scopes
    {
      if opts.requiredScopes[i] !in scopes {
        assert opts.requiredScopes[i] in opts.requiredScopes;
        return Err("MCP_REQUIRED_SCOPES: not in MCP_SCOPES_SUPPORTED");
      }
    }
    var trimmed := TrimSlashes(lib.render(issuer));
    assert trimmed == lib.render(issuer)[..|trimmed|];
    r := Ok(AS(trimmed, lib.render(resource), NormalizeResource(resource),
               scopes, opts.requiredScopes,
               OrDefault(opts.accessTTL, 15 * MINUTE), OrDefault(opts.refreshTTL, 30 * 24 * HOUR),
               OrDefault(opts.codeTTL, MINUTE), OrDefault(opts.authReqTTL, 5 * MINUTE)));
  }

  /**
    Step-up on a well-built server: asking for exactly what is required is
    granted, and what is granted suffices, iff every required scope is a token.
   */
  lemma StepUpCloses(lib: Library, as_: AS)
    requires WellBuilt(lib, as_)
    ensures var granted := Scopes.Granted(as_.scopesSupported, Join(as_.requiredScopes, ' '));
            (granted.Ok? && Scopes.Covers(as_.requiredScopes, granted.value)) <==> Scopes.AllTokens(as_.requiredScopes)
  {
    Scopes.StepUpClosesIffTokens(as_.scopesSupported, as_.requiredScopes);
  }
}
