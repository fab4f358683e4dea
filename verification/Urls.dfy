/**
  Decisions about URLs: redirect targets, protected resources, metadata
  locations. Parsing itself is a parameter; a parsed URL is a record.
 */
module Urls {
  import opened Wrappers
  import opened Text

  /** The parts of net/url's URL that the server looks at. */
  datatype Url = Url(scheme: string, hasUser: bool, host: string, hostname: string,
                     path: string, rawQuery: string, fragment: string)

  /** url.Parse. */
  type Parser = string -> Option<Url>

  predicate IsLoopbackHost(host: string) {
    var h := ToLower(host);
    h == "127.0.0.1" || h == "::1" || h == "localhost"
  }

  // ---- redirect URIs ---------------------------------------------------------------

  /** None, or why the URI may not be registered. */
  function RedirectProblem(parse: Parser, raw: string): Option<string> {
    match parse(raw)
    case None => Some("not a valid URI")
    case Some(u) =>
      if u.scheme == "" || u.host == "" then Some("must be an absolute URI")
      else if u.fragment != "" || '#' in raw then Some("must not contain a fragment")
      else if u.scheme == "https" then None
      else if u.scheme == "http" then
        if IsLoopbackHost(u.hostname) then None
        else Some("http is only allowed for loopback (127.0.0.1 / localhost)")
      else Some("scheme must be https or loopback http")
  }

  predicate Acceptable(parse: Parser, raw: string) { RedirectProblem(parse, raw).None? }

  predicate AllAcceptable(parse: Parser, uris: seq<string>) {
    forall uri <- uris :: Acceptable(parse, uri)
  }

  /** The first URI that may not be registered. */
  function FirstProblem(parse: Parser, uris: seq<string>): (r: Option<(string, string)>)
    ensures r.None? <==> AllAcceptable(parse, uris)
  {
    if uris == [] then None
    else
      assert uris == [uris[0]] + uris[1..] && uris[0] in uris;
      match RedirectProblem(parse, uris[0])
      case Some(why) => Some((uris[0], why))
      case None => FirstProblem(parse, uris[1..])
  }

  lemma {:induction false} FirstProblemAt(parse: Parser, uris: seq<string>, i: nat)
    requires i < |uris| && !Acceptable(parse, uris[i])
    requires forall j :: 0 <= j < i ==> Acceptable(parse, uris[j])
    ensures FirstProblem(parse, uris) == Some((uris[i], RedirectProblem(parse, uris[i]).value))
  {
    if i == 0 {
    } else {
      FirstProblemAt(parse, uris[1..], i - 1);
    }
  }

  method CheckRedirectURIs(parse: Parser, uris: seq<string>) returns (problem: Option<(string, string)>)
    ensures problem == FirstProblem(parse, uris)
  {
    for i := 0 to |uris|
      invariant forall j :: 0 <= j < i ==> Acceptable(parse, uris[j])
    {
      var why := RedirectProblem(parse, uris[i]);
      if why.Some? {
        FirstProblemAt(parse, uris, i);
        return Some((uris[i], why.value));
      }
    }
    problem := None;
  }

  /** Two loopback URLs that differ at most in their port. */
  predicate SameButPort(a: Url, b: Url) {
    a.scheme == b.scheme && a.hostname == b.hostname && a.path == b.path && a.rawQuery == b.rawQuery
  }

  /** A candidate the loopback rule may apply to. */
  predicate PlainLoopback(u: Url) {
    !u.hasUser && u.fragment == "" && IsLoopbackHost(u.hostname)
  }

  predicate LoopbackMatch(parse: Parser, raw: string, got: Url) {
    var want := parse(raw);
    want.Some? && IsLoopbackHost(want.value.hostname) && SameButPort(want.value, got)
  }

  predicate Matches(parse: Parser, registered: seq<string>, candidate: string) {
    candidate != "" &&
    (candidate in registered ||
     (parse(candidate).Some? && PlainLoopback(parse(candidate).value)
      && exists raw <- registered :: LoopbackMatch(parse, raw, parse(candidate).value)))
  }

  method MatchRedirectURI(parse: Parser, registered: seq<string>, candidate: string) returns (ok: bool)
    ensures ok == Matches(parse, registered, candidate)
  {
    if candidate == "" {
      return false;
    }
    if candidate in registered {
      return true;
    }
    var parsed := parse(candidate);
    if parsed.None? || parsed.value.hasUser || parsed.value.fragment != ""
       || !IsLoopbackHost(parsed.value.hostname) {
      return false;
    }
    var got := parsed.value;
    for i := 0 to |registered|
      invariant forall j :: 0 <= j < i ==> !LoopbackMatch(parse, registered[j], got)
    {
      var want := parse(registered[i]);
      if want.None? || !IsLoopbackHost(want.value.hostname) {
        continue;
      }
      if want.value.scheme == got.scheme && want.value.hostname == got.hostname
         && want.value.path == got.path && want.value.rawQuery == got.rawQuery {
        assert registered[i] in registered;
        return true;
      }
    }
    ok := false;
  }

  /** The three names of this machine, in any case. */
  lemma LoopbackExactly(host: string)
    ensures IsLoopbackHost(host) <==> ToLower(host) in ["127.0.0.1", "::1", "localhost"]
    ensures !IsLoopbackHost("localhost." + host) && !IsLoopbackHost("127.0.0.1." + host)
  {
    assert ToLower("localhost." + host)[9] == '.' && ToLower("127.0.0.1." + host)[9] == '.';
  }

  /** An absolute URI without a fragment that is https, or http to this machine. */
  ghost predicate Registrable(parse: Parser, raw: string) {
    && parse(raw).Some? && parse(raw).value.host != ""
    && parse(raw).value.fragment == "" && '#' !in raw
    && (|| parse(raw).value.scheme == "https"
        || (parse(raw).value.scheme == "http"
            && ToLower(parse(raw).value.hostname) in ["127.0.0.1", "::1", "localhost"]))
  }

  lemma AcceptableExactly(parse: Parser, raw: string)
    ensures Acceptable(parse, raw) <==> Registrable(parse, raw)
  {
  }

  /** Where a browser may be sent: https, or http on this machine, and no fragment. */
  ghost predicate SafeTarget(parse: Parser, uri: string) {
    match parse(uri)
    case None => false
    case Some(u) =>
      && u.fragment == ""
      && (u.scheme == "https"
          || (u.scheme == "http" && ToLower(u.hostname) in ["127.0.0.1", "::1", "localhost"]))
  }

  /** Registered URI `raw` and `uri` name this machine, and agree in all but the port. */
  ghost predicate PortTwin(parse: Parser, raw: string, uri: string) {
    && parse(raw).Some? && parse(uri).Some?
    && var a, b := parse(raw).value, parse(uri).value;
       && ToLower(a.hostname) in ["127.0.0.1", "::1", "localhost"]
       && a.scheme == b.scheme && a.hostname == b.hostname && a.path == b.path && a.rawQuery == b.rawQuery
  }

  /** Byte for byte a registered URI, or a loopback one that differs from it in the port only. */
  ghost predicate Vouched(parse: Parser, registered: seq<string>, uri: string) {
    uri in registered || exists raw <- registered :: PortTwin(parse, raw, uri)
  }

  /** What matches a registered list: its own bytes, or a port twin without user or fragment. */
  lemma MatchesExactly(parse: Parser, registered: seq<string>, uri: string)
    ensures Matches(parse, registered, uri) <==>
              && uri != ""
              && (|| uri in registered
                  || (&& parse(uri).Some? && !parse(uri).value.hasUser && parse(uri).value.fragment == ""
                      && exists raw <- registered :: PortTwin(parse, raw, uri)))
  {
    if parse(uri).Some? {
      forall raw | raw in registered
        ensures PlainLoopback(parse(uri).value) && LoopbackMatch(parse, raw, parse(uri).value)
           <==> !parse(uri).value.hasUser && parse(uri).value.fragment == "" && PortTwin(parse, raw, uri)
      {
      }
    }
  }

  lemma MatchedIsSafe(parse: Parser, registered: seq<string>, uri: string)
    requires AllAcceptable(parse, registered) && Matches(parse, registered, uri)
    ensures SafeTarget(parse, uri) && Vouched(parse, registered, uri)
  {
    MatchesExactly(parse, registered, uri);
    if uri in registered {
      assert Acceptable(parse, uri);
    } else {
      var raw :| raw in registered && PortTwin(parse, raw, uri);
      assert Acceptable(parse, raw);
    }
  }

  /** Away from loopback only the registered bytes match. */
  lemma NonLoopbackIsExact(parse: Parser, registered: seq<string>, uri: string)
    requires uri != "" && parse(uri).Some?
    requires ToLower(parse(uri).value.hostname) !in ["127.0.0.1", "::1", "localhost"]
    ensures Matches(parse, registered, uri) <==> uri in registered
  {
  }

  /** On loopback the port plays no part (section 7.3 of RFC 8252). */
  lemma PortIsIgnored(parse: Parser, registered: seq<string>, a: string, b: string)
    requires a != "" && b != "" && parse(a).Some? && parse(b).Some?
    requires PlainLoopback(parse(a).value) && PlainLoopback(parse(b).value)
    requires SameButPort(parse(a).value, parse(b).value)
    ensures Matches(parse, registered, a) <==> Matches(parse, registered, b)
  {
    if Matches(parse, registered, a) {
      PortMayChange(parse, registered, a, b);
    }
    if Matches(parse, registered, b) {
      PortMayChange(parse, registered, b, a);
    }
  }

  lemma PortMayChange(parse: Parser, registered: seq<string>, a: string, b: string)
    requires b != "" && parse(a).Some? && parse(b).Some?
    requires PlainLoopback(parse(a).value) && PlainLoopback(parse(b).value)
    requires SameButPort(parse(a).value, parse(b).value)
    requires Matches(parse, registered, a)
    ensures Matches(parse, registered, b)
  {
    if a in registered {
      assert LoopbackMatch(parse, a, parse(b).value);
    } else {
      var raw :| raw in registered && LoopbackMatch(parse, raw, parse(a).value);
      assert LoopbackMatch(parse, raw, parse(b).value);
    }
  }

  // ---- the protected resource -----------------------------------------------------------

  function NormalizeResource(u: Url): string {
    ToLower(u.scheme) + "://" + ToLower(u.host) + u.path + (if u.rawQuery != "" then "?" + u.rawQuery else "")
  }

  predicate MatchesResource(parse: Parser, canonical: string, got: string) {
    got != "" &&
    match parse(got)
    case None => false
    case Some(u) => u.scheme != "" && u.host != "" && u.fragment == "" && NormalizeResource(u) == canonical
  }

  /** Scheme and host are compared without regard to case. */
  lemma ResourceCaseIsIgnored(parse: Parser, canonical: string, a: string, b: string)
    requires a != "" && b != "" && parse(a).Some? && parse(b).Some?
    requires var u, v := parse(a).value, parse(b).value;
             ToLower(u.scheme) == ToLower(v.scheme) && ToLower(u.host) == ToLower(v.host)
             && u.path == v.path && u.rawQuery == v.rawQuery && u.fragment == v.fragment
    ensures MatchesResource(parse, canonical, a) <==> MatchesResource(parse, canonical, b)
  {
    var u, v := parse(a).value, parse(b).value;
    assert |ToLower(u.scheme)| == |u.scheme| && |ToLower(v.scheme)| == |v.scheme|;
    assert |ToLower(u.host)| == |u.host| && |ToLower(v.host)| == |v.host|;
  }

  /** The parts of a URL none of whose separators can be mistaken for another. */
  predicate Plain(u: Url) {
    && ':' !in u.scheme && '/' !in u.host && '?' !in u.host
    && (u.path == "" || u.path[0] == '/') && '?' !in u.path
  }

  /** A string that ends, or goes on after its separator, has one way to be cut at the first one. */
  lemma CutOnce(a: string, x: string, b: string, y: string, seps: string)
    requires a + x == b + y
    requires (forall c <- a :: c !in seps) && (forall c <- b :: c !in seps)
    requires x == "" || x[0] in seps
    requires y == "" || y[0] in seps
    ensures a == b && x == y
  {
    var whole := a + x;
    assert whole == b + y;
    assert a == whole[..|a|] && b == whole[..|b|];
    assert x == whole[|a|..] && y == whole[|b|..];
  }

  lemma LowerKeepsMarks(s: string, c: char)
    requires c in ":/?" && c !in s
    ensures c !in ToLower(s)
  {
  }

  /**
    Two plain URLs are the same resource iff scheme and host agree up to case,
    and path and query byte for byte.
   */
  lemma NormalizeExactly(u: Url, v: Url)
    requires Plain(u) && Plain(v)
    ensures NormalizeResource(u) == NormalizeResource(v) <==>
              && ToLower(u.scheme) == ToLower(v.scheme) && ToLower(u.host) == ToLower(v.host)
              && u.path == v.path && u.rawQuery == v.rawQuery
  {
    if NormalizeResource(u) == NormalizeResource(v) {
      LowerKeepsMarks(u.scheme, ':');
      LowerKeepsMarks(v.scheme, ':');
      CutOnce(ToLower(u.scheme), "://" + AfterScheme(u), ToLower(v.scheme), "://" + AfterScheme(v), ":");
      assert AfterScheme(u) == ("://" + AfterScheme(u))[3..] && AfterScheme(v) == ("://" + AfterScheme(v))[3..];
      SameHostAndAfter(u, v);
    }
  }

  function Query(u: Url): string { if u.rawQuery != "" then "?" + u.rawQuery else "" }

  function AfterScheme(u: Url): (r: string)
    ensures NormalizeResource(u) == ToLower(u.scheme) + ("://" + r)
  {
    var r := ToLower(u.host) + (u.path + Query(u));
    assert ToLower(u.scheme) + "://" + ToLower(u.host) + u.path + Query(u) == ToLower(u.scheme) + ("://" + r);
    r
  }

  lemma SameHostAndAfter(u: Url, v: Url)
    requires Plain(u) && Plain(v) && AfterScheme(u) == AfterScheme(v)
    ensures ToLower(u.host) == ToLower(v.host) && u.path == v.path && u.rawQuery == v.rawQuery
  {
    hide ToLower;
    LowerKeepsMarks(u.host, '/');
    LowerKeepsMarks(v.host, '/');
    LowerKeepsMarks(u.host, '?');
    LowerKeepsMarks(v.host, '?');
    CutOnce(ToLower(u.host), u.path + Query(u), ToLower(v.host), v.path + Query(v), "/?");
    CutOnce(u.path, Query(u), v.path, Query(v), "?");
    assert u.rawQuery != "" ==> Query(u)[1..] == u.rawQuery;
    assert v.rawQuery != "" ==> Query(v)[1..] == v.rawQuery;
  }

  /** A path may hold a question mark that was escaped: then two URLs can pass for one resource. */
  lemma EscapedMarkPasses(host: string)
    ensures NormalizeResource(Url("https", false, host, host, "/a?b", "", ""))
         == NormalizeResource(Url("https", false, host, host, "/a", "b", ""))
  {
    assert "/a?b" == "/a" + ("?" + "b");
  }

  /** What passes for the resource of a server: absolute, without a fragment, and the same when normalised. */
  lemma MatchesResourceExactly(parse: Parser, canonical: Url, got: string)
    requires Plain(canonical) && canonical.scheme != "" && canonical.host != ""
    requires parse(got).Some? && Plain(parse(got).value)
    ensures MatchesResource(parse, NormalizeResource(canonical), got) <==>
              && got != "" && parse(got).value.fragment == ""
              && ToLower(parse(got).value.scheme) == ToLower(canonical.scheme)
              && ToLower(parse(got).value.host) == ToLower(canonical.host)
              && parse(got).value.path == canonical.path && parse(got).value.rawQuery == canonical.rawQuery
  {
    hide NormalizeResource;
    var u := parse(got).value;
    NormalizeExactly(u, canonical);
    assert |ToLower(u.scheme)| == |u.scheme| && |ToLower(u.host)| == |u.host|;
    assert |ToLower(canonical.scheme)| == |canonical.scheme| && |ToLower(canonical.host)| == |canonical.host|;
  }

  /** None, or why the setting is not usable as an issuer or a resource. */
  function HttpsProblem(parse: Parser, raw: string): Option<string> {
    match parse(TrimSpace(raw))
    case None => Some("not a valid URL")
    case Some(u) =>
      if u.scheme != "https" then Some("must be an https:// URL")
      else if u.host == "" then Some("must include a host")
      else if u.fragment != "" then Some("must not contain a fragment")
      else None
  }

  /** What may be an issuer or a resource: https, with a host and no fragment, once trimmed. */
  lemma HttpsExactly(parse: Parser, raw: string)
    ensures HttpsProblem(parse, raw).None? <==>
              && parse(TrimSpace(raw)).Some? && parse(TrimSpace(raw)).value.scheme == "https"
              && parse(TrimSpace(raw)).value.host != "" && parse(TrimSpace(raw)).value.fragment == ""
  {
  }

  // ---- metadata document locations --------------------------------------------------------

  predicate IsURLClientID(clientID: string) { Contains(clientID, "://") }

  /** None, or why the client_id is not a metadata document URL. */
  function CIMDProblem(parse: Parser, raw: string): (r: Option<string>)
    ensures r.None? ==> parse(raw).Some?
  {
    match parse(raw)
    case None => Some("client_id is not a valid URL")
    case Some(u) =>
      if u.scheme != "https" then Some("client_id URL must use the https scheme")
      else if u.host == "" then Some("client_id URL must include a host")
      else if u.hasUser then Some("client_id URL must not include userinfo")
      else if u.fragment != "" || '#' in raw then Some("client_id URL must not contain a fragment")
      else if forall c <- u.path :: c == '/' then Some("client_id URL must contain a path component")
      else None
  }

  /** A client_id is looked at as a URL iff it holds "://". */
  lemma URLClientIDExactly(clientID: string)
    ensures IsURLClientID(clientID) <==> exists i :: OccursAt(clientID, "://", i)
  {
    ContainsExactly(clientID, "://");
  }

  /** The URLs documents are fetched from: https, with a host and a path, and neither user nor fragment. */
  lemma CIMDExactly(parse: Parser, raw: string)
    ensures CIMDProblem(parse, raw).None? <==>
              && parse(raw).Some? && parse(raw).value.scheme == "https" && parse(raw).value.host != ""
              && !parse(raw).value.hasUser && parse(raw).value.fragment == "" && '#' !in raw
              && exists c <- parse(raw).value.path :: c != '/'
  {
  }
}
