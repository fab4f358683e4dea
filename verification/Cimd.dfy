/** Client ID Metadata Documents: validating, caching and resolving them. */
module Cimd {
  import opened Wrappers
  import opened Text
  import opened Clock
  import opened Recency
  import opened TtlStore
  import opened Urls
  import opened HostPolicy
  import CacheControl

  /** The client identity behind a client_id. */
  datatype ClientMetadata = ClientMetadata(clientID: string, clientName: string, clientURI: string,
                                           redirectURIs: seq<string>, cimd: bool)

  datatype Document = Document(clientID: string, clientName: string, clientURI: string,
                               redirectURIs: seq<string>, authMethod: string)

  /** How an outbound request can end; a body that is not JSON has no document. */
  datatype Outcome =
    | BuildFailed(detail: string)
    | TransportFailed(detail: string)
    | Answered(status: int, body: Result<Body>, cacheControl: string)

  datatype Body = Body(length: nat, document: Option<Document>)

  const MAX_BODY := 32 * 1024
  const NEGATIVE_TTL := MINUTE

  // ---- one document ---------------------------------------------------------------------

  function Validate(parse: Parser, d: Document, clientID: string): Result<ClientMetadata> {
    if d.clientID != clientID then Err("client_id in metadata does not match the document URL")
    else if TrimSpace(d.clientName) == "" then Err("client metadata is missing client_name")
    else if d.redirectURIs == [] then Err("client metadata is missing redirect_uris")
    else
      match FirstProblem(parse, d.redirectURIs)
      case Some((uri, why)) => Err("client metadata redirect_uri " + uri + ": " + why)
      case None =>
        if d.authMethod != "" && d.authMethod != "none" then
          Err("unsupported token_endpoint_auth_method " + d.authMethod)
        else Ok(ClientMetadata(clientID, d.clientName, d.clientURI, d.redirectURIs, true))
  }

  /** What is known of metadata that passed validation for `clientID`. */
  predicate ValidFor(parse: Parser, meta: ClientMetadata, clientID: string) {
    && meta.clientID == clientID && meta.cimd
    && TrimSpace(meta.clientName) != ""
    && meta.redirectURIs != [] && AllAcceptable(parse, meta.redirectURIs)
  }

  /** The client's own document, complete, and asking for nothing unsupported. */
  predicate Describes(parse: Parser, d: Document, clientID: string) {
    && d.clientID == clientID && TrimSpace(d.clientName) != ""
    && d.redirectURIs != [] && AllAcceptable(parse, d.redirectURIs)
    && (d.authMethod == "" || d.authMethod == "none")
  }

  lemma ValidateExact(parse: Parser, d: Document, clientID: string)
    ensures Validate(parse, d, clientID).Ok? <==> Describes(parse, d, clientID)
    ensures Validate(parse, d, clientID).Ok? ==>
              && ValidFor(parse, Validate(parse, d, clientID).value, clientID)
              && Validate(parse, d, clientID).value.redirectURIs == d.redirectURIs
    ensures Validate(parse, d, clientID).Err? ==> Validate(parse, d, clientID).error != ""
  {
  }

  /** The metadata and its lifetime, or why there are none. */
  function Fetched(parse: Parser, clientID: string, outcome: Outcome, defaultTTL: int): Result<(ClientMetadata, int)> {
    match outcome
    case BuildFailed(detail) => Err("build CIMD request: " + detail)
    case TransportFailed(detail) => Err("fetch client metadata: " + detail)
    case Answered(status, body, cacheControl) =>
      if status != 200 then Err("client metadata returned an HTTP error")
      else
        match body
        case Err(detail) => Err("read client metadata: " + detail)
        case Ok(b) =>
          if b.length > MAX_BODY then Err("client metadata exceeds the size limit")
          else if b.document.None? then Err("client metadata is not valid JSON")
          else
            match Validate(parse, b.document.value, clientID)
            case Err(why) => Err(why)
            case Ok(meta) => Ok((meta, CacheControl.TTL(cacheControl, defaultTTL)))
  }

  /** The answers that bring a document: status 200 and a body of at most 32 KiB that is JSON. */
  predicate Brings(outcome: Outcome, d: Document) {
    && outcome.Answered? && outcome.status == 200
    && outcome.body.Ok? && outcome.body.value.length <= 32_768 && outcome.body.value.document == Some(d)
  }

  /**
    A fetch succeeds exactly when the answer brings a document that describes
    the client. What is learned is what that document says, for as long as the
    header of that answer allows.
   */
  lemma FetchedExactly(parse: Parser, clientID: string, outcome: Outcome, defaultTTL: int)
    ensures Fetched(parse, clientID, outcome, defaultTTL).Ok? <==>
              exists d :: Brings(outcome, d) && Describes(parse, d, clientID)
    ensures forall d :: Brings(outcome, d) && Describes(parse, d, clientID) ==>
              Fetched(parse, clientID, outcome, defaultTTL)
                == Ok((ClientMetadata(clientID, d.clientName, d.clientURI, d.redirectURIs, true),
                       CacheControl.TTL(outcome.cacheControl, defaultTTL)))
  {
    hide Describes, CacheControl.TTL;
    if outcome.Answered? && outcome.body.Ok? && outcome.body.value.document.Some? {
      var d := outcome.body.value.document.value;
      ValidateExact(parse, d, clientID);
      assert Brings(outcome, d) <==> outcome.status == 200 && outcome.body.value.length <= MAX_BODY;
    }
    forall d | Brings(outcome, d) && Describes(parse, d, clientID)
      ensures Validate(parse, d, clientID) == Ok(ClientMetadata(clientID, d.clientName, d.clientURI, d.redirectURIs,
                                                                true))
    {
      ValidateExact(parse, d, clientID);
    }
  }

  // ---- the resolver ---------------------------------------------------------------------------

  /** A cached outcome; a failure is told from a success by its message not being empty. */
  datatype CimdEntry = CimdEntry(meta: Option<ClientMetadata>, err: string)

  type Cache = Contents<string, CimdEntry>

  datatype Settings = Settings(policy: seq<string>, defaultTTL: int, capacity: nat)

  /** The options as configured, and the settings they stand for. */
  datatype CIMDOptions = CIMDOptions(allowedHosts: seq<string>, cacheTTL: int, cacheSize: int)

  const DEFAULT_CACHE_TTL := 15 * MINUTE
  const DEFAULT_CACHE_SIZE := 512

  function SettingsOf(opts: CIMDOptions): Settings {
    Settings(Normalized(opts.allowedHosts),
             if opts.cacheTTL > 0 then opts.cacheTTL else DEFAULT_CACHE_TTL,
             if opts.cacheSize > 0 then opts.cacheSize else DEFAULT_CACHE_SIZE)
  }

  /** A configured setting, trimmed and in lower case, names the host: in full, or as "*." and its last labels. */
  ghost predicate Names(setting: string, host: string) {
    var entry := ToLower(TrimSpace(setting));
    && entry != ""
    && if "*." <= entry then EndsWith(Labels(ToLower(host)), Labels(entry[2..])) else entry == ToLower(host)
  }

  /** Some setting is not blank. */
  ghost predicate Restricts(opts: CIMDOptions) {
    exists h <- opts.allowedHosts :: TrimSpace(h) != ""
  }

  /** What the options come to: whom they let through, how long a document is kept, and how many. */
  lemma SettingsExactly(opts: CIMDOptions, host: string)
    ensures Allows(SettingsOf(opts).policy, host) <==>
              !Restricts(opts) || exists h <- opts.allowedHosts :: Names(h, host)
    ensures SettingsOf(opts).defaultTTL == if opts.cacheTTL > 0 then opts.cacheTTL else 900_000_000_000
    ensures SettingsOf(opts).capacity == if opts.cacheSize > 0 then opts.cacheSize else 512
  {
    hide Labels, EndsWith, TrimSpace, ToLower, Normalized, Allows;
    var policy := Normalized(opts.allowedHosts);
    assert forall s :: |ToLower(TrimSpace(s))| == |TrimSpace(s)|;
    forall entry
      ensures entry in policy <==> entry != "" && exists h <- opts.allowedHosts :: entry == ToLower(TrimSpace(h))
    {
      NormalizedMembers(opts.allowedHosts, entry);
    }
    if policy != [] {
      assert policy[0] in policy;
      AllowsByLabels(policy, host);
      forall h | h in opts.allowedHosts && Names(h, host)
        ensures ToLower(TrimSpace(h)) in policy
      {
      }
      if Allows(policy, host) {
        var entry :| entry in policy && if HasPrefix(entry, "*.") then EndsWith(Labels(ToLower(host)),
                                                                                Labels(entry[2..]))
                                        else entry == ToLower(host);
        var h :| h in opts.allowedHosts && entry == ToLower(TrimSpace(h));
        assert Names(h, host);
      }
    } else {
      assert forall h <- opts.allowedHosts :: ToLower(TrimSpace(h)) !in policy;
      assert Allows(policy, host) by { EmptyAllows(host); }
    }
  }

  lemma EmptyAllows(host: string)
    ensures Allows([], host)
  {
  }

  /** What a hit returns; an entry with neither part would be a nil client without an error. */
  function Recall(e: CimdEntry): Result<ClientMetadata> {
    if e.err != "" then Err(e.err)
    else if e.meta.Some? then Ok(e.meta.value)
    else Err("")
  }

  function ToEntry(fetched: Result<(ClientMetadata, int)>, now: int): Entry<CimdEntry> {
    match fetched
    case Err(why) => Entry(CimdEntry(None, why), now + NEGATIVE_TTL)
    case Ok((meta, ttl)) => Entry(CimdEntry(Some(meta), ""), now + ttl)
  }

  function WithoutTTL(fetched: Result<(ClientMetadata, int)>): Result<ClientMetadata> {
    match fetched
    case Err(why) => Err(why)
    case Ok((meta, _)) => Ok(meta)
  }

  datatype Resolution = Resolution(result: Result<ClientMetadata>, cache: Cache, fetched: bool)

  /** The reasons to refuse a client_id without looking further. */
  function Refusal(s: Settings, parse: Parser, clientID: string): Option<string> {
    match CIMDProblem(parse, clientID)
    case Some(why) => Some(why)
    case None =>
      if !Allows(s.policy, parse(clientID).value.hostname) then
        Some("client_id host is not in the CIMD trust policy")
      else None
  }

  function Resolve(s: Settings, parse: Parser, c: Cache, clientID: string, now: int, outcome: Outcome): Resolution
    requires s.capacity >= 1
  {
    match Refusal(s, parse, clientID)
    case Some(why) => Resolution(Err(why), c, false)
    case None =>
      if Live(c, clientID, now) then
        Resolution(Recall(c.entries[clientID].value), Touch(c, clientID), false)
      else
        var fetched := Fetched(parse, clientID, outcome, s.defaultTTL);
        Resolution(WithoutTTL(fetched), Put(c, s.capacity, clientID, ToEntry(fetched, now)), true)
  }

  class CimdResolver {
    const cache: Store<string, CimdEntry>
    const allowed: seq<string>
    const defaultTTL: int

    predicate Valid() { cache.capacity >= 1 }

    function GetSettings(): Settings { Settings(allowed, defaultTTL, cache.capacity) }

    constructor (opts: CIMDOptions)
      ensures Valid() && fresh(cache) && cache.State() == Contents(map[], [])
      ensures GetSettings() == SettingsOf(opts)
    {
      var policy := NormalizeHosts(opts.allowedHosts);
      var size := opts.cacheSize;
      if size <= 0 {
        size := DEFAULT_CACHE_SIZE;
      }
      allowed := policy;
      defaultTTL := if opts.cacheTTL <= 0 then DEFAULT_CACHE_TTL else opts.cacheTTL;
      cache := new Store(size);
    }

    /** The document check, with its loop over the redirect URIs. */
    static method CheckDocument(parse: Parser, d: Document, clientID: string) returns (r: Result<ClientMetadata>)
      ensures r == Validate(parse, d, clientID)
    {
      if d.clientID != clientID {
        return Err("client_id in metadata does not match the document URL");
      }
      if TrimSpace(d.clientName) == "" {
        return Err("client metadata is missing client_name");
      }
      if |d.redirectURIs| == 0 {
        return Err("client metadata is missing redirect_uris");
      }
      var problem := CheckRedirectURIs(parse, d.redirectURIs);
      if problem.Some? {
        return Err("client metadata redirect_uri " + problem.value.0 + ": " + problem.value.1);
      }
      if d.authMethod != "" && d.authMethod != "none" {
        return Err("unsupported token_endpoint_auth_method " + d.authMethod);
      }
      r := Ok(ClientMetadata(clientID, d.clientName, d.clientURI, d.redirectURIs, true));
    }

    method Fetch(parse: Parser, clientID: string, outcome: Outcome) returns (r: Result<(ClientMetadata, int)>)
      ensures r == Fetched(parse, clientID, outcome, defaultTTL)
    {
      match outcome {
        case BuildFailed(detail) => return Err("build CIMD request: " + detail);
        case TransportFailed(detail) => return Err("fetch client metadata: " + detail);
        case Answered(status, body, cacheControl) =>
          if status != 200 {
            return Err("client metadata returned an HTTP error");
          }
          if body.Err? {
            return Err("read client metadata: " + body.error);
          }
          if body.value.length > MAX_BODY {
            return Err("client metadata exceeds the size limit");
          }
          if body.value.document.None? {
            return Err("client metadata is not valid JSON");
          }
          var meta := CheckDocument(parse, body.value.document.value, clientID);
          if meta.Err? {
            return Err(meta.error);
          }
          var ttl := CacheControl.CacheTTL(cacheControl, defaultTTL);
          r := Ok((meta.value, ttl));
      }
    }

    /** `outcome` is what the outbound request yields, should one be made. */
    method ResolveURL(parse: Parser, clientID: string, now: int, outcome: Outcome)
      returns (result: Result<ClientMetadata>, ghost fetched: bool)
      requires Valid()
      modifies cache
      ensures Resolution(result, cache.State(), fetched)
           == Resolve(GetSettings(), parse, old(cache.State()), clientID, now, outcome)
    {
      hide Put, Touch, Fetched, CIMDProblem, Allows;
      fetched := false;
      var why := CIMDProblem(parse, clientID);
      if why.Some? {
        return Err(why.value), false;
      }
      var ok := HostAllowed(allowed, parse(clientID).value.hostname);
      if !ok {
        return Err("client_id host is not in the CIMD trust policy"), false;
      }
      var item := cache.Get(clientID, now);
      if item.Some? {
        return Recall(item.value), false;
      }
      var answer := Fetch(parse, clientID, outcome);
      fetched := true;
      if answer.Err? {
        cache.Set(clientID, CimdEntry(None, answer.error), now + NEGATIVE_TTL);
        return Err(answer.error), true;
      }
      cache.Set(clientID, CimdEntry(Some(answer.value.0), ""), now + answer.value.1);
      result := Ok(answer.value.0);
    }
  }

  // ---- sequences of resolutions -------------------------------------------------------------

  datatype Query = Query(clientID: string, now: int, outcome: Outcome)

  /** The cache after the first `n` queries. */
  function After(s: Settings, parse: Parser, queries: seq<Query>, n: nat): Cache
    requires s.capacity >= 1 && n <= |queries|
  {
    if n == 0 then Contents(map[], [])
    else
      var q := queries[n - 1];
      Resolve(s, parse, After(s, parse, queries, n - 1), q.clientID, q.now, q.outcome).cache
  }

  function AnswerTo(s: Settings, parse: Parser, queries: seq<Query>, n: nat): Resolution
    requires s.capacity >= 1 && n < |queries|
  {
    Resolve(s, parse, After(s, parse, queries, n), queries[n].clientID, queries[n].now, queries[n].outcome)
  }

  /** The latest of the first `n` queries that fetched the document of `clientID`. */
  function LatestFetch(s: Settings, parse: Parser, queries: seq<Query>, n: nat, clientID: string): (r: Option<nat>)
    requires s.capacity >= 1 && n <= |queries|
    ensures r.Some? ==> r.value < n && queries[r.value].clientID == clientID
  {
    if n == 0 then None
    else if queries[n - 1].clientID == clientID && AnswerTo(s, parse, queries, n - 1).fetched then Some(n - 1)
    else LatestFetch(s, parse, queries, n - 1, clientID)
  }

  /** What the fetch made by query `p` came to. */
  function FetchAt(s: Settings, parse: Parser, queries: seq<Query>, p: nat): Result<(ClientMetadata, int)>
    requires p < |queries|
  {
    Fetched(parse, queries[p].clientID, queries[p].outcome, s.defaultTTL)
  }

  ghost predicate OneClock(queries: seq<Query>) {
    forall i, j :: 0 <= i <= j < |queries| ==> queries[i].now <= queries[j].now
  }

  /** Query `n` is not refused outright, so it looks its client_id up. */
  predicate Asks(s: Settings, parse: Parser, queries: seq<Query>, n: nat)
    requires n < |queries|
  {
    Refusal(s, parse, queries[n].clientID).None?
  }

  /** The latest of the first `n` queries that looked `clientID` up. */
  function LatestAsk(s: Settings, parse: Parser, queries: seq<Query>, n: nat, clientID: string): (r: Option<nat>)
    requires n <= |queries|
    ensures r.Some? ==> r.value < n && queries[r.value].clientID == clientID && Asks(s, parse, queries, r.value)
    ensures forall m :: (if r.Some? then r.value + 1 else 0) <= m < n && queries[m].clientID == clientID
              ==> !Asks(s, parse, queries, m)
  {
    if n == 0 then None
    else if queries[n - 1].clientID == clientID && Asks(s, parse, queries, n - 1) then Some(n - 1)
    else LatestAsk(s, parse, queries, n - 1, clientID)
  }

  /** The other client_ids looked up strictly between two queries. */
  function OthersAsked(s: Settings, parse: Parser, queries: seq<Query>, clientID: string, p: nat, n: nat): set<string>
    requires n <= |queries|
  {
    set m | p < m < n && Asks(s, parse, queries, m) && queries[m].clientID != clientID :: queries[m].clientID
  }

  /**
    What the cache holds, told from the queries alone: the outcome of the latest
    fetch, unless as many others as it holds were looked up since this one was.
   */
  ghost predicate Remembers(s: Settings, parse: Parser, queries: seq<Query>, n: nat, clientID: string)
    requires s.capacity >= 1 && n <= |queries|
  {
    var c, f := After(s, parse, queries, n), LatestFetch(s, parse, queries, n, clientID);
    match LatestAsk(s, parse, queries, n, clientID)
    case None => clientID !in c.entries && f.None?
    case Some(p) =>
      var others := OthersAsked(s, parse, queries, clientID, p, n);
      && f.Some?
      && (clientID in c.entries <==> |others| < s.capacity)
      && (clientID in c.entries ==>
            && Ahead(c.order, clientID) == others
            && c.entries[clientID] == ToEntry(FetchAt(s, parse, queries, f.value), queries[f.value].now))
  }

  lemma ResolveUses(s: Settings, parse: Parser, c: Cache, q: Query)
    requires s.capacity >= 1
    ensures var d := Resolve(s, parse, c, q.clientID, q.now, q.outcome).cache;
            if Refusal(s, parse, q.clientID).None? then Uses(c, d, s.capacity, q.clientID) else d == c
  {
    hide Refusal, Fetched;
    if Live(c, q.clientID, q.now) {
      TouchUses(c, s.capacity, q.clientID);
    } else {
      PutUses(c, s.capacity, q.clientID, ToEntry(Fetched(parse, q.clientID, q.outcome, s.defaultTTL), q.now));
    }
  }

  lemma {:induction false} CacheConsistent(s: Settings, parse: Parser, queries: seq<Query>, n: nat)
    requires s.capacity >= 1 && n <= |queries|
    ensures Consistent(After(s, parse, queries, n), s.capacity)
  {
    if n == 0 {
    } else {
      hide Uses, Consistent, Resolve;
      CacheConsistent(s, parse, queries, n - 1);
      ResolveUses(s, parse, After(s, parse, queries, n - 1), queries[n - 1]);
      if Asks(s, parse, queries, n - 1) {
        UsesConsistent(After(s, parse, queries, n - 1), After(s, parse, queries, n), s.capacity,
                       queries[n - 1].clientID);
      }
    }
  }

  lemma ResolveOwn(s: Settings, parse: Parser, c: Cache, q: Query)
    requires s.capacity >= 1
    ensures var r := Resolve(s, parse, c, q.clientID, q.now, q.outcome);
            && (r.fetched <==> Refusal(s, parse, q.clientID).None? && !Live(c, q.clientID, q.now))
            && if r.fetched then
                 q.clientID in r.cache.entries
                 && r.cache.entries[q.clientID] == ToEntry(Fetched(parse, q.clientID, q.outcome, s.defaultTTL), q.now)
               else r.cache.entries == c.entries
    ensures var d := Resolve(s, parse, c, q.clientID, q.now, q.outcome).cache;
            Refusal(s, parse, q.clientID).None? ==> q.clientID in d.entries && Ahead(d.order, q.clientID) == {}
  {
    hide Refusal, Fetched;
  }

  lemma OthersGrow(s: Settings, parse: Parser, queries: seq<Query>, clientID: string, p: nat, n: nat)
    requires p < n < |queries| && queries[n].clientID != clientID
    ensures var now := OthersAsked(s, parse, queries, clientID, p, n);
            OthersAsked(s, parse, queries, clientID, p, n + 1)
              == if Asks(s, parse, queries, n) then now + {queries[n].clientID} else now
  {
    hide Asks;
  }

  lemma OtherQueryRemembers(s: Settings, parse: Parser, queries: seq<Query>, n: nat, clientID: string)
    requires s.capacity >= 1 && n < |queries| && queries[n].clientID != clientID
    requires Remembers(s, parse, queries, n, clientID)
    ensures Remembers(s, parse, queries, n + 1, clientID)
  {
    hide Resolve, Fetched, ToEntry, Evicts, Uses, Consistent, Ahead, Refusal, OthersAsked;
    var c, d, other := After(s, parse, queries, n), After(s, parse, queries, n + 1), queries[n].clientID;
    CacheConsistent(s, parse, queries, n);
    ResolveUses(s, parse, c, queries[n]);
    var p := LatestAsk(s, parse, queries, n, clientID);
    if p.Some? {
      OthersGrow(s, parse, queries, clientID, p.value, n);
      if Asks(s, parse, queries, n) {
        OthersPushOut(c, d, s.capacity, clientID, other, OthersAsked(s, parse, queries, clientID, p.value, n));
      }
    } else if Asks(s, parse, queries, n) {
      StaysOut(c, d, s.capacity, clientID, other);
    }
  }

  lemma OwnQueryRemembers(s: Settings, parse: Parser, queries: seq<Query>, n: nat)
    requires s.capacity >= 1 && n < |queries| && Remembers(s, parse, queries, n, queries[n].clientID)
    ensures Remembers(s, parse, queries, n + 1, queries[n].clientID)
  {
    hide Resolve, Fetched, ToEntry, Evicts, Ahead, Refusal;
    ResolveOwn(s, parse, After(s, parse, queries, n), queries[n]);
    ResolveUses(s, parse, After(s, parse, queries, n), queries[n]);
    if Asks(s, parse, queries, n) {
      assert OthersAsked(s, parse, queries, queries[n].clientID, n, n + 1) == {};
    }
  }

  lemma NothingRemembered(s: Settings, parse: Parser, queries: seq<Query>, clientID: string)
    requires s.capacity >= 1
    ensures Remembers(s, parse, queries, 0, clientID)
  {
    hide Resolve, Fetched, Refusal, OthersAsked;
  }

  lemma {:induction false} CacheRemembers(s: Settings, parse: Parser, queries: seq<Query>, n: nat, clientID: string)
    requires s.capacity >= 1 && n <= |queries|
    ensures Remembers(s, parse, queries, n, clientID)
  {
    hide *;
    if n == 0 {
      NothingRemembered(s, parse, queries, clientID);
    } else {
      CacheRemembers(s, parse, queries, n - 1, clientID);
      if queries[n - 1].clientID == clientID {
        OwnQueryRemembers(s, parse, queries, n - 1);
      } else {
        OtherQueryRemembers(s, parse, queries, n - 1, clientID);
      }
    }
  }

  /** The latest fetch of a client_id is in force at query `n`, and others did not crowd it out. */
  predicate Kept(s: Settings, parse: Parser, queries: seq<Query>, n: nat)
    requires s.capacity >= 1 && n < |queries|
  {
    var id := queries[n].clientID;
    var p, f := LatestAsk(s, parse, queries, n, id), LatestFetch(s, parse, queries, n, id);
    && p.Some? && f.Some?
    && queries[n].now <= queries[f.value].now + (match FetchAt(s, parse, queries, f.value)
                                                 case Err(_) => 60_000_000_000
                                                 case Ok((_, ttl)) => ttl)
    && |OthersAsked(s, parse, queries, id, p.value, n)| < s.capacity
  }

  /** Exactly when a query makes an outbound request: it is not refused and nothing kept answers it. */
  lemma FetchesExactly(s: Settings, parse: Parser, queries: seq<Query>, n: nat)
    requires s.capacity >= 1 && n < |queries|
    ensures AnswerTo(s, parse, queries, n).fetched <==> Asks(s, parse, queries, n) && !Kept(s, parse, queries, n)
  {
    hide Resolve, Fetched, Ahead, Refusal;
    ResolveOwn(s, parse, After(s, parse, queries, n), queries[n]);
    CacheRemembers(s, parse, queries, n, queries[n].clientID);
  }

  /**
    Every answer that is not an outright refusal is that of the latest fetch of
    the client_id, which is at most 24 hours old; a success passed validation
    for exactly this client_id, and a failure says why.
   */
  lemma AnswersAreTheLatestFetch(s: Settings, parse: Parser, queries: seq<Query>, n: nat)
    requires s.capacity >= 1 && n < |queries| && OneClock(queries)
    requires Refusal(s, parse, queries[n].clientID).None?
    ensures var p := LatestFetch(s, parse, queries, n + 1, queries[n].clientID);
            var answer := AnswerTo(s, parse, queries, n).result;
            && p.Some? && answer == WithoutTTL(FetchAt(s, parse, queries, p.value))
            && queries[n].now - queries[p.value].now <= 86_400_000_000_000
            && (answer.Ok? ==> ValidFor(parse, answer.value, queries[n].clientID))
            && (answer.Err? ==> answer.error != "")
  {
    var q := queries[n];
    CacheRemembers(s, parse, queries, n, q.clientID);
    var p := LatestFetch(s, parse, queries, n + 1, q.clientID);
    FetchedIsSound(parse, q.clientID, queries[p.value].outcome, s.defaultTTL);
  }

  lemma FetchedIsSound(parse: Parser, clientID: string, outcome: Outcome, defaultTTL: int)
    ensures var r := Fetched(parse, clientID, outcome, defaultTTL);
            && (r.Err? ==> r.error != "")
            && (r.Ok? ==> ValidFor(parse, r.value.0, clientID)
                          && CacheControl.MIN_TTL <= r.value.1 <= CacheControl.MAX_TTL)
  {
  }

  /** Outside the trust policy there is no answer and no request. */
  lemma NothingOutsideThePolicy(s: Settings, parse: Parser, queries: seq<Query>, n: nat)
    requires s.capacity >= 1 && n < |queries|
    requires parse(queries[n].clientID).Some?
    requires !Allows(s.policy, parse(queries[n].clientID).value.hostname)
    ensures AnswerTo(s, parse, queries, n).result.Err? && !AnswerTo(s, parse, queries, n).fetched
    ensures After(s, parse, queries, n + 1) == After(s, parse, queries, n)
  {
  }

  /**
    Two fetches of one client_id are more than a minute apart, whatever came of
    the first, unless as many others as the cache holds were looked up in
    between.
   */
  lemma FetchesAreSpaced(s: Settings, parse: Parser, queries: seq<Query>, p: nat, n: nat)
    requires s.capacity >= 1 && p < n < |queries| && OneClock(queries)
    requires queries[p].clientID == queries[n].clientID
    requires AnswerTo(s, parse, queries, p).fetched && AnswerTo(s, parse, queries, n).fetched
    ensures queries[n].now - queries[p].now > 60_000_000_000
            || |OthersAsked(s, parse, queries, queries[n].clientID, p, n)| >= s.capacity
  {
    hide Resolve, Fetched, Refusal;
    var id := queries[n].clientID;
    FetchesExactly(s, parse, queries, p);
    FetchesExactly(s, parse, queries, n);
    LatestFetchNotBefore(s, parse, queries, p, n);
    CacheRemembers(s, parse, queries, n, id);
    var f, a := LatestFetch(s, parse, queries, n, id).value, LatestAsk(s, parse, queries, n, id).value;
    FetchedIsSound(parse, id, queries[f].outcome, s.defaultTTL);
    assert p <= a;
    Subset(OthersAsked(s, parse, queries, id, a, n), OthersAsked(s, parse, queries, id, p, n));
  }

  lemma {:induction false} LatestFetchNotBefore(s: Settings, parse: Parser, queries: seq<Query>, p: nat, n: nat)
    requires s.capacity >= 1 && p < n <= |queries| && AnswerTo(s, parse, queries, p).fetched
    ensures var r := LatestFetch(s, parse, queries, n, queries[p].clientID); r.Some? && r.value >= p
  {
    if n == p + 1 {
    } else {
      LatestFetchNotBefore(s, parse, queries, p, n - 1);
    }
  }
}
