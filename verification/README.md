# A model of the MCP authorization server

The program is an OAuth 2.1 authorization server for MCP clients that keeps no
client, session or grant record. Registrations, consent pages, codes, access
tokens and refresh tokens are self-contained artifacts; what a replica
remembers is a bounded replay guard, three rate limiters and a metadata cache.
So every guarantee has to survive inside the artifacts, and this project proves
the guarantees over whole runs: any requests, in any order, on any number of
replicas, with clients free to present anything.

## How it is laid out

- `Recency` and `TtlStore` are the store behind all four caches: absolute
  expiry, least recently used eviction, no janitor, and the exact law of what
  it forgets. `ReplayGuard`, `RateLimiter`, `VerifyCache` and `Cimd` are classes
  on top of it, each with a specification on values and theorems about every
  history. `GuardInterleaving` takes the guard's lookup and store apart and
  interleaves them freely.
- `Text`, `Urls`, `Scopes`, `CacheControl` and `HostPolicy` are the string and
  URL decisions the protocol rests on.
- `AuthServer` and `Artifacts` are settings and artifacts. `Handlers` gives
  each endpoint as a function from one replica's state to the next;
  `WebServer` is the replica as the program runs it, updating its parts in
  place, every handler proved to do what its function says, and `Deployment`
  several of them sharing their keys.
- `Steps` says what one request can mint, `Runs` what a history is.
  `Provenance`, `Redirects`, `SingleUse`, `Lineages`, `Flow`, `Progress`,
  `Resume`, `Rates` and `Documents` hold the main theorems; `Answers` says what
  each endpoint answers, case by case, in literals.

## Assumptions

- Signing and encryption are ideal: an artifact verifies iff it was minted,
  under its own use. The ledger of minted artifacts is common to all replicas,
  as the keys are. Where a theorem needs it (`Genuine`), random tokens,
  identifiers and families are new whenever drawn.
- Times are nanoseconds, with one clock reading per call. Claims are cut to
  whole seconds. An artifact is in force while
  iat - leeway <= now <= exp + leeway, a store entry while now <= expiry.
  Where a theorem compares two steps (`OneClock`), replicas read one clock.
- A hit in a store makes its entry the most recent one and leaves its expiry
  alone; an expired entry is a miss and stays until overwritten or evicted.
- `url.Parse`, URL rendering and the PKCE hash are parameters. Only
  `AuthServer.New` relies on a law about them: rendering an accepted URL and
  parsing it gives the same parts (`RoundTrips`).
- The ID-token verifier's verdict on a cookie, and what an outbound metadata
  request yields, arrive with the request and are arbitrary.

## Where the code and its documentation part

- `internal/mcpauth/store.go:21-24` promises that every later call within the
  lifetime answers true. Sequentially that holds exactly while fewer than the
  guard's size of other identifiers came since (`ReplayGuard.RememberedExactly`;
  `ReplayGuard.ForgottenForAnother` is an input on which it fails); under
  concurrency the exact statement is `GuardInterleaving.SeenExactlyAfterRecord`.
- Rotation is described as rejecting a reused token (`internal/web/mcp.go:440`).
  There are two ways to use one again, and `SingleUse.HonouredAgainExactly` has
  both: the guard's entry lasts RefreshTTL from redemption while the token is
  good for a leeway past its expiry, and a guard presented with as many other
  identifiers as it holds forgets. A "flooded" guard below is one to which that
  happened between two steps. `Progress.TokensAreUsedTwice` has runs of both.
- `internal/web/ratelimit.go:43-46` promises that a sustained flood is blocked
  for the rest of its window. An evicted counter starts again, so that holds
  exactly while fewer other keys than there are counters come between two hits
  of the key (`RateLimiter.AllowedIffWithinLimit`);
  `RateLimiter.CrowdedOutByAnother` is an input on which it fails. A window that
  is cut short so counts below as "opened early".
- `README.md:352-356` describes the sliding window without the truncation to
  seconds or the leeway; `Lineages.SlidingWindow` states the exact deadline.
- A max-age large enough to wrap 64 bits can shorten the lifetime to the floor
  (`CacheControl.MaxAgeHeaderExact`, `CacheControl.MaxAgeWrapsToFloor`).
- Supported scopes are trimmed but neither split nor deduplicated when
  configured (`internal/config/config.go:93-101`), so what an empty request is
  granted can be granted differently, or refused, when asked for by name
  (`Scopes.RegrantedExactly`), a required scope with a space inside can never be
  held (`Scopes.StepUpClosesIffTokens`), and a request that left its scope out
  can then not be resumed (`Resume.ResumeIsFaithful`).
- `internal/mcpauth/mcpauth.go:229-230` says a resource matches when it equals
  the configured one. Paths are compared unescaped, so an escaped question mark
  can pass for the start of a query (`Urls.EscapedMarkPasses`); on URLs without
  such marks the comparison is exact (`Urls.MatchesResourceExactly`).

## Model

| member | source | states |
|---|---|---|
| Provenance.ForwardedIsConsented | internal/web/mcp.go:470-514 | For every run: a request that /mcp-verify lets through has a header that spells "Bearer " in any case and carries a token that descends, through any number of refreshes, from one redemption by the right client, URI and PKCE verifier, of one code approved from the server's own origin by the subject whose cookie opened the consent page; forwarded user, resource and scope are those sealed on that page, and the scope is the one the page showed. |
| Provenance.AccessTokensDescend | internal/mcpauth/artifacts.go:187-300 | The same descent for every access token that exists at any point of any run, used or not, with sub, email, client, resource and scope carried unchanged. |
| Provenance.GrantDescends | internal/web/mcp.go:379-464 | Whatever a granting step hands out has a complete lineage ending in that very step. |
| Provenance.GrantOrigin | internal/mcpauth/artifacts.go:251-300 | An access or refresh token was handed out in the response of the step that minted it, in a grant drawn from the artifact that step was presented with. |
| Provenance.CodeOrigin | internal/web/mcp.go:295-350 | A code exists only because a blob was approved, and repeats what that blob seals. |
| Provenance.BlobOrigin | internal/web/mcp.go:213-276 | A consent blob exists only because a consent page was shown for a query that passed every check and a verified, allowed identity. |
| Answers.OnlySameOriginCounts | internal/web/handlers.go:236-242 | Over runs: a consent form from an empty or another origin is answered 403 bad origin and changes nothing; so every code minted, and every redirect to the client, on a form comes from the server's own origin. |
| Answers.AuthorizationAnswers | internal/web/mcp.go:196-276 | Over runs, once client and URI are known: the first failing check decides the OAuth error, sent to that URI with the issuer and the request's state; without a session the browser is sent to refresh or sign in and back to the same query; the page shows the granted scope and the identified client. |
| Answers.ApprovalAnswers | internal/web/mcp.go:281-350 | Each answer to a consent form with the exact change of state: a denial is access_denied with the sealed state, a lost or foreign session resumes the sealed request, an approval mints exactly the sealed code. |
| Answers.UnidentifiedAnswers | internal/web/mcp.go:169-194 | Until client and URI are settled the answer is a 429 page for too many documents, else a 400 page. |
| Answers.RegisteredClientIsKnown | internal/mcpauth/mcpauth.go:177-186 | A client_id that is no URL is known iff it was registered with URIs the given one matches, and is shown under the registered name, not as a document. |
| Answers.RegistrationAnswers | internal/web/mcp.go:88-158 | Registered iff the body asks for a public client and every URI is https, or http to this machine, without fragment; which error otherwise; what is minted. |
| Answers.TokenAnswers | internal/web/mcp.go:354-464 | Every error of the token endpoint by its code and status; a grant states its lifetime in whole seconds; nothing else is minted. |
| Answers.ResourceAnswers | internal/web/mcp.go:470-514 | What each Authorization header is answered: 401 without error, invalid_request for any other scheme, invalid_token unless issuer, audience and times are right, 403 for user or scope, with the required scopes named. |
| Answers.VerifyExactly | internal/mcpauth/artifacts.go:305-394 | When each artifact verifies, in numbers: blobs and codes without leeway, refresh tokens with 60 s, expired told from invalid. |
| Steps.HandleIsLedgerStep | internal/web/mcp.go:88-464 | Any request at all either mints nothing or mints in one of four ways, each stated with every check that must have passed: registration, consent page, approval, grant. |
| Steps.IdentifyOnlyReads | internal/web/mcp.go:169-194 | Until client and redirect URI are settled nothing is minted, burned or redirected, and a metadata document is fetched only for an address within its limit. |
| Runs.ExecuteIsValid | internal/web/mcp.go:88-514 | Every sequence of requests, on any number of replicas, has a run: theorems about runs are about every history. |
| Runs.LedgerKeeps | internal/mcpauth/artifacts.go:187-300 | Given fresh random values, no artifact is ever changed or taken back later in a run. |
| Runs.MintedAt | internal/mcpauth/artifacts.go:187-300 | Every artifact of a run has a step before which it did not exist and after which it did. |
| Redirects.RedirectsAreVouched | internal/web/mcp.go:187-203 | Redirect safety over runs: every redirect with a code or an error goes to a URI that was matched against the list of the client identified at the very authorization request being answered: the request itself, or the one that sealed the blob presented. The URI is on that list byte for byte, or names this machine (127.0.0.1, ::1 or localhost in any case) and differs in port only; it is https, or http to this machine, without fragment; the issuer is named; and a code sent there is for that client and that URI. |
| Redirects.NeverCrashes | internal/web/mcp.go:338-349 | The ignored parse error before delivering a code can never happen: a sealed redirect URI always parses. |
| Redirects.SealedIsVouched | internal/web/mcp.go:245-256 | A URI sealed in a blob was matched against an acceptable list when the blob was made. |
| Redirects.CachesStaySound | internal/mcpauth/cimd.go:130-156 | At every point of every run each remembered metadata success is valid for exactly the client_id it is stored under. |
| Redirects.GETIdentifies | internal/web/mcp.go:165-194 | A consent page or an error redirect is only ever an answer to a request whose client was identified and whose URI was matched. |
| Redirects.RedirectSource | internal/web/mcp.go:311-315 | Redirects come from the authorization endpoint alone, and after consent they go to the URI the presented blob seals. |
| Redirects.NothingForRefusedHosts | internal/mcpauth/cimd.go:130-141 | Over runs: no consent blob, code, access or refresh token exists for a client named by a URL unless documents are enabled and the trust policy admits its host. |
| Documents.ConfiguredHostsBind | internal/mcpauth/cimd.go:212-229 | Over runs of a server set up with these options: if any host is configured, no blob, code or token exists for a URL client unless some setting, trimmed and in lower case, is its host or "*." and a label suffix of it. |
| Documents.OnlyConfiguredHostsAreFetched | internal/mcpauth/cimd.go:130-141 | The same for outbound requests, on every replica. |
| Documents.OnlyConfiguredHostsAreShown | internal/web/mcp.go:264-275 | The same for consent pages. |
| Documents.DeployedRequestsAreSpaced | internal/mcpauth/cimd.go:112-124 | Over runs: one URL is requested twice within a minute only after as many other documents as configured, or 512. |
| Cimd.SettingsExactly | internal/mcpauth/cimd.go:98-128 | What the options come to: whom the hosts let through, the default lifetime (15 minutes) and the size (512). |
| SingleUse.CodeIsSpentByAnyPresentation | internal/web/mcp.go:381-402 | A code that got past VerifyCode once on a replica, even if client, URI or PKCE check then failed, is granted on again there only if as many other jtis as the guard holds came in between. |
| SingleUse.CodeGrantedAgainExactly | internal/web/mcp.go:381-402 | Exact condition: a code presented before on a replica is granted on iff, since its last presentation there, as many other jtis came as the guard holds, and client, URI and PKCE verifier are right. |
| SingleUse.CodeGrantsAtMostPerReplica | internal/web/mcp.go:386-390 | R replicas on one clock grant on one code at most R times, unless two of the grants are at one replica whose guard was flooded between them. |
| SingleUse.RetentionCoversExpiry | internal/mcpauth/store.go:30-59 | While a guard remembers a code or refresh token at all it does so at least to the expiry written in it: floor(mint + TTL) <= redeem + TTL, at every point of every run. |
| SingleUse.HonouredAgainExactly | internal/web/mcp.go:440-448 | Exact condition for a further use of a refresh token on a replica, with no assumption on traffic or clocks: it is honoured iff presented more than one full RefreshTTL after it last was, or as many other jtis as the guard holds came since its last presentation. |
| SingleUse.NextPresentation | internal/mcpauth/store.go:53-59 | Exactly when a replica still knows an artifact at its next presentation: its entry is in force and fewer other jtis than the guard holds came in between; a grant needs it unknown, and a refresh needs nothing more. |
| SingleUse.BurnedUntil | internal/mcpauth/store.go:53-59 | While a guard remembers a token since it was honoured, the entry is for exactly RefreshTTL from then, however often the token is refused meanwhile. |
| SingleUse.HonouredOnceWithinExpiry | internal/web/mcp.go:421-448 | Unless the guard was flooded in between, a refresh token is honoured at most once up to its exp, and a later second use implies the first came less than 60 s after minting. |
| SingleUse.HonoursAreSpaced | internal/web/mcp.go:440-448 | Two uses of one refresh token on one replica are more than RefreshTTL apart, or the guard was flooded in between. |
| SingleUse.HonoursFitInLeeway | internal/mcpauth/artifacts.go:36 | All uses of one refresh token on one replica with no flood between consecutive ones: (uses - 2) * RefreshTTL < 60 s, hence at most two whenever RefreshTTL >= 60 s. |
| Progress.EveryGrantCanBeUsedTwice | internal/web/mcp.go:419-464 | The second use is real: every genuine run that ends in a grant continues, at the token endpoint, to one whose refresh token is honoured at once and again one nanosecond after a full RefreshTTL. |
| Progress.TokensAreUsedTwice | internal/web/mcp.go:419-464 | Runs of both kinds exist from the blank state on any sane configuration with one registrable URI and one allowed user. |
| Progress.EveryGrantCanBeFlooded | internal/web/mcp.go:419-464 | The other second use is real: every genuine run that ends in a grant continues, at one instant and one replica, through as many rotations as the guard holds to a second honour of the first token. |
| Progress.AnyoneCanBeServed | internal/web/mcp.go:88-417 | From every reachable state, on every replica, a new client with an acceptable URI, at an address the registration and token limits still let through, and an allowed user can register, be shown consent, approve and exchange the code (lifetimes of at least a second). |
| SingleUse.HandleCallsGuard | internal/web/mcp.go:379-464 | The guard is touched by exactly the calls of the two grant paths; nothing is granted on a seen jti, and an unseen refresh always is. |
| SingleUse.KeptOverRun | internal/mcpauth/store.go:36-59 | Exactly how long a guard keeps a jti over a run: until as many others as it holds have been presented at that replica since the jti last was; its expiry does not move meanwhile. |
| SingleUse.RetainedOverRun | internal/mcpauth/store.go:36-59 | Presented repeatedly, a burned jti stays in its guard, with an expiry that never moves back, until as many other jtis in all as the guard holds have come. |
| SingleUse.PresentedAgain | internal/mcpauth/store.go:53-59 | A jti presented again on a replica is recognised iff its entry has not expired and fewer other jtis than the guard holds came in between. |
| SingleUse.GuardConsistent | internal/mcpauth/store.go:41-47 | No replica's guard exceeds its size at any point of any run. |
| SingleUse.GuardKeysAreIds | internal/web/mcp.go:387-442 | A guard holds nothing but identifiers of minted artifacts: junk cannot fill it. |
| SingleUse.UniqueIds | internal/mcpauth/artifacts.go:211-300 | One identifier, one artifact, over whole runs. |
| SingleUse.StampedAt | internal/mcpauth/artifacts.go:211-289 | Codes and refresh tokens carry the time of the step that minted them and the end of their lifetime, both cut to whole seconds. |
| Lineages.AtMostOneUnspent | internal/web/mcp.go:440-457 | On one replica, with no use after exp and no token presented again after the guard was flooded, each family has at most one refresh token never presented, at every reachable state: a lineage is a chain. The guard may evict at any time. |
| Lineages.OneRedemptionPerFamily | internal/mcpauth/artifacts.go:268-289 | All members of a family come from one code redemption and agree with its code on sub, email, client, resource and scope: scope never widens. |
| Lineages.FamilyRoot | internal/mcpauth/artifacts.go:268-289 | Every refresh token is traced to the redemption that started its family. |
| Lineages.NewMemberReplaces | internal/web/mcp.go:440-457 | A rotation that leaves a new unspent member spends another unspent one of the same family. |
| Lineages.HonouredWasUnspent | internal/web/mcp.go:440-448 | In such runs only a token that was never presented before is honoured. |
| Lineages.NewestHonouredExactly | internal/web/mcp.go:419-457 | The newest token of a lineage is honoured iff it comes by floor(previous + RefreshTTL), in whole seconds, plus 60 s. |
| Lineages.SlidingWindow | README.md:352-356 | A session of any length that always uses its newest token succeeds entirely iff each refresh comes by floor(previous + RefreshTTL) + 60 s; nothing else bounds it. |
| Flow.ApprovalExactly | internal/web/mcp.go:281-350 | Sending back a consent form from the server's own origin yields a code iff the time lies between floor(shown) and floor(shown + AuthReqTTL) in whole seconds and the cookie is the same allowed subject; URI and state are those of the request. |
| Flow.FirstRedemptionExactly | internal/web/mcp.go:379-417 | A code first brought to a replica is exchanged iff the time lies between floor(mint) and floor(mint + CodeTTL) in whole seconds, client and URI match and the verifier is non-empty and hashes to the challenge. |
| Flow.GrantedTokenPassesExactly | internal/web/mcp.go:479-505 | Tokens are usable, stated on the header: any spelling of "Bearer ", any white space around the token; the audience is the server's own whatever spelling was asked for; it verifies from minting through minting + AccessTTL, and passes /mcp-verify iff within floor(mint) - 60 s and floor(mint + AccessTTL) + 60 s with an allowed user and every required scope. |
| Handlers.BearerReads | internal/web/mcp.go:479-485 | A token is read from every header that spells the scheme in any case and puts nothing but white space around it. |
| Handlers.BearerExactly | internal/web/mcp.go:479-485 | A header carries a token iff something follows the scheme, letter by letter in either case. |
| Artifacts.AccessWindow | internal/mcpauth/artifacts.go:358-375 | Exact acceptance window of an access token in whole seconds and a 60 s leeway; it covers the whole nominal lifetime. |
| Resume.ResumeIsFaithful | internal/web/mcp.go:639-654 | Resume fidelity, exactly: for any blob of any run, authorize GET on the rebuilt query, same identity and client metadata, shows consent again, seals the same client, URI, challenge, resource, scope and state, and rebuilds the same query (a fixed point), iff the request named a scope or the advertised list reads back as it is. |
| Resume.SpacedScopeIsNotResumed | internal/web/mcp.go:226-230 | A failing request: scope left out, the one supported scope has a space inside; resuming sends the client invalid_scope. |
| Resume.ParametersPassAgain | internal/web/mcp.go:198-230 | Every parameter check but the scope passes again on the rebuilt query, and the scope is granted unchanged iff resumable. |
| Resume.ReconstructReads | internal/web/mcp.go:639-654 | The rebuilt query answers every lookup with what the blob seals, omitted empty parameters included. |
| Resume.RegisteredClientStays | internal/mcpauth/mcpauth.go:167-186 | A registered client resolves to the same redirect URIs for the rest of the run, at every replica. |
| WebServer.Server.HandleRegister | internal/web/mcp.go:88-158 | The registration handler, with its in-place state: new state and response are those of the step function the run theorems are about. |
| WebServer.Server.HandleAuthorizeGET | internal/web/mcp.go:165-276 | The same for authorize GET. |
| WebServer.Server.HandleAuthorizePOST | internal/web/mcp.go:281-350 | The same for authorize POST. |
| WebServer.Server.HandleToken | internal/web/mcp.go:354-377 | The same for the token endpoint. |
| WebServer.Server.TokenAuthorizationCode | internal/web/mcp.go:379-417 | The same for code redemption, the burn coming before the client, URI and PKCE checks. |
| WebServer.Server.TokenRefresh | internal/web/mcp.go:419-464 | The same for rotation, the client_id check coming before the burn. |
| WebServer.Server.HandleMCPVerify | internal/web/mcp.go:470-514 | The same for the resource check, which changes nothing. |
| WebServer.Server.ResolveClient | internal/mcpauth/mcpauth.go:167-186 | Document or registration, with the metadata cache updated in place. |
| WebServer.Server.IssueGrant | internal/mcpauth/artifacts.go:251-300 | Two new artifacts, nothing else changed. |
| WebServer.Server.Burn | internal/mcpauth/store.go:53-59 | One presentation to the replica's guard, nothing else changed. |
| WebServer.Server.NewServer | internal/web/server.go:38-46 | A replica starts with empty stores, each its own, with the limits and the guard size of the program. |
| WebServer.Server.Handle | internal/web/server.go:38-46 | Any request: the server object does what the step function says. |
| Deployment.Serve | internal/mcpauth/mcpauth.go:53-55 | Any number of server objects that share nothing but the keys, serving any sequence of requests, answer exactly what the run of those actions says. |
| Deployment.ServeOne | internal/mcpauth/store.go:30-33 | One request changes the ledger and its own replica only; every other server object is as it was. |
| ReplayGuard.MemoryReplayGuard.SeenBefore | internal/mcpauth/store.go:53-59 | One sequential call: the answer and the whole new store. |
| ReplayGuard.Retained | internal/mcpauth/store.go:34-59 | Presented repeatedly, a burned jti survives every history with fewer than maxSize other jtis in all, its expiry never moving back. |
| ReplayGuard.RememberedExactly | internal/mcpauth/store.go:21-24 | The documented promise with its exact condition: a later call answers true iff the entry has not expired and fewer than maxSize other jtis came since the jti last did. |
| ReplayGuard.KeptExactly | internal/mcpauth/store.go:34-47 | From any state of the guard: a held jti survives a history without it iff those ahead of it and those presented are together fewer than maxSize. |
| ReplayGuard.ForgottenForAnother | internal/mcpauth/store.go:21-24 | An input on which the documented promise fails: a guard of size one, within the TTL. |
| ReplayGuard.NeverOutgrows | internal/mcpauth/store.go:34-47 | At most maxSize entries after any history. |
| GuardInterleaving.NotSeenTwiceMeansOverlap | internal/mcpauth/store.go:49-59 | With Get and Set as separate steps under any interleaving: two calls for one jti that both answer false within the TTL overlap in time, unless the guard was flooded after the one returned and before the other started. |
| GuardInterleaving.LateCallSeesIt | internal/mcpauth/store.go:49-59 | A call that starts after an earlier one stored answers true, unless the guard was flooded in between. |
| GuardInterleaving.NotSeenAnswersShareAMoment | internal/mcpauth/store.go:49-59 | All calls that answer false within one lifetime are in flight at the moment of the first store, but for those before which the guard was flooded: accepted presentations are bounded by concurrency then. |
| GuardInterleaving.SeenExactlyAfterRecord | internal/mcpauth/store.go:53-59 | Under any interleaving, evictions included: a lookup answers true iff the latest store of the jti is within its lifetime and fewer other jtis than the guard holds were touched since this one last was. |
| GuardInterleaving.KnowsItsRecords | internal/mcpauth/store.go:53-59 | At every reachable state the guard knows exactly the jtis whose latest record is in force and not flooded out. |
| GuardInterleaving.BackToBackIsSequential | internal/mcpauth/store.go:53-59 | The two steps taken together are the sequential call. |
| TtlStore.Store.Get | internal/mcpauth/store.go:34-47 | Absolute expiry, no touch on hit: a hit is a live entry and only recency changes; an expired entry is a miss. |
| TtlStore.Store.Set | internal/mcpauth/store.go:34-47 | Overwrite in place or insert after dropping the least recently used. |
| TtlStore.PutConsistent | internal/mcpauth/store.go:34-47 | Storing keeps keys and recency order in agreement and within capacity. |
| TtlStore.TouchConsistent | internal/cache/cache.go:18-28 | A hit keeps them in agreement. |
| TtlStore.OthersPushOut | internal/mcpauth/store.go:34-47 | The law of eviction all four clients rest on: a key stays held exactly while fewer others than the store holds were used since it last was, with its entry unchanged. |
| RateLimiter.RateLimiter.Allow | internal/web/ratelimit.go:48-59 | One hit through the shared mutable counters: verdict and new counts; no two keys share a counter. |
| RateLimiter.AllowedIffWithinLimit | internal/web/ratelimit.go:40-59 | For every history, with no assumption on eviction or clocks: the n-th hit of a window is allowed iff n is within the limit, the first always. A window lasts its fixed time and ends early exactly when as many other keys as there are counters are hit between two hits of its key; windows and ranks are defined on the history alone. |
| RateLimiter.CrowdedOutByAnother | internal/web/ratelimit.go:43-46 | An input on which a blocked key is let through inside its window: one counter, limit one, another key in between. |
| RateLimiter.RateBound | internal/web/ratelimit.go:40-59 | Any interval of at most k windows contains at most (k + 1 + r) * max(limit, 1) allowed hits for a key, r being the number of windows opened early in it for being crowded out. |
| RateLimiter.UncrowdedHasNoResets | internal/web/ratelimit.go:10-13 | No window is opened early where fewer other keys than there are counters come between consecutive hits. |
| RateLimiter.CountersTrackHits | internal/web/ratelimit.go:48-59 | For every history: a key has a counter iff fewer other keys than there are counters came since its last hit, and then its count and expiry are the rank and the opening of its window. |
| RateLimiter.AllowedHitsArePaid | internal/web/ratelimit.go:48-59 | Conservation: allowed hits so far plus what may still be allowed never exceed the budget at the start and one limit for each window opened early. |
| Rates.EndpointRates | internal/web/server.go:17-24 | Over runs of a server set up as the program is: per replica and address, in any minute, at most 40 registrations, 240 token requests and 60 document authorizations are answered otherwise than 429, provided fewer than 16384 other addresses come between consecutive requests of this one; without that, one limit more for each window opened early. |
| Rates.TurnedAwayExactly | internal/web/ratelimit.go:40-59 | Over every run: a request is answered 429 iff its rank in its window, told from the requests alone, is beyond the limit. |
| Rates.UncrowdedHasFullWindows | internal/web/ratelimit.go:10-13 | Over runs: an address with fewer others than there are counters between its consecutive requests never has a window opened early. |
| Rates.PassesBounded | internal/web/ratelimit.go:40-59 | The same for every configuration and every stretch of k windows: at most (k + 1 + r) * max(limit, 1), r being the windows opened early. |
| Rates.HandleCounts | internal/web/mcp.go:88-92 | Each request counts at most one hit, at its own endpoint, and is answered 429 exactly when that limiter refuses it. |
| Rates.PassesAreAllowed | internal/web/ratelimit.go:48-59 | What passes over a run is exactly what the limiter allows of its hits. |
| VerifyCache.WrappedIsInner | internal/cache/cache.go:38-57 | For a verifier whose success stands until its expiry: after any calls, at any times, with any loss of entries, the wrapped verifier answers exactly what the inner one would, errors included. |
| VerifyCache.NeverServedPastExpiry | internal/cache/cache.go:18-22 | Even for an unstable verifier, what is served is the inner answer of now, or an earlier success not past its own expiry. |
| VerifyCache.ServedFromMemory | internal/cache/cache.go:42-57 | A success is the answer from memory, without asking again, up to the token's own expiry, unless its entry is lost or as many other tokens as the cache holds come in between. |
| VerifyCache.FailuresAreNotKept | internal/cache/cache.go:38-41 | A failure leaves the cache as it was and the next call asks again. |
| VerifyCache.StaysWithinCapacity | internal/cache/cache.go:23-28 | The cache never exceeds its capacity. |
| VerifyCache.CachedVerifier.Verify | internal/cache/cache.go:42-57 | One call: answer and new cache; failures leave the cache as it was. |
| Cimd.AnswersAreTheLatestFetch | internal/mcpauth/cimd.go:130-156 | Every answer is that of the latest fetch of exactly that client_id, at most 24 h old; successes passed validation for that key, failures carry a reason. |
| Cimd.NothingOutsideThePolicy | internal/mcpauth/cimd.go:130-141 | No answer and no request for a host outside the trust policy. |
| Cimd.FetchesAreSpaced | internal/mcpauth/cimd.go:26-35 | Two fetches of one client_id are more than a minute apart, failures included, or as many others as the cache holds were looked up in between. |
| Documents.ShownDocumentsAreRecent | internal/mcpauth/cimd.go:130-154 | Over runs: the client a consent page shows under a URL is what that replica itself fetched for exactly that URL at most 24 h before. |
| Documents.OutboundRequestsAreSpaced | internal/mcpauth/cimd.go:26-35 | Over runs: one replica requests one URL twice only more than a minute apart, or after being asked for as many other documents as its cache holds. |
| Documents.CacheOverRun | internal/mcpauth/cimd.go:130-154 | At every point of every run the metadata cache of a replica is that of the queries it was asked. |
| Cimd.CacheRemembers | internal/mcpauth/cimd.go:130-156 | For every sequence of queries: a client_id has an entry iff fewer others than the cache holds were looked up since it last was, and the entry is the outcome of its latest fetch. |
| Cimd.FetchesExactly | internal/mcpauth/cimd.go:130-156 | A query makes an outbound request iff it is not refused and its latest fetch is expired or crowded out. |
| Cimd.FetchedIsSound | internal/mcpauth/cimd.go:156-190 | A successful fetch has validated metadata and a lifetime in the band; a failed one a non-empty reason. |
| Cimd.ValidateExact | internal/mcpauth/cimd.go:243-269 | A document passes iff it names the client_id, has a non-blank name, at least one redirect URI, only acceptable ones, and no authentication method but none. |
| Cimd.CimdResolver.ResolveURL | internal/mcpauth/cimd.go:130-154 | The resolver method: answer, new cache, and whether a request was made. |
| Cimd.FetchedExactly | internal/mcpauth/cimd.go:156-190 | A fetch succeeds iff it is answered 200 with a readable body of at most 32 KiB that is JSON describing this client acceptably; it then yields that document and the lifetime its header allows. |
| Cimd.CimdResolver.CheckDocument | internal/mcpauth/cimd.go:243-269 | The document check with its loop and its first failing URI. |
| Urls.MatchRedirectURI | internal/mcpauth/cimd.go:339-363 | The matching loop decides exactly byte equality or the loopback rule. |
| Urls.MatchesExactly | internal/mcpauth/cimd.go:330-363 | What matches a registered list, in literals: its own bytes, or a URI without user and fragment that names this machine and agrees with a listed one in scheme, hostname, path and query. |
| Urls.AcceptableExactly | internal/mcpauth/cimd.go:304-328 | What may be registered, in literals: absolute, no fragment, https, or http to 127.0.0.1, ::1 or localhost in any case. |
| Urls.LoopbackExactly | internal/mcpauth/cimd.go:365-371 | The three names of this machine, and no name that merely begins with one. |
| Urls.CIMDExactly | internal/mcpauth/cimd.go:281-302 | The URLs documents may be fetched from: https, host and path, neither user nor fragment. |
| Urls.URLClientIDExactly | internal/mcpauth/cimd.go:273-277 | A client_id is taken for a URL iff it holds "://". |
| Urls.MatchedIsSafe | internal/mcpauth/cimd.go:304-363 | What matches an acceptable list is https or loopback http without fragment, and listed up to a loopback port. |
| Urls.PortIsIgnored | internal/mcpauth/cimd.go:330-363 | Two plain loopback URIs that differ in the port match the same lists (section 7.3 of RFC 8252). |
| Urls.NonLoopbackIsExact | internal/mcpauth/cimd.go:339-363 | Off loopback only the registered bytes match. |
| Urls.CheckRedirectURIs | internal/web/mcp.go:113-118 | The first unacceptable URI is reported; none means all are acceptable. |
| Urls.ResourceCaseIsIgnored | internal/mcpauth/mcpauth.go:229-240 | Scheme and host case plays no part in matching the resource. |
| Urls.MatchesResourceExactly | internal/mcpauth/mcpauth.go:229-240 | A URL passes for the resource iff scheme and host agree up to case, path and query byte for byte, and there is no fragment, for URLs whose parts hold no other part's separator. |
| Urls.NormalizeExactly | internal/mcpauth/mcpauth.go:341-349 | Normalising identifies exactly the URLs that agree up to the case of scheme and host. |
| Urls.EscapedMarkPasses | internal/mcpauth/mcpauth.go:341-349 | Outside that condition two resources can coincide: an escaped question mark in a path and a query. |
| Urls.HttpsExactly | internal/mcpauth/mcpauth.go:324-339 | What may be an issuer or a resource. |
| CacheControl.CacheTTL | internal/mcpauth/cimd.go:195-210 | The loop over directives, tied to the first-deciding-directive specification. |
| CacheControl.TTLInBand | internal/mcpauth/cimd.go:195-210 | For every header string and default the lifetime lies in [1 min, 24 h]. |
| CacheControl.FirstDirectiveDecides | internal/mcpauth/cimd.go:195-210 | The first no-store, no-cache or parseable max-age settles the lifetime. |
| CacheControl.LifetimeExactly | internal/mcpauth/cimd.go:195-210 | The lifetime every header gives, whole and in nanoseconds: one minute for no-store or no-cache, the 64-bit product for a readable max-age, the default if nothing decides, cut to between a minute and a day. |
| CacheControl.MaxAgeExact | internal/mcpauth/cimd.go:203-207 | The clamp is the mathematical one iff the seconds fit, or their nanosecond count, taken modulo 2^64, lies on the right side of the band: a condition on the seconds alone. |
| CacheControl.MaxAgeHeaderExact | internal/mcpauth/cimd.go:195-210 | The same for every header max-age=<digits>; digits beyond 64 bits give the default. |
| CacheControl.MaxAgeWrapsToFloor | internal/mcpauth/cimd.go:195-210 | The header max-age=18446744074 asks for the 24 h ceiling and gets the 1 min floor. |
| HostPolicy.AllowsByLabels | internal/mcpauth/cimd.go:212-229 | A non-empty policy admits a host iff an entry is the lowercased host, or a "*." entry's label list is a suffix of the host's label list. |
| HostPolicy.SuffixIsLabelSuffix | internal/mcpauth/cimd.go:218-224 | Ending in "." + domain, or being it, is having its labels last: never a part of a label. |
| HostPolicy.HostAllowed | internal/mcpauth/cimd.go:212-229 | The loop decides exactly the policy. |
| HostPolicy.NormalizeHosts | internal/mcpauth/cimd.go:412-420 | The loop keeps exactly the specified entries in order. |
| HostPolicy.NormalizedMembers | internal/mcpauth/cimd.go:412-420 | The policy holds the trimmed, lowercased, non-blank settings and nothing else. |
| Scopes.GrantScope | internal/mcpauth/mcpauth.go:194-209 | The granting loop, error included. |
| Scopes.GrantMeansRequest | internal/mcpauth/mcpauth.go:190-209 | Granted iff every requested scope is supported; then exactly the requested set, each once, in order of first appearance; an empty request gets the advertised list. |
| Scopes.RegrantedExactly | internal/mcpauth/mcpauth.go:194-209 | For every supported list: a granted scope is granted again unchanged iff the request named something, or the advertised list is blank, or it consists of distinct single tokens. |
| Scopes.SpacedIsRefused | internal/mcpauth/mcpauth.go:194-209 | A supported scope with a space inside is advertised to an empty request and refused when asked for. |
| Scopes.RepeatedIsDropped | internal/mcpauth/mcpauth.go:194-209 | A scope listed twice is granted twice to an empty request and once when asked for. |
| Scopes.IdempotentExactly | internal/mcpauth/mcpauth.go:194-209 | Granting is idempotent iff the advertised list is blank or consists of distinct single tokens. |
| Scopes.StepUpClosesIffTokens | internal/mcpauth/mcpauth.go:211-227 | Asking for RequiredScope is granted and sufficient iff every required scope is a non-empty string without white space. |
| Scopes.HasRequiredScopes | internal/mcpauth/mcpauth.go:216-227 | The loop decides coverage of the required scopes. |
| Scopes.FirstOccurrencesFaithful | internal/mcpauth/mcpauth.go:199-208 | Deduplication keeps members and order of first appearance. |
| AuthServer.New | internal/mcpauth/mcpauth.go:82-138 | Accepted iff issuer and resource are usable https URLs, the keys load and required scopes are supported; then the server accepts its own resource, lifetimes are positive, and each setting ends up in its own field, defaults included. |
| AuthServer.StepUpCloses | internal/mcpauth/mcpauth.go:102-106 | Step-up closes on every server New accepts, iff its required scopes are tokens. |
| Handlers.UserAllowedExactly | internal/web/handlers.go:265-279 | With an allowlist set, an address is admitted iff it is listed or the part after its last "@" is, in lower case. |
| Text.FieldsOfJoin | internal/mcpauth/mcpauth.go:194-227 | Fields(Join(xs)) = xs for lists of tokens: the law scopes rest on. |
| Text.FieldsOfConcat | internal/mcpauth/mcpauth.go:195-220 | Any white space separates fields: with FieldsOfJoin this determines the fields of every string. |
| Text.TrimSpaceExactly | internal/web/mcp.go:485 | Trimming takes white space off both ends, and all of it. |
| Text.AtoiExactly | internal/mcpauth/cimd.go:203-206 | What is read as a number: digits after an optional sign, within 64 bits. |
| Text.AtoiRefuses | internal/mcpauth/cimd.go:203-206 | And nothing else. |
| Text.SplitOfConcat | internal/mcpauth/cimd.go:218-224 | Splitting at a separator splits both sides: the law label suffixes rest on. |
| Text.JoinOfSplit | internal/mcpauth/cimd.go:195-229 | Joining a split gives the string back. |

## Left out

- HTTP plumbing, JSON, templates, response headers, request size limits, error descriptions and log lines: input, output and user interface.
- Keys, JWKS, real signatures, encryption, hashing and randomness: replaced by the ledger, parameters and fresh values.
- `net/url` parsing and percent-encoding, and how query parameters are added to a redirect: a redirect is its target plus the values sent.
- The outbound metadata request, its redirects, timeouts and address checks (`dialGuard`, `isPublicIP`): its outcome is an arbitrary value.
- Configuration loading, metadata documents, discovery routes and PRM URLs: straight-line construction.
- The human /verify, sign-in and cookie-writing flow: only the verdict on the cookies enters the protocol.
- Failures of minting itself (500 responses), which leave a presented code or token burned with nothing granted, and a nil rate limiter.
- Case folding outside ASCII, which Go's ToLower also does: it would only widen the character table.
- Concurrency of the limiters and caches, whose races can reset a counter or fetch twice; a handler is one step, and only the guard is interleaved.
- Wrap-around of a 64-bit hit counter and of nanosecond times, which no window or lifetime can reach.
- Stores of capacity zero, which the library takes as unbounded: every size in the program is a positive constant or setting.
- Consent blobs are not single-use within AuthReqTTL and a refresh client_id is checked only when present; the model follows the code and claims neither.
- Artifacts: that no artifact passes for one of another kind holds by construction, since the token_use string is a datatype constructor here.
- Lineages.AtMostOneUnspent: needs one replica, no presentation after expiry and none after a flood, because guards are not shared and the two second uses above are real.
- GuardInterleaving.NotSeenTwiceMeansOverlap: needs one clock and one lifetime per identifier, which codes and refresh tokens have.
- RateLimiter.RateBound: needs hits in the order of the clock, because a window is told from the times of its hits.
- Resume.ResumeIsFaithful: leaves out that the rebuilt address is percent-encoded and decoded on the way, which is `net/url`'s part.
