# A verified model of AuthSentinel

AuthSentinel is an OAuth agent, a policy proxy in front of upstream services and a runtime for
plugins. This project models its stateful core in Dafny and proves what that core keeps: over
every run, for every interleaving of workers and for every input. `dafny verify dfyconfig.toml`
checks all of it.

Code that changes state is a class or a method with loops, proved against functions on values.
What many workers do at the same time is a state machine over the store commands and provider
calls they make, with a clock that passes between steps.

| module | what it covers |
|---|---|
| `RateLimit` | the token-bucket limiter: lazily refilled buckets per key in a mutable map |
| `ProxyEngine`, `Policy`, `JsonString` | the decision pipeline, its response bodies and upstream headers |
| `DependencyGraph`, `ReleaseOrder`, `PluginRegistry` | Kahn's algorithm over the capability multigraph, on a first and on repeated calls; the registry's two indexes over shared registrations |
| `Base64`, `SignedCookie` | the signed cookie codec with key rotation |
| `JwksCache` | the double-checked TTL cache of key sets |
| `Json`, `Identity` | claims trees, token checks, and the roles and identity that travel from ID token to proxy |
| `Kv`, `KeyLayout`, `RedisStore` | tables with expiring entries, the flat keyspace, and the store over it |
| `SessionModel`, `AgentMachine` | sessions and PKCE states; login, refresh, logout and enrichment as interleaved steps |
| `AgentHistory` | that the store's tables are at any time what the log of events says |
| `SessionProvenance`, `LoginBinding`, `RefreshLock`, `SerialLogins` | what holds in every run of that machine |
| `Overlaps`, `OverlapRuns` | exactly what overlapping operations lead to, and runs from the start in which they do |
| `UpstreamIdentity` | what the upstream service is told about the user of an ID token |
| `OneWorker`, `AgentService` | the service as imperative code over `RedisStore.Store`, and that it does what one worker of the machine does |
| `BrowserSessions` | a browser that comes back with the cookie of an earlier response |

## Conventions

- Token counts are integers in units of 1/(60·10^9) token and the limiter's times are integer
  nanoseconds, so a refill is `elapsed * requestsPerMinute`. The agent's times are integer seconds.
- A run of the limiter lists the requests in the order in which they get the lock.
- Every store command carries a `Link`: it works, its request is lost, or it takes effect and only
  the reply is lost. An entry stored without a positive TTL never expires, and `SET NX` on a key
  that exists comes back as a nil reply, which the client reports as an error: so a refresh lock
  that is held is an error to `Obtain`, and the service treats that like a lock not obtained.
- In `AgentMachine` one step is one store command or one provider call together with the local
  code around it. The log records what an observer of the store and the provider could note,
  each event with its time. An event also names the earlier events it rests on by their position
  in the log: a creation its token check, a check its exchange, an exchange its read.
- HMAC and SHA-256 are arbitrary functions. Whether a token's signature, issuer and expiry hold,
  what the provider and the policy answer, and the random bytes are inputs of a step.

## What turned out not to hold

Each item names the theorem that says exactly when the property does hold, and a case in which it
does not.

- `Handle` of the limiter samples the time before it takes the lock. The burst-plus-rate bound holds
  for a run under every configuration if and only if the timestamps of the key are in lock order
  (`RateLimit.OrderedExactly`, `RateLimit.UnorderedTimestampsExceedTheBound`); what holds without
  any order is `RateLimit.TokensAreConserved`.
- Every further `BuildDependencyGraph` appends all edges again while the in-degrees are computed
  afresh. A call succeeds if and only if no set of plugins is starved: no set whose members all have
  more edges than the notifications that the rest sends them
  (`PluginRegistry.Registry.BuildDependencyGraph`, `DependencyGraph.CompletesExactly`,
  `PluginRegistry.BuildRepeatedly` for the n-th call). On a first call that is acyclicity; from the
  second call on there are cyclic plugins that are accepted (`PluginRegistry.CycleGoesUnnoticed`).
  The way in which the counters release plugins keeps providers first if and only if each plugin is
  guarded by each of its providers (`ReleaseOrder.GuardedExactly`): always on a first call, but from
  the second on there are plugins that every run starts before their providers
  (`PluginRegistry.DiamondIsMisordered`).
- The deny body is a JSON string exactly when the reason has no control characters
  (`JsonString.DenyBodyReadsBack`).
- A session that was logged out is found again exactly when a save was logged after the logout, has
  not run out and is the last word (`Overlaps.FoundAgainExactly`), as when a refresh had read the
  session before (`OverlapRuns.RevivalHappens`).
- A second callback for a state finds it too, and exchanges the code, exactly when its read precedes
  every deletion and the PKCE TTL (`Overlaps.RecalledAgainExactly`, `OverlapRuns.TwoExchangesHappen`).
- Two refreshes of a session present the same refresh token exactly when the records they read go
  back to the same answer of the provider, or to answers that gave the same token
  (`Overlaps.PresentedAgainExactly`). So it is when both read before either saves
  (`OverlapRuns.TokenIsPresentedTwice`), and even when the second reads after the first has saved a
  new token, if an attachment of a tenant context that had read the session before writes the old
  record back (`OverlapRuns.AttachBringsTokenBack`). If no update is lost in this way, a refresh
  presents the token that came last (`Overlaps.CurrentPresentsLatest`). The lock prevents none of it.
- Without timely release the refresh lock admits a second holder. An Obtain succeeds exactly when
  every lease has run out or was followed by a release, whoever released
  (`RefreshLock.ObtainsExactly`). While the store still has the entry that the first holder wrote,
  that is when the first has overstayed (`RefreshLock.SecondHolderExactly`); a late release of
  another holder removes such an entry and lets a third in while the second holds the lock (`RefreshLock.LateReleaseAdmitsThird`,
  `OverlapRuns.TwoHoldersHappen`).
- The stored claims are those of the stored ID token exactly when that token was accepted, at login
  or at the refresh that brought it (`SessionProvenance.OneTokenExactly`); a refresh keeps an ID
  token that is not accepted, but not its claims (`OverlapRuns.StaleClaimsHappen`).
- Logout's origin check lets every request without an Origin pass, whatever its Referer
  (`AgentService.Service.CheckOrigin`).

## Model

| member | source | states |
|---|---|---|
| RateLimit.AvailableIsMinimum | pkg/plugins/pipeline/ratelimit/ratelimit.go:131-143 | with ordered timestamps, the tokens a request finds are the minimum of a full bucket and, over all earlier requests on its key, a full bucket refilled since then minus what was admitted since then |
| RateLimit.AdmissionIsMinPlus | pkg/plugins/pipeline/ratelimit/ratelimit.go:115-151 | a request is admitted if and only if it fits, for every window that starts at an earlier request on its key or at itself, the burst plus requestsPerMinute for every 60·10^9 nanoseconds |
| RateLimit.BurstThenRate | pkg/plugins/pipeline/ratelimit/ratelimit.go:115-151 | as many requests as the burst are admitted at once on a new key, and one more d nanoseconds later if and only if requestsPerMinute · d is at least 60·10^9 |
| RateLimit.AtMostBurstPlusRate | pkg/plugins/pipeline/ratelimit/ratelimit.go:115-151 | between any two requests on a key at most burst + rate · time are admitted |
| RateLimit.WindowBound | pkg/plugins/pipeline/ratelimit/ratelimit.go:115-151 | the same for every time window, whether or not a request stands at its ends |
| RateLimit.UnorderedTimestampsExceedTheBound | pkg/plugins/pipeline/ratelimit/ratelimit.go:118-123 | a run whose timestamps go back in lock order and that exceeds the window bound |
| RateLimit.OrderedExactly | pkg/plugins/pipeline/ratelimit/ratelimit.go:115-151 | for any run and key: the bound between any two requests holds under every valid configuration if and only if the timestamps on the key are in lock order |
| RateLimit.TokensStayInRange | pkg/plugins/pipeline/ratelimit/ratelimit.go:132-143 | every bucket holds between 0 and burst tokens, whatever the timestamps |
| RateLimit.TokensAreConserved | pkg/plugins/pipeline/ratelimit/ratelimit.go:125-143 | whatever the timestamps, admitted requests plus tokens left never exceed burst plus rate times the time the key's clock moved forward |
| RateLimit.DenialIsInvisible | pkg/plugins/pipeline/ratelimit/ratelimit.go:132-150 | a denied request, although it moves the bucket's clock, changes nothing a later request can see |
| RateLimit.DecisionsSurviveDeletion | pkg/plugins/pipeline/ratelimit/ratelimit.go:122-150 | deleting requests on other keys and any denied requests leaves every remaining decision as it was |
| RateLimit.TakeIsLocal | pkg/plugins/pipeline/ratelimit/ratelimit.go:125-143 | keys do not interact through the shared map of buckets |
| RateLimit.Bucket.RefillAndTake | pkg/plugins/pipeline/ratelimit/ratelimit.go:131-144 | the in-place refill and take leave the tokens and time the specification gives |
| RateLimit.Plugin.Configure | pkg/plugins/pipeline/ratelimit/ratelimit.go:64-97 | accepts exactly the configurations with rate and burst of at least one, a known strategy and, for the header strategy, a header name; a rejected one changes nothing, an accepted one keeps every bucket |
| RateLimit.Plugin.Handle | pkg/plugins/pipeline/ratelimit/ratelimit.go:115-151 | the mutable map of buckets follows the specification; nil exactly when the request is admitted, else the refusal with status 429 and its reason |
| JsonString.TwoPassesAreOne | pkg/proxy/engine.go:207-209 | the two nested replacements equal one pass over the characters |
| JsonString.EscapedTextReadsBack | pkg/proxy/engine.go:207-209 | read by the string grammar of RFC 8259, section 7, an escaped text ends at the quote put after it and decodes to itself, exactly when it has no control characters |
| JsonString.DenyBodyReadsBack | pkg/proxy/engine.go:133-135 | the literal in the deny body ends at the template's closing quote and decodes to the reason if and only if the reason has no control characters |
| ProxyEngine.DefaultEngine.Handle | pkg/proxy/engine.go:48-175 | the request is allowed exactly when the first plugin to speak allows it, or none speaks and the policy allows it; the policy is asked at most once and only when every plugin stayed quiet; each failure has its own refusal; status, body and headers are those of the one decisive decision; without a builder of its own an allowed request of a principal carries the headers that tell of it |
| ProxyEngine.DefaultEngine.BuildHeaders | pkg/proxy/engine.go:136-169 | headers of the decision, overridden by its set_header obligations, overridden by the headers built for the principal; none when there is nothing to set |
| ProxyEngine.DefaultHeadersTell | pkg/proxy/engine.go:177-205 | each of the seven headers is there exactly when there is something to put in it: the bearer token, the subject, the e-mail address, both names and the tenant as they are, the roles so that splitting at commas gives them back when none contains one; and there is no other header |
| ProxyEngine.FieldsOfJoin | pkg/proxy/engine.go:185-187 | splitting the joined roles at the commas gives them back when none contains a comma |
| ProxyEngine.ObligedExactly | pkg/proxy/engine.go:142-153 | a text obligation sets the header whose name follows set_header_, with a dash for every underscore, and no other |
| ProxyEngine.MergeObligations | pkg/proxy/engine.go:142-153 | in whatever order the obligations are visited, each named header ends with the value of an obligation naming it and the others stay |
| ProxyEngine.OneDecision | pkg/proxy/engine.go:75-125 | at most one decision is decisive, and it settles whether the request is let through |
| ProxyEngine.AllowedIsAdmitted | pkg/proxy/engine.go:78-131 | when no plugin before the limiter allows, an allowed request reached the limiter and was admitted there |
| ProxyEngine.AllowedAtMostAdmitted | pkg/proxy/engine.go:78-131 | in any run the allowed requests of a key and window number at most those the limiter admits |
| ProxyEngine.LimiterRunIsOrdered | pkg/proxy/engine.go:78-97 | the requests that reach the limiter keep the order of their timestamps |
| ProxyEngine.ProxyKeepsTheBound | pkg/proxy/engine.go:78-131 | the limiter's bound holds for the whole proxy: allowed responses per key and window are at most burst + rate · window |
| UpstreamIdentity.UpstreamIsToldOfTheToken | pkg/proxy/engine.go:177-205 | in every run of the agent whose ID tokens are decoded JSON, for every read that finds a session: headers that tell of the proxy's principal for it carry the subject, e-mail address, names and roles of the ID token that was accepted at the login or refresh from which the claims come |
| UpstreamIdentity.AllowedRequestNamesTheUser | pkg/proxy/engine.go:155-169 | an engine without a builder of its own sends these headers with every request it allows |
| DependencyGraph.InDegreeIsUndelivered | pkg/pluginregistry/registry.go:134-163 | on a first call the in-degree is always the number of edges, repetitions included, from providers not yet ordered |
| DependencyGraph.StepInvariant | pkg/pluginregistry/registry.go:153-163 | no ID is queued twice, order and queue stay disjoint, and together they hold exactly the IDs counted down to zero |
| DependencyGraph.RunPutsProvidersFirst | pkg/pluginregistry/registry.go:152-163 | on a first call every ID enters the order after all its providers |
| DependencyGraph.OrderedIsAcyclic | pkg/pluginregistry/registry.go:165-169 | a complete order with providers first exists only for an acyclic graph |
| DependencyGraph.LeftoverIsStuck | pkg/pluginregistry/registry.go:165-167 | IDs never ordered each wait for another of them |
| DependencyGraph.StuckIsCyclic | pkg/pluginregistry/registry.go:165-167 | a nonempty set of IDs each waiting for another of the set contains a cycle |
| DependencyGraph.FinishedRun | pkg/pluginregistry/registry.go:145-169 | the length test at the end succeeds if and only if the graph is acyclic, and then the order lists every ID once with providers first; on a repeated call an acyclic graph still succeeds |
| DependencyGraph.CompletesExactly | pkg/pluginregistry/registry.go:145-169 | whatever edges earlier calls have left and in whatever order the queue starts: the length test succeeds if and only if no nonempty set of plugins is starved, that is, each of its members has more edges than all notifications from outside the set |
| DependencyGraph.StarvedByCalls | pkg/pluginregistry/registry.go:122-143 | with every edge listed n times, a set is starved exactly when n times the edges from outside do not make up for all edges of any member |
| DependencyGraph.FirstCallStarves | pkg/pluginregistry/registry.go:122-167 | on a first call nothing is starved if and only if the graph is acyclic |
| DependencyGraph.AcyclicCompletes | pkg/pluginregistry/registry.go:145-167 | however often it is called, an acyclic graph succeeds |
| DependencyGraph.RunIsReleased | pkg/pluginregistry/registry.go:152-163 | on any call every ID enters the order, once, after enough earlier ones to make up for its edges |
| DependencyGraph.RepeatedCallAcceptsACycle | pkg/pluginregistry/registry.go:122-143 | for every n of at least two there is nothing starved on a cyclic graph whose edges are all listed n times |
| DependencyGraph.RepeatedCallMisorders | pkg/pluginregistry/registry.go:122-143 | for every n of at least two and every order of the queue, a run on an acyclic graph whose edges are listed n times starts a plugin before its provider |
| DependencyGraph.OneProviderKeepsOrder | pkg/pluginregistry/registry.go:122-163 | plugins with one provider each are ordered after it on every call |
| ReleaseOrder.GuardedExactly | pkg/pluginregistry/registry.go:145-169 | on any call that succeeds: every order in which the counters can release the plugins puts providers first if and only if no plugin can be released without one of its providers |
| ReleaseOrder.GuardedRun | pkg/pluginregistry/registry.go:152-163 | under that condition every run of the queue puts providers first, on a first or repeated call |
| ReleaseOrder.FirstCallIsGuarded | pkg/pluginregistry/registry.go:122-163 | the condition holds on a first call of an acyclic graph |
| PluginRegistry.HistoryDecides | pkg/pluginregistry/registry.go:55-93 | after any sequence of Register, Enable and Disable, exactly those IDs are enabled that some operation turned on and none turned off since |
| PluginRegistry.HistoryRegisters | pkg/pluginregistry/registry.go:55-73 | an ID is known exactly after its first registration, IDs stay distinct and only known ones are enabled |
| PluginRegistry.ResolvedAfterHistory | pkg/pluginregistry/registry.go:96-105 | after any such sequence a plugin is resolved for a capability as often as it lists it if it is enabled, and else not at all |
| PluginRegistry.OnlyOffers | pkg/pluginregistry/registry.go:97-104 | filtering the indexed providers by the enabled flag gives the enabled plugins in registration order |
| PluginRegistry.SourcesAreProviders | pkg/pluginregistry/registry.go:122-131 | there is an edge from p to d exactly when p offers a capability that d needs |
| PluginRegistry.EdgesExactly | pkg/pluginregistry/registry.go:122-131 | there is an edge between two plugins exactly when the one lists a capability that the other needs |
| PluginRegistry.MissingExactly | pkg/pluginregistry/registry.go:123-128 | a provider is missing exactly when a plugin needs a capability that no plugin lists |
| PluginRegistry.ProvidersFirstExactly | pkg/pluginregistry/registry.go:120-170 | an order has providers first in the graph exactly when every plugin starts after every plugin that lists a capability it needs |
| PluginRegistry.ResolvedInOrder | pkg/pluginregistry/registry.go:96-105 | plugins are resolved in the order of their registration |
| PluginRegistry.CallsAddUp | pkg/pluginregistry/registry.go:129-129 | the n-th call leaves every edge n times in the notification lists |
| PluginRegistry.CatalogHasGraph | pkg/pluginregistry/registry.go:122-132 | every graph whose providers are all known is the graph of some registered plugins |
| PluginRegistry.BuildRepeatedly | pkg/pluginregistry/registry.go:120-170 | for any plugins, the n-th build succeeds if and only if no set of them is starved after n calls |
| PluginRegistry.CycleGoesUnnoticed | pkg/pluginregistry/registry.go:120-170 | three registered plugins with a cycle that the first build reports and every later one accepts |
| PluginRegistry.DiamondIsMisordered | pkg/pluginregistry/registry.go:120-170 | four registered plugins without a cycle that every build from the second on starts with one before its provider |
| PluginRegistry.Registry.constructor | pkg/pluginregistry/registry.go:35-42 | a new registry is valid and empty |
| PluginRegistry.Registry.Register | pkg/pluginregistry/registry.go:55-73 | appends the plugin, enabled, to both indexes; a duplicate changes nothing |
| PluginRegistry.Registry.Enable | pkg/pluginregistry/registry.go:76-83 | the toggle through the ID index is the one the capability index shows; an unknown ID changes nothing |
| PluginRegistry.Registry.Disable | pkg/pluginregistry/registry.go:86-93 | likewise |
| PluginRegistry.Registry.ResolveByCapability | pkg/pluginregistry/registry.go:96-105 | exactly the enabled plugins listing the capability, in registration order and with multiplicity |
| PluginRegistry.Registry.ResolveAllByKind | pkg/pluginregistry/registry.go:108-116 | every enabled plugin of the kind, once |
| PluginRegistry.Registry.LinkAll | pkg/pluginregistry/registry.go:122-132 | in any map order, either reports a capability nobody offers or adds exactly the edges of the graph |
| PluginRegistry.Registry.LinkProviders | pkg/pluginregistry/registry.go:123-131 | one edge per needed capability and provider of it, repetitions included |
| PluginRegistry.Registry.ComputeInDegrees | pkg/pluginregistry/registry.go:135-143 | the in-degrees of the graph, repetitions included |
| PluginRegistry.Registry.FindRoots | pkg/pluginregistry/registry.go:145-150 | the queue starts with every plugin of in-degree zero, once, in any order |
| PluginRegistry.Registry.Sort | pkg/pluginregistry/registry.go:152-163 | the loop terminates, and its order is that of the algorithm when the queue has run empty |
| PluginRegistry.Registry.DeliverTo | pkg/pluginregistry/registry.go:157-162 | counting down the dependents queues exactly those that reach zero |
| PluginRegistry.Registry.BuildDependencyGraph | pkg/pluginregistry/registry.go:120-170 | for every map order: a missing provider is reported exactly when some plugin needs a capability that none lists; else every edge is listed once more and the call succeeds if and only if no set of plugins is starved; on a first call that is if the graph is acyclic, and then the startup order is a permutation of all IDs in which every plugin comes after all plugins that list what it needs; on an error the startup order is unchanged |
| PluginRegistry.Registry.StartupOrder | pkg/pluginregistry/registry.go:174-178 | the stored startup order, which by the invariant lists registered IDs, each once; that a failed build leaves it alone is stated at BuildDependencyGraph |
| Base64.RoundTrip | pkg/cookie/signed.go:69-71 | decoding inverts encoding for every byte string (RFC 4648, sections 4 and 5) |
| Base64.LettersAreListed | pkg/cookie/signed.go:69-71 | the 64 letters in order are those of RFC 4648, table 2 |
| Base64.QuantumIsListed | pkg/cookie/signed.go:69-71 | up to three bytes are the four six-bit groups of their 24-bit number, with padding for the groups that hold no bit of them |
| Base64.EncodedByGroups | pkg/cookie/signed.go:69-71 | the k-th three bytes give the k-th four letters |
| Base64.RawIsUnpadded | internal/agent/oidc/pkce.go:10-25 | the unpadded form, of which challenges, states and session IDs are made, is the padded one without its padding |
| SignedCookie.AcceptedExactly | pkg/cookie/signed.go:76-109 | a cookie is accepted with an ID if and only if it is a payload and a signature joined by the first separator, the signature decodes to the MAC of the payload under one of the keys, and the payload decodes to the ID |
| SignedCookie.SignedDecodes | pkg/cookie/signed.go:64-98 | a cookie signed under any key decodes to its ID exactly when one of the decoder's keys gives the same MAC |
| SignedCookie.EncodeThenDecode | pkg/cookie/signed.go:64-98 | decoding inverts encoding whenever the encoder's primary key is the decoder's primary or an older key |
| SignedCookie.RotationKeepsCookies | pkg/cookie/signed.go:28-36 | a manager with more keys accepts whatever one with fewer accepts, with the same ID |
| SignedCookie.SignedManager.Encode | pkg/cookie/signed.go:64-72 | signs a session ID under the primary key; a value of another type gives the empty cookie |
| SignedCookie.SignedManager.Decode | pkg/cookie/signed.go:76-98 | the loop over the keys accepts exactly what the specification accepts, and a rejected cookie leaves the destination alone |
| SignedCookie.SignedManager.DecodePayload | pkg/cookie/signed.go:100-109 | the destination changes exactly when the payload decodes |
| JwksCache.EveryRunIsSound | pkg/token/jwks_http.go:53-86 | in every interleaving a hit serves a successful fetch for that issuer completed less than the TTL before, and within the TTL of a successful fetch there is neither a miss nor another such fetch for that issuer |
| Wrappers.TrimSlashExactly | pkg/token/jwks_http.go:54-55 | an issuer without a final slash is unchanged, and two issuers share a cache entry only if they are equal up to one final slash |
| JwksCache.OneHitOrMissPerCall | pkg/token/jwks_http.go:57-74 | each call records exactly one hit or one miss |
| JwksCache.EffectiveTtl | pkg/token/jwks_http.go:36-40 | the given TTL if it is positive, else five minutes |
| JwksCache.HttpJwksSource.CheckForReading | pkg/token/jwks_http.go:57-64 | the check under the read lock is that step of the run |
| JwksCache.HttpJwksSource.CheckForWriting | pkg/token/jwks_http.go:66-74 | the check under the write lock is that step of the run; a miss keeps the lock |
| JwksCache.HttpJwksSource.FinishFetch | pkg/token/jwks_http.go:76-85 | only a successful fetch is cached, for the TTL from its completion |
| JwksCache.HttpJwksSource.GetJwks | pkg/token/jwks_http.go:53-86 | a whole call returns the cached data exactly when it is fresh at the first check and otherwise the caller's own fetch, and is that caller's run from call to return |
| Json.HopIsIdempotent | pkg/session/session.go:12-12 | a JSON hop fixes a claims tree for good: later hops change nothing, and a tree that came from JSON is not changed at all |
| Identity.LoginKeepsIdentity | internal/agent/service/service.go:190-197 | LoginEnd's rewrite of the claims and their storage keep subject, roles and expiry |
| Identity.StorageKeepsIdentity | internal/agent/service/service.go:324-331 | so does storing the claims of a refresh as they are |
| Identity.IdentityIsCarried | internal/agent/service/service.go:424-441 | for every claims tree the roles and subject that token validation finds are those of the user the agent shows and of the proxy's principal, after the rewrite at login, storage, Resolve, a second JSON hop and normalisation |
| Identity.ClaimsAreCarried | internal/agent/service/service.go:190-197 | every claim but subject and roles reaches the session and the proxy's principal as it was in the token |
| Identity.RealmRolesWin | pkg/token/validate_idtoken.go:76-85 | when the realm's list has any text, the roles are the texts in it, in order |
| Identity.FlatRolesFollow | pkg/token/validate_idtoken.go:86-94 | when it has none, the roles are the texts of the flat list, in order, and without such a list there are none |
| Identity.ValidateIdToken | pkg/token/validate_idtoken.go:36-100 | accepts exactly the verified tokens whose "aud" is the expected audience or a list with it, if one is expected, and whose "nonce" is the expected one, if one is; subject, expiry and claims are those of the token, the roles the realm roles, or the flat ones if there are none |
| Identity.CheckAudience | pkg/token/validate_idtoken.go:37-53 | an expected audience matches exactly when "aud" is that text or a list with that text in it |
| Identity.CollectRoles | pkg/token/validate_idtoken.go:76-94 | the nested role list if it has any string, else the flat one |
| Identity.SessionToUser | internal/agent/service/service.go:408-465 | subject, e-mail address and names are the text claims of these names, groups the texts of their list in order, and the admin flag is set exactly for the roles admin and administrator |
| Identity.NormalizeClaims | pkg/token/claims.go:19-51 | a copy whose roles are a string list whenever there are any; nil stays nil |
| Identity.ResolveResponseToPrincipal | internal/proxy/resolver.go:30-70 | the principal of a resolve response, also when its claims are missing |
| KeyLayout.AgentLayoutIsPrefixFree | internal/agent/config/config.go:152-167 | whatever prefix is configured, none of the five key prefixes is a prefix of another |
| KeyLayout.KeysAreSeparate | pkg/session/session.go:52-80 | two keys coincide only for the same table and the same ID, for all IDs |
| KeyLayout.SeparateExactly | pkg/session/session.go:52-80 | for any layout at all, the keys are injective and disjoint if and only if the layout is prefix-free |
| KeyLayout.ProjectGet | internal/store/redis/redis.go:69-87 | a lookup through the key is a lookup in the table |
| KeyLayout.ProjectChange | internal/store/redis/redis.go:88-110 | a write, deletion or expiry under one key changes that entry of that table and no other |
| RedisStore.Store.Set | internal/store/redis/redis.go:88-102 | one entry of one of the five tables changes, unless the request is lost |
| RedisStore.Store.Delete | internal/store/redis/redis.go:103-110 | one entry of one table goes, unless the request is lost |
| RedisStore.Store.GetSession | internal/store/redis/redis.go:69-87 | the live record of that ID, none, or an error exactly when the command fails |
| RedisStore.Store.SetSession | internal/store/redis/redis.go:88-102 | the record as JSON gives it back, with its TTL |
| RedisStore.Store.DeleteSession | internal/store/redis/redis.go:103-110 | the session goes |
| RedisStore.Store.GetPkce | internal/store/redis/redis.go:124-142 | the live PKCE state, none, or an error |
| RedisStore.Store.SetPkce | internal/store/redis/redis.go:143-157 | the PKCE state with its TTL |
| RedisStore.Store.DeletePkce | internal/store/redis/redis.go:158-165 | the PKCE state goes |
| RedisStore.Store.ObtainRefreshLock | internal/store/redis/redis.go:176-187 | true exactly when the command works and the lock is free; a lock that is held comes back as an error; a lost reply leaves the lock taken |
| RedisStore.Store.ReleaseRefreshLock | internal/store/redis/redis.go:188-195 | the lock goes, whoever holds it |
| RedisStore.Store.SetRevoked | internal/store/redis/redis.go:199-202 | a revocation with its TTL |
| RedisStore.Store.IsRevoked | internal/store/redis/redis.go:206-215 | whether a revocation is live |
| RedisStore.Store.RecordReplay | internal/store/redis/redis.go:219-222 | a replay record with its TTL |
| RedisStore.Store.CheckReplay | internal/store/redis/redis.go:226-236 | whether a replay record is live |
| AgentHistory.HistoryHolds | internal/agent/service/service.go:78-516 | in every run the tables of sessions, PKCE states and locks hold what the last saves and deletions in the log say, and every logged event rests on the earlier ones it names |
| AgentHistory.FoundExactly | internal/store/redis/redis.go:69-142 | in every run a read finds a session, or a PKCE state, if and only if some save of it was logged before, has not run out and was followed by no other save and no deletion, and then it finds what that save stored |
| AgentHistory.LiveExactly | internal/store/redis/redis.go:69-142 | likewise for what the store holds at the end of a run |
| SessionProvenance.PartsHaveOrigins | internal/agent/service/service.go:179-331 | each part of a session that is saved comes from one answer of the provider, taken in by a login or a refresh of that same session and reached through the records that the updates in between had read |
| SessionProvenance.SessionsComeFromTheProvider | internal/agent/service/service.go:167-516 | in every reachable state, under every interleaving and with failing store commands, each session sits under its own ID, and access token with expiry, refresh token, ID token and claims were each given by an answer that a login or refresh of that very session took in; the claims are those of an ID token that was accepted then |
| SessionProvenance.OneTokenExactly | internal/agent/service/service.go:310-331 | the stored ID token and claims come from one token if and only if the ID token was accepted when it came; after a refresh: if it brought none and they agreed before, or brought one that was accepted |
| SessionProvenance.SessionsShowTheirToken | internal/agent/service/service.go:408-441 | in every run whose ID tokens are decoded JSON, every read that finds a session shows, to the agent's user and to the proxy's principal after another hop, the roles, subject and expiry of the ID token that was accepted at the login or refresh of that session from which its claims come |
| SessionProvenance.StoredSessionsShowTheirToken | internal/agent/service/service.go:408-441 | likewise for every session that the store holds at the end of a run |
| LoginBinding.CreatedIsBound | internal/agent/service/service.go:158-211 | in every run a session created for a state was preceded, in this order and at times that do not decrease, by a LoginStart that stored the state, a read that found it within the PKCE TTL and before it was stored again or deleted, an exchange of that LoginStart's verifier, and the acceptance of an ID token that carries its nonce and names the agent's audience; the verifier hashes to the stored challenge (RFC 7636, sections 4.2 and 4.6) |
| LoginBinding.ExchangeIsAsked | internal/agent/service/service.go:158-173 | every exchange, even a failed one, presents the verifier of the state that its read found in time, and comes no earlier than that read |
| LoginBinding.UrlsAndNonces | internal/agent/oidc/pkce.go:10-25 | every authorization URL carries the S256 challenge of a verifier stored before, and every check of a login's ID token, accepted or not, is against a nonce |
| LoginBinding.StoredClaimsAreForUs | internal/agent/service/service.go:310-331 | in every reachable state the claims of a stored session come from an ID token, taken in by a login or refresh of that session, that names the agent's audience |
| RefreshLock.AtMostOneRefresher | internal/agent/service/service.go:296-349 | if every holder releases before its TTL runs out, at most one of any number of workers is between Obtain and Release for a session |
| RefreshLock.SecondHolderExactly | internal/store/redis/redis.go:176-195 | while one worker holds the lock and the entry in the store is still the one it wrote, another obtains it if and only if the first has overstayed its TTL; `RefreshLock.ObtainsExactly` covers the case that another holder has released it |
| RefreshLock.LateReleaseAdmitsThird | internal/store/redis/redis.go:188-195 | a late release frees the lock of another holder |
| RefreshLock.ObtainsExactly | internal/store/redis/redis.go:176-195 | in every reachable state, however many holders never release, an Obtain that works succeeds if and only if every lease of the session has run out or was followed by a release, whoever released |
| RefreshLock.PresentedWhenDue | internal/agent/service/service.go:288-304 | in every run a refresh presents the token of a record that, when it was read, expired within refreshEarly seconds: expiresAt <= time of the read + refreshEarly |
| SerialLogins.CurrentIsSerial | internal/agent/service/service.go:78-516 | in any run in which no update rests on a record that was replaced meanwhile, the store holds exactly the live logins of a serial table and every read on the way saw exactly what that table held |
| SerialLogins.ServiceIsSerial | internal/agent/service/service.go:78-516 | that is so when operations on one state or session do not overlap, commands work and generated IDs are fresh |
| SerialLogins.OneExchangePerState | internal/agent/service/service.go:158-167 | under the same hypotheses each state leads to at most one code exchange |
| SerialLogins.LogoutRemoves | internal/agent/service/service.go:383-391 | a Logout past its checks whose commands work finds no session, or its next command removes it from the store and is logged |
| SerialLogins.LoggedOutForGood | internal/agent/service/service.go:353-391 | under the same hypotheses no operation finds a session after its logout, nor after some operation has not found it |
| SerialLogins.LogoutIsFinal | internal/agent/service/service.go:353-391 | under the same hypotheses: once the worker that began a Logout past its checks is idle again, no operation finds the session |
| Overlaps.FoundAgainExactly | internal/agent/service/service.go:333-391 | in every run a read after a logout finds the session again if and only if a save after that logout, not run out, is its last word |
| Overlaps.RevivedByAnEarlierRead | internal/agent/service/service.go:333-391 | the first save after a logout is a login under the same ID, or an update that had read the session before the logout |
| Overlaps.RecalledAgainExactly | internal/agent/service/service.go:158-165 | in every run, after a callback has found its state another finds it too if and only if its read precedes every deletion and the PKCE TTL |
| Overlaps.FoundIsExchanged | internal/agent/service/service.go:165-167 | a callback that has found its state goes on to exchange the code, whatever others do |
| Overlaps.PresentedAgainExactly | internal/agent/service/service.go:282-333 | in every run, two refreshes of a session present the same refresh token if and only if the records they read go back, through the records that the updates in between had read, to the same answer of the provider or to answers with the same token |
| Overlaps.PresentedHasOrigin | internal/agent/service/service.go:282-316 | the token presented is the one in the answer that a login or refresh of that session took in before |
| Overlaps.CurrentPresentsLatest | internal/agent/service/service.go:282-333 | in any run in which no update rests on a record that was replaced meanwhile, a refresh presents the token of the last login or refresh that brought one |
| Overlaps.SameTokenExactly | internal/agent/service/service.go:282-333 | the special case of two refreshes with no save but the first one's, and no deletion, between their reads: the second presents the same token if and only if it read before that save, or the first one's answer had no other refresh token |
| OverlapRuns.RevivalHappens | internal/agent/service/service.go:333-391 | for every configuration, a run from the start in which a session is found after its logout |
| OverlapRuns.TwoExchangesHappen | internal/agent/service/service.go:158-167 | a run in which two callbacks exchange the code of one state |
| OverlapRuns.TokenIsPresentedTwice | internal/agent/service/service.go:282-333 | a run in which two refreshes present the same refresh token although the first brought a new one |
| OverlapRuns.AttachBringsTokenBack | internal/agent/service/service.go:506-516 | a run in which a refresh reads after another one has saved a new refresh token and presents the old one again, because an attachment has written back the record it had read |
| OverlapRuns.TwoHoldersHappen | internal/store/redis/redis.go:176-195 | a run in which two workers hold the lock of a session, both having just obtained it |
| OverlapRuns.StaleClaimsHappen | internal/agent/service/service.go:319-331 | a run that ends with an ID token stored that is not the one the stored claims come from |
| OneWorker.RefreshIsServed | internal/agent/service/service.go:282-349 | the steps of one refreshing worker have the effect on the tables that the code's calls have, release included |
| OneWorker.LoginEndIsServed | internal/agent/service/service.go:158-216 | likewise for a callback |
| OneWorker.OperationIsServed | internal/agent/service/service.go:78-516 | likewise for every operation, and the worker is idle again after at most five calls |
| AgentService.Service.LoginStart | internal/agent/service/service.go:98-142 | exactly when nothing fails, stores the state, verifier, nonce, S256 challenge and target made from the random bytes and answers with the provider's URL for them |
| AgentService.Service.LoginEnd | internal/agent/service/service.go:145-235 | leaves the tables as the machine's worker does; a state not found, a failed exchange or an ID token not accepted gives the error redirect, a session that cannot be made or stored an error; everything else gives a cookie that encodes an ID under which the store then holds the session with the tokens of the answer and the claims of the accepted token, and the state is gone |
| AgentService.LoginEndLeaves | internal/agent/service/service.go:158-216 | the entry of the new session field by field, its expiry, and the deleted state, in terms of what the provider answered |
| AgentService.Service.MakeSession | internal/agent/service/service.go:186-209 | the session has the tokens of the answer, its lifetime or a day, the subject and roles of the principal as claims and every other claim as it was |
| AgentService.Service.Refresh | internal/agent/service/service.go:270-350 | leaves the tables as the machine's worker does; a record with expiresAt > now + refreshEarly is left alone, with everything else; it is refreshed if and only if expiresAt <= now + refreshEarly, the lock is free and every call works, and then the cookie encodes its ID, the store holds the new tokens under it, and the lock is gone if its release works |
| AgentService.RefreshLeaves | internal/agent/service/service.go:296-349 | the entry of a refreshed session field by field and its expiry, in terms of what the provider answered |
| AgentService.Service.UpdateSession | internal/agent/service/service.go:310-331 | the record Refresh writes, field by field: what the answer does not bring stays, and the claims are those of its ID token exactly when that is verified and names the audience |
| AgentService.Service.CheckOrigin | internal/agent/service/service.go:357-373 | passes exactly the requests without an Origin, with the app's own, or with an Origin or Referer that is an allowed origin or, if there is any allowed origin, a Referer under the app |
| AgentService.Service.Logout | internal/agent/service/service.go:353-406 | after the origin check deletes the session behind the cookie if it is found, so that with working commands none is live under that ID, and always answers with a redirect |
| AgentService.Service.AttachTenantContext | internal/agent/service/service.go:506-516 | the store then holds the record read with its tenant context replaced; every error has its exact condition |
| AgentService.Service.Session | internal/agent/service/service.go:78-95 | the user behind a cookie, or none |
| AgentService.Service.Resolve | internal/agent/service/service.go:476-503 | access token, claims and tenant context behind a cookie, with the three errors told apart |
| BrowserSessions.SignInThenUse | internal/agent/service/service.go:78-235 | a browser that signs in and comes back with its cookie within the TTL is shown the user of the accepted ID token, and Resolve gives the access token of the same answer |
| BrowserSessions.RefreshThenUse | internal/agent/service/service.go:270-350 | after a refresh Resolve gives the new access token to the new cookie |
| BrowserSessions.SignOutThenUse | internal/agent/service/service.go:353-406 | after a logout with working commands the old cookie finds no session |

## Left out

- HTTP servers and handlers, gateway adapters, the reverse proxy, the SDK clients and generated code: plumbing around the modelled core.
- Cryptography and randomness: HMAC, SHA-256, JWT signature checks and random bytes are functions or inputs.
- AES-GCM cookies: almost everything about them rests on the cipher.
- `ValidateRedirect`: an arbitrary function in `AgentService`, since it rests on Go's URL parser.
- The provider's HTTP calls, WASM and Rego execution, and the bundle loader: their answers are inputs.
- JSON text: values are trees, and a hop only turns a Go string list into a generic list. A stored record decodes only as what it was encoded from.
- Non-integral numbers in claims, and numeric dates as `json.Number`.
- float64 rounding, saturation of durations and fractions of a second in session expiry.
- Reconfiguring the limiter in the middle of a run: its theorems fix the configuration. `deriveKey` is a given key.
- The limiter's Health and the trimming and lower-casing of its strategy name: `Configure` takes the trimmed text's meaning.
- `defaultHeaderBuilder` fills a map in place; it is a function on values here.
- Go's order of visiting maps is an arbitrary choice of the next key.
- Factory, State and Error of a registration, and the lookups of all IDs and of one registration.
- The JWKS source's two HTTP requests are one answer, and the end of a fetch and the time it is cached are one moment.
- The post-login webhook, cookies' attributes, tracing, metrics other than cache hits and misses, and logging.
- `IsExpired` and `ExpiresAtTime` of a session: single expressions that no modelled operation calls.
- Configuration parsing, validation and TTL defaults: the TTLs are parameters, of any sign.
- `BrowserSessions` takes the cookie manager as one that decodes its own cookies; `SignedCookie.EncodeThenDecode` proves that on bytes, and session IDs as texts are not tied to them.
- `AgentService`'s methods run one operation at a time; overlapping operations are the subject of `AgentMachine`, to which `OneWorker` relates them.
- ReleaseOrder.GuardedExactly: speaks of every order in which the counters can release plugins. Go's first-in-first-out queue takes only some of these orders, so every run of it can still put plugins in order that are not guarded. For those there is no condition here: whether some order of the roots releases a plugin before its provider is a knapsack problem over edge counts.
- That a refresh token is presented at most once, or that a logout wins against an overlapping refresh: the code ensures neither; `Overlaps` says exactly when.
