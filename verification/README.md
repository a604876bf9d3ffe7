# HTNN: scheduling, translation and bookkeeping, verified

HTNN lets Go plugins run inside Envoy and compiles policies into Envoy
configuration. This project models the parts of it where order, sharing and
repetition matter, and proves what they promise.

**Data plane**

- `Chain`, `ConsumerMerge`, `FastPaths`, `Schedules`, `FilterManager`: the filter
  manager of one HTTP stream. A plugin is an oracle from a callback to the action
  it returns; every callback is logged in a ghost trace. `Chain` says which
  callbacks a chain of plugins is owed (a *plan*); `Cut` of a plan is what is seen
  of it when a plugin replies locally. `FilterManager` is the class that runs
  them, flag by flag and loop by loop; its methods are proved to leave exactly the
  cut of the plan in the trace. `Schedules` then proves what plugins get out of
  the plans. `ConsumerMerge` is the sort that merges a consumer's filters into the
  running chain; `FastPaths` the skip flags and the flags for running on Envoy's
  own thread.
- `RequestService` puts these together: whatever is configured and whoever the
  consumer is, every plugin of the chain that results is served.
- `ManagerPool`: the object pool, over every interleaving of streams and goroutines.
- `ConfigMerge`, `PluginTables`: parsing and merging configurations; registration.
- `ConsumerIndex`, `Limiter`, `Cookies`, `HeaderCache`: the consumer index, the
  fixed-window limiter on Redis, the cookie parser and the caches on the headers.

**Control plane**

- `TriggerIndex`, `GatewayPorts`, `DataPlane`, `PolicyMerge`, `EnvoyFilterNames`,
  `FinalState`: the four stages from policies to EnvoyFilters. A walk over a Go map
  is `AnyOrder`: a list of the keys of which nothing but its members is known.
- `NacosRegistry`: the service registry and the store of service entries.

`Orders` and `Strings` hold what several of these rest on; in particular that a
sorted permutation of distinct elements is unique, and exactly when
ComparePluginOrder is a strict total order.

Configurations, URLs, service entries and listener patches are opaque values.
Reflection, JSON and Protobuf decoding, IDNA, URL parsing, the cluster, Redis
failures and expiry, and the Nacos client are parameters: functions or outcomes
about which nothing is assumed beyond what a lemma's precondition says.

## Where the code departs from what it promises

Each of these is proved as it is, with the exact condition under which the
promise holds.

- A plugin in the authn prefix that returns WaitAllData never gets DecodeRequest;
  the next plugin does, without asking (`Schedules.AuthnWaitIsMisrouted`). All is
  well exactly when no such plugin waits (`Schedules.WaitsHonouredIff`).
- After a consumer merge canSkipEncodeHeaders is derived from canSkipEncodeData,
  so EncodeHeaders of a plugin can be skipped
  (`FastPaths.MergedEncodeHeadersFlagCanLie`, `FastPaths.MergedFlagsAreSoundIff`).
- DecodeHeaders is let through on Envoy's own thread before the consumer is
  known, so a blocking callback of a consumer's filter can run there
  (`Schedules.MergedHeadersCanBlock`): it does exactly when such a filter is
  reached and blocks (`Schedules.InlineDecodeHeadersAfterMergeIff`).
- DecodeTrailers tests canSyncRunDecodeTrailers twice and canSyncRunDecodeData
  never, so a blocking DecodeData may run on Envoy's thread
  (`FastPaths.InlineDecodeTrailersCanBlock`, `FastPaths.InlineDecodeTrailersSoundIff`).
- Streamed response trailers run in chain order, while the plugin developer guide
  (site/content/en/docs/developer-guide/plugin_development.md, lines 99-100)
  says the response order is reversed (`Schedules.StreamedTrailersReversedIff`).
- A buffered response with trailers but without a body never reaches the waiting
  plugin's EncodeResponse (`Schedules.BufferedResponseCompletesIff`).
- Parsing a configuration takes consumerFiltersEndAt from the last consumer
  plugin, merging from the leading run (`ConfigMerge.EndsAgreeIff`); a merge can
  lose the consumer merging altogether (`ConfigMerge.MergeForgetsConsumers`).
- Hosts of a VirtualService share one route table by reference, so policies of a
  VirtualService can show up under a host it does not have
  (`DataPlane.SharingMixesHosts`), depending on the order of a map. That happens
  exactly when some VirtualService is filed both there and with it
  (`DataPlane.ForeignPoliciesIff`); a route keeps its own policies in every order
  exactly when nothing so connected names a route alike
  (`DataPlane.PoliciesRightIff`).
- The comment in Nacos' Reload speaks of unsubscribing with the previous client,
  but the new one is used, which never undoes what was subscribed before
  (`NacosRegistry.ReloadUndoesNothing`); a callback that stays can leave an entry
  behind (`NacosRegistry.StaleCallbackOutlivesStop`). The registry leaves nothing
  behind, whatever the callbacks do, exactly when every service it no longer knows
  at Stop was unsubscribed with each client that subscribed it
  (`NacosRegistry.RegistryLeavesNothingIff`).
- Two limiter configurations can count on the same Redis key if one prefix extends
  the other by "|" and a rule number (`Limiter.ConfigsShareKeysIff`). The bound
  for an interval of a window's length is 2·count - 1, and it is met.
- SetPath goes around the URL cache (`HeaderCache.RequestHeaderMap.SetPath`).

## Model

| member | source | states |
|---|---|---|
| Orders.ComparePluginOrderIsStrictTotalIff | api/pkg/plugins/plugins.go:213-236 | the plugin order is a strict total order on a set of names exactly when no unregistered name straddles two registered ones the other way round |
| Orders.RegisteredNamesAreTotallyOrdered | api/pkg/plugins/plugins.go:213-236 | registered names are strictly and totally ordered |
| Orders.GroupsAndInsertions | api/pkg/plugins/plugins.go:226-235 | groups in the order of positions; InsertFirst leads its group, InsertLast ends it, the rest alphabetically |
| Orders.StrLessIsLexicographic | api/pkg/plugins/plugins.go:235 | strings are compared at the first character where they differ |
| Orders.SortIsCanonical | controller/internal/translation/merged_state.go:374-378 | sorting gives one result, whatever the algorithm and the input order |
| Chain.PlanServesEveryFilter | api/pkg/filtermanager/filtermanager.go:563-649 | in a buffered message every plugin gets headers once, then its whole-body callback with the very body once if it waits, else body and trailers once |
| Chain.PlanHeadersInOrder | api/pkg/filtermanager/filtermanager.go:597-612 | headers reach every plugin exactly once, in chain order, across all segments |
| Chain.PlanBarrier | api/pkg/filtermanager/filtermanager.go:591-649 | no plugin behind a waiting one is called before that one's whole-body callback |
| Chain.WaitingGetsTheBody | api/pkg/filtermanager/filtermanager.go:591-649 | a waiting plugin is handed the whole buffered body, with the trailers in a request and without in a response |
| Chain.CutShape | api/pkg/filtermanager/filtermanager.go:265-298 | a local reply ends the trace: a prefix of the schedule, the reply, nothing more |
| FilterManagers.FilterManager.constructor | api/pkg/filtermanager/config.go:69-83 | a manager from the pool's constructor has no trace of a request and no tables |
| FilterManagers.FilterManager.Reset | api/pkg/filtermanager/filtermanager.go:76-110 | a recycled manager equals a fresh one except for the cached method tables |
| FilterManagers.FilterManager.Arm | api/pkg/filtermanager/filtermanager.go:156-247 | fresh or recycled, the factory derives the same flags and keeps the tables; each flag is set exactly if no configured plugin stands against it |
| FilterManagers.FilterManager.HandleAction | api/pkg/filtermanager/filtermanager.go:265-298 | waiting is recorded only in header phases; only a local reply stops the chain |
| FilterManagers.FilterManager.DecodeRequest | api/pkg/filtermanager/filtermanager.go:563-649 | the nested loop terminates and leaves exactly the rest of the schedule, cut at a reply; who waited gets DecodeRequest with the body |
| FilterManagers.FilterManager.HeadersFrom | api/pkg/filtermanager/filtermanager.go:536-560 | the header loop leaves its schedule and stops at the first waiting plugin of a request with a body |
| FilterManagers.FilterManager.MergeConsumer | api/pkg/filtermanager/filtermanager.go:420-533 | the chain is merged; what becomes of each flag, sound ones staying sound but for canSkipEncodeHeaders |
| FilterManagers.FilterManager.RunDecodeHeaders | api/pkg/filtermanager/filtermanager.go:389-561 | authn prefix on the old chain, the rest on the merged one, where it stopped, and which consumer and flags it leaves |
| FilterManagers.FilterManager.RunDecodeData | api/pkg/filtermanager/filtermanager.go:675-713 | streams to all, buffers, or resumes the chain, as the index says; Envoy is told to buffer exactly in the second case |
| FilterManagers.FilterManager.RunDecodeTrailers | api/pkg/filtermanager/filtermanager.go:739-757 | streams trailers to all or resumes the chain with the buffered body |
| FilterManagers.FilterManager.OnDecodeHeaders | api/pkg/filtermanager/filtermanager.go:354-387 | skipped, inline or in a goroutine; inline means no reachable callback blocks, or, once a consumer joined, exactly that none of its filters does |
| FilterManagers.FilterManager.OnDecodeData | api/pkg/filtermanager/filtermanager.go:651-673 | the dispatch; inline only if nothing blocks, the whole resumed chain included; the status as decodeData has it |
| FilterManagers.FilterManager.OnDecodeTrailers | api/pkg/filtermanager/filtermanager.go:715-737 | the dispatch; inline is safe when streaming, and for a buffered request exactly when nobody who is handed the body blocks |
| FilterManagers.FilterManager.RunRequest | api/pkg/filtermanager/filtermanager.go:354-757 | a whole request leaves the cut of one schedule; with phases skipped, plugins observe the same |
| FilterManagers.FilterManager.EncodeResponse | api/pkg/filtermanager/filtermanager.go:824-904 | the mirror image: exactly the rest of the reversed schedule, the index never moving up; who waited gets EncodeResponse with the body |
| FilterManagers.FilterManager.RunEncodeHeaders | api/pkg/filtermanager/filtermanager.go:789-822 | response headers from the last plugin to the first, stopping at the first that waits for a body; WaitData of any plugin asked is heeded |
| FilterManagers.FilterManager.RunEncodeData | api/pkg/filtermanager/filtermanager.go:930-954 | streams backwards or resumes the response at once |
| FilterManagers.FilterManager.RunEncodeTrailers | api/pkg/filtermanager/filtermanager.go:980-993 | trailers in chain order, and none for a buffered response |
| FilterManagers.FilterManager.OnEncodeHeaders | api/pkg/filtermanager/filtermanager.go:759-787 | inline only if no callback of the response headers, EncodeResponse included, blocks; where it stopped is recorded |
| FilterManagers.FilterManager.OnEncodeData | api/pkg/filtermanager/filtermanager.go:906-928 | inline only if nothing in the resumed response blocks; the next call can be made |
| FilterManagers.FilterManager.OnEncodeTrailers | api/pkg/filtermanager/filtermanager.go:956-978 | inline only if no EncodeTrailers blocks |
| FilterManagers.FilterManager.OnLogPhase | api/pkg/filtermanager/filtermanager.go:995-1015 | every plugin logs once in chain order; skipping hides nothing when the flag is sound |
| FilterManagers.FilterManager.RunResponse | api/pkg/filtermanager/filtermanager.go:759-993 | a whole response leaves the cut of its schedule; with phases skipped, plugins observe the same |
| Schedules.RequestPlanIsOnePlan | api/pkg/filtermanager/filtermanager.go:389-757 | headers, body and trailers, each handled by its own callback, add up to one schedule of the merged chain |
| Schedules.RequestServesEveryFilter | api/pkg/filtermanager/filtermanager.go:389-757 | every plugin, those a consumer brought included, is served once and completely |
| Schedules.RequestOrder | api/pkg/filtermanager/filtermanager.go:389-757 | headers in chain order; nobody behind a waiting plugin runs before its DecodeRequest |
| Schedules.WaitsHonouredIff | api/pkg/filtermanager/filtermanager.go:409-418 | WaitAllData is honoured exactly when no plugin of the authn prefix returns it |
| Schedules.AuthnWaitIsMisrouted | api/pkg/filtermanager/filtermanager.go:409-418 | an authn plugin that waits: its DecodeRequest goes to the plugin after it |
| Schedules.ResponsePlanMirrors | api/pkg/filtermanager/filtermanager.go:789-993 | the response is the request's schedule on the reversed chain, trailers apart |
| Schedules.ResponseServesEveryFilter | api/pkg/filtermanager/filtermanager.go:789-954 | waiting plugins get one EncodeResponse and no EncodeData, the others EncodeData |
| Schedules.BufferedResponseCompletesIff | api/pkg/filtermanager/filtermanager.go:930-993 | a waiting plugin gets EncodeResponse, with the body, exactly when the response has one; else nobody gets anything but headers |
| Schedules.StreamedTrailersReversedIff | api/pkg/filtermanager/filtermanager.go:980-993 | streamed trailers run in the documented reversed order only for a chain of at most one plugin |
| Schedules.InlineRequestHeadersAreSound | api/pkg/filtermanager/filtermanager.go:368-370 | without a merge, inline DecodeHeaders reaches no blocking callback |
| Schedules.HeaderLoopQuietIff | api/pkg/filtermanager/filtermanager.go:536-560 | which callbacks of the header loop are reached: it is non-blocking exactly when none of those blocks |
| Schedules.InlineDecodeHeadersAfterMergeIff | api/pkg/filtermanager/filtermanager.go:368-370 | with a consumer, inline DecodeHeaders is non-blocking exactly when no filter of the consumer that is reached blocks, in DecodeHeaders or in the DecodeRequest of a request without body |
| Schedules.MergedHeadersCanBlock | api/pkg/filtermanager/filtermanager.go:536-556 | a chain and a consumer with sound flags where the blocking DecodeRequest is reached |
| Schedules.InlineResponseHeadersAreSound | api/pkg/filtermanager/filtermanager.go:770-772 | inline EncodeHeaders reaches no blocking callback |
| ConsumerMerge.FilterNames | api/pkg/filtermanager/filtermanager.go:425-441 | the names of the consumer's filters, each once, in any order |
| ConsumerMerge.Merge | api/pkg/filtermanager/filtermanager.go:505-516 | compaction in place, append and sort give a sorted permutation of survivors and consumer filters |
| ConsumerMerge.MergeMembers | api/pkg/filtermanager/filtermanager.go:505-516 | consumer filters replace route filters of the same name; nothing else is lost or added |
| ConsumerMerge.MergeDistinct | api/pkg/filtermanager/filtermanager.go:505-516 | every name occurs once in the merged chain |
| ConsumerMerge.MergeIsCanonical | api/pkg/filtermanager/filtermanager.go:505-516 | the merged chain does not depend on the order of the consumer's map |
| ConsumerMerge.MergeKeepsPrefix | api/pkg/filtermanager/filtermanager.go:409-558 | the filters that already ran keep their places |
| FastPaths.ComputeTables | api/pkg/filtermanager/filtermanager.go:156-225 | a phase is skippable iff no plugin overrides it, inline iff none that overrides it blocks |
| FastPaths.FactoryFlagsAreSound | api/pkg/filtermanager/filtermanager.go:227-247 | the flags derived from the tables are sound |
| FastPaths.FactoryFlagsAreExact | api/pkg/filtermanager/filtermanager.go:227-247 | a phase is skipped, or run inline, exactly when no plugin overrides it, or blocks in it, whole-body callbacks included |
| FastPaths.JoinedFlagsAreExact | api/pkg/filtermanager/filtermanager.go:489-503 | the same for the flags once a consumer's filters joined |
| FastPaths.MergedFlagsAreSoundIff | api/pkg/filtermanager/filtermanager.go:489-503 | after a consumer merge all skip flags are sound, canSkipEncodeHeaders exactly under a condition on the old flags |
| FastPaths.MergedEncodeHeadersFlagCanLie | api/pkg/filtermanager/filtermanager.go:492 | a well-formed chain with a consumer plugin, and a consumer, after which an overridden EncodeHeaders would be skipped |
| FastPaths.MergeKeepsFlagsSound | api/pkg/filtermanager/filtermanager.go:489-503 | sound flags stay sound across a merge, canSkipEncodeHeaders apart |
| FastPaths.InlineDataIsSound | api/pkg/filtermanager/filtermanager.go:656-658 | inline data reaches no blocking callback, the whole buffered loop included |
| FastPaths.InlineHeadersAreSound | api/pkg/filtermanager/filtermanager.go:240-245 | inline headers reach no blocking callback, header-only messages included |
| FastPaths.InlineEncodeTrailersIsSound | api/pkg/filtermanager/filtermanager.go:961-963 | inline response trailers reach no blocking callback |
| FastPaths.InlineDecodeTrailersSoundIff | api/pkg/filtermanager/filtermanager.go:720-722 | inline request trailers are non-blocking exactly when nobody who is handed the body blocks |
| FastPaths.InlineDecodeTrailersNeedsDataFlag | api/pkg/filtermanager/filtermanager.go:720-722 | with the missing test the gate would be sound |
| FastPaths.InlineDecodeTrailersCanBlock | api/pkg/filtermanager/filtermanager.go:720-722 | a chain whose flags, as the factory derives them, let a blocking DecodeData run inline |
| FastPaths.InlineDecodeStreamedTrailersAreSound | api/pkg/filtermanager/filtermanager.go:720-722 | streamed request trailers run inline only if none blocks |
| FastPaths.ResumeServesEveryFilter | api/pkg/filtermanager/filtermanager.go:563-649 | what each plugin gets when a buffered message is resumed |
| FastPaths.SkippingMeansNobodyWaits | api/pkg/filtermanager/filtermanager.go:227-238 | if a phase is skippable nobody can be waiting for the whole message |
| FastPaths.SkippingBodyRefines | api/pkg/filtermanager/filtermanager.go:227-238 | skipping data or trailers of a streamed message: the full run would show nothing and finish |
| FastPaths.SkippingHeadersRefines | api/pkg/filtermanager/filtermanager.go:227-238 | skipping headers: the full run would show nothing and finish |
| RequestService.MergedChainIsServed | api/pkg/filtermanager/filtermanager.go:389-757 | on a configured chain, merged with a consumer's filters or not, every plugin is called for exactly what it is owed |
| RequestService.Serve | api/pkg/filtermanager/filtermanager.go:354-757 | a request through the dispatch: unless a plugin replies, the trace serves every plugin of the final chain |
| ManagerPool.OnLogSeesEveryGoroutine | api/pkg/filtermanager/filtermanager.go:1017-1023 | in every reachable state the counter equals the goroutines that hold the manager; OnLog sees zero exactly when there are none |
| ManagerPool.RequestsNeverShare | api/pkg/filtermanager/filtermanager.go:148-154 | two requests never own the same manager |
| ManagerPool.PooledMeansFree | api/pkg/filtermanager/filtermanager.go:1017-1023 | a pooled manager is held by no goroutine and no request, and pooled once |
| ManagerPool.ManagerComesBackIff | api/pkg/filtermanager/filtermanager.go:1017-1023 | a finished request gives its manager back, clean and ready for reuse, exactly when no goroutine holds it |
| ManagerPool.SkippedLogKeepsManager | api/pkg/filtermanager/filtermanager_latest.go:27-32 | if OnLog is skipped the manager is never given back |
| ManagerPool.GoroutineOutlivesRequest | api/pkg/filtermanager/filtermanager.go:1017-1019 | a run in which that happens: the goroutine is still at work when the request ends |
| ManagerPool.LateGoroutineMeetsNobody | api/pkg/filtermanager/filtermanager.go:374-384 | until a goroutine exits, its manager is handed to no other request |
| ManagerPool.StepKeepsInv | api/pkg/filtermanager/filtermanager.go:112-122 | every step of every stream and goroutine keeps the pool invariant |
| ConfigMerge.Merge | api/pkg/filtermanager/config.go:89-154 | the merge loops compute the left-biased union, sorted, with the recomputed fields |
| ConfigMerge.MergeIsLeftBiasedUnion | api/pkg/filtermanager/config.go:108-135 | everything of the receiver, of the other only new names, each once |
| ConfigMerge.MergeIsInPluginOrder | api/pkg/filtermanager/config.go:130-135 | the merged list is strictly in plugin order |
| ConfigMerge.MergeIsAssociative | api/pkg/filtermanager/config.go:89-154 | merging is associative in every field |
| ConfigMerge.Parse | api/pkg/filtermanager/config.go:208-277 | known plugins in order, failures replaced or fatal, and the computed fields |
| ConfigMerge.KnownPluginsStay | api/pkg/filtermanager/config.go:217-270 | every known plugin keeps its place: with its configuration if accepted, as a stand-in if rejected |
| ConfigMerge.EndsAgreeIff | api/pkg/filtermanager/config.go:136-145 | both definitions of consumerFiltersEndAt agree exactly when consumer plugins lead the list |
| ConfigMerge.MergeForgetsConsumers | api/pkg/filtermanager/config.go:136-145 | a merge after which consumer filters are never merged |
| ConfigMerge.PrefixEndsAtAuthn | api/pkg/filtermanager/config.go:241-244 | under either definition the prefix ends with a plugin at Authn |
| ConfigMerge.MergeParentChild | api/pkg/filtermanager/config.go:279-294 | an empty parent changes nothing, otherwise the child wins |
| ConfigMerge.ShortcutIsMergeIff | api/pkg/filtermanager/config.go:289-294 | when the shortcut for an empty parent is a merge |
| PluginTables.PluginTable.RegisterPlugin | api/pkg/plugins/plugins.go:95-132 | a plugin is accepted exactly when its position is allowed, and which panic it is otherwise; a rejected one changes neither table |
| PluginTables.PluginTable.RegisterPluginType | api/pkg/plugins/plugins.go:70-79 | the tables stay consistent exactly when a loaded plugin's order is not overridden |
| PluginTables.PluginTable.DisablePlugin | api/pkg/plugins/plugins.go:147-150 | a plugin leaves both tables, which stay consistent |
| PluginTables.ConsumersAtAuthn | api/pkg/plugins/plugins.go:120-124 | consumer plugins are at Authn in the order chains are sorted by |
| Limiter.Redis.EvalSingle | plugins/plugins/limitcountredis/filter.go:81-93 | the single-key script: a fresh key expires one window later, any other keeps its time and loses one |
| Limiter.Redis.Eval | plugins/plugins/limitcountredis/filter.go:65-79 | the multi-key script counts every rule once on the state before the request |
| Limiter.RuleReplies | plugins/plugins/limitcountredis/filter.go:65-79 | what each rule answers and leaves under its key: count - 1 and the whole window if the key is new or gone, else one less and the time left |
| Limiter.Redis.EvalSome | plugins/plugins/limitcountredis/filter.go:132-140 | a pipeline that fails has run the scripts of some rules |
| Limiter.LimitFilter.DecodeHeaders | plugins/plugins/limitcountredis/filter.go:110-176 | a request passes exactly when no rule is overdrawn; all rules are counted; a failure, which may have counted some, is treated as configured |
| Limiter.LimitFilter.EncodeHeaders | plugins/plugins/limitcountredis/filter.go:178-211 | the quota headers are those of the first tightest rule, never the initial minimum |
| Limiter.WindowLaw | plugins/plugins/limitcountredis/filter.go:81-93 | the k-th request of a window is left with count - k, and the window ends `window` seconds after it was opened |
| Limiter.WindowsApart | plugins/plugins/limitcountredis/filter.go:81-93 | a call after the window's end opens a new one, and none before does |
| Limiter.TtlIsTimeLeft | plugins/plugins/limitcountredis/filter.go:81-93 | the reset time is the time left, to within half a second |
| Limiter.WindowAdmits | plugins/plugins/limitcountredis/filter.go:157-173 | inside a window exactly the first count requests pass |
| Limiter.IntervalBound | plugins/plugins/limitcountredis/filter.go:81-93 | at most 2·count - 1 pass in any half-open interval of `window` seconds |
| Limiter.IntervalBoundIsTight | plugins/plugins/limitcountredis/filter.go:81-93 | for every rule some run meets that bound |
| Limiter.RedisKeyInjective | plugins/plugins/limitcountredis/config.go:109-118 | different (rule, key) pairs of a configuration never share a Redis key |
| Limiter.ConfigsShareKeysIff | plugins/plugins/limitcountredis/config.go:106-118 | when two prefixes can share a key |
| Limiter.KeysAreIndependent | plugins/plugins/limitcountredis/filter.go:110-155 | over any run of requests each Redis key lives the life of the calls made on it |
| Limiter.RunBound | plugins/plugins/limitcountredis/filter.go:110-176 | over any run, at most 2·count - 1 requests with one key are admitted in any interval of `window` seconds |
| Limiter.HitsAreIndependent | plugins/plugins/limitcountredis/filter.go:122-140 | with scripts of different requests and rules interleaved at will, each Redis key lives the life of its own calls |
| Limiter.HitBound | plugins/plugins/limitcountredis/filter.go:81-140 | the same bound script by script, for pipelines that interleave or fail halfway |
| Limiter.RemainBelowCount | plugins/plugins/limitcountredis/filter.go:189-203 | every remainder is below its rule's count, so the minimum is always found |
| NacosRegistry.ServiceEntryStore.Update | controller/internal/registry/store.go:45-64 | equal entries are ignored; the last snapshot is the content; consecutive snapshots differ |
| NacosRegistry.ServiceEntryStore.Delete | controller/internal/registry/store.go:66-77 | as Update, for deletions |
| NacosRegistry.Nacos.Callback | controller/registries/nacos/config.go:98-124 | an update is delivered unless the registry was stopped, a deletion always |
| NacosRegistry.Nacos.Start | controller/registries/nacos/config.go:169-195 | exactly the subscribed services are watched; only they are heard |
| NacosRegistry.Nacos.Refresh | controller/registries/nacos/config.go:233-267 | new services subscribed, lost ones unsubscribed and soft-deleted, whatever fails; no entry goes unless a callback empties it |
| NacosRegistry.Nacos.Reload | controller/registries/nacos/config.go:287-336 | unsubscribes and subscribes with the new client; exactly the services no longer fetched are dropped, any other entry stays unless a callback empties it |
| NacosRegistry.Nacos.Stop | controller/registries/nacos/config.go:269-285 | exactly the known services are dropped, nothing is added or changed; nothing is left if all that calls back is known |
| NacosRegistry.Nacos.Lifetime | controller/registries/nacos/config.go:169-336 | over any life, with failing calls, callbacks between all steps and late refreshes, the store ends with what Stop leaves of its history, callbacks that empty an entry apart |
| NacosRegistry.EntriesStay | controller/registries/nacos/config.go:233-336 | an entry stays unless a callback empties it or the registry drops it |
| NacosRegistry.EntriesWithin | controller/registries/nacos/config.go:98-124 | an entry is an old one not dropped, or was brought by a callback while the registry ran |
| NacosRegistry.NothingLeftIff | controller/registries/nacos/config.go:169-336 | Stop leaves nothing of any possible history exactly when all that calls back is accounted for |
| NacosRegistry.LiveIff | controller/registries/nacos/config.go:233-330 | a subscription calls back exactly if it was made, and not undone since with its own client |
| NacosRegistry.RegistryLeavesNothingIff | controller/registries/nacos/config.go:169-336 | Stop leaves nothing of any possible history exactly when each service dropped was unsubscribed with each client that had subscribed it |
| NacosRegistry.ReloadUndoesNothing | controller/registries/nacos/config.go:299-323 | what was subscribed before a Reload calls back for ever |
| NacosRegistry.StaleCallbackOutlivesStop | controller/registries/nacos/config.go:287-336 | a run that leaves an entry behind although no call fails |
| NacosRegistry.RefreshesAreAccounted | controller/registries/nacos/config.go:233-267 | without a Reload everything is accounted for, so nothing is left |
| NacosRegistry.SameKeyIff | controller/registries/nacos/config.go:91-96 | two namespaces give a service one key exactly when they differ only in case or in "_" for "-" |
| NacosRegistry.KeySpelled | controller/registries/nacos/config.go:91-96 | the key, character by character |
| ConsumerIndex.ConsumerManager.UpdateConsumers | api/internal/consumer/consumer_manager.go:32-103 | for every name: gone if no longer mentioned, kept if its generation is the same, else what its data parse to; both indexes agree |
| ConsumerIndex.ConsumerManager.ConfiguredIsFound | api/internal/consumer/consumer_manager.go:43-101 | every key that an update configures for a plugin is found afterwards, with a consumer that uses it there |
| ConsumerIndex.ConsumerManager.LookupConsumer | api/internal/consumer/consumer_manager.go:106-120 | finds only consumers of the namespace with that key for that plugin, and one whenever there is one |
| ConsumerIndex.IndexNamespace | api/internal/consumer/consumer_manager.go:43-74 | the loop over a namespace computes the incremental index |
| ConsumerIndex.BuildScope | api/internal/consumer/consumer_manager.go:81-101 | every configured (plugin, key) is found, and belongs to the first consumer met that uses it |
| ConsumerIndex.IncrementalIsRebuild | api/internal/consumer/consumer_manager.go:37-76 | after any history a namespace's index is a rebuild from the last update that mentions it |
| ConsumerIndex.ReuseIsRightIff | api/internal/consumer/consumer_manager.go:48-73 | keeping a consumer is right exactly when parsing it again would give it |
| ConsumerIndex.AbsentNamespaceStays | api/internal/consumer/consumer_manager.go:37-76 | a namespace missing from an update is never dropped |
| PolicyMerge.PolicyOrderIsTotalIff | controller/internal/translation/merged_state.go:72-83 | the policy sort is an order exactly when scope, age and name tell policies apart |
| PolicyMerge.NsNameInjective | controller/internal/translation/merged_state.go:63-65 | namespace/name identifies a policy |
| PolicyMerge.ToMergedPolicy | controller/internal/translation/merged_state.go:309-351 | every configured plugin is there; with distinguishable policies each as its winner has it, Info exactly the winners by namespace/name sorted, plugins in order |
| PolicyMerge.ToPlugins | controller/internal/translation/merged_state.go:359-378 | one entry per plugin, sorted |
| PolicyMerge.WinnerOutranksEveryRival | controller/internal/translation/merged_state.go:67-83 | the more specific policy wins, then the older, then the first by name |
| PolicyMerge.WinnerIsUnique | controller/internal/translation/merged_state.go:67-83 | a plugin has one winner |
| PolicyMerge.SameWinnersSameOutcome | controller/internal/translation/merged_state.go:309-351 | the outcome does not depend on the order of policies or maps |
| PolicyMerge.OutrankedPolicyChangesNothing | controller/internal/translation/merged_state.go:320-334 | a policy outranked for each of its plugins leaves no trace |
| EnvoyFilterNames.SplitJoin | controller/internal/translation/final_state.go:49-52 | joining and splitting host and port round-trips |
| EnvoyFilterNames.HostsAreNamed | controller/internal/translation/final_state.go:49-76 | the name of a host's EnvoyFilter: its domain, "-" for a leading "*.", or else namespace and name of its source |
| EnvoyFilterNames.ValidNameMatches | controller/internal/translation/final_state.go:36 | the names accepted are those of the regular expression |
| EnvoyFilterNames.PortsShareAName | controller/internal/translation/final_state.go:49-76 | a host's ports share one EnvoyFilter; "*" has one for each port, and different ports different ones |
| EnvoyFilterNames.ListenersAreNamed | controller/internal/translation/final_state.go:78-82 | the name of a listener's EnvoyFilter, character by character |
| EnvoyFilterNames.LdsNamesDoNotCollide | controller/internal/translation/final_state.go:78-82 | listeners on IP addresses never share an EnvoyFilter name |
| EnvoyFilterNames.LdsNamesCanCollide | controller/internal/translation/final_state.go:78-82 | beyond addresses they can |
| EnvoyFilterNames.NamesApart | controller/internal/translation/final_state.go:49-82 | route, listener and default EnvoyFilters have different names |
| FinalState.MergeInfo | controller/internal/translation/translation.go:41-50 | the binary-search insert keeps a sorted, duplicate-free union |
| FinalState.Generate | controller/internal/translation/final_state.go:101-146 | every route and every listener once |
| FinalState.ToFinalState | controller/internal/translation/final_state.go:94-202 | nothing lost, nothing invented, defaults untouched, whatever the map order |
| FinalState.EveryRouteHasItsPatch | controller/internal/translation/final_state.go:101-121 | each route of each host has exactly one patch, with its merged configuration, in the EnvoyFilter named after the host |
| FinalState.EveryListenerHasItsPatches | controller/internal/translation/final_state.go:123-146 | each listener's patches are in its EnvoyFilter in one piece and order |
| FinalState.NothingIsInvented | controller/internal/translation/final_state.go:101-170 | every EnvoyFilter and every patch in it comes from a route or listener that goes there |
| FinalState.InfoNamesThePolicies | controller/internal/translation/final_state.go:158-176 | the info names exactly the policies behind its routes and listeners, sorted |
| FinalState.RoutePatchesSorted | controller/internal/translation/final_state.go:181-193 | route patches are strictly ordered by virtual host, then route |
| FinalState.RoutePatchesOrdered | controller/internal/translation/final_state.go:181-193 | (vhost, route) orders the patches of an EnvoyFilter totally |
| FinalState.FinalStateIsCanonical | controller/internal/translation/final_state.go:94-202 | the result does not depend on any map order |
| FinalState.FinalStatesAgree | controller/internal/translation/final_state.go:94-202 | without any condition: same EnvoyFilters, infos and patches; in the same order unless two listeners are renamed to one |
| FinalState.AddressesDoNotCollide | controller/internal/translation/final_state.go:123-145 | with listeners on IP addresses that holds without further condition |
| DataPlane.HostMatchIffCommonName | controller/internal/translation/data_plane_state.go:59-81 | two patterns match exactly when some host name is covered by both |
| DataPlane.PatternsStandFor | controller/internal/translation/data_plane_state.go:59-81 | "*" and a suffix stand for the names with that suffix, any other pattern for itself |
| DataPlane.HostMatchSymmetric | controller/internal/translation/data_plane_state.go:63-81 | matching is symmetric |
| DataPlane.BuildVirtualHosts | controller/internal/translation/data_plane_state.go:83-108 | exactly the virtual hosts of overlapping server hosts |
| DataPlane.VirtualHostsSayWhere | controller/internal/translation/data_plane_state.go:83-108 | gateway, section and "host:port" of each of them |
| DataPlane.AddVirtualHostToProxy | controller/internal/translation/data_plane_state.go:182-209 | a host met again has the routes copied into its shared table |
| DataPlane.ToHosts | controller/internal/translation/data_plane_state.go:263-293 | exactly the overlapping hosts are filed, each ends with every policy-bearing route, in whatever order the walk goes |
| DataPlane.CommonNamesAreServed | controller/internal/translation/data_plane_state.go:263-293 | wherever host and server host have a name in common the routes are there |
| DataPlane.WalkIsSound | controller/internal/translation/data_plane_state.go:182-209 | an entry under a host comes from a VirtualService that has the route, and that shares a host with the one that filed it first |
| DataPlane.ForeignPoliciesIff | controller/internal/translation/data_plane_state.go:195-208 | policies appear under a foreign host, in some order, exactly when a third VirtualService is filed there and with theirs |
| DataPlane.PoliciesRightIff | controller/internal/translation/data_plane_state.go:195-208 | a route has its own policies in every order exactly when no other VirtualService naming it is filed there, or beside one that is |
| DataPlane.UniqueNamesGetTheirPolicies | controller/internal/translation/data_plane_state.go:195-203 | in particular with unique route names |
| DataPlane.SharingMixesHosts | controller/internal/translation/data_plane_state.go:195-208 | three VirtualServices on one gateway where a host ends, in some order, with the policies of one that does not have it |
| GatewayPorts.InitState.AddPolicyForGateway | controller/internal/translation/init_state.go:277-315 | the state is that of all sections added so far |
| GatewayPorts.InitState.AddPolicyForIstioGateway | controller/internal/translation/init_state.go:195-235 | every server the policy aims at is added, in order |
| GatewayPorts.PoliciesReachTheirServers | controller/internal/translation/init_state.go:201-233 | a policy for a section reaches the server of that name alone, at port scope; any other every server, at gateway scope |
| GatewayPorts.AlwaysWellOwned | controller/internal/translation/init_state.go:277-315 | in every reachable state each stored port leads back to its section |
| GatewayPorts.PortsNeverShared | controller/internal/translation/init_state.go:278-291 | no two sections of a namespace have the same bind, port and protocol stored |
| GatewayPorts.OwnersStay | controller/internal/translation/init_state.go:280-293 | an owner never changes |
| GatewayPorts.OwnerIsFirst | controller/internal/translation/init_state.go:280-293 | the owner is the first section seen with the port |
| GatewayPorts.SectionsKeepTheirPolicies | controller/internal/translation/init_state.go:302-314 | a section collects, in order, exactly the policies for ports it owns |
| GatewayPorts.ToListeners | controller/internal/translation/data_plane_state.go:226-261 | each listener name has one gateway, a policy-bearing one if there is any |
| GatewayPorts.PoliciesReachAListener | controller/internal/translation/data_plane_state.go:353-360 | policies reach a listener with a non-empty list, its own unless another policy-bearing section has the same address |
| GatewayPorts.SameListenerIff | controller/internal/translation/data_plane_state.go:211-224 | two ports fall on one listener exactly if namespace, bind address (wildcards spelled out) and number agree |
| GatewayPorts.HttpListeners | controller/internal/translation/data_plane_state.go:249-252 | a listener has an HTTP connection manager exactly if its port speaks HTTP |
| GatewayPorts.ListenersIgnoreTheProtocol | controller/internal/translation/data_plane_state.go:211-224 | sections that differ only in protocol own their ports and share a listener |
| TriggerIndex.ResolveWithVirtualService | controller/internal/controller/filterpolicy_controller.go:219-288 | the cached path, the lookup loop and its errors |
| TriggerIndex.IndexIsComplete | controller/internal/controller/filterpolicy_controller.go:526-692 | every same-namespace gateway of a recorded VirtualService has a non-empty entry |
| TriggerIndex.EntriesListPolicies | controller/internal/controller/filterpolicy_controller.go:225-256 | the entry of a gateway lists exactly the policies that depend on it (behind a cached VirtualService: on its valid gateways) |
| TriggerIndex.RecordedAreValid | controller/internal/controller/filterpolicy_controller.go:235-271 | the gateways recorded with a VirtualService are exactly its valid ones of the same namespace |
| TriggerIndex.Reconciler.PolicyToTranslationState | controller/internal/controller/filterpolicy_controller.go:526-692 | the gateway index is swapped only on success |
| TriggerIndex.IndexedIffDependedOn | controller/internal/controller/filterpolicy_controller.go:526-692 | on a snapshot a gateway is indexed exactly when some policy targets it, or a VirtualService that names it |
| TriggerIndex.Reconciler.NeedReconcile | controller/internal/controller/filterpolicy_controller.go:743-790 | after a pass, a change of a gateway triggers exactly when some policy of that pass depends on it, valid or not, or all gateways matter |
| TriggerIndex.Reconciler.GatewayChangeIsNoticed | controller/internal/controller/filterpolicy_controller.go:743-790 | a gateway that appears or becomes valid is noticed |
| TriggerIndex.EveryTargetIsIndexed | controller/internal/controller/filterpolicy_controller.go:533-553 | every policy is listed under the VirtualService it targets, resolved or not |
| TriggerIndex.CachedEqualsRecomputed | controller/internal/controller/filterpolicy_controller.go:225-265 | on a fixed snapshot the kept gateways are those a lookup would give |
| TriggerIndex.CachedPathIsFaithful | controller/internal/controller/filterpolicy_controller.go:225-265 | so the cached path comes to the same verdict |
| Cookies.ParseCookieValue | api/internal/cookie/cookie.go:36-47 | quotes stripped, every byte checked |
| Cookies.TokensAreNoDelimiters | api/internal/cookie/cookie.go:21-30 | name characters are the visible ones that are no delimiters |
| Cookies.ValueBytesAreCookieOctets | api/internal/cookie/cookie.go:32-34 | value bytes are the cookie-octets, blank and comma |
| Cookies.ParseCookies | api/internal/cookie/cookie.go:49-79 | the loops terminate and yield the valid cookies in order |
| Cookies.RoundTrip | api/internal/cookie/cookie.go:25-79 | printing any list of valid cookies, with or without quotes, joined by ";" or "; ", parses back to the list |
| Cookies.ParsedIsValid | api/internal/cookie/cookie.go:25-79 | whatever the header holds, only valid cookies come out |
| Cookies.Normalised | api/internal/cookie/cookie.go:49-79 | printing what was parsed and parsing again changes nothing |
| HeaderCache.LastWinsIsLast | api/pkg/filtermanager/api_impl.go:97-104 | the cookie map holds the last cookie of each name |
| HeaderCache.RequestHeaderMap.Set | api/pkg/filtermanager/api_impl.go:53-59 | the header is replaced and the caches stay right |
| HeaderCache.RequestHeaderMap.Add | api/pkg/filtermanager/api_impl.go:61-67 | the header is extended and the caches stay right |
| HeaderCache.RequestHeaderMap.Del | api/pkg/filtermanager/api_impl.go:69-75 | the header is removed and the caches stay right |
| HeaderCache.RequestHeaderMap.URL | api/pkg/filtermanager/api_impl.go:77-90 | always what parsing the current path gives |
| HeaderCache.RequestHeaderMap.GetCookie | api/pkg/filtermanager/api_impl.go:93-105 | always the last cookie of that name in the current header |
| HeaderCache.RequestHeaderMap.SetPath | api/pkg/filtermanager/api_impl.go:35-51 | the URL stays right exactly when it was not cached or parses alike |

## Left out

- The Envoy C API, the formatting of local replies, logging, debug mode and wall-clock timing; a local reply is one event in the trace.
- FilterManagers.FilterManager.RunDecodeHeaders: failing plugin initialisation (a 500 before any callback) and the internal-error factory's own filter.
- FilterManagers.FilterManager.Reset: the callback handler's caches, the header maps, rspBuf and the goroutine counter are not fields here; the counter is in `ManagerPool`.
- Panics inside plugins and their recovery.
- ManagerPool.StepKeepsInv: Envoy is taken to call nothing on a stream after its OnLog.
- PolicyMerge.ToMergedPolicy: names the winner only if scope, age and name tell the policies apart, because the sort leaves the order of the others open; creation times are compared as instants, and the translation of plugin configurations into Envoy's is not part of this model.
- FinalState.FinalStateIsCanonical: requires that no two listeners of a proxy are renamed alike, which holds for IP addresses; `FinalState.FinalStatesAgree` covers a collision, where the merged patches agree up to order.
- FinalState.ToFinalState: Info and the EnvoyFilters are values here; that Merge updates a shared Info in place is not captured. The body of a patch is opaque.
- DataPlane.ToHosts: HTTPRoutes (parentRefs, allowed routes, listener hostnames) only add further hosts and are left out; route tables shared by reference are modelled as tables that hosts name.
- TriggerIndex.Reconciler.PolicyToTranslationState: HTTPRoutes follow the same pattern and are left out; policies embedded in annotations are further steps at the end, and their entries in the VirtualService index are not modelled.
- GatewayPorts.InitState.AddPolicyForIstioGateway: protocols are taken as already normalised.
- NacosRegistry.Nacos.Reload: assumes the Nacos namespace does not change, since keys are computed with the new client's; an update already past its check of `stopped` when Stop begins is not split in two, and snapshots are values although the store publishes its live map.
- ConsumerIndex.IncrementalIsRebuild: assumes that a consumer's generation determines its content.
- Limiter.IntervalBound: counters are unbounded integers; Redis' 64-bit overflow error and the exact instant of expiry are not modelled (at that instant a key may be there or not).
- Limiter.LimitFilter.EncodeHeaders: the policy text in the x-ratelimit-limit header; Init's compilation of key expressions.
- Consul's registry, the other plugins, the linter and the translators of the web site: nothing here rests on them.
