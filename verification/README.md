# Torana gateway: verified model

Torana is an AI gateway: nodes receive their configuration from a control plane, route and filter
requests, meter tokens, run Wasm plugins and ship audit events. This project models the protocols
and accounting at its core in Dafny and proves what they keep.

| file | models |
|---|---|
| `Control.dfy`, `ControlHistory.dfy` | the control-plane client: snapshots, deltas, Acks and Nacks, restarts from a bundle or the last-known-good file, against a published history |
| `Router.dfy`, `RouteOrder.dfy`, `DeltaOrder.dfy` | the compiled router, and when the route order that deltas lose matters |
| `WeightedSplit.dfy`, `SharedCounter.dfy` | counter-driven traffic splits, alone and with several routes on one counter |
| `TokenBucket.dfy`, `LimitKeys.dfy`, `Ledger.dfy`, `LedgerRuns.dfy`, `LedgerBounds.dfy`, `LedgerRefusals.dfy`, `LongMonth.dfy`, `RedisLedger.dfy` | request-rate buckets, budget keys and windows, the two-stage token ledger in memory and in Redis |
| `WasmPool.dfy`, `Plugins.dfy` | the Wasm instance pool; install, canary and roll-back of plugins |
| `Peers.dfy`, `PeerTraces.dfy`, `PeerRuns.dfy` | version gossip and snapshot pulls between nodes |
| `Breaker.dfy`, `BreakerRaces.dfy`, `BreakerRaces.dfy`, `BreakerReopened.dfy`, `FilterChain.dfy`, `Policy.dfy` | circuit breaker, in sequence and under concurrent callers, phase execution, deny-overrides policy engine |
| `Audit.dfy`, `AuditSpool.dfy`, `Bulkhead.dfy` | audit ring buffer, shipper and disk spool, database bulkhead |
| `Common.dfy`, `Arith.dfy`, `Config.dfy` | sums, division facts, the shared configuration types |

Objects whose methods update fields are classes whose methods are proved against functions or
relations on their state. Goroutine code is a state machine: one step per lock section, atomic
operation or channel operation, in any interleaving; where two of them are one step, "Left out" says
so. Main theorems are about every run of those machines. Clocks, signatures, regular expressions, case
mapping, rule expressions, filter results, consumer and disk success are parameters, so every theorem holds for all of them.

Properties that the code does not have are stated with a run or input that shows it and the exact
condition under which they hold:

- a node can end up with a recorded version that is not the one it serves, because the platform and
  the catch-up worker apply and record without a common lock: it does not exactly when no update
  swallows one to another version (`PeerRuns.OverlapDisagrees`, `PeerRuns.StartComesApart`,
  `PeerRuns.AgreementIff`);
- versions can go back (`PeerRuns.VersionsCanGoBack`, `PeerRuns.StartGoesBack`): they do not exactly when what comes from
  outside comes in order and no update finishes late (`PeerRuns.MonotoneIff`);
- a canary installed over an active canary schedules a reachable filter for closing
  (`Plugins.SafeIff`);
- closing a pool can close the runtime under borrowed instances, also when the borrow counter was zero
  (`WasmPool.ZeroBorrowsNotEnough`): it cannot exactly when no Get is inside as Close begins, which at
  zero borrows leaves one place to look (`WasmPool.CloseSafeIff`, `WasmPool.IdleCloseSafeIff`);
- the proportional split breaks when the 64-bit counter wraps, unless the total weight divides 2^64
  (`WeightedSplit.ProportionalIff`);
- routes matched in turn share one counter, and their splits are proportional exactly when the number
  of routes and the total weight are coprime, and across the wrap when the total also divides 2^64
  (`SharedCounter.AlternatingRoutesStarve`, `SharedCounter.FairInTurnIff`, `SharedCounter.WrapIsUnfair`,
  `SharedCounter.FairForEverIff`);
- a monthly bucket can grant its limit twice (`LongMonth.LongMonthGrantsTwice`): it keeps to it exactly
  when the month is no longer than its counter lives (`LongMonth.KeepsToLimitIff`);
- the retry time of a rate refusal is too short for a call behind the bucket's clock, exactly when its
  lag exceeds what rounding up left (`TokenBucket.LateCallRetriesTooEarly`,
  `TokenBucket.RetryAfterIsExact`); that of a budget refusal is too short for the same counter unless it
  had less than a second left (`Ledger.RetryTooEarly`, `Ledger.RetryFitsIff`);
- budget keys tell callers apart exactly when no part has a colon (`LimitKeys.TellsApartIff`);
- the ledger in memory refuses a request that fits what is kept exactly when what refused calls have
  not yet taken back exceeds the room left (`LedgerRefusals.FittingRequestRefused`,
  `LedgerRefusals.RefusedIff`);
- the Redis ledger refuses a request that fits exactly when pending undos and faults exceed the room
  left (`RedisLedger.OvershootRefusesFittingRequest`, `RedisLedger.RefusedIff`);
- after a fault it can grant its limit twice (`RedisLedger.StraySettlementGrantsTwice`): it cannot
  exactly when the faults so far never add up to less than nothing (`RedisLedger.RobustIff`);
- one call per cooldown no longer holds of an open breaker with n callers: up to n (n + 1) / 2 get
  through within a cooldown, which is reached, and never more (`BreakerReopened.BoundReached`,
  `BreakerRaces.FailingCallsBounded`);
- the spool is truncated whatever the sink answered, so events are lost: none is exactly when every
  batch whose send fails was written and no later truncation succeeds (`AuditSpool.FailedSendLoses`,
  `AuditSpool.NothingLostIff`);
- the audit log of an allowed request passes over a first granting rule that has no id
  (`Policy.LogNamesFirstGrantIff`);
- a delta may change how a request is answered, exactly when two rules can win it
  (`DeltaOrder.DeltaAnswersIff`, `DeltaOrder.DeltaReorders`);
- the checks on snapshots and deltas do not read their content, so an altered snapshot is accepted
  (`ControlHistory.ChecksIgnoreContent`, `ControlHistory.AlteredSnapshotAccepted`); a run stays on
  published configurations exactly when no accepted message or bundle carries another content
  (`ControlHistory.AlwaysConsistentIff`);
- a route timeout beyond 64-bit nanoseconds is not the one sent (`RouteOrder.ServedAsSent`).

The comment above the ring buffer says that the oldest event is dropped on overflow
(internal/observe/audit.go:40-41); the code refuses the new event, and the model follows the code.

## Model

| member | source | states |
|---|---|---|
| `Control.ConvertSnapshot` | internal/control/client.go:604-640 | the built snapshot has the message's version, its routes in order and the last upstream sent under each id; a missing creation time becomes now |
| `Control.ListRoutes` | internal/control/client.go:667-670 | draining a route map in any order yields a list of exactly its routes, each once, that maps back to it |
| `Control.KeepRoutes` | internal/control/client.go:649-654 | the map of a base route list without its deleted ids, the last route of a repeated id winning |
| `Control.UpsertRoutes` | internal/control/client.go:655-665 | upserted routes replace or extend the kept ones |
| `Control.MergeUpstreams` | internal/control/client.go:672-692 | upstreams after a delta are base minus deleted plus upserted |
| `Control.ApplyDelta` | internal/control/client.go:642-700 | the merged snapshot has the target version, and as route and upstream maps base minus deleted plus upserted, with unique route ids; route order is left open |
| `Control.Client.ApplySnapshot` | internal/control/client.go:466-484 | a rejected snapshot changes nothing; an accepted one becomes active, sets version and readiness and, if it can be written, the last-known-good file |
| `Control.Client.HandleSnapshot` | internal/control/client.go:352-391 | refines the snapshot step of the protocol: the first failing check alone decides the Nack |
| `Control.Client.HandleDelta` | internal/control/client.go:393-441 | refines the delta step: namespace, base version and signature are checked in that order, then the merge is adopted |
| `Control.Client.HandleControlMessage` | internal/control/client.go:339-350 | every message type refines its step; a drain command only clears readiness |
| `Control.Client.StartAgain` | internal/control/client.go:98-158 | a restart forgets the active configuration and serves the configuration bundle if it is accepted, else the last-known-good file if it is readable and accepted; it is ready exactly if it serves one |
| `Control.OneAnswer` | internal/control/client.go:352-441 | each snapshot or delta gets exactly one answer; a Nack leaves version, configuration, readiness and file untouched; an Ack means that version is now served |
| `ControlHistory.MergeReachesTarget` | internal/control/client.go:649-692 | deleting then upserting turns one map into another if and only if the delta is a diff of the two |
| `ControlHistory.SmallestDiff` | internal/control/client.go:649-692 | the diff of changed and vanished entries works and is contained in every other one that does |
| `ControlHistory.MergeIsFaithful` | internal/control/client.go:642-700 | a diff delta on a faithful base gives the published configuration of its target version |
| `ControlHistory.StepKeepsConsistency` | internal/control/client.go:352-484 | every delivery and restart keeps the node on the published configuration of its own version |
| `ControlHistory.ServesPublishedConfig` | internal/control/client.go:352-484 | for every schedule with loss, repetition, reordering, stale versions and restarts from file or bundle, the node's maps are the published ones of its version and, with unique ids, its routes the published routes up to order |
| `ControlHistory.AnswersTrackVersion` | internal/control/client.go:486-515 | between restarts there are as many answers as configuration messages, and the last Ack names the node's version |
| `ControlHistory.CatchUpFromAnyState` | internal/control/client.go:352-441 | from any state, a snapshot and the deltas chained on it are all acknowledged and reach their versions |
| `ControlHistory.ChecksIgnoreContent` | internal/control/client.go:352-424 | the namespace, version and signature checks give the same answer for any content under the same versions and signature |
| `ControlHistory.AlteredSnapshotAccepted` | internal/control/client.go:352-391 | under every version and signature that is accepted, a snapshot with altered routes is acknowledged too and takes the node off the published configuration |
| `ControlHistory.AlwaysConsistentIff` | internal/control/client.go:98-484 | over every run from an empty node, all states are on the published configuration of their version if and only if no accepted snapshot, delta or bundle carries another content |
| `Router.PortIgnored` | internal/router/router.go:434-456 | a port on the request's host never changes whether a host pattern fits |
| `Router.FirstOf` | internal/router/router.go:260-294 | the reference search: the first candidate of a tier, and none before it |
| `Router.LongestPrefix` | internal/router/router.go:298-320 | the longest prefix that some prefix route names and the path has |
| `Router.CompiledCriteria` | internal/router/router.go:322-403 | a compiled route with its precompiled regexes accepts exactly the requests its rule accepts |
| `Router.RowSearch` | internal/router/router.go:254-296 | walking a table row finds the first candidate of that tier in the whole route list |
| `Router.FirstAccepting` | internal/router/router.go:260-294 | the row walk stops at the first accepting entry |
| `Router.LongestNode` | internal/router/router.go:298-320 | the best prefix node holds the routes of the longest matching prefix |
| `Router.RouteTable.Compile` | internal/router/router.go:127-235 | after compiling, each table row, prefix node and the regex list hold exactly their routes in list order |
| `Router.RouteTable.AddRoute` | internal/router/router.go:212-231 | adding one route keeps all three tables exact; a regex route may also be a prefix route |
| `Router.RouteTable.AddExactRoute` | internal/router/router.go:212-222 | the route goes to its own method and path and to no other row |
| `Router.RouteTable.AddPrefixRoute` | internal/router/router.go:237-251 | the node list keeps one node per prefix, each with its routes in order |
| `Router.RouteTable.MatchPrefix` | internal/router/router.go:298-320 | the first candidate under the longest matching prefix, without falling back to shorter ones |
| `Router.RouteTable.BuildResult` | internal/router/router.go:405-432 | the chosen target is the one whose cumulative weight range holds the advanced counter; routes without a split leave the counter alone |
| `Router.RouteTable.FindRoute` | internal/router/router.go:254-296 | the table lookup equals the plain scan of the route list: exact method, any method, longest prefix, regex |
| `Router.RouteTable.Match` | internal/router/router.go:254-296 | the answer is the scanned route's result, and the counter moves once and only for a split |
| `RouteOrder.ChosenIsWinner` | internal/router/router.go:254-296 | whatever the order, the chosen rule is a candidate of the first tier that has any |
| `RouteOrder.SameWinners` | internal/router/router.go:254-320 | the rules that can win a request do not depend on the order of the list |
| `RouteOrder.WinnerCanWin` | internal/router/router.go:254-320 | each rule that can win does win under some order |
| `RouteOrder.OrderIrrelevantIff` | internal/control/client.go:667-670 | all orders route a request alike if and only if no two distinct rules can win it |
| `RouteOrder.DistinctKeysOrderIrrelevant` | internal/router/router.go:212-320 | unique method and path, unique prefixes and no regex routes make every order equivalent for every request |
| `RouteOrder.GatewayRoutesAsPublished` | internal/control/client.go:649-670 | end to end: for every delivery schedule the node answers a request as the published route list would, if no two published rules can win it |
| `DeltaOrder.AnyOrderPossible` | internal/control/client.go:667-670 | a delta may leave the published routes in any order |
| `DeltaOrder.DeltaAnswersIff` | internal/control/client.go:642-700 | after a delta a request is sure to be answered as published if and only if no two published rules can win it |
| `DeltaOrder.DeltaReorders` | internal/control/client.go:642-700 | a run of a snapshot and an empty delta after which a request goes to the other route |
| `RouteOrder.ServedAsSent` | internal/router/router.go:405-432 | a control-plane route is served to its own upstream without a split, and its timeout survives the conversion to nanoseconds and back if and only if it fits 64 bits |
| `WeightedSplit.PickedOnOwnRange` | internal/router/router.go:405-419 | the cumulative walk picks a target exactly on its own range of values |
| `WeightedSplit.FullRound` | internal/router/router.go:405-419 | in every W consecutive counter values a target is picked exactly its weight times |
| `WeightedSplit.SplitBounds` | internal/router/router.go:405-419 | over any n counter values a target is picked between floor(n/W) and ceil(n/W) times its weight |
| `WeightedSplit.ProportionalIff` | internal/router/router.go:405-419 | the exact split holds for every start of the 64-bit counter if and only if W divides 2^64 |
| `WeightedSplit.SkewedPool` | internal/router/router.go:405-419 | otherwise a two-target pool loses its proportion at the wrap |
| `SharedCounter.TurnsAreStrides` | internal/router/router.go:405-419 | a route matched in turn with others picks its targets by every s-th counter value |
| `SharedCounter.CoprimeIsFair` | internal/router/router.go:405-419 | a stride coprime to the total weight W picks every target exactly its weight times in W turns |
| `SharedCounter.FairInTurnIff` | internal/router/router.go:122-123 | s splitting routes matched in turn on the one counter get proportional splits of total W if and only if s and W are coprime |
| `SharedCounter.FairForEverIff` | internal/router/router.go:405-419 | from every start of the 64-bit counter, also across its wrap, s routes in turn get proportional splits of total W if and only if s and W are coprime and W divides 2^64 |
| `SharedCounter.WrapIsUnfair` | internal/router/router.go:405-419 | otherwise some target is picked in front of the wrap and again after it within W turns |
| `SharedCounter.UnfairTurn` | internal/router/router.go:122-123 | with a common divisor a target of weight 1 is never picked |
| `SharedCounter.AlternatingRoutesStarve` | internal/router/router.go:405-419 | two alternating routes with even splits each send everything to one target |
| `TokenBucket.RateBucket.constructor` | internal/limits/tokenbucket.go:19-33 | a new bucket is full, with non-positive rate or burst replaced by 1 |
| `TokenBucket.RateBucket.Take` | internal/limits/tokenbucket.go:41-62 | refines refill-then-spend; a denial spends nothing and reports the wait |
| `TokenBucket.AvailableIsLeastAllowance` | internal/limits/tokenbucket.go:41-72 | the tokens at a call are the least of capacity plus refill minus grants over all starting calls |
| `TokenBucket.DeniedIff` | internal/limits/tokenbucket.go:41-72 | a request is denied if and only if, from creation, an earlier call or itself, the grants plus it exceed capacity plus rate times elapsed time; clocks running back are included |
| `TokenBucket.ClockOfOrderedCalls` | internal/limits/tokenbucket.go:64-72 | for calls at non-decreasing times the bucket's clock is the call's own time |
| `TokenBucket.RetryIff` | internal/limits/tokenbucket.go:41-72 | a denied request succeeds a time after its own call if and only if it fits the capacity and that time covers the shortfall and the call's lag behind the bucket's clock |
| `TokenBucket.RetryAfterIsExact` | internal/limits/tokenbucket.go:54-62 | waiting the reported seconds from the call succeeds if and only if the request fits the capacity and rounding up covers the lag; without lag it always suffices; fewer whole seconds never do |
| `TokenBucket.LateCallRetriesTooEarly` | internal/limits/tokenbucket.go:54-72 | a call behind the bucket's clock that is told one second and denied after it |
| `LimitKeys.BuildKeyInjective` | internal/limits/types.go:51-71 | keys of colon-free parts coincide if and only if all parts, window and bucket do, "" and "*" being one part |
| `LimitKeys.RateKeyInjective` | internal/limits/types.go:74-80 | the same for rate-limit keys, which leave out the model |
| `LimitKeys.ColonCollision` | internal/limits/types.go:51-87 | with a colon in a part, different callers share a key |
| `LimitKeys.TellsApartIff` | internal/limits/types.go:51-87 | keys of parts over an alphabet tell callers, windows and buckets apart if and only if the alphabet has no colon |
| `LimitKeys.NeverExpiresInBucketIff` | internal/limits/store.go:102-107 | no counter of a bucket expires inside it if and only if the bucket is no longer than the window's duration |
| `LimitKeys.WindowsAgainstBuckets` | internal/limits/types.go:29-40 | minutes and days meet that condition, months of 31 days do not |
| `Ledger.SharesTogether` | internal/limits/store.go:89-96 | N nodes within their rounded-up shares exceed the limit by less than N |
| `Ledger.ShareWithinLimit` | internal/limits/store.go:89-96 | a node's share never exceeds the limit, at any peer count |
| `Ledger.CounterStore.GetOrCreate` | internal/limits/store.go:176-196 | an existing counter is returned untouched; a missing one starts at zero with a full window |
| `Ledger.CounterStore.Reserve` | internal/limits/store.go:89-134 | charges the amount if and only if it fits the node's share of the current counter; a refusal charges nothing and reports the rest and the time left |
| `Ledger.CounterStore.Reconcile` | internal/limits/store.go:137-154 | corrects the counter of the key alone, never below zero |
| `Ledger.CounterStore.Sync` | internal/limits/store.go:214-227 | removes exactly the expired counters |
| `Ledger.CounterStore.AllowRate` | internal/limits/store.go:156-174 | takes one token from the key's bucket, made full at the first call, and leaves counters and other buckets alone |
| `Ledger.RetryFitsIff` | internal/limits/store.go:110-121 | a refused request comes back to the same counter after the reported seconds with room if and only if it fits a new counter and the old one had less than a second left |
| `Ledger.RetryTooEarly` | internal/limits/limiter.go:108-114 | a spent budget refuses again after the reported seconds |
| `Ledger.FirstRule` | internal/limits/limiter.go:186-217 | the rule of the first dimension that has one, else the default |
| `Ledger.ReserveExtends` | internal/limits/limiter.go:92-137 | reserving one more window charges its key and no other, and the other windows' reservations do not affect whether it fits |
| `Ledger.RollBackShrinks` | internal/limits/limiter.go:100-106 | undoing one window's charge is exact and leaves the others charged |
| `Ledger.Limiter.constructor` | internal/limits/limiter.go:38-64 | a new limiter has the given rules and no reservations; a non-positive lifetime becomes ten minutes |
| `Ledger.Limiter.ReserveBudget` | internal/limits/limiter.go:87-147 | all or nothing: granted if and only if every metered window fits, charging exactly those; a refusal names the first window without room and its waiting time and leaves every charge as it was |
| `Ledger.Limiter.PreCheck` | internal/limits/limiter.go:67-156 | one token of the applicable rate and then the applicable budget: a request over its rate is told when to retry and leaves budgets alone, any other has the all-or-nothing outcome of the first budget rule among model, team and route |
| `Ledger.Limiter.Reconcile` | internal/limits/limiter.go:159-184 | a known reservation is removed and its own buckets are corrected by actual minus reserved; an unknown one changes nothing |
| `Ledger.Limiter.CleanStale` | internal/limits/limiter.go:219-239 | removes exactly the reservations older than the lifetime and refunds nothing |
| `LedgerRuns.ClampIdle` | internal/limits/store.go:137-154 | a correction covered by the call's own share never meets the clamp at zero |
| `LedgerRuns.LookUpKeepsInv` | internal/limits/store.go:176-196 | finding or creating a counter charges nothing, and a counter found for a current bucket stays the store's own |
| `LedgerRuns.CorrectionExactIff` | internal/limits/store.go:137-154 | a correction is recorded exactly if and only if it does not take the counter below zero; for the only call on a key, if and only if its usage is not negative |
| `LedgerRuns.StepKeepsInv` | internal/limits/limiter.go:67-239 | every lock section of every call, finding a counter and charging it being two, and every sweep keep all keys balanced |
| `LedgerRuns.LedgerConserves` | internal/limits/limiter.go:67-239 | in every interleaving, also with sweeps between lookup and charge, while a bucket is current its counter is what is held plus what was settled plus what lapsed |
| `LedgerRuns.KeptWhileCurrent` | internal/limits/store.go:102-107 | after every run, a counter is neither reset nor swept while its bucket is current |
| `LedgerBounds.UsageWithinLimit` | internal/limits/store.go:89-134 | if nobody uses more than reserved, no counter, even one already swept, exceeds the limit at any changing peer count, nor the node's share at a fixed one |
| `LedgerBounds.ClusterWithinLimit` | internal/limits/store.go:89-134 | N nodes with N peers together stay within the limit plus N - 1 |
| `LedgerRefusals.RefusedIff` | internal/limits/store.go:89-134 | after every run an attempt on a current bucket is refused if and only if what is kept, what refused calls have not yet taken back and it exceed the node's share |
| `LedgerRefusals.FittingRequestRefused` | internal/limits/limiter.go:92-106 | a run in which nothing is kept and a request within the limit is refused because another call is still being rolled back |
| `LongMonth.LongMonthGrantsTwice` | internal/limits/types.go:36-59 | for every month longer than its counter lives, a run in which nobody uses more than reserved grants the whole limit at its start and again within it |
| `LongMonth.KeepsToLimitIff` | internal/limits/types.go:36-59 | over every interleaving, what a month's key holds, settled and lapsed stays within the limit while the month is current if and only if the month is no longer than its counter lives |
| `RedisLedger.StoredAccountsFor` | internal/limits/store.go:261-303 | in every interleaving, with failing and stray commands and expiring keys, the stored value is what was given plus what is to be taken back plus the sum of the faults |
| `RedisLedger.RefusedIff` | internal/limits/store.go:261-295 | after every run a request is refused if and only if what was given, the pending undos, the faults and it exceed the limit; a fitting one if and only if undos and faults exceed the room left |
| `RedisLedger.StepKeepsInv` | internal/limits/store.go:261-303 | each command within the limit, failing or not, keeps what was given within it while the store shows at least what was given |
| `RedisLedger.NeverOverGranted` | internal/limits/store.go:261-303 | in every interleaving whose faults never add up to less than nothing the amount really given stays within the limit, and the overshoot is at most undos and faults |
| `RedisLedger.SafeIff` | internal/limits/store.go:261-303 | from a state within the limit every continuation without faults stays within it if and only if the store shows at least what was given |
| `RedisLedger.RobustIff` | internal/limits/store.go:261-303 | a run with faults is safe to go on from at every state if and only if its faults never add up to less than nothing |
| `RedisLedger.StraySettlementGrantsTwice` | internal/limits/store.go:266-303 | a reservation that fell back to the local store and is settled in Redis lets the limit be granted twice |
| `RedisLedger.OvershootRefusesFittingRequest` | internal/limits/store.go:261-295 | such a run: 7 of 10 granted, an undo of 5 pending, and a request of 3 refused |
| `WasmPool.DoStepConserves` | internal/plugins/wasm/pool.go:115-165 | each step of Get and Put passes its instance on; only creation adds one |
| `WasmPool.StepKeepsInv` | internal/plugins/wasm/pool.go:115-199 | every step keeps each instance in exactly one place, faulted ones out of the pool and the borrow counter exact |
| `WasmPool.PoolIsSafe` | internal/plugins/wasm/pool.go:115-199 | in every interleaving no instance is pooled and borrowed, borrowed twice, or closed by the pool while in use, and no faulted one can be lent again |
| `WasmPool.NewPoolInv` | internal/plugins/wasm/pool.go:81-90 | a pre-warmed pool starts with those guarantees |
| `WasmPool.EverythingClosedOnce` | internal/plugins/wasm/pool.go:173-199 | once Close has drained and all calls have finished, the pool is empty and has closed every instance ever created exactly once |
| `WasmPool.BorrowedDeadIff` | internal/plugins/wasm/pool.go:173-199 | a borrowed instance is closed if and only if the runtime has been closed |
| `WasmPool.CloseSafeIff` | internal/plugins/wasm/pool.go:115-199 | after Close begins, borrowed instances stay usable in every continuation if and only if no Get has passed the closed check without its instance returned |
| `WasmPool.IdleCloseSafeIff` | internal/plugins/wasm/manager.go:66-78 | when the borrow counter is zero as Close begins, if and only if no Get is between its closed check and its count |
| `WasmPool.ZeroBorrowsNotEnough` | internal/plugins/wasm/manager.go:66-78 | a run to a state with a zero borrow counter from which Close reaches a borrower |
| `Plugins.CanaryFilter.SetCanary` | internal/plugins/manager/canary.go:70-81 | sets the canary with its percentage clamped to 0..100 and keeps the stable filter |
| `Plugins.CanaryFilter.PromoteCanary` | internal/plugins/manager/canary.go:84-98 | a canary becomes stable; without one nothing changes |
| `Plugins.CanaryFilter.ClearCanary` | internal/plugins/manager/canary.go:101-109 | removes the canary and keeps the stable filter |
| `Plugins.PluginManager.Install` | internal/plugins/manager/manager.go:262-328 | refines the upgrade of one plugin, leaves all others alone and schedules only the filter kept for an older roll-back |
| `Plugins.PluginManager.Rollback` | internal/plugins/manager/manager.go:331-385 | refused without a previous filter; otherwise refines the roll-back of one plugin and schedules the filter it replaces |
| `Plugins.PluginManager.GetFilter` | internal/plugins/manager/manager.go:388-398 | hands out the plugin's split if the plugin is installed |
| `Plugins.GoodIsSafe` | internal/plugins/manager/manager.go:262-398 | the invariant implies that no reachable filter is scheduled for closing |
| `Plugins.StepKeepsGood` | internal/plugins/manager/manager.go:262-385 | every step but a canary over a canary keeps the invariant, and that step always breaks safety |
| `Plugins.SafeIff` | internal/plugins/manager/manager.go:262-398 | a lifecycle never schedules a reachable filter if and only if it never installs a canary over an active one |
| `Plugins.FiltersAccounted` | internal/plugins/manager/manager.go:262-385 | in every lifecycle each installed filter is current, previous or scheduled, exactly once |
| `Plugins.RollbackUndoesInstall` | internal/plugins/manager/manager.go:331-385 | an upgrade and a roll-back restore filter, version and digest and close the new filter once |
| `Peers.PeerManager.BroadcastConfigVersion` | internal/peers/manager.go:162-192 | records the version in manager and delegate and announces it; what is served is not touched |
| `Peers.PeerManager.OnVersionMessage` | internal/peers/delegate.go:105-113 | queues a hint only for a version ahead of the node, from a peer with an address, and only if there is room |
| `Peers.PeerManager.OnPeerVersionDetected` | internal/peers/manager.go:259-268 | the same for versions found at joins, updates and state merges |
| `Peers.PeerManager.NextHint` | internal/peers/manager.go:270-284 | takes the oldest hint and skips it if the node has caught up |
| `Peers.PeerManager.ApplyPulled` | internal/peers/manager.go:307-340 | an accepted pull is served at once, its version not yet recorded; a rejected one changes nothing |
| `Peers.PeerManager.RecordPulled` | internal/peers/manager.go:342-347 | records the version of what was applied in manager and delegate |
| `Peers.PeerManager.TriggerCatchUp` | internal/peers/manager.go:287-359 | a pull asked for directly needs no hint; its target is checked against the recorded version and only one ahead goes on |
| `Peers.AlwaysAuthentic` | internal/peers/manager.go:287-354 | in every run whatever a node serves or has pulled is the published snapshot of its own version |
| `PeerTraces.SwallowedDisagrees` | internal/peers/manager.go:162-354 | an update around a whole one to another version leaves the node at rest with a version it does not serve |
| `PeerTraces.RestAgrees` | internal/peers/manager.go:162-354 | without such updates a node at rest serves what it recorded |
| `PeerRuns.AgreementIff` | internal/peers/manager.go:162-354 | recorded and served version agree at every rest of every node if and only if no update swallows one to another version |
| `PeerRuns.EqualVersionsEqualSnapshots` | internal/peers/manager.go:162-354 | then nodes at rest with equal versions serve equal snapshots, whatever hints were dropped |
| `PeerRuns.FetchIsAhead` | internal/peers/manager.go:287-354 | what is fetched on a hint is at least as new as the announcement that triggered it |
| `PeerRuns.StepKeepsHonest` | internal/peers/manager.go:162-354 | while nothing goes back, no announcement or hint exceeds what its sender has recorded |
| `PeerRuns.MonotoneIff` | internal/peers/manager.go:162-359 | versions never go back if and only if platform updates and directly asked pulls come in order and no update finishes late; then announcements stay honest and nodes at rest agree |
| `PeerRuns.VersionsCanGoBack` | internal/peers/manager.go:287-354 | every run to a state with a pull goes on to one in which a later version is recorded and announced and then taken back |
| `PeerRuns.StartGoesBack` | internal/peers/manager.go:162-354 | a run from a start of two nodes in which a version goes back |
| `PeerRuns.StartComesApart` | internal/peers/manager.go:162-354 | a run from a start of two nodes after which a node at rest serves another version than it recorded |
| `PeerRuns.CatchUpRaises` | internal/peers/manager.go:270-354 | in such a run a catch-up on a hint that no platform update meets strictly raises the version |
| `PeerRuns.OverlapDisagrees` | internal/peers/manager.go:287-354 | every run to a state with a pull goes on, with either update around the other, to one that leaves the node at rest recording one version and serving another |
| `PeerRuns.CanCatchUp` | internal/peers/manager.go:259-354 | every run to a state with an idle node behind a peer goes on by an announcement, check, fetch, apply and record that bring it up to that peer and change no other node |
| `PeerRuns.CanConverge` | internal/peers/manager.go:259-354 | every run to a settled state goes on to one in which every node has the version furthest ahead, taking none back |
| `Breaker.CircuitBreaker.Allow` | internal/pipeline/types.go:284-324 | refines admission: below the threshold, or more than the cooldown after the last failure |
| `Breaker.CircuitBreaker.RecordFailure` | internal/pipeline/types.go:284-324 | counts the failure and its time |
| `Breaker.CounterIsStreak` | internal/pipeline/types.go:284-324 | over every sequential run the counter is the number of attempts admitted since the last admitted success, and all of them failed |
| `Breaker.StreakIsPaced` | internal/pipeline/types.go:284-324 | once the streak has reached the threshold, each further call comes more than the cooldown after the end of the one before |
| `Breaker.FailingCallsBounded` | internal/pipeline/types.go:284-324 | a failing filter is called at most threshold + D/cooldown times in any interval of length D |
| `BreakerRaces.FreeCallsBounded` | internal/pipeline/types.go:300-324 | while no call ends well, n callers are admitted below the threshold at most threshold + n - 1 times, less the failures counted or running |
| `BreakerRaces.WindowBounded` | internal/pipeline/types.go:300-324 | in every interleaving of the single reads and writes at most n (n + 1) / 2 calls are admitted after a cooldown within one cooldown, older failure times stored over newer ones included |
| `BreakerRaces.FailingCallsBounded` | internal/pipeline/types.go:300-324 | from a new breaker, in any interval of any interleaving in which no call ends well: threshold + n - 1 calls, and n (n + 1) / 2 per cooldown |
| `BreakerReopened.BoundReached` | internal/pipeline/types.go:300-324 | for every threshold and n, a run that reaches both bounds, the second at one moment |
| `FilterChain.Chain.AddFilter` | internal/pipeline/chain.go:45-52 | appends the filter with a closed breaker of its own |
| `FilterChain.Chain.ExecutePhase` | internal/pipeline/chain.go:55-141 | the loop refines the phase semantics in decision, error, envelope, breakers and visits |
| `FilterChain.PhaseIsSound` | internal/pipeline/chain.go:55-141 | however a phase ends: visits are in order, each sees what its predecessor left, none follows one that stopped the phase, whose answer is the phase's; Continue without error means every fail-closed filter ran and neither failed nor stopped |
| `FilterChain.ErrorsExplained` | internal/pipeline/chain.go:55-118 | timeouts answer 504, an open breaker 503, a failed filter a non-zero status, and only fail-closed filters of the phase cause the latter two |
| `FilterChain.VisitedOnce` | internal/pipeline/chain.go:55-141 | a phase runs no filter twice |
| `FilterChain.EnvelopeIsReplay` | internal/pipeline/chain.go:120-137 | a phase's envelope is the in-order fold of the effects of the filters it ran, and of their accepted mutations alone if they left the envelope itself alone |
| `FilterChain.BreakersFollowVisits` | internal/pipeline/chain.go:82-119 | a breaker moves by exactly one recorded result if its filter ran and not at all otherwise |
| `FilterChain.BreakerRunsOnCalls` | internal/pipeline/chain.go:82-119 | over every sequence of phases a filter's breaker is that of the run of its calls, all of them admitted |
| `FilterChain.ChainCallsBounded` | internal/pipeline/chain.go:82-119 | in every sequence of phases a failing filter is called at most 5 times plus once per ten seconds |
| `Policy.SortByPriority` | internal/security/authz/engine.go:19-26 | the same rules, highest priority first, equal priorities in their given order |
| `Policy.PolicyEngine.constructor` | internal/security/authz/engine.go:19-31 | the engine holds the given rules stably sorted |
| `Policy.PolicyEngine.Evaluate` | internal/security/authz/engine.go:34-143 | allowed if and only if the resource type is known, no rule fails, none denies and some rule allows; a refusal by a rule names the first failing or denying one; the log agrees with the verdict |
| `Policy.SameVerdict` | internal/security/authz/engine.go:34-143 | permission is the same for every order of the rules |
| `Policy.FirstInGivenRules` | internal/security/authz/engine.go:22-26 | the rule found first has the highest priority of its kind and is the earliest given one of that priority |
| `Policy.LogNamesFirstGrantIff` | internal/security/authz/engine.go:102-106 | the log names the first granting rule if and only if it has an id or no granting rule has one |
| `Policy.LogSkipsRuleWithoutID` | internal/security/authz/engine.go:102-106 | two granting rules of which the log names the second |
| `Audit.MaskWraps` | internal/observe/audit.go:70-99 | masking with 2^k - 1 is wrapping around at 2^k |
| `Audit.RoundUp` | internal/observe/audit.go:56-66 | the least power of two that is at least 64 and the requested capacity |
| `Audit.RingBuffer.constructor` | internal/observe/audit.go:56-66 | an empty buffer of that capacity |
| `Audit.RingBuffer.Enqueue` | internal/observe/audit.go:70-83 | refines a bounded FIFO: appends if there is room, else counts a drop and keeps everything |
| `Audit.RingBuffer.Dequeue` | internal/observe/audit.go:87-99 | removes the oldest event if there is one |
| `Audit.Shipper.Drain` | internal/observe/audit.go:292-331 | ships the oldest events, at most one batch, to every customer sink with and to the platform without payload; the spool then holds nothing or, if truncating fails, what was written |
| `Audit.StepKeepsInv` | internal/observe/audit.go:259-331 | every capture, dequeue and send, in any order the code allows, keeps the pipeline in order |
| `Audit.NothingLost` | internal/observe/audit.go:259-331 | in every interleaving delivered events, batch in hand and ring are the accepted events in order, the platform sees the customer's batches, and no payload reaches it |
| `AuditSpool.NothingLostIff` | internal/observe/audit.go:292-331 | over every run of writes, sends and truncations, no event taken from the ring is neither delivered nor spooled if and only if every batch whose send fails was written and no later truncation succeeds |
| `AuditSpool.FailedSendLoses` | internal/observe/audit.go:304-330 | a run in which an event is written, not sent and truncated |
| `Bulkhead.Effective` | internal/egress/postgres/bulkhead.go:16-28 | both sizes are positive, and positive ones are taken as given |
| `Bulkhead.StepKeepsInv` | internal/egress/postgres/bulkhead.go:32-64 | every channel operation keeps slots and queue places equal to the callers that have them and within bounds |
| `Bulkhead.GivingBackNeverBlocks` | internal/egress/postgres/bulkhead.go:46-64 | releasing a slot or a queue place never blocks |
| `Bulkhead.BulkheadIsSound` | internal/egress/postgres/bulkhead.go:32-64 | in every interleaving slots and places are exact and bounded, and a waiter never waits without an enabled step of a holder or its own |
| `Bulkhead.AllReturned` | internal/egress/postgres/bulkhead.go:62-64 | when all callers are done everything is free again |

## Left out

- Transports and handlers (gRPC, HTTP, WebSocket, MCP, A2A), TLS enrolment, heartbeats, usage reports and revocations of the control stream.
- JWT, API keys, CEL compilation and the Ed25519 scheme itself: results of verification and evaluation are oracles.
- Route fields for policies and secret references, the route trie that matching never reads, and retry budgets.
- HTTP header canonicalisation and Unicode case mapping: header access and case folding are oracles of the router's engine.
- Ledger.Limiter.PreCheck: takes one moment for all its windows and no errors of the store; LedgerRuns has its lock sections at moments of their own.
- LimitKeys.NeverExpiresInBucketIff: speaks of expiry alone; what the ledger then grants is LongMonth.KeepsToLimitIff.
- Ledger.RetryFitsIff: speaks of the counter that refused; a request in a later bucket meets another counter.
- Audit.NothingLost: has one log for the customer sinks and sends that succeed; failing sends and the spool are in AuditSpool, for any one sink.
- Collisions of reservation ids, 64-bit overflow of counters, and floating-point rounding of shares and token levels, which are exact here.
- Calendar months: the start of the month is an arbitrary function that never lies in the future, and bucket labels are opaque text.
- LedgerRuns.LedgerConserves: speaks of non-negative usage; CorrectionExactIff shows why, and that the condition cannot be dropped for a lone call.
- RedisLedger.NeverOverGranted: speaks of usage within the reservation, and of what Redis grants; what a node grants from its local store after an error is bounded by LedgerBounds.UsageWithinLimit.
- RouteOrder.DistinctKeysOrderIrrelevant: gives a condition on the configuration that is sufficient only; the exact condition, per request, is OrderIrrelevantIff.
- SharedCounter.FairInTurnIff: speaks of turns during which the 64-bit counter does not wrap; FairForEverIff is about all turns.
- Wasm pool and bulkhead are state machines on values: their channels and counters are shared by interleaved callers, not fields of a sequential object. A closed runtime is taken to instantiate nothing more; returning a nil instance is not modelled.
- Plugin manifests, fetching and verification before the swap, the timer between scheduling and closing a filter, and closing the plugin manager.
- Peer snapshot signatures and timeouts: a pull is accepted or rejected by an oracle; revocation gossip is not modelled. The manager's and the delegate's copies of the applied version are written in one step, and an announcement is sent with it.
- Envelopes are values handed from filter to filter, and a chain runs its phases sequentially. Concurrent phases share the breakers alone, and those are in BreakerRaces, with a clock that does not run back.
- Reading the audit spool back after a restart, and the final flush of the shipper, which is one more drain.
