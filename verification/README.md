# MyGateway: affinity, failover, routing, tokens, registry

A Dafny model of the gateway's session-affinity allocator, of the failover protocol that runs on top of
it, and of what the two rely on: longest-prefix routing and authorization, session tokens, and the
registry of instances.

## How it is organised

| module (file) | what it holds |
|---|---|
| `Options`, `GatewayErrors` (`Errors.dfy`) | errors, and their translation to gRPC statuses |
| `PoolModel` | the connection pool of one cluster as a state machine over `ForKey`, `RoundRobin`, `Fail`, `Refresh`, `Close` |
| `PoolSafety`, `PoolCapacity`, `PoolFairness`, `PoolQuarantine` | what every run of that machine keeps |
| `ConnectionPools` (`ConnectionPool.dfy`) | the pool as the source has it: a class with loops over its maps; every method is proved to be one step of `PoolModel` |
| `PrefixTable`, `Routing`, `HeaderAuth` | the two longest-prefix lookups, in-place sorts included, and when they agree |
| `Resolvers` (`Resolver.dfy`) | the class that joins proxy and pools |
| `Proxy` | one RPC as a state machine: handler, forwarders, channels, and other users of the pool, arbitrarily interleaved |
| `ProxyControl`, `ProxyConversation`, `ProxyHistory`, `ProxyOrder`, `ProxyDelivery`, `ProxyPool`, `ProxyAffinity` | what every run of that machine keeps |
| `TransparentProxies` (`TransparentProxy.dfy`) | the handler as the source has it: nested loops and local variables; each of its runs is proved to be a run of `Proxy` |
| `Base64`, `Token` | issuing, parsing and validating session tokens |
| `Registry`, `RegistryHistory` | the cache over Redis keys that expire, the HTTP handlers, and the discoverer that asks them |

The mutex of the pool is the atomicity of a step. `refresh` reads the discoverer outside the mutex, so
that a `Refresh` step takes an arbitrary, possibly stale, snapshot. What the outside world answers
(dials, NewStream, messages, stream errors, whether the client's context is done) is part of a step or of
an event, and the theorems hold for all of it. An event of the RPC machine that is not enabled changes
nothing, so that every sequence of events is a run.

A string stands for a Go string, one character for each byte.

## Where the code differs from its documentation, or from what one would expect

- A failure reported for one entry of a list that names an instance twice leaves the instance listed
  (`PoolSafety.DuplicateDefeatsQuarantine`), and some run then grants it again; exactly when:
  `PoolQuarantine.QuarantineIsExact`. Distinct IDs, which the registry guarantees
  (`RegistryHistory.HTTPServer.Snapshot`), exclude that.
- A failure reported for a key drops whatever that key is bound to, also another instance; stickiness
  therefore ends exactly at the steps that `PoolSafety.AffinityStep` names.
- A failure of an instance before the one in turn costs that one its turn (`PoolSafety.TurnAfterFailure`).
- A send to a backend whose stream is done answers EOF, which the handler takes for the client's
  half-close: `ProxyDelivery.HalfCloseMayComeEarly`; exactly when a half-close means that all was sent:
  `ProxyDelivery.HalfCloseIsLast`.
- After a transfer that was caused by a failure towards the backend, the client may get the first
  backend's last message behind the second backend's first (`ProxyOrder.UpTransferMayReorder`); exactly
  when it cannot: `ProxyOrder.OrderHoldsExactly`.
- A TTL of more than 292 years overflows, and the instance does not live as long as its TTL says:
  `Registry.LifetimeIsTtl`.
- Two defensive returns of the handler are dead: `ProxyControl.DefensiveReturnsAreDead`.

What the interfaces leave open, without a known library that does it:

- Were a call towards the client, or for the backend's header, to answer EOF, the handler would take that
  for success (`ProxyDelivery.SuccessMayLose`; exactly when it does not matter:
  `ProxyDelivery.SuccessIsComplete`).
- Validation accepts several routes with one prefix. Router and authorization agree about them
  (`HeaderAuth.RouterAndAuthAgree`), because both sort the same lengths, and the sort goes by comparisons
  alone. Its documentation promises no order among equals; exactly when agreement would not need it:
  `HeaderAuth.AgreeInAnyOrders`, and when routing would not: `Routing.RoutingIsDetermined`.

## Model

| member | source | states |
|---|---|---|
| `PoolSafety.StepKeeps` | MyGateway/service/connection_pool.go:86-264 | each step of the pool, from any state that satisfies the invariant and with any snapshot, keys and dial results, keeps it: bindings are exclusive, cached connections belong to listed instances, the index is valid, a closed pool is empty, and every connection made is cached or closed |
| `PoolSafety.ReachableIsSafe` | MyGateway/service/connection_pool.go:86-264 | in every state reachable under any interleaving, stale snapshots and failures reported for the wrong key included, no two keys are bound to one instance, every cached connection belongs to a listed instance, and `rr` is a valid index, or 0 for an empty list |
| `PoolSafety.ConnectionsAreConserved` | MyGateway/service/connection_pool.go:206-264 | over every run in which the factory returns fresh connections: each connection it returned is either cached, under one ID, or was closed exactly once; a closed pool has closed all of them |
| `PoolSafety.ClosedForGood` | MyGateway/service/connection_pool.go:251-264 | after Close, whatever steps follow, refreshes included, both maps stay empty, nothing is dialed or closed any more, and the getters refuse |
| `PoolSafety.Affinity` | MyGateway/service/connection_pool.go:152-181 | after a key was granted an instance with a non-empty ID, it holds that instance and connection at every moment of a run if and only if no step of the run breaks it: a failure naming the key or the instance, a snapshot without the instance, or Close; and while there is none, every call for the key, whatever dialing would answer, is granted the same again and changes nothing |
| `PoolSafety.AffinityStep` | MyGateway/service/connection_pool.go:86-264 | one step keeps a binding with its connection if and only if it is none of those |
| `PoolSafety.BindingStep` | MyGateway/service/connection_pool.go:86-264 | a step other than a call for the key takes its binding away, with or without a connection behind it, if and only if it is a failure naming the key, Close, or a refresh that drops a connection to the instance; a binding left without a connection by a failure reported for another key is not removed by any refresh until it has a connection again |
| `PoolSafety.Quarantine` | MyGateway/service/connection_pool.go:223-244 | after a failure of an instance that was listed at most once, no getter grants it, along any run, until a snapshot that lists it is applied |
| `PoolQuarantine.QuarantineIsExact` | MyGateway/service/connection_pool.go:223-244 | for every list and every open pool: after a failure of an instance no run without a snapshot that lists it ends in a grant of it, if and only if it was listed at most once |
| `PoolSafety.FailureDelistsExactly` | MyGateway/service/connection_pool.go:233-242 | a failure takes the instance off the list if and only if it was listed at most once |
| `PoolSafety.DuplicateDefeatsQuarantine` | MyGateway/service/connection_pool.go:233-242 | a list that names an instance twice: the very next round-robin call grants the failed instance |
| `PoolSafety.WithoutFirstListed` | MyGateway/service/connection_pool.go:233-242 | cutting out the first entry for an ID shortens the list exactly if the ID is listed, keeps every other ID, and with distinct IDs removes it |
| `PoolSafety.GetterGrantsListed` | MyGateway/service/connection_pool.go:123-181 | a getter grants listed instances only |
| `PoolSafety.TurnAfterFailure` | MyGateway/service/connection_pool.go:233-242 | whose round-robin turn it is after a failure: a later instance that goes changes nothing, the instance in turn hands over to the next when it goes itself, and loses its turn to the next when an earlier one goes; the end of the list wraps around |
| `PoolSafety.IdleRefreshIsIdle` | MyGateway/service/connection_pool.go:92-113 | a refresh that finds nothing new changes nothing, in any state that satisfies the invariant |
| `PoolModel.FirstFreeIsFirst` | MyGateway/service/connection_pool.go:167-179 | the instance a new key gets is the first one in list order that no other key occupies and that has, or gets, a connection |
| `PoolSafety.GrantsFirst` | MyGateway/service/connection_pool.go:167-180 | a key without a live binding is granted the first instance in list order that no other key occupies and that a connection can be had to, and is refused exactly if there is none |
| `PoolSafety.RefusalsSayWhy` | MyGateway/service/connection_pool.go:123-181 | a getter refuses a closed pool as such, and otherwise for want of an instance, an empty key included |
| `PoolSafety.RefreshRestricts` | MyGateway/service/connection_pool.go:92-113 | exactly the connections to listed instances survive a refresh, unchanged, and the others are closed once each; a binding goes exactly if it led to one of those; the index stays unless it is beyond the new list; nothing is dialed |
| `PoolSafety.FailuresUnregister` | MyGateway/service/connection_pool.go:243 | over every run, the discoverer is asked to unregister the instances that failures were reported for, each time and in that order, and no others |
| `PoolCapacity.CapacityIsExact` | MyGateway/service/connection_pool.go:152-197 | with distinct IDs, an open pool in which the dial a call asks for does not fail refuses a non-empty key without a live binding if and only if as many other keys are bound to listed instances as there are instances |
| `PoolCapacity.FullByCounting` | MyGateway/service/connection_pool.go:190-197 | every listed instance is occupied by another key if and only if the keys so bound are as many as the instances |
| `PoolCapacity.FirstComeFirstServed` | MyGateway/service/connection_pool.go:152-181 | from no bindings and while no dial that is asked for fails, of calls for distinct keys exactly the first n are granted, n distinct instances, and all later ones are refused |
| `PoolFairness.GoesRound` | MyGateway/service/connection_pool.go:132-141 | while the list and its non-empty dialable part stay fixed, the round-robin calls of a run, sticky calls and refreshes that find nothing new interleaved, go round the dialable instances in cyclic list order; of the dials of a call only those it asks for matter |
| `PoolFairness.RoundRobinIsFair` | MyGateway/service/connection_pool.go:132-141 | any m consecutive round-robin calls then return each dialable instance floor(m/d) or ceil(m/d) times |
| `ConnectionPools.ConnectionPool.constructor` | MyGateway/service/connection_pool.go:51-67 | a new pool is empty, or holds what its first refresh found |
| `ConnectionPools.ConnectionPool.RefreshPool` | MyGateway/service/connection_pool.go:86-114 | refresh, with its nested loops that delete while iterating, is exactly a restriction of the connections to the listed IDs and of the bindings to those not leading to a connection that went; survivors keep theirs; an error changes nothing |
| `ConnectionPools.ConnectionPool.GetConnectionRoundRobin` | MyGateway/service/connection_pool.go:123-143 | the loop is one `RoundRobin` step, new state and answer, for what the factory returned in it; the connection granted was made for the instance granted, a new one for an entry of the list, address included; the dials go as `PoolFairness` asks for every set of dialable instances that holds the one dialed and none the factory refused |
| `ConnectionPools.ConnectionPool.GetConnectionForKey` | MyGateway/service/connection_pool.go:152-181 | lookup, unbinding and scan are one `ForKey` step, new state and answer, for what the factory returned in it; the connection granted was made for the instance granted, a new one for an entry of the list, address included; if the factory refused nothing, a key is refused exactly if it has no live binding and as many other keys are bound to listed instances as there are (distinct IDs) |
| `ConnectionPools.ConnectionPool.IsInstanceAssignedToOtherKey` | MyGateway/service/connection_pool.go:190-197 | true exactly if another key is bound to the instance |
| `ConnectionPools.ConnectionPool.GetOrCreateConnLocked` | MyGateway/service/connection_pool.go:206-216 | the cached connection, or a new one that is now cached, in either case one that leads to the instance, or none and no change |
| `ConnectionPools.ConnectionPool.OnBackendFailure` | MyGateway/service/connection_pool.go:223-244 | is the `Fail` step: unbinds the key, closes and drops the connection, cuts out the first list entry, keeps the index valid |
| `ConnectionPools.ConnectionPool.Close` | MyGateway/service/connection_pool.go:251-264 | is the `Close` step |
| `ConnectionPools.ConnectionPool.OpenExactlyWhileCached` | MyGateway/service/connection_pool.go:206-264 | every connection object the factory returned is open while it is cached, and closed exactly once otherwise |
| `GatewayErrors.TranslationIsDefinite` | MyGateway/service/grpc_error.go:46-67 | nil is answered to nil (and to the degenerate status OK) only, every other error becomes a status with a definite code, its own if it has one, why a backend is unavailable is not passed on, and translating twice is translating once |
| `GatewayErrors.TranslationByCause` | MyGateway/service/grpc_error.go:46-67 | what each cause becomes, however wrapped: a definite status keeps code and message, but for UNAVAILABLE; an exhausted pool and a missing sticky key have their own; a closed pool, an unknown cluster, EOF, any opaque error and a status of code Unknown are an unavailable backend |
| `GatewayErrors.BusyExactlyWhenExhausted` | MyGateway/service/grpc_error.go:54-59 | RESOURCE_EXHAUSTED with the busy message is answered exactly to an exhausted pool, however wrapped, and to that very status; a wrapped status of that code is answered with a longer text |
| `Resolvers.Choose` | MyGateway/service/connection_resolver_generic.go:56-88 | the static cluster if and only if there is one of that name; else a pool by key k if and only if the cluster has one, the balancer is sticky_sessions and k, not empty, is the first value of its header; round-robin if and only if it has one and the balancer is not; and otherwise the error for what is missing |
| `Resolvers.UnresolvedIsReported` | MyGateway/service/connection_resolver_generic.go:64-76 | a missing sticky key reaches the client as UNAUTHENTICATED, an unknown cluster as UNAVAILABLE |
| `Resolvers.ConnectionResolver.GetConnection` | MyGateway/service/connection_resolver_generic.go:56-88 | answers, and changes the one pool it uses, as the machine's `GetConnection` does for the chosen target; the connection is the static one or the one the pool caches under the ID returned, which leads to that instance; no other pool is touched |
| `Resolvers.ConnectionResolver.OnBackendFailure` | MyGateway/service/connection_resolver_generic.go:95-101 | is the `Fail` step of the pool of the route's cluster, and nothing without a pool |
| `Resolvers.ConnectionResolver.Close` | MyGateway/service/connection_resolver_generic.go:106-114 | closes the connection of every static cluster once and every pool |
| `TransparentProxies.Exchange.OpenBackendStream` | MyGateway/service/transparent.go:98-146 | the loop of attempts is a run of the machine; it returns the lease of a stream just opened, or the error the RPC ends with |
| `TransparentProxies.Exchange.Acquire` | MyGateway/service/transparent.go:101-104 | appends the machine's `Acquire` event to the run, behind events of others only; yields the lease now in hand, or the error the RPC ends with |
| `TransparentProxies.Exchange.GiveUpAttempt` | MyGateway/service/transparent.go:118-123 | appends just the machine's `OpenFailed` event to the run: cancel, report, and return or try again |
| `TransparentProxies.Exchange.ReplayFirst` | MyGateway/service/transparent.go:162-177 | appends the machine's `Replay` event to the run, behind events of others only, and yields the error the RPC ends with, or none |
| `TransparentProxies.Exchange.TakeUpErr` | MyGateway/service/transparent.go:203-222 | the next event of the run is the machine's `TakeUp`, and the only one if the select goes on; otherwise the RPC ends with the error yielded or the next round is open |
| `TransparentProxies.Exchange.TakeDownErr` | MyGateway/service/transparent.go:223-242 | the next event of the run is the machine's `TakeDown`, in the first round and in later ones; the RPC ends with the error yielded or the next round is open |
| `TransparentProxies.Exchange.ForwardFirst` | MyGateway/service/transparent.go:198-246 | the loop over the select is a run of the machine that ends with the error the machine returned with, or has the second round open, or has run out of patience at two empty channels |
| `TransparentProxies.Exchange.Wait` | MyGateway/service/transparent.go:179-202 | ends with an error in the channel waited at, in either of the two in the first round, or with all patience used up; the handler's own state is untouched |
| `TransparentProxies.Exchange.Handler` | MyGateway/service/transparent.go:148-251 | the transfer loop terminates, what it does is a run of the machine, and it returns the error the machine returned with, or has run out of patience at a channel that is empty |
| `TransparentProxies.Exchange.Accounts` | MyGateway/service/transparent.go:98-251 | when it has returned, the failure reports are the acquired connections in order, all but the last exactly if it returned nil |
| `TransparentProxies.TransparentProxy.Admit` | MyGateway/service/transparent.go:73-88 | a request is let through exactly if it is routed and carries what the route taken requires, for every valid configuration, also one in which routes share a prefix; any other is answered with what it lacks |
| `TransparentProxies.TransparentProxy.Handler` | MyGateway/service/transparent.go:73-251 | a request is served if and only if it is routed and carries what its route requires; any other changes no pool and is answered with what it lacks; one that is served goes along its route, and its connections are accounted for |
| `ProxyControl.NextKeeps` | MyGateway/service/transparent.go:98-322 | every event of the RPC keeps the control invariant: what is acquired, reported and cancelled at each point, who may write and read which channel, and how many attempts and rounds are left |
| `ProxyControl.FailuresAreAccounted` | MyGateway/service/transparent.go:98-251 | over every run, the failure reports are the acquired connections in order, each with its own key and instance, none twice; at return all are reported but one exactly if nil is returned, and every stream context is cancelled; before, the one in hand is not |
| `ProxyControl.LeasesAreTheTargets` | MyGateway/service/connection_resolver_generic.go:61-87 | over every run, connections are acquired, and hence reported, under the sticky key of the call, the name of the static cluster, or no key, and never without a target |
| `ProxyControl.DefensiveReturnsAreDead` | MyGateway/service/transparent.go:165-167 | a replay always has a first message, and the select never comes to a third turn |
| `ProxyControl.RetriesAreBounded` | MyGateway/service/transparent.go:98-251 | retry count R: at most R rounds and R * R calls of NewStream on a dynamic cluster, none when R is not positive, at most one of each on a static cluster |
| `ProxyControl.BudgetFalls` | MyGateway/service/transparent.go:98-251 | a measure, rounds left before attempts left, falls with every event of the handler and with no other |
| `ProxyControl.HandlerTerminates` | MyGateway/service/transparent.go:98-251 | whatever the environment answers, the handler takes at most 2 R (R + 2) + 1 events |
| `ProxyControl.WaitsOnlyForStreams` | MyGateway/service/transparent.go:179-243 | a handler that has not returned can go on, or what it waits for has not ended: the last backend, and in the first turn of the select the client |
| `ProxyConversation.TransferKeepsConversation` | MyGateway/service/transparent.go:161-322 | over every run: the client got what the rounds delivered, nothing lost, repeated or invented, and in the order of the rounds unless at some moment a later round's forwarder had been started while the first round's had not ended, which does not happen while transfers are caused by backend-to-client errors; the first backend got the client's messages in order, every later one the client's first message and the half-close; SendHeader was called at most once, in the first round, and before its first message |
| `ProxyConversation.RoundEnds` | MyGateway/service/transparent.go:203-242 | what each error taken from a channel leads to, over every run: EOF from the backend is success, and from the client closes the backend's sending side; after any other error another round is opened if and only if the cluster is dynamic, a message was read from the client, rounds are left and the client's context is not done, and otherwise that error is returned |
| `ProxyHistory.StateTellsRun` | MyGateway/service/transparent.go:260-322 | over every run: the messages read from the client and from each backend are those their streams gave, in order; a forwarder has ended exactly with the error of the call that failed in it, and that is what its channel holds until it is taken; SendHeader was called, and trailers were set, in just the rounds in which that happened |
| `ProxyHistory.HandlerFollows` | MyGateway/service/transparent.go:98-246 | over every run, where each event leads the handler, in terms of what streams and pool answered: nil is returned for the EOF of the last backend only, any other return is the error of the very call that failed, and another attempt or round follows exactly while that is allowed |
| `ProxyOrder.OrderHoldsExactly` | MyGateway/service/transparent.go:161-287 | in every reachable state in which the second round is about to start: the client gets the rounds in order in every continuation, if and only if the forwarder of the first round has ended; the same with only those continuations in which no SendHeader succeeds after a message was sent |
| `ProxyOrder.OrderFailsByOverlap` | MyGateway/service/transparent.go:161-287 | from every reachable state in which rounds have not overlapped: some continuation gives the client messages out of order if and only if some continuation starts the second round's forwarder while the first round's runs |
| `ProxyOrder.UpTransferMayReorder` | MyGateway/service/transparent.go:203-222 | an instance, in which the header is sent before any message: a transfer caused by a client-to-backend error lets the client get two messages in the other order |
| `ProxyDelivery.SuccessIsComplete` | MyGateway/service/transparent.go:179-227 | nil is returned only when the call that ended the last backend's forwarder answered EOF, its trailer set last; the client then got all that backend sent if and only if no call towards the client, nor for the header, failed in that round |
| `ProxyDelivery.HalfCloseIsLast` | MyGateway/service/transparent.go:203-207 | once the first backend's sending side is closed no more is sent to it, and it was sent all that was read from the client if and only if no send failed |
| `ProxyDelivery.HalfCloseMayComeEarly` | MyGateway/service/transparent.go:296-322 | a run in which a send answers EOF: the backend gets the half-close without the message |
| `ProxyPool.NeverRevisits` | MyGateway/service/transparent.go:98-251 | from a list with distinct IDs and while no refresh is applied, the instances an RPC acquires are pairwise different however other RPCs use the pool, so that it calls NewStream at most once per instance |
| `ProxyPool.ServedWhenFree` | MyGateway/service/connection_pool.go:152-181 | an open pool in which the dial a call asks for does not fail serves a key exactly if an instance is free for it, with such an instance; other keys' bindings stay, and a refused key is unbound |
| `ProxyPool.FailureTakesOne` | MyGateway/service/connection_pool.go:223-244 | a failure of an instance free for the key takes away that instance and no other, and unbinds the key |
| `ProxyPool.ExhaustionOutcome` | MyGateway/service/transparent.go:98-126 | a sticky RPC alone against f free instances, where no dial that is asked for fails and every NewStream does, calls NewStream exactly min(R, f) times; it returns the last error if f >= R and otherwise RESOURCE_EXHAUSTED; its key ends unbound, other keys' bindings are as before |
| `ProxyPool.ServedInTurn` | MyGateway/service/connection_pool.go:123-143 | an open pool in which the dial a call asks for does not fail serves a round-robin call exactly if it lists an instance, with a listed one |
| `ProxyPool.BalancedExhaustion` | MyGateway/service/transparent.go:98-126 | a balanced RPC alone against n instances, where no dial that is asked for fails and every NewStream does, calls NewStream exactly min(R, n) times; it returns the last error if n >= R and otherwise RESOURCE_EXHAUSTED; every binding is as before |
| `ProxyAffinity.SuccessKeepsAffinity` | MyGateway/service/transparent.go:98-251 | over every run: a sticky RPC that returned nil was served through the connection its last acquire was granted; unless another user of the pool broke it since, the pool holds key, instance and connection together, and the next call for the key is granted the same |
| `PrefixTable.SortByLength` | MyGateway/service/route_matcher_generic.go:32-34 | puts the entries in place as the sort, a function of the lengths compared, says |
| `PrefixTable.SortedArranges` | MyGateway/service/route_matcher_generic.go:32-34 | the sorted list has the same entries, longer prefixes first |
| `PrefixTable.FirstHitIsLongest` | MyGateway/service/route_matcher_generic.go:49-58 | in every order the sort may produce, the first hit is a longest prefix that fits, and there is none exactly if none fits |
| `PrefixTable.OrderIsIrrelevant` | MyGateway/service/route_matcher_generic.go:32-34 | every order that the sort's documentation allows answers every lookup alike, as far as an attribute goes, if and only if entries with one prefix agree on it |
| `Routing.ValidateRouteConfig` | MyGateway/domain/route.go:70-102 | accepts exactly the well-formed configurations, and otherwise reports the first bad route, with its reason, or the default section |
| `Routing.RouteProblem` | MyGateway/domain/route.go:71-91 | no reason is found exactly for a route whose prefix starts with a slash, whose modes are known and whose sticky balancer has a header that is not blank; otherwise the first of those at fault is named |
| `Routing.TrimSpace` | MyGateway/domain/route.go:88 | cuts off white space of Unicode at the ends, of which none is left, and nothing else; the result is empty exactly for a text that is white space only |
| `Routing.WithRouteDefaults` | MyGateway/service/route_matcher_generic.go:68-79 | an empty authorization becomes none, an empty balancer type round_robin, an empty header of a sticky balancer session-id, and everything else is kept |
| `Routing.DefaultAnswer` | MyGateway/service/route_matcher_generic.go:55-58 | a method that no prefix fits is answered exactly under use_cluster, with the default cluster, no authorization and round_robin |
| `Routing.NewRouteMatcherGeneric` | MyGateway/service/route_matcher_generic.go:26-40 | a router over the configured routes exactly for a valid configuration, an error otherwise |
| `Routing.RouteMatcher.Match` | MyGateway/service/route_matcher_generic.go:49-58 | answers a configured route, with its defaults filled in for good, whose prefix fits with no longer one fitting, or the default exactly if none fits |
| `Routing.RoutingIsDetermined` | MyGateway/service/route_matcher_generic.go:26-58 | every order that the sort's documentation allows routes every method alike if and only if configured routes with one prefix are the same once defaults are filled in; distinct prefixes suffice |
| `HeaderAuth.GetHeaderValue` | MyGateway/helpers/headers.go:22-31 | v is the answer if and only if it is the first value of the header, in whatever case its name is given, and not empty |
| `HeaderAuth.GetAuthToken` | MyGateway/helpers/headers.go:58-71 | the token is the header's first value without the white space at its ends; it is missing exactly if the header is, or has no value, or a blank one first |
| `HeaderAuth.ConfigurableAuthProcessor.constructor` | MyGateway/helpers/configurable_auth_processor.go:39-55 | the rules are those of the routes, sorted |
| `HeaderAuth.ConfigurableAuthProcessor.Process` | MyGateway/helpers/configurable_auth_processor.go:64-91 | passes the headers on unchanged exactly if the rule does not require authorization or session and token are present and valid; each failure has its own status |
| `HeaderAuth.RuleBehindMode` | MyGateway/helpers/configurable_auth_processor.go:66-71 | the rule that is enforced comes from a longest route that fits, and there is none exactly if no route fits |
| `HeaderAuth.RouterAndAuthAgree` | MyGateway/helpers/configurable_auth_processor.go:39-74 | for every configuration, also one in which routes share a prefix, and every routed method, the mode that is enforced is the authorization of the route Match returns, default cluster and empty modes included |
| `HeaderAuth.AgreeInAnyOrders` | MyGateway/helpers/configurable_auth_processor.go:48-50 | were the two sorts to order equal lengths each in its own way, as their documentation allows: agreement on every method if and only if no two configured routes share a prefix and differ in effective authorization |
| `Base64.RoundTrip` | MyGateway/auth/token.go:56-79 | decoding undoes encoding, and no encoding contains a dot (section 4 of RFC 4648) |
| `Base64.SymbolsAreTheAlphabet` | MyGateway/auth/token.go:56-57 | the alphabet is that of table 1 of RFC 4648 |
| `Base64.GroupHoldsBits` | MyGateway/auth/token.go:56-57 | a group of four symbols holds the bits of its bytes, most significant first, with padding for the missing bytes |
| `Base64.GroupsFollow` | MyGateway/auth/token.go:56-57 | groups of three bytes are encoded one after the other |
| `Base64.DecodesExactly` | MyGateway/auth/token.go:76-84 | a text decodes to given bytes with no stray trailing bits if and only if it is their encoding with line breaks put in |
| `Token.TwoParts` | MyGateway/auth/token.go:70-74 | splitting yields two given parts if and only if the token is those two around its only dot |
| `Token.AcceptedMeansSigned` | MyGateway/auth/token.go:68-98 | a token is accepted with given claims if and only if it is two texts around a single dot, the second of which decodes to the signature of what the first decodes to, which holds the claims |
| `Token.ValidExactlyWhenGood` | MyGateway/service/validator.go:40-57 | for every token, whoever made it: it is accepted for a session at a moment if and only if it carries claims, signed under the secret around its only dot, that name the session and an expiry which the moment is not after; any other is turned down without an error |
| `Token.AuthenticatedExactlyWhenGood` | MyGateway/helpers/configurable_auth_processor.go:75-88 | a request is authenticated if and only if its first session value is not empty and its first authorization value, trimmed, is a token good for it now |
| `Token.IssuedTokenParses` | MyAuth/service/jwt.go:25-46 | an issued token parses to the claims issued, under any secret that signs the payload alike, and is rejected for its signature under any other |
| `Token.IssuedTokenIsValid` | MyGateway/service/validator.go:40-57 | an issued token is accepted for session s at time now if and only if s is the session issued and now is not after the expiry floored to whole seconds |
| `Token.IssuedTokenAuthenticates` | MyGateway/helpers/configurable_auth_processor.go:75-88 | a request with a session header and an issued token is authenticated exactly if the token was issued for that session, which is not empty, and has not expired |
| `Registry.LifetimeIsTtl` | MyDiscoverer/adapters/myredis/cache.go:40 | a value lives as long as its TTL says if and only if the TTL in nanoseconds fits 64 bits |
| `Registry.RedisCache.WriteValue` | MyDiscoverer/adapters/myredis/cache.go:34-46 | stores the item under the prefixed key until its deadline, or nothing if it cannot be marshalled |
| `Registry.RedisCache.DeleteValue` | MyDiscoverer/adapters/myredis/cache.go:48-54 | removes just the prefixed key |
| `Registry.RedisCache.ListAllValues` | MyDiscoverer/adapters/myredis/cache.go:57-94 | each item that a live key of this prefix leads to, once, in any order, or entity_not_found exactly if there is none |
| `Registry.RedisCache.KeysDiffer` | MyDiscoverer/adapters/myredis/cache.go:96-98 | different instances have different keys |
| `RegistryHistory.RequestProblem` | MyDiscoverer/handlers/converters_from.go:10-25 | nothing is wrong with a request exactly if it has an ID, a service type, an address, a port and a positive TTL; otherwise the first of those at fault is named |
| `RegistryHistory.HTTPServer.RegisterInstance` | MyDiscoverer/handlers/http.go:35-52 | a valid request becomes part of the history, any other changes nothing and is answered with what is wrong |
| `RegistryHistory.HTTPServer.UnregisterInstance` | MyDiscoverer/handlers/http.go:55-62 | becomes part of the history |
| `RegistryHistory.HTTPServer.GetInstances` | MyDiscoverer/handlers/http.go:65-73 | over any history of registrations, unregistrations and passing time, exactly the current registrations, each once, with distinct IDs that are not empty, or entity_not_found exactly if there are none |
| `RegistryHistory.CurrentMeans` | MyDiscoverer/handlers/http.go:34-73 | an instance is current with given data if and only if a registration with that data is its latest, none of it was unregistered since, and its lifetime has not passed since |
| `RegistryHistory.HTTPServer.Snapshot` | MyGateway/adapters/discoverer.go:57-99 | what the gateway makes of the answer lists exactly the current instances, with distinct IDs that are not empty; no instances are an empty list |
| `RegistryHistory.FailedStaysAway` | MyGateway/service/connection_pool.go:223-244 | after a reported failure, provided the request to unregister the instance took effect (the code ignores its error), no getter grants the instance, however often the pool refreshes from snapshots taken since, until it registers again |
| `RegistryHistory.FailedMayReturn` | MyGateway/service/connection_pool.go:243 | if that request failed, the next refresh lists the instance and some round-robin call grants it again |

## Left out

- Transport: gRPC, HTTP, Redis, logging, signals, environment and YAML are replaced by what they answer; errors of Redis itself are not modelled.
- Time-outs: the timer of an attempt and deadlines of a context are a failed NewStream or an error on a stream.
- Timing of the discoverer: `GetInstances` has no effect on the pool, so that fetching is not a step; its result is an arbitrary snapshot. `UnregisterInstance` is recorded, and its failure is ignored as in the code.
- The algorithm of `sort.Slice`: any function of the lengths that sorts them; an insertion sort is one (`PrefixTable.InsertionSorts`).
- Nil connections: the factory does not return nil without an error, and the maps of the resolver hold no nil.
- Cloning the first message succeeds, and a message is a value: the reuse of one message object by a forwarder is not modelled.
- Forwarders as goroutines: they are steps of the machine in `Proxy`; `TransparentProxies.Exchange.Yield` runs any number of those between two channel operations of the handler.
- TransparentProxies.Exchange.Handler: a run ends without a result when the handler waits and its patience, a parameter, is used up, because a Dafny method cannot wait for ever; that the handler waits only for streams that have not ended is `ProxyControl.WaitsOnlyForStreams`.
- TransparentProxies.Exchange.Yield: other RPCs and the refresh loop use the pool of the RPC's cluster, not the pools of other clusters, which no step of this RPC reads.
- Replay of more than the first message: the code does not do it.
- Which instance serves a stream at a time: only bindings are exclusive; a stale failure report can free an instance whose stream still runs.
- Letter case outside ASCII, in the names of headers: the keys of metadata are ASCII.
- Byte positions in base64 errors.
- Token.Sound: JSON and RFC 3339 are parameters with the round trips their libraries promise, on claims in UTF-8 and on years 0 to 9999 in zones of whole minutes; HMAC-SHA256 is an arbitrary function.
- Registry.Faithful: JSON of an instance is a parameter that can be read back whenever it can be written.
- KEYS patterns: a prefix has no characters that are special in a Redis pattern.
- Configuration: reading and normalising it, and the wiring in `main`; that router and authorization are built from the same routes is the validity of `TransparentProxies.TransparentProxy`.
- The login handler, MyService and its session claim, converters, header getters beyond those used, mocks and generated code: they would add easy members only.
