# Verified model of the inference gateway

This project models the gateway's distributed and concurrent logic in Dafny and proves what it keeps
over every run: the SWIM membership protocol, the routing state derived from it, and the request path.

| File | Part of the system |
|---|---|
| `Views.dfy` | the (incarnation, state) order on what one node believes about one member |
| `PiggybackBuffer.dfy` | the bounded buffer of updates that ride on outgoing messages |
| `MembershipTable.dfy`, `MembershipList.dfy` | conflict resolution as functions, and the object proved against them |
| `SwimNode.dfy`, `SwimProtocol.dfy` | one node: refutation, sending, message handling, timeouts, joining, leaving |
| `Cluster.dfy`, `Restarts.dfy` | any number of nodes over a network that loses, repeats and reorders; the same with restarts |
| `HashRing.dfy`, `ReplicaRegistry.dfy`, `LoadBalancer.dfy` | the consistent-hash ring, the registry, two-tier selection |
| `GatewaySync.dfy`, `GatewayNode.dfy` | the membership callback that keeps gossip, registry and ring together |
| `CircuitBreaker.dfy`, `RequestQueue.dfy` | the breaker and the ticket queue, each over any sequence of calls |
| `TokenStreams.dfy`, `Inference.dfy`, `Failover.dfy` | token delivery across failovers, the replica's token loop, the retry loop and what it promises |
| `Hedging.dfy` | the hedged race |
| `Handlers.dfy` | all request handlers interleaved over the shared counters |

How it is put together. An object that the gateway updates in place is a class; each of its methods is
proved equal to a function on values (`ApplyUpdate` to `AfterUpdate`, `AllowRequest` to `AfterAllow`, and so
on), and theorems over runs are lemmas about those functions. A run is any sequence of steps, so every
theorem about `Exec`, `Run` or `AfterAll` is about every reachable state. The two request paths are proved
equal to functions of an environment that answers for everything else, and the theorems of `Failover` and
`Hedging` hold for every environment. Environments are only asked to keep what their makers keep: replicas
generate as `Generate` does, an excluded replica is not picked, and a client's stream that is lost stays
lost. Each method is one critical section; the membership callback and the timeout scan are atomic with the
operation that triggers them. Hashing and the derivation of a gRPC address from a gossip address are
parameters, the clock is an argument, and random choices (peer selection, ties) are left open. In the
cluster a node's timeout scan is a series of single marks that may come at any time, and a whole message is
shown to be a run of the cluster's finer steps (`Cluster.HandlingIsARun`).

Integers are unbounded. For incarnations this is justified within the model: a member's incarnation
never exceeds the number of marks made about it (`Cluster.IncarnationAtMostMarks`), so 64 bits suffice
for every run with fewer than 2^64 marks.

## Where the code and its documentation differ

The model follows the code.

- `src/gossip/membership_list.h:82` promises newest updates first; the buffer hands out the oldest first
  (`NewestWaits`, in general `OlderIsSentAsOften`).
- `src/gossip/swim.h:53-57` promises that one refutation overrides a rumour; a restarted node needs one
  receipt per incarnation of the rumour (`OneReceiptMayNotRefute`, exact condition in `OneReceiptRefutes`).
- `src/gossip/membership_list.cpp:58-62` means subscribers to see every load change; an update accepted
  for a higher incarnation at the same state is not reported (`LoadFallsBehind`, exact condition in `LoadMirror`).
- `src/gateway/request_queue.h:49` promises that a notification wakes a waiter; it is lost on a ticket
  whose holder timed out (`TimeoutSwallowsNotification`, exact condition in `NotifyWakesExactly`).
- `src/gateway/circuit_breaker.h:37-40` lets the probe decide in HALF_OPEN; any outcome recorded first
  does (`StragglerDecides`). The probe is sure to decide if and only if no other request is pending at the
  replica when the probe is let through and no hedged request joins before it is done (`ProbeDecidesExactly`).
- The repository's `README.md:43` promises a stream that continues on another replica; a client can receive an index
  twice (`FailoverMayRepeat`, exact condition in `ExactlyOnceExactly`).
- `src/gateway/gateway_server.cpp:61-64` promises OK once tokens were delivered; each of the other three
  statuses can follow delivered tokens (`UnavailableAfterTokens`, `ExhaustedAfterTokens`,
  `CancelledAfterTokens`, exact condition in `DeliveredThenOk`).
- `src/gateway/gateway_server.cpp:66-67` keeps RESOURCE_EXHAUSTED for the time before any retry; it can end
  a request after attempts that delivered (`ExhaustedAfterTokens`, exact condition in `ExhaustedExactly`).
- The repository's `README.md:43` names failover and hedging together; a hedged winner that breaks off is not failed over, and
  the client is told OK (`HedgedOkMayBeCut`, exact condition in `HedgedOkIsWholeExactly`).
- `src/gateway/main.cpp:64-67` rebuilds the ring on state changes only; a load change can make a replica routable
  whose gossip address had no port at first (`StrandedReplicaMissesTheRing`, exact condition in
  `StrandingBreaksAgreement`).
- The two tiers test a negative capacity differently (`CapacityTestsDiffer`, exact condition in `CapacityTestsAgree`).

## Model

| member | source | states |
|---|---|---|
| PiggybackBuffer.PushKeepsHealthy | src/gossip/membership_list.cpp:286-291 | queueing keeps the buffer at 50 entries or fewer, all still sendable, and sent at least as often the older they are |
| PiggybackBuffer.TakeKeepsHealthy | src/gossip/membership_list.cpp:225-235 | so does handing out updates, and no update is ever sent more than 10 times |
| PiggybackBuffer.TakeRemovesExactlyTheExhausted | src/gossip/membership_list.cpp:231-235 | popping at the front alone removes exactly the exhausted entries, wherever they could be |
| PiggybackBuffer.OlderIsSentAsOften | src/gossip/membership_list.cpp:225-235 | over any interleaving, whenever an entry is on a message so is every older one, and an older entry that overflow does not push out has been on at least as many messages as a newer one |
| PiggybackBuffer.NewestWaits | src/gossip/membership_list.h:81-84 | of two queued updates the newer one waits |
| PiggybackBuffer.UpdatesAfterTake | src/gossip/membership_list.cpp:218-238 | what is handed out was queued, and nothing new appears in the buffer |
| PiggybackBuffer.EntryStep | src/gossip/membership_list.cpp:218-238 | one operation keeps a waiting entry's update, counts a send exactly when it is on the message, and uses up owed sends |
| PiggybackBuffer.EntryLifetime | src/gossip/membership_list.cpp:218-238 | over any interleaving, an entry at index p that overflow does not push out leaves after exactly 10 sends, and within 10(p+1) calls that send something |
| MembershipTable.StepIsJoin | src/gossip/membership_list.cpp:14-165 | every operation on a member's entry is a join in the (incarnation, state) order; the blind self overwrite is one if the entry does not outrun the node |
| MembershipTable.MarksAreExact | src/gossip/membership_list.cpp:109-150 | suspicion falls on an alive member only, death on any known one; each mark is announced and changes nothing else |
| MembershipTable.LoadFollowsUpdates | src/gossip/membership_list.cpp:41-85 | reported load and versions replace the known ones unless the update is stale, an accepted update brings its address, and nobody else changes |
| MembershipTable.FiresExactly | src/gossip/membership_list.cpp:63-103 | the callback runs exactly when the state changes, an unknown member being taken for dead, or a repeated claim changes the load |
| MembershipTable.RunIsSup | src/gossip/membership_list.cpp:14-165 | without local marks a node's view of a member is the least upper bound of the claims it learned |
| MembershipTable.Convergence | src/gossip/membership_list.cpp:22-92 | nodes that learn the same claims about a member, in any order and with repeats, agree on it |
| MembershipTable.QueueIsClimb | src/gossip/membership_list.cpp:274-292 | an operation queues news exactly when a view strictly rises, and queues the new view |
| MembershipTable.EnqueuesBoundedByClimb | src/gossip/membership_list.cpp:95-96 | the updates queued about a member are at most the climb of its view |
| MembershipTable.EnqueueBudget | src/gossip/membership_list.cpp:14-165 | at most 3(k+1) updates about a member are queued while its incarnation stays at or below k |
| MembershipTable.NewClaimsAreContributions | src/gossip/membership_list.cpp:274-292 | a table and its buffer assert nothing that an operation did not contribute |
| MembershipLists.MembershipList.constructor | src/gossip/membership_list.cpp:12 | an empty table at incarnation 0 |
| MembershipLists.MembershipList.QueueUpdate | src/gossip/membership_list.cpp:274-292 | appends the announcement, dropping the oldest entry at 50 |
| MembershipLists.MembershipList.ApplyUpdate | src/gossip/membership_list.cpp:14-107 | the whole new table, the result and the callback of conflict resolution, load refresh included |
| MembershipLists.MembershipList.MarkSuspect | src/gossip/membership_list.cpp:109-129 | only an alive member becomes suspect, at its incarnation, and is announced |
| MembershipLists.MembershipList.MarkDead | src/gossip/membership_list.cpp:131-150 | a member not yet dead becomes dead at its incarnation, and is announced |
| MembershipLists.MembershipList.AddMember | src/gossip/membership_list.cpp:152-165 | an unknown member is added alive at 0 and announced; a known one is untouched |
| MembershipLists.MembershipList.IncrementMyIncarnation | src/gossip/membership_list.cpp:245-262 | bumps by one and overwrites the self entry whatever it said |
| MembershipLists.MembershipList.GetUpdatesForPiggyback | src/gossip/membership_list.cpp:218-238 | hands out the oldest updates, counts their sends and pops the spent ones |
| MembershipLists.MembershipList.GetMembersByState | src/gossip/membership_list.cpp:175-185 | every peer in the state, once, and never the node itself |
| SwimNode.Received | src/gossip/swim.cpp:344-372 | receiving an update is a refutation if one is due and then conflict resolution |
| SwimNode.JoinLearnsSeeds | src/gossip/swim.cpp:106-112 | joining makes exactly the foreign seeds known, alive at 0, and changes no view |
| SwimNode.SenderIsKnown | src/gossip/swim.cpp:275-306 | after a message that introduces its sender is processed the greeting changes nothing |
| SwimNode.TimeoutsAreExact | src/gossip/swim.cpp:245-256 | exactly the expired suspects are dead afterwards, at the incarnation they were suspected at, and nothing else in the table changes |
| SwimNode.SuspectHasItsTime | src/gossip/swim.cpp:249-254 | a suspect left alone since suspicion fell on it is dead after a scan exactly if the timeout has passed since, and untouched before |
| SwimNode.BurialIsNews | src/gossip/swim.cpp:249-255 | each death is queued for gossip |
| SwimNode.OwnStepKeepsExact | src/gossip/membership_list.cpp:109-165 | local operations leave the node's own entry exactly its incarnation, alive |
| SwimNode.ReceiptKeepsExact | src/gossip/swim.cpp:344-372 | so does any receipt that does not outrun the node, and it leaves a rumour behind |
| SwimNode.OneReceiptRefutes | src/gossip/swim.cpp:359-372 | one receipt refutes a rumour if and only if the rumour is not from a later incarnation |
| SwimNode.OneReceiptMayNotRefute | src/gossip/swim.h:53-57 | a fresh node told that it is dead at incarnation 1 calls itself dead |
| SwimNode.OutrunsExactly | src/gossip/swim.cpp:344-372 | a node at a hearing one rumour at k outruns it with receipt k+1-a and not before, and then holds itself alive at k+1 |
| SwimNode.RefutationsAreBounded | src/gossip/swim.cpp:344-372 | against any mix of rumours up to k each refutation uses up one unit of k+1-incarnation, which stays non-negative |
| SwimNode.LeaverOutrunsItsFarewell | src/gossip/swim.cpp:83-91 | a leaver that keeps running calls itself dead when its farewell comes back, and outruns the farewell at the second receipt |
| SwimProtocols.SwimProtocol.constructor | src/gossip/swim.cpp:38-47 | a node starts knowing only itself, and has queued that |
| SwimProtocols.SwimProtocol.JoinCluster | src/gossip/swim.cpp:106-112 | adds each seed but its own address |
| SwimProtocols.SwimProtocol.CheckSelfRefutation | src/gossip/swim.cpp:359-372 | increments exactly when a rumour about the node is at its incarnation or later |
| SwimProtocols.SwimProtocol.ProcessPiggybackedUpdates | src/gossip/swim.cpp:344-349 | receives every update of the message in order |
| SwimProtocols.SwimProtocol.SendMessage | src/gossip/swim.cpp:385-415 | the oldest queued updates in order, as many as fit, and then the node's address, incarnation and load, alive |
| SwimNode.AnswersCarryNews | src/gossip/swim.cpp:300-335 | a ping is acknowledged and a probe request for a known member passed on, each with the oldest news; nothing else is answered |
| SwimProtocols.SwimProtocol.HandleMessage | src/gossip/swim.cpp:275-306 | updates first, then the greeting and the reply |
| SwimProtocols.SwimProtocol.LeaveCluster | src/gossip/swim.cpp:78-101 | the farewell goes to the address of each alive peer and nobody else |
| SwimProtocols.SwimProtocol.CheckSuspectTimeouts | src/gossip/swim.cpp:245-256 | the table becomes what marking exactly the expired suspects dead makes of it, each once, in some order |
| Cluster.ClaimsHaveOrigins | src/gossip/swim.cpp:344-415 | every claim in a table, a buffer or a message was there before or originates in the step |
| Cluster.OwnershipForever | src/gossip/swim.cpp:344-372 | over any run self entries stay exact and no claim outruns its member, farewells excepted |
| Cluster.IncarnationsAreOwned | src/gossip/membership_list.cpp:245-262 | the same from the start: claims about a node stay at or below its incarnation, claims about seeds at 0 |
| Cluster.ViewsOnlyRise | src/gossip/membership_list.cpp:245-262 | no node's view of any member ever decreases, despite the blind overwrite |
| Cluster.RefutationEndToEnd | src/gossip/swim.cpp:359-372 | whoever processes a later message's self update holds the member above the refuted rumour ever after and never accepts it again |
| Cluster.SentNewsIsCounted | src/gossip/swim.cpp:393-398 | a message carries the oldest queued updates, and the buffer counts an entry as sent exactly when it is on the message |
| Cluster.NewsTravels | src/gossip/swim.cpp:393-398 | whoever processes an update of a message holds at least what the sender had queued there, ever after |
| Cluster.HandlingTeaches | src/gossip/swim.cpp:275-280 | whoever handles a whole message holds at least each of its claims |
| Cluster.ExhaustedWasCarried | src/gossip/membership_list.cpp:225-235 | over any run an update that leaves a buffer exhausted was on ten messages its node sent |
| Cluster.LeaveIsFinal | src/gossip/swim.cpp:78-101 | whoever processes a farewell holds the leaver dead one above its last incarnation ever after |
| Cluster.NoSuspicionFromThinAir | src/gossip/membership_list.cpp:109-150 | every suspicion or death claim at i was preceded by a mark at i, and every climb past i too |
| Cluster.IncarnationAtMostMarks | src/gossip/membership_list.cpp:109-150 | incarnations never exceed the number of marks; without marks a member is alive at 0 in every view |
| Cluster.NoDeathWithoutSuspicion | src/gossip/swim.cpp:245-256 | when the timeout scan finds only suspects, every death claim at i that is no farewell, and every climb past i, was preceded by a suspicion raised at i |
| Cluster.SilentNodesStaySilent | src/gossip/swim.cpp:402-412 | if a node reports no load of its own, no table, buffer or message ever reports any of it |
| Cluster.DisseminationIsPaidByMarks | src/gossip/membership_list.cpp:274-292 | no node queues more than three updates about a member per mark about it, plus three, plus three after it left |
| Cluster.HandlingIsARun | src/gossip/swim.cpp:275-306 | handling a whole message equals a run of the cluster's steps, table and sent messages alike |
| Cluster.MessagesIntroduceTheirSender | src/gossip/swim.cpp:402-412 | every message ever sent ends with an update about its sender |
| Restarts.ClaimsStayBelowPeak | src/gossip/swim.cpp:344-372 | through any restarts and leaves nobody claims an incarnation that its member never announced in any of its lives |
| Restarts.PeerViewsOnlyRise | src/gossip/membership_list.cpp:35-74 | a running node's view of any other member never decreases, whoever restarts and whatever is on the network |
| Restarts.OwnershipResumes | src/gossip/swim.cpp:359-372 | once restarted nodes have outrun their earlier lives the cluster is under ownership again |
| HashRing.PutIsAssignment | src/gateway/load_balancer.cpp:61 | setting a point overwrites or inserts, and keeps the ring ordered |
| HashRing.LowerBound | src/gateway/load_balancer.cpp:102 | the first point not below the hash |
| HashRing.WalkHits | src/gateway/load_balancer.cpp:109-124 | a walk that stops has found the choice |
| HashRing.WalkPasses | src/gateway/load_balancer.cpp:126-134 | a walk that passes a point goes on, or has met every point exactly once and there is no choice |
| HashRing.ChoiceIsNearest | src/gateway/load_balancer.cpp:94-137 | the choice is the clockwise nearest eligible point, and none exactly when no point is eligible |
| HashRing.VirtualKeysAreDistinct | src/gateway/load_balancer.cpp:59 | two virtual nodes share a ring key only if they are the same one, whatever characters the names hold |
| HashRing.DecimalsAreNumerals | src/gateway/load_balancer.cpp:59 | numbers are written in ordinary decimal |
| HashRing.InjectiveHashIsCollisionFree | src/gateway/load_balancer.cpp:57-63 | so only the hash itself can make virtual nodes collide |
| HashRing.RingIsDetermined | src/gateway/load_balancer.cpp:51-67 | without collisions a point is on the ring exactly when it is a virtual node of a replica it was built from |
| HashRing.EveryVirtualNodeHasItsPoint | src/gateway/load_balancer.cpp:57-63 | every replica has a point at the hash of its name and each of its numbers |
| HashRing.OwnersAreExact | src/gateway/load_balancer.cpp:51-67 | the ring's owners are replicas it was built from, and all of them without collisions |
| HashRing.MinimalDisruption | src/gateway/load_balancer.cpp:90-138 | removing a replica moves only keys that chose it, adding one moves keys only onto it, for every key and eligible set |
| ReplicaRegistries.ReplicaRegistry.UpdateFromGossip | src/gateway/replica_registry.cpp:23-53 | creates or updates one entry, keeping counter, weight, draining and a known gRPC address |
| ReplicaRegistries.GossipKeepsLocal | src/gateway/replica_registry.cpp:23-53 | gossip leaves other entries alone, and of its own the counter, weight, drain and a known gRPC address |
| ReplicaRegistries.ReplicaRegistry.GetAliveReplicas | src/gateway/replica_registry.cpp:77-91 | every routable replica exactly once, and nothing else |
| ReplicaRegistries.ReplicaRegistry.IncrementActive | src/gateway/replica_registry.cpp:108-114 | counts one up if the replica is known |
| ReplicaRegistries.ReplicaRegistry.DecrementActive | src/gateway/replica_registry.cpp:116-122 | counts one down if the replica is known |
| ReplicaRegistries.ReplicaRegistry.SetDraining | src/gateway/replica_registry.cpp:124-132 | sets the flag if the replica is known |
| LoadBalancers.CapacityTestsAgree | src/gateway/load_balancer.cpp:121 | the two tiers test capacity alike if and only if the capacity is not negative or leaves room anyway |
| LoadBalancers.CapacityTestsDiffer | src/gateway/load_balancer.cpp:173 | at capacity -1 the walk passes a new replica over and the fallback takes it |
| LoadBalancers.StaleRingFits | src/gateway/load_balancer.cpp:110-124 | after any sequence of registry changes a ring names only replicas that are known and addressable |
| LoadBalancers.SelectionIsSoundAndComplete | src/gateway/load_balancer.cpp:25-35 | on a ring of any age: what is selected may serve; with sane capacities nothing is selected exactly when nothing may serve, and the fallback's choice has the least load for its weight |
| LoadBalancers.NearestToPrompt | src/gateway/load_balancer.cpp:97-124 | while the ring has a replica for it, a prompt gets the one clockwise nearest to the hash of its first 64 characters |
| LoadBalancers.PromptsSpread | src/gateway/load_balancer.cpp:97-103 | two prompts that get different replicas |
| LoadBalancers.PrefixAffinity | src/gateway/load_balancer.cpp:97-99 | prompts that share their first 64 characters get the same replica while the ring has an eligible one |
| LoadBalancers.LoadBalancer.RebuildRing | src/gateway/load_balancer.cpp:51-67 | the ring is one built from exactly the routable replicas |
| LoadBalancers.LoadBalancer.Accept | src/gateway/load_balancer.cpp:115-124 | a ring owner is taken exactly when it is not excluded, known, not draining, not dead and has capacity |
| LoadBalancers.LoadBalancer.SelectByConsistentHash | src/gateway/load_balancer.cpp:90-138 | terminates with the first eligible owner of the rotation, or after examining every point exactly once |
| LoadBalancers.LoadBalancer.SelectByLeastConnections | src/gateway/load_balancer.cpp:160-197 | a least active/weight candidate whatever the ties, or none |
| LoadBalancers.LoadBalancer.SelectReplica | src/gateway/load_balancer.cpp:25-35 | the ring's choice, else the fallback's |
| GatewaySync.CallbackRestores | src/gateway/main.cpp:70-89 | a callback that reports what became of the member's entry restores agreement of registry, ring and gossip |
| GatewaySync.NextKeepsAgreement | src/gateway/main.cpp:70-89 | every gossip, drain or counting step keeps agreement |
| GatewaySync.InitialAgreement | src/gateway/main.cpp:54-70 | a gateway of any name starts in agreement |
| GatewaySync.StrandingBreaksAgreement | src/gateway/replica_registry.cpp:44-52 | an update breaks agreement exactly when it gives an unaddressable replica a usable address without changing its state |
| GatewaySync.StrandedReplicaMissesTheRing | src/gateway/main.cpp:64-67 | three updates after which a replica is routable and the ring does not know it |
| GatewaySync.NameKeepsOut | src/gateway/replica_registry.cpp:77-91 | a restarted gateway that hears an old suspicion about itself enters its own ring exactly if its name does not keep it out |
| GatewaySync.DrainTakesOffTheRing | src/gateway/rolling_updater.cpp:51-52 | draining takes a replica, and no other, off the ring |
| GatewaySync.EndOfDrainPutsBack | src/gateway/rolling_updater.cpp:51-52 | the end of the drain puts it back if nothing else keeps it out |
| GatewaySync.ClusterMessagesEchoNoLoad | src/gossip/swim.cpp:402-412 | no message of a cluster carries load of a gateway that reports none |
| GatewaySync.CachedRoutingAgrees | src/gateway/main.cpp:70-89 | in every state of every run the registry mirrors gossip states, missing peers are dead, ring owners are exactly the routable replicas, and a gateway named as one is not among them |
| GatewaySync.GreetingStrangersBreaksAgreement | src/gossip/swim.cpp:300-306 | a greeting keeps agreement if and only if its sender is known already or a seed |
| GatewaySync.ClusterMessagesGreetNoStrangers | src/gossip/swim.cpp:402-412 | no message of any cluster run greets a stranger |
| GatewaySync.LoadMirror | src/gossip/membership_list.cpp:47-104 | the registry's load and model version fall behind exactly on a higher-incarnation update that changes them and keeps the state |
| GatewaySync.LoadFallsBehind | src/gossip/membership_list.cpp:76-104 | a new gateway that hears of a replica at 0 and then at 1 with another capacity keeps the old one in its registry |
| GatewayNodes.GatewayNode.OnMembershipChange | src/gateway/main.cpp:70-89 | refreshes the entry from gossip and rebuilds the ring on a state change only |
| GatewayNodes.GatewayNode.HearUpdate | src/gossip/swim.cpp:344-349 | refutation, conflict resolution and callback as one step of the model |
| GatewayNodes.GatewayNode.HearAll | src/gossip/swim.cpp:344-349 | agreement holds through all updates of a message, and table and registry are what they make of them in order |
| GatewayNodes.GatewayNode.HandleUpdates | src/gossip/swim.cpp:275-306 | the same through a whole message and its greeting |
| GatewayNodes.GatewayNode.SuspectPeer | src/gossip/membership_list.cpp:109-129 | marking and callback as one step of the model |
| GatewayNodes.GatewayNode.BuryPeer | src/gossip/membership_list.cpp:131-150 | the same for a death |
| GatewayNodes.GatewayNode.SetDraining | src/gateway/rolling_updater.cpp:51-52 | flag and rebuild as one step of the model |
| CircuitBreakers.CircuitBreaker.AllowRequest | src/gateway/circuit_breaker.cpp:26-56 | the verdict and the new state in each of the three states |
| CircuitBreakers.CircuitBreaker.EvaluateState | src/gateway/circuit_breaker.cpp:137-151 | trips a closed breaker on a full window above the threshold |
| CircuitBreakers.CircuitBreaker.RecordSuccess | src/gateway/circuit_breaker.cpp:75-90 | slides the window; closes and clears in HALF_OPEN |
| CircuitBreakers.CircuitBreaker.RecordFailure | src/gateway/circuit_breaker.cpp:92-108 | slides the window; reopens with a fresh cooldown in HALF_OPEN |
| CircuitBreakers.ProbeExactlyInHalfOpen | src/gateway/circuit_breaker.cpp:26-108 | after any calls a probe is in flight exactly in HALF_OPEN |
| CircuitBreakers.CooldownSpacing | src/gateway/circuit_breaker.cpp:33-43 | while the breaker does not close, the n-th request let through comes at least n cooldowns after the trip |
| CircuitBreakers.OpenLetsThroughExactly | src/gateway/circuit_breaker.cpp:33-43 | an open breaker lets a request through, as its probe, exactly when the cooldown is over |
| CircuitBreakers.RecoversExactly | src/gateway/circuit_breaker.cpp:33-43 | after the outcome that opened it and until another is recorded, it lets through the first request that comes when the cooldown is over, and no other |
| CircuitBreakers.OneProbeAtATime | src/gateway/circuit_breaker.cpp:46-52 | while it does not close, requests let through equal the reopenings plus the pending probe |
| CircuitBreakers.WindowIsRecent | src/gateway/circuit_breaker.cpp:75-87 | the window is the last outcomes recorded since the last close |
| CircuitBreakers.ClosedIsHealthy | src/gateway/circuit_breaker.cpp:137-151 | a closed breaker never sits on a full window above the threshold |
| CircuitBreakers.TripsExactly | src/gateway/circuit_breaker.cpp:137-151 | a closed breaker trips exactly when the outcomes since the last close fill a window and more of the last window are failures than the threshold allows |
| CircuitBreakers.NeverWedges | src/gateway/circuit_breaker.cpp:75-108 | in HALF_OPEN some request that was let through has yet to record an outcome |
| CircuitBreakers.FirstRecordDecides | src/gateway/circuit_breaker.cpp:82-103 | in HALF_OPEN the first outcome recorded, and nothing else, decides: success closes, failure reopens |
| CircuitBreakers.ProbeDecidesExactly | src/gateway/circuit_breaker.h:37-40 | in every continuation the deciding outcome is the probe's, if and only if no other request is pending when it is let through and none may join past the breaker |
| CircuitBreakers.StragglerDecides | src/gateway/circuit_breaker.cpp:82-87 | an earlier request's late success closes the breaker over a pending probe |
| RequestQueues.RequestQueue.Enter | src/gateway/request_queue.cpp:38-46 | refuses when full, else hands out the next ticket |
| RequestQueues.RequestQueue.Leave | src/gateway/request_queue.cpp:52-62 | served exactly when the ticket has been passed |
| RequestQueues.RequestQueue.NotifyCapacityAvailable | src/gateway/request_queue.cpp:77-83 | serves one more ticket, whether or not anybody waits |
| RequestQueues.RunsAreLawful | src/gateway/request_queue.cpp:33-83 | the invariant of every run: bound, tickets, served tickets, notifications |
| RequestQueues.QueueIsBoundedAndFair | src/gateway/request_queue.cpp:33-83 | waiters never exceed the bound and successful waits never exceed notifications |
| RequestQueues.AdmitsExactly | src/gateway/request_queue.cpp:38-46 | after any calls a request is admitted exactly while fewer wait than the bound |
| RequestQueues.ServedInTurn | src/gateway/request_queue.cpp:52-62 | a wait ends well exactly when more notifications came than tickets were handed out before its own |
| RequestQueues.NotifyWakesExactly | src/gateway/request_queue.cpp:77-83 | waits are enabled in ticket order; a notification enables at most one, and one exactly when the holder of the served ticket still waits |
| RequestQueues.TimeoutSwallowsNotification | src/gateway/request_queue.h:49-50 | a notification after a timeout leaves the remaining waiter blocked |
| TokenStreams.KeptIsGapless | src/gateway/gateway_server.cpp:136-148 | the attempts that did not fail delivered exactly indices 0 to tokens_sent, in order |
| TokenStreams.ExactlyOnceExactly | src/gateway/gateway_server.cpp:136-146 | the client sees each index once and in order if and only if no failed attempt that delivered tokens is followed by more tokens |
| TokenStreams.CompleteCovers | src/gateway/gateway_server.cpp:151-153 | a complete delivery covers every index |
| Inference.Generate | src/replica/replica_server.cpp:61-104 | the replica streams every index from the tokens already generated to the first interruption, and ends well exactly when there is none |
| Inference.StreamFromReplica | src/gateway/gateway_server.cpp:397-458 | forwards up to the index at which the client is lost, and yields -1 exactly when everything was forwarded and the stream failed |
| Inference.ChooseReplica | src/gateway/gateway_server.cpp:97-112 | selects, waits at most once and gives up exactly when unserved |
| Inference.ServeAttempt | src/gateway/gateway_server.cpp:123-149 | one granted attempt: its segment, its result and its calls in order |
| Inference.Iterate | src/gateway/gateway_server.cpp:92-158 | one iteration is exactly the turn that the environment, the tries before it and the tokens sent determine |
| Inference.Infer | src/gateway/gateway_server.cpp:92-174 | status, output and calls are exactly those of the turns of at most three iterations |
| Failover.AttemptsChain | src/gateway/gateway_server.cpp:126-148 | every attempt resumes after the tokens kept so far, and no more are kept than were asked for |
| Failover.TurnsFollowTheEnvironment | src/gateway/gateway_server.cpp:93-146 | an iteration goes to the replica it is sent to, at once or after a served wait, if the breaker lets it through; its stream, its failure and its other ends are what the environment says |
| Failover.NoReplicaTwice | src/gateway/gateway_server.cpp:86-90 | no replica is refused or streamed from twice in one request |
| Failover.CancelledExactly | src/gateway/gateway_server.cpp:93-95 | CANCELLED exactly when an iteration is begun with the client cancelled |
| Failover.ExhaustedExactly | src/gateway/gateway_server.cpp:97-105 | RESOURCE_EXHAUSTED exactly when an iteration finds no replica and is not served by the queue |
| Failover.GivesUpExactly | src/gateway/gateway_server.cpp:160-174 | UNAVAILABLE or a partial OK exactly when every iteration was begun and stayed without a replica, was refused, failed or ended early |
| Failover.UnavailableExactly | src/gateway/gateway_server.cpp:164-174 | UNAVAILABLE exactly when every iteration was spent and nothing that counts was delivered |
| Failover.CompletedExactly | src/gateway/gateway_server.cpp:148-162 | the request is whole exactly when some iteration brings the count there, and then it is OK with exactly the indices asked for |
| Failover.FailoverWorks | src/gateway/gateway_server.cpp:40-64 | an iteration sent to a replica, at once or after a served wait, that is let through and streams to the end before a client that stays completes the request, whatever happened before |
| Failover.ServedAfterWaiting | src/gateway/gateway_server.cpp:98-112 | a request that finds no replica, is woken and is then served in whole |
| Failover.OutcomesAreReported | src/gateway/gateway_server.cpp:136-149 | the breakers are told exactly how each attempt ended, in order, and nothing else |
| Failover.DeliveredThenOk | src/gateway/gateway_server.cpp:61-64 | a request that delivered tokens is OK exactly when some came from an attempt that did not fail, no iteration met a cancelled client and none was left unserved |
| Failover.LostClientGetsNothing | src/gateway/gateway_server.cpp:423-441 | a client that is lost in one attempt is sent nothing by any later one |
| Failover.OkIsWhole | src/gateway/gateway_server.cpp:148-174 | for a client that stays OK means that exactly the tokens asked for were kept, and it is never told CANCELLED |
| Failover.RequestIsPermitted | src/gateway/gateway_server.cpp:92-174 | every call a plain request makes is one the interleaved handlers allow, to its end |
| Failover.FailoverMayRepeat | src/gateway/gateway_server.cpp:136-146 | an environment in which the loop delivers token 0 twice |
| Failover.UnavailableAfterTokens | src/gateway/gateway_server.cpp:173-174 | an environment in which it delivers tokens and ends UNAVAILABLE |
| Failover.ExhaustedAfterTokens | src/gateway/gateway_server.cpp:102-105 | one in which the client's stream breaks after a token that counts and the request ends RESOURCE_EXHAUSTED |
| Failover.CancelledAfterTokens | src/gateway/gateway_server.cpp:93-95 | one in which it ends CANCELLED after tokens that count |
| Hedging.ServeAlone | src/gateway/gateway_server.cpp:211-224 | a single stream up to the index at which the client is lost, with its calls |
| Hedging.PumpWinner | src/gateway/gateway_server.cpp:337-363 | the winner's first token and its rest up to the index at which the client is lost |
| Hedging.ServeRace | src/gateway/gateway_server.cpp:229-369 | the winner's output, or nothing of a lost race; calls as the race went |
| Hedging.InferHedged | src/gateway/gateway_server.cpp:193-369 | status, output and calls are exactly those of the two picks and the race |
| Hedging.HedgeEndsExactly | src/gateway/gateway_server.cpp:208-224 | status, source and output read off the picks, the race and the streams |
| Hedging.UnpickedIsExhausted | src/gateway/gateway_server.cpp:200-204 | RESOURCE_EXHAUSTED exactly when the first pick finds nothing, and then nothing is sent |
| Hedging.HedgeReports | src/gateway/gateway_server.cpp:312-333 | the breakers are told how a single stream ended, or that the winner and a loser with a token did well, or nothing |
| Hedging.HedgedIsGapless | src/gateway/gateway_server.cpp:337-363 | the client always sees one gapless stream, although the first write is not looked at |
| Hedging.HedgedOkIsWholeExactly | src/gateway/gateway_server.cpp:211-224 | a hedged OK is the whole request exactly when the replica shown streams to the end before a client that stays, and ends well if it is alone |
| Hedging.HedgedOkMayBeCut | src/gateway/gateway_server.cpp:345-368 | an environment in which the winner breaks off, the loser was whole, and the client is told OK with half |
| Hedging.HedgeIsPermitted | src/gateway/gateway_server.cpp:193-369 | every call a hedged request makes is one the interleaved handlers allow, to its end |
| Handlers.MoveBalances | src/gateway/gateway_server.cpp:114-149 | at every program point a call changes what the handler holds and owes by exactly its effect on shared state |
| Handlers.NextKeepsBalance | src/gateway/replica_registry.cpp:108-122 | every step of every handler, gossip and draining keeps the balance |
| Handlers.Conservation | src/gateway/gateway_server.cpp:114-149 | over all interleavings counters equal holdings, notifications plus debts equal releases, and records plus debts equal grants |
| Handlers.NothingLeaks | src/gateway/gateway_server.cpp:193-369 | when all requests have returned, counters are 0, no notification is missing, and grants and records match |
| Handlers.NoBreakerWedges | src/gateway/circuit_breaker.cpp:26-108 | over all interleavings with the breakers deciding: a breaker in HALF_OPEN is owed a record by a request in flight, so none is in HALF_OPEN when all have returned |
| Handlers.WaitsArePaid | src/gateway/request_queue.cpp:33-83 | over all interleavings with the queue deciding: no more waits end well than replicas were released, and no more handlers wait than the queue admits |
| Handlers.BreakersAnswerHandlers | src/gateway/circuit_breaker.cpp:168-181 | within the system each breaker goes through exactly the questions and outcomes of the handlers, so its theorems hold there |
| Handlers.QueueServesHandlers | src/gateway/request_queue.cpp:33-83 | and the queue through exactly their calls |

## Left out

- Sockets, gRPC, protobuf, logging, the clients and argument parsing: input and output.
- Acknowledgements, probe rounds and indirect probes: a mark is a step that may come at any time.
- The relay of an acknowledgement by a proxy: the thread that waits for it is the one that would record it.
- The instant between a self-refutation and the conflict resolution that follows it: receiving an update is atomic.
- Several clock readings while one message is processed: one reading serves the whole message.
- Cluster.LeaveIsFinal: leaving is a node's last step in the cluster, which the code does not enforce; what a leaver that keeps running does is SwimNode.LeaverOutrunsItsFarewell.
- GatewaySync.CachedRoutingAgrees: excludes updates that strand a replica, which break agreement (GatewaySync.StrandingBreaksAgreement), and load reported of the gateway, which no message carries (GatewaySync.ClusterMessagesEchoNoLoad).
- GatewayNodes.GatewayNode.HandleUpdates: excludes the same of each update as its turn comes.
- Gossip addresses with a port that is not a number: deriving a gRPC address fails on them.
- LoadBalancers.SelectionIsSoundAndComplete: its completeness assumes non-negative capacities and no replica with the empty name.
- Explicit gRPC addresses: SetGrpcAddress only adds or replaces an address.
- Rounding of scores and error rates, and weights other than positive ones: scores and rates are exact reals.
- The uniformity of tie-breaking and of hashing.
- A hard bound on active requests: selection and counting are separate steps, so there is none.
- Draining as "no request in flight" on the replica: the flag is tested before the request is counted.
- The rolling updater's loop over replicas, its callbacks and waiting.
- Liveness under real time and the probability of convergence.
