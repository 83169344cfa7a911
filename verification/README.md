# A verified model of the gossipsub router

This project models one node of the gossipsub v1.1/v1.2 router of js-libp2p-gossipsub and proves properties of it.
Everything the router decides is local state changed step by step, so the model is a set of classes whose fields are the
router's fields and whose methods change them as the program does. Beside each class stands a description on plain values of
what its methods do; the methods are proved to do that, and the theorems about single steps and whole runs are proved about
the description. The modules named `…Rules`, `…Effects`, `…Charges`, `…Credits` and `…Bytes` say what each step comes to in
terms of the fields, counters and bytes alone.

| files | what they model |
|---|---|
| `Shuffle`, `SetUtils`, `MeshTrim`, `MeshSelection`, `MeshPass`, `MeshTheorems` | the heartbeat's maintenance of one topic mesh |
| `RouterModel`, `RouterTheorems`, `RouterInvariants`, `RouterAnswers`, `RouterGossip`, `RouterMemo`, `RouterWitnesses`, `GraftRules`, `HeartbeatRules`, `HeartbeatEffects`, `HeartbeatCounts`, `RouterRules`, `PublishRules`, `PeerRules`, `Router` | meshes, fanout, subscriptions, backoff and gossip targets over whole runs |
| `Idontwant`, `IHave`, `Seen`, `TimeCache` | budgets for control messages, de-duplication |
| `Products`, `ScoreParams`, `ComputeScore`, `ScoreTheorems`, `Decay`, `Deliveries`, `PeerScoreModel`, `PeerScoreTheorems`, `DeliveryCounts`, `MeshCredits`, `RecordRules`, `ScoreEvents`, `ScoreCharges`, `PeerScore` | peer scoring |
| `IWantTracer`, `IWantPenalties` | promises to deliver, and the penalty for breaking them |
| `MessageCacheModel`, `MessageCacheTheorems`, `MessageCache` | the sliding-window message cache |
| `HeartbeatScore`, `Node` | one heartbeat over all of these, and what it does to the scores |
| `Wire`, `RpcSchema`, `Rpc`, `RpcBytes`, `RpcCodec` | the protobuf encoding of RPCs |

Conventions. Time is an argument of every step; runs require that it does not go back. Randomness is an argument
(`Shuffle.ShuffleArray` takes the drawn indices) or a free choice of the description. Scores, counters and weights are reals.
A JavaScript `Set` or `Map` is a set or map field, with a sequence of its keys where insertion order matters. Each stretch of
the program between two `await`s is one step. Exceptions are `None` results. Parameters are assumed to satisfy the relations
documented in `src/constants.ts:30-65`: `Dlo <= D <= Dhi`, `Dscore <= D`, `Dout < Dlo`, `2 * Dout <= D`.

## What the proofs found

Where the program does something else than its documentation or a natural reading suggests, the program is modelled and the
exact condition is proved.

- `src/constants.ts:51-55` promises that the best `Dscore` peers survive trimming. `src/index.ts:2971` bubbles up `D - outbound`
  peers instead of `Dout - outbound`, so they need not: `TopScoresKeptIff` says exactly when they do, `BestPeerCanBeDisplaced`
  and `AllDisplaced` show how they do not.
- A join takes up to `D` random peers on top of those taken over from fanout, so a fresh mesh can hold more than `D` peers:
  `JoinSize` gives the condition, `JoinCanExceedD` a run.
- `src/index.ts:3054` says that fanout holds topics that are not joined. With flood publishing off, publishing to a joined topic
  whose mesh is empty puts it into fanout: `FanoutOfJoinedTopic`, and the run `JoinedTopicCanHaveFanout`.
- `src/index.ts:2590` says that gossip excludes mesh and fanout peers. The gossip targets of such a topic's fanout replace those
  of its mesh, and know nothing of it: `GossipAvoidsMesh` says which mesh peers are gossiped to, `SettledMeshGossip` and
  `DrawsThatSpare` when that can be told before the heartbeat, and the run `GossipCanEnterMesh` ends in it.
- `src/score/peer-score.ts:125-127` says that a peer cannot reset a negative score by reconnecting. `addPeer` overwrites the
  retained stats, so the peer is a newcomer as soon as the score remembered at its departure runs out, `scoreCacheValidityMs`
  after it was computed; until then that score is read, bad or good: `RetentionDoesNotSurviveReconnect`. It also leaves
  the peer listed at addresses its stats no longer know: `ExactKeptIff`, and the run `AddressLeftBehind`.
- `deliverMessage` counts a first delivery before it looks at the status, so every call counts, however few the messages:
  `FirstDeliveriesCounted`. A message accepted by an asynchronous validator is delivered twice (`src/index.ts:2381`, then
  `src/index.ts:2206`) and counts twice: `AcceptedCountsTwice`. `SecondDeliveryHarmlessIff` says when that changes nothing.
- A message removed from the cache and put again before its old window has gone is evicted early: `PutLastsIff`, and the run
  `EarlyEviction`. The count of messages not yet validated is never corrected after a removal: `CountDrift`, and the run
  `CountStaysBehind`.
- The bound on tracked IDONTWANT ids holds unless `mcacheLength` is 0: `BoundNeedsHistory`.

## Model

| member | source | states |
|---|---|---|
| Shuffle.ShuffleArray | src/utils/shuffle.ts:6-21 | the array ends as the swaps of the drawn indices leave it, which is a rearrangement of what it was |
| Shuffle.ShuffledIsPermutation | src/utils/shuffle.ts:14-19 | whatever is drawn, shuffling loses, repeats and adds nothing |
| Shuffle.EveryPermutationIsDrawn | src/utils/shuffle.ts:10-19 | every rearrangement of a repetition-free array is the outcome of some draws |
| SetUtils.RemoveItems | src/utils/set.ts:4-21 | returns the first `ineed` elements that satisfy the condition, in order, and leaves exactly the others, in order |
| MeshTrim.Rotate | src/index.ts:2949-2956 | the element at `i` comes to the front, those before it move one place back, the rest stays |
| MeshTrim.GatherSelected | src/index.ts:2959-2968 | after the first loop the outbound peers among the first `D` stand in front, the others follow in their old order |
| MeshTrim.FetchUnselected | src/index.ts:2971-2977 | after the second loop as many outbound peers as fit into the first `D` are there, the others keep their order |
| MeshTrim.BubbleOutbound | src/index.ts:2939-2978 | the whole bubbling: unchanged when the first `D` hold `Dout` outbound peers, else filled with outbound peers |
| MeshSelection.SelectPeers | src/index.ts:2931-2983 | sorting, shuffling the tail and bubbling split the mesh into kept and excess peers as a selection requires |
| MeshSelection.SelectionPartitions | src/index.ts:2980-2983 | exactly `D` peers are kept; kept and excess share out the old mesh |
| MeshSelection.SelectionKeepsOutbound | src/index.ts:2939-2978 | at least `Dout` outbound peers are kept or all there are; after bubbling exactly as many as fit into `D` |
| MeshSelection.RankRespected | src/index.ts:2932-2983 | among peers that are not outbound, one is pruned only if all ranked after it are |
| MeshSelection.TopScoreRespected | src/index.ts:2932-2983 | a top-scored peer that is not outbound is pruned only along with every lower-scored such peer |
| MeshSelection.TopScoresKeptIff | src/index.ts:2934-2983 | the `Dscore` best are all kept if and only if bubbling does not happen or leaves them room |
| MeshSelection.AllDisplaced | src/index.ts:2970-2977 | `D` outbound peers beyond the first `D` displace all of the first, the best included |
| MeshSelection.BestPeerCanBeDisplaced | src/index.ts:2971 | a concrete mesh whose best peer is pruned |
| MeshPass.TopicPass.PrunePeer | src/index.ts:2868-2885 | mesh, gossip targets and prune list stay in step |
| MeshPass.TopicPass.GraftPeer | src/index.ts:2887-2903 | the peer joins the mesh and the graft list and leaves the gossip targets; nothing else changes |
| MeshPass.TopicPass.DropNegative | src/index.ts:2905-2916 | exactly the negative peers leave |
| MeshPass.TopicPass.FillMesh | src/index.ts:2918-2928 | a mesh below `Dlo` takes the first candidates, as many as are missing to `D`; any other takes none |
| MeshPass.TopicPass.TrimExcess | src/index.ts:2930-2984 | a mesh above `Dhi` is cut to a selection of `D` |
| MeshPass.TopicPass.GraftOutbound | src/index.ts:2986-3005 | below `Dout` outbound peers, the first outbound candidates left are grafted, as many as are missing; else none |
| MeshPass.TopicPass.GraftOpportunistically | src/index.ts:3007-3030 | on its tick, with a median below the threshold, the first candidates left that beat the median are grafted, up to `opportunisticGraftPeers`; else none |
| MeshPass.TopicPass.Median | src/index.ts:3016-3019 | more than half of the mesh scores at most the median, at least half rounded up at least it |
| MeshPass.TopicPass.Maintain | src/index.ts:2841-3031 | the five steps together: each list holds exactly the peers its step takes |
| MeshTheorems.MeshMatchesLists | src/index.ts:2841-3031 | new mesh = old mesh minus prune list plus graft list; the lists are disjoint, nobody is negative, gossip avoids the mesh |
| MeshTheorems.AtQuotaSize | src/index.ts:2918-2987 | at the quota check the mesh has between min(`Dlo`, survivors + candidates) and `Dhi` peers |
| MeshTheorems.MeshSizeBounded | src/index.ts:2918-3030 | bounds on the mesh after the pass: at most `Dhi` + `Dout` + `opportunisticGraftPeers` |
| MeshTheorems.OutboundQuotaMet | src/index.ts:2986-3005 | `Dout` outbound peers, unless the mesh was below `Dlo` or no outbound candidate is left |
| MeshTheorems.QuotaExact | src/index.ts:2986-3005 | the quota grafts as many outbound peers as are missing, or as there are left |
| MeshTheorems.OpportunisticExact | src/index.ts:3007-3030 | min(`opportunisticGraftPeers`, candidates left that beat the median) peers are grafted when the tick, the mesh and its median call for it, otherwise none |
| MeshTheorems.MedianUnique | src/index.ts:3016-3019 | the two bounds on the median determine it |
| MeshTheorems.MedianIsScore | src/index.ts:3016-3019 | the median is the score of a mesh peer |
| MeshTheorems.SettledStays | src/index.ts:2905-3030 | a mesh of permitted size, with enough outbound peers and no low score, is left as it is |
| HeartbeatRules.MeshRule | src/index.ts:2905-2984 | negative peers leave; of the others all stay, or exactly `D` if they are more than `Dhi`; below `Dlo` as many eligible peers come as are missing to `D`, or all (see also `src/index.ts:2847-2865`) |
| HeartbeatRules.QuotaRule | src/index.ts:2986-3005 | how many dialled peers are grafted, and that they are eligible |
| HeartbeatRules.OpportunisticRule | src/index.ts:3007-3030 | every `opportunisticGraftTicks` heartbeats and on no other, a mesh of more than one with its median below the threshold takes min(`opportunisticGraftPeers`, eligible peers left that beat the median) |
| HeartbeatCounts.TicksCountBeats | src/index.ts:2773 | in every run the tick counter counts the heartbeats |
| HeartbeatCounts.OneRoundInN | src/index.ts:3008 | in every run, of any `n` consecutive heartbeats exactly one has a number that is a multiple of `n` (see also `src/index.ts:1811-1815`) |
| Router.GossipRouter.DoAddBackoff | src/index.ts:1785-1796 | a backoff is recorded unless a later one is there |
| Router.GossipRouter.ClearExpired | src/index.ts:1811-1829 | every few ticks exactly the entries expired beyond the slack go |
| Router.GossipRouter.PreparePrune | src/index.ts:2671-2690 | preparing a PRUNE backs the peer off, unless it speaks v1.0 |
| Router.GossipRouter.HandleGraft | src/index.ts:1597-1687 | answers, penalties, mesh and backoff of a received GRAFT |
| Router.GossipRouter.HandleGraftOf | src/index.ts:1603-1679 | the same for one topic of it |
| Router.GossipRouter.HandlePrune | src/index.ts:1692-1718 | mesh and backoff after a received PRUNE, which stops at the first topic not joined |
| Router.GossipRouter.Subscribe | src/index.ts:1912-1926 | subscribing is a step of the model |
| Router.GossipRouter.Join | src/index.ts:1952-2015 | the mesh starts with the fit fanout peers and, below `D`, random others; fanout forgets the topic |
| Router.GossipRouter.Unsubscribe | src/index.ts:1931-1947 | unsubscribing is a step of the model |
| Router.GossipRouter.Leave | src/index.ts:2020-2041 | the mesh is given up and its peers backed off |
| Router.GossipRouter.GetRandomGossipPeers | src/index.ts:3109-3140 | a random choice of up to `count` reachable peers that pass the filter |
| Router.GossipRouter.SelectPeersToPublish | src/index.ts:2083-2191 | who gets a published message, and what becomes of fanout |
| Router.GossipRouter.AddPeer | src/index.ts:912-934 | the first connection fixes the direction |
| Router.GossipRouter.CreateOutboundStream | src/index.ts:833-878 | a known peer gets at most one stream |
| Router.GossipRouter.HandleReceivedSubscription | src/index.ts:1190-1209 | the peer is added to or taken from the topic |
| Router.GossipRouter.RemovePeer | src/index.ts:939-998 | the peer leaves every set |
| Router.GossipRouter.Heartbeat | src/index.ts:2770-3099 | the part on meshes, backoffs and fanout: tick, backoff clearing, every mesh's pass, the prunes' backoffs, fanout upkeep, and whom gossip goes to |
| Router.GossipRouter.MaintainFanout | src/index.ts:3033-3085 | expired topics go; unfit peers go and others fill up to `D`; gossip targets are chosen outside the new fanout |
| Node.GossipSub.Heartbeat | src/index.ts:2770-3099 | one heartbeat of the whole router: meshes, backoffs, fanout, gossip targets and ids, budgets, records, cache shift; the scores it works with, and the steps it takes with the score: reads, grafts and prunes, none else, each mark once |
| Node.GossipSub.Maintain | src/index.ts:2774-3085 | the scores consulted are read as they are before the passes; the score is told of exactly the peers grafted |
| Node.GossipSub.SendPrunes | src/index.ts:2545-2577 | every PRUNE of the heartbeat is made once, telling the score; the router is as before, the backoffs being on record |
| Node.GossipSub.MakePrune | src/index.ts:2671-2733 | the score told, the backoff recorded, and up to `prunePeers` random peers of the topic offered, none that scores negative |
| Node.GossipSub.Housekeeping | src/index.ts:2793-2826 | budgets start afresh, broken promises are penalised, records that ran out go from all four caches |
| HeartbeatScore.StatsAfterHeartbeat | src/index.ts:2887-2903 | in whatever order a heartbeat reads, grafts and prunes, each peer's stats end the same: one graft or prune where it belongs (see also `src/index.ts:2671-2677`, `src/score/peer-score.ts:297-330`) |
| HeartbeatScore.ReadAnyTime | src/index.ts:2774-2783 | a peer's score is the same read at any time of the heartbeat before the peer is grafted or pruned, so filling the table of scores on demand or beforehand comes to the same (see also `src/score/peer-score.ts:181-211`) |
| RouterMemo.ConsultedSuffices | src/index.ts:2774-3085 | the heartbeat depends on no scores but those of the peers consulted |
| RouterMemo.ConsultedIff | src/index.ts:2847-2865 | the peers consulted are those of the meshes and lasting fanouts and those who could be taken in (see also `src/index.ts:2905-2908`, `src/index.ts:3044-3077`) |
| Node.ToldIff | src/index.ts:2887-2890 | the score is told of exactly the peers that came into a mesh and those that left one (see also `src/index.ts:2671-2677`) |
| Node.OfferRule | src/index.ts:2700-2703 | up to `prunePeers` others of the topic that score at least zero are offered; none without peer exchange or to v1.0 (see also `src/index.ts:3109-3140`) |
| Node.OfferedIff | src/index.ts:2700-2703 | the scores read for that |
| RouterTheorems.PassAdmits | src/index.ts:2847-2865 | a peer that the heartbeat lets into a mesh is reachable, not direct, not negative and without a backoff entry |
| RouterTheorems.StepSafe | src/index.ts:1785-1829 | no step drops or shortens an unexpired backoff, none lets a backed-off peer into a mesh (see also `src/index.ts:1597-1687`, `src/index.ts:1952-2041`, `src/index.ts:2841-2859`) |
| RouterTheorems.BackoffPersists | src/index.ts:1785-1829 | in every run a recorded expiry is kept until it has passed |
| RouterTheorems.BackoffHonoured | src/index.ts:1785-1829 | in every run a peer enters a mesh no earlier than any expiry recorded for it before (see also `src/index.ts:1621-1673`, `src/index.ts:1976-2004`, `src/index.ts:2849-2859`) |
| RouterInvariants.StepInv | src/index.ts:1912-2041 | with `D > 0`, every step keeps: meshes = subscriptions, no direct peer in a mesh, fanout sets of at most `D` (see also `src/index.ts:912-998`, `src/index.ts:1597-1736`, `src/index.ts:2155-2186`, `src/index.ts:2841-3085`) |
| RouterInvariants.AlwaysInv | src/index.ts:1912-2041 | so every reachable state has these (see also `src/index.ts:912-998`, `src/index.ts:1597-1736`, `src/index.ts:2155-2186`, `src/index.ts:2841-3085`) |
| RouterInvariants.RemovedIsNowhere | src/index.ts:939-980 | a disconnect clears the peer from all sets if and only if it was known or in none |
| PeerRules.PeersAsRead | src/index.ts:833-998 | in every run what is known of a peer is what the run says: direction of the first connection, protocol of the first stream, topics last announced (see also `src/index.ts:1190-1209`) |
| RouterInvariants.JoinSize | src/index.ts:1965-2004 | a joined mesh has fewer than 2`D` peers, and at most `D` if and only if a condition on the fanout peers holds |
| RouterWitnesses.JoinCanExceedD | src/index.ts:1965-2004 | a run from the initial state in which a join makes a mesh of more than `D` |
| RouterInvariants.FanoutOfJoinedTopic | src/index.ts:2099-2186 | publishing to a joined topic creates fanout for it if and only if flood publishing is off, its mesh is empty and someone is fit |
| RouterWitnesses.JoinedTopicCanHaveFanout | src/index.ts:2155-2186 | a run from the initial state in which a joined topic gets fanout |
| RouterInvariants.HeartbeatMesh | src/index.ts:2841-3031 | after every heartbeat every mesh has the promised size, scores and outbound quota |
| HeartbeatEffects.BackoffRule | src/index.ts:1785-1829 | a peer taken out of a mesh is backed off for the prune backoff; other backoffs stay, unless it is a fifteenth heartbeat and they ran out longer than one interval ago (see also `src/index.ts:2868-2885`) |
| HeartbeatEffects.FanoutRule | src/index.ts:3033-3085 | which fanout topics last, which peers stay, and how many others come |
| HeartbeatEffects.GossipRule | src/index.ts:2847-2903 | whom gossip goes to: outside the new mesh everybody at or above the threshold that can be reached or was in the mesh (see also `src/index.ts:3055-3085`) |
| RouterGossip.GossipAvoidsMesh | src/index.ts:3055-3085 | gossip avoids the mesh of a topic without live fanout; of one with it, exactly the mesh peers above the gossip threshold that are not in fanout are targets (see also `src/index.ts:2590`, `src/index.ts:2847-2865`) |
| RouterGossip.SettledMeshGossip | src/index.ts:3044-3085 | a settled mesh is gossiped to exactly at the peers that were above the threshold and outside the staying fanout before, and are not drawn into it |
| RouterGossip.DrawsThatSpare | src/index.ts:3078-3084 | before the draw: some draw spares those peers if and only if they are fit and fit in, every draw if and only if there are none or all who are fit are drawn |
| RouterWitnesses.GossipCanEnterMesh | src/index.ts:3054-3085 | a run from the initial state whose heartbeat gossips to a mesh peer |
| RouterAnswers.GraftAnsweredOnce | src/index.ts:1603-1686 | a GRAFT for a joined topic ends in force or answered with PRUNE: never both, never neither |
| GraftRules.AdmittedIff | src/index.ts:1603-1679 | after a GRAFT the peer is in a joined mesh if and only if it was, or nothing speaks against it and there is room or we dialled it; nobody else moves |
| GraftRules.GraftsFillUpTo | src/index.ts:1665-1673 | in every run of GRAFTs from peers that dialled us no mesh grows past the larger of `Dhi` and its size |
| GraftRules.GraftCosts | src/index.ts:1627-1650 | the behaviour penalties of a GRAFT are the sum of its topics' charges; peer exchange is offered if and only if all its topics are clean |
| GraftRules.TurnedDownIsBackedOff | src/index.ts:1621-1686 | whoever is turned down is backed off for the prune backoff |
| RouterAnswers.PxForTheUnsuspected | src/index.ts:1601-1686 | peer exchange is offered only if nothing speaks against the peer in any topic of the GRAFT |
| RouterAnswers.PruneObeyed | src/index.ts:1695-1717 | after a PRUNE the peer is out of every mesh it names, and backed off for at least the seconds it asks, or the prune backoff |
| RouterRules.PruneRule | src/index.ts:1692-1718 | the peer leaves exactly the meshes of the entries up to the first topic not joined, and is backed off in each for 1000 ms a second asked, or the prune backoff |
| RouterRules.JoinRule | src/index.ts:1952-2015 | whom a join puts in the mesh and how many, and that nothing else changes |
| RouterRules.LeaveRule | src/index.ts:2020-2041 | leaving backs off exactly the mesh peers that can be told, for the unsubscribe backoff |
| RouterRules.SendPruneRule | src/index.ts:2671-2690 | a PRUNE sent backs off exactly its peer, for the prune backoff |
| RouterAnswers.PublishReach | src/index.ts:2131-2151 | a publication reaches the whole mesh and at least `D` peers, or all there are above the threshold |
| PublishRules.FloodRule | src/index.ts:2099-2109 | flood publishing reaches exactly the topic's direct peers and those at or above the threshold |
| PublishRules.MeshPublishRule | src/index.ts:2110-2151 | with mesh peers: these, direct and floodsub peers, and exactly as many others as are missing to `D`, or all |
| PublishRules.FanoutPublishRule | src/index.ts:2155-2186 | when publishing changes fanout, and to what |
| Idontwant.TakenInOrder | src/index.ts:1738-1769 | ids taken one by one are the longest prefix the budget allows |
| Idontwant.TrackedBounded | src/index.ts:1738-1769 | in every run a peer's tracked ids number at most `idontwantMaxMessages * mcacheLength` (see also `src/index.ts:431-437`, `src/index.ts:2804-2814`, `src/index.ts:990-992`) |
| Idontwant.BoundNeedsHistory | src/index.ts:1738-1769 | the bound holds in all runs if and only if `mcacheLength >= 1` or nothing may be taken (see also `src/index.ts:2804-2814`) |
| Idontwant.TrackedIff | src/index.ts:1738-1769 | in every run an id is tracked if and only if its peer named it within its budget fewer than `mcacheLength` heartbeats ago and stayed (see also `src/index.ts:2804-2814`) |
| Idontwant.IdontwantTracker.HandleIdontwant | src/index.ts:1738-1769 | the nested loops take that prefix |
| Idontwant.IdontwantTracker.Heartbeat | src/index.ts:2804-2814 | budgets start afresh, marks older than `mcacheLength` ticks go |
| Idontwant.IdontwantTracker.RemovePeer | src/index.ts:990-992 | a disconnect forgets the peer's count and ids |
| IHave.BatchFacts | src/index.ts:1460-1540 | a batch is repetition-free, wanted, and empty exactly when a limit or lack of interest says so |
| IHave.RequestsLimited | src/index.ts:1460-1540 | between heartbeats the ids requested from a peer total its counter and respect both limits (see also `src/index.ts:2797-2799`) |
| IHave.BatchSize | src/index.ts:1477-1525 | how many ids are requested, and what the counters become |
| IHave.WantedIff | src/index.ts:1497-1513 | wanted are exactly the unseen ids advertised for joined topics |
| IHave.IHaveTracker.HandleIHave | src/index.ts:1460-1540 | the method answers every IHAVE as the model allows |
| TimeCache.SimpleTimeCache.Put | src/utils/time-cache.ts:31-43 | a key on record keeps its entry and reports the collision |
| TimeCache.SimpleTimeCache.Prune | src/utils/time-cache.ts:45-57 | stopping early removes exactly the expired entries |
| TimeCache.SimpleTimeCache.Get | src/utils/time-cache.ts:63-66 | expired entries are not returned, pruned or not |
| TimeCache.PrunedAtFront | src/utils/time-cache.ts:48-56 | in ascending entries, the first valid one has only valid ones after it |
| Seen.RecordPersists | src/index.ts:1345-1349 | an admitted id stays on record until more than `seenTTL` later (see also `src/index.ts:2246-2268`, `src/index.ts:2824`) |
| Seen.AdmissionsApart | src/index.ts:1345-1349 | in every run two admissions of one id are more than `seenTTL` apart (see also `src/index.ts:2246-2268`, `src/index.ts:2824`) |
| Seen.OnRecordIff | src/index.ts:1345-1349 | in every run an id is on record if and only if an event admitted it and no heartbeat since came more than `seenTTL` later (see also `src/index.ts:2824`) |
| Seen.AdmitsIff | src/index.ts:1345-1349 | an event admits an id if and only if it is received, or published with recipients, and not on record (see also `src/index.ts:2246-2268`) |
| Seen.SeenFilter.ReceiveMessage | src/index.ts:1345-1349 | a received id is admitted exactly when it is not on record |
| Seen.SeenFilter.PublishMessage | src/index.ts:2246-2268 | so is a published one, provided there is someone to send it to |
| Seen.SeenFilter.PruneSeen | src/index.ts:2824 | the heartbeat drops exactly the ids that ran out |
| ComputeScore.Compute | src/score/compute-score.ts:4-98 | the loops compute the weighted sum of the seven components |
| ComputeScore.ScoreTopic | src/score/compute-score.ts:21-60 | one topic's share, with caps and squared penalties |
| ComputeScore.TopicWeights | src/score/peer-score-params.ts:247-316 | what accepted parameters say about weights, and about caps whose weight is not zero |
| ScoreParams.AcceptedIff | src/score/peer-score-params.ts:247-316 | which parameters of a topic pass validation |
| ComputeScore.TopicScoreBounded | src/score/compute-score.ts:13-61 | a topic contributes at most its capped rewards (see also `src/score/peer-score-params.ts:247-316`) |
| ComputeScore.ScoreBounded | src/score/compute-score.ts:4-98 | the score is at most the cap, or the sum of the topics' bests, plus the application's share (see also `src/score/peer-score-params.ts:200-244`) |
| ComputeScore.BoundReached | src/score/compute-score.ts:4-98 | that bound is reached, with a cap and without |
| ScoreCharges.BlankScore | src/score/compute-score.ts:4-98 | a peer with nothing to its name has the application's share |
| ScoreCharges.BehaviourCharge | src/score/compute-score.ts:90-95 | `x` over the threshold costs `x * x * weight`, nothing below it |
| ScoreCharges.AddressCharge | src/score/compute-score.ts:72-88 | an address costs the square of the peers over the threshold, a whitelisted one nothing |
| ScoreCharges.CapRule | src/score/compute-score.ts:63-66 | the cap cuts the topics' share and nothing else |
| ScoreCharges.MeshTimeReward | src/score/compute-score.ts:23-30 | being in the mesh earns its time in quanta, up to the cap |
| ScoreCharges.FirstDeliveryReward | src/score/compute-score.ts:32-37 | first deliveries earn their number, up to the cap |
| ScoreCharges.DeficitCharge | src/score/compute-score.ts:39-47 | `x` deliveries missing cost `x * x * weight`, once they count |
| ScoreCharges.FailureCharge | src/score/compute-score.ts:49-52 | the sticky penalty counts as it is |
| ScoreCharges.InvalidCharge | src/score/compute-score.ts:54-57 | `n` invalid deliveries cost `n * n * weight` |
| ScoreCharges.TopicShift | src/score/compute-score.ts:13-61 | without a cap a topic's stats change the score by the topic's own share |
| ScoreCharges.BlankTopic | src/score/compute-score.ts:13-61 | a topic nothing is known of adds nothing |
| ScoreCharges.UnscoredTopic | src/score/compute-score.ts:13-20 | nor does a topic that is not scored |
| ScoreTheorems.TopicScoreMono | src/score/compute-score.ts:21-60 | more mesh time and deliveries, fewer failures: no lower topic score |
| ScoreTheorems.ScoreMonotone | src/score/compute-score.ts:4-98 | a peer that did better in some respects and worse in none has no lower score |
| Decay.DecayClosedForm | src/score/peer-score.ts:140-159 | n decays give `c * d^n`, or zero when that is below the threshold |
| Decay.DecaysToZero | src/score/peer-score.ts:140-159 | an explicit number of decays after which a counter is zero |
| Deliveries.MessageDeliveries.EnsureRecord | src/score/message-deliveries.ts:53-77 | the record there is, or a fresh one, queued last |
| Deliveries.MessageDeliveries.Gc | src/score/message-deliveries.ts:79-89 | stopping early removes exactly the expired records, and the queue stays sorted, distinct and complete |
| Deliveries.StatusOnce | src/score/peer-score.ts:336-450 | in every run of events a record's status leaves unknown at most once |
| Deliveries.CreditedAtMostOnce | src/score/peer-score.ts:336-450 | in every run no peer gets two duplicate-delivery credits for one record |
| Deliveries.NotBothCreditedAndBlamed | src/score/peer-score.ts:336-450 | a record gives credits or blame but not both, rejections with Error aside |
| PeerScoreTracker.PeerScore.RefreshScores | src/score/peer-score.ts:111-176 | forgotten peers go with their addresses and cached scores, connected ones decay, retained ones do not |
| PeerScoreTracker.PeerScore.Background | src/score/peer-score.ts:94-97 | refreshing, then dropping expired records |
| PeerScoreTracker.PeerScore.Score | src/score/peer-score.ts:181-211 | the remembered score while it is valid, else the score of the moment, then remembered |
| PeerScoreTracker.PeerScore.AddPenalty | src/score/peer-score.ts:216-222 | adds to the behaviour penalty of a known peer |
| PeerScoreTracker.PeerScore.AddPeer | src/score/peer-score.ts:224-235 | fresh stats, whatever was there |
| PeerScoreTracker.PeerScore.AddIP | src/score/peer-score.ts:238-245 | stats and index learn the address; the index also for unknown peers |
| PeerScoreTracker.PeerScore.RemoveIP | src/score/peer-score.ts:248-261 | both forget it; empty addresses go |
| PeerScoreTracker.PeerScore.RemovePeer | src/score/peer-score.ts:263-294 | a positive score is forgotten, any other retained with its penalties |
| PeerScoreTracker.PeerScore.Graft | src/score/peer-score.ts:297-309 | mesh time starts anew |
| PeerScoreTracker.PeerScore.Prune | src/score/peer-score.ts:312-330 | a delivery deficit becomes a sticky penalty |
| PeerScoreTracker.PeerScore.ValidateMessage | src/score/peer-score.ts:332-334 | makes the record |
| PeerScoreTracker.PeerScore.DeliverMessage | src/score/peer-score.ts:336-363 | first delivery, verdict, and credits for the other forwarders |
| PeerScoreTracker.PeerScore.RejectInvalidMessage | src/score/peer-score.ts:368-370 | one invalid delivery |
| PeerScoreTracker.PeerScore.RejectMessage | src/score/peer-score.ts:372-417 | verdict and blame, by reason and status |
| PeerScoreTracker.PeerScore.DuplicateMessage | src/score/peer-score.ts:419-450 | credit, blame or nothing, by status |
| PeerScoreTracker.PeerScore.MarkInvalidMessageDelivery | src/score/peer-score.ts:455-463 | one more invalid delivery of a scored topic |
| PeerScoreTracker.PeerScore.MarkFirstMessageDelivery | src/score/peer-score.ts:470-484 | both counters grow by one up to their caps |
| PeerScoreTracker.PeerScore.MarkDuplicateMessageDelivery | src/score/peer-score.ts:490-517 | the mesh counter grows within the window |
| PeerScoreTracker.PeerScore.RemoveIPsForPeer | src/score/peer-score.ts:522-532 | the peer leaves all these addresses |
| PeerScoreTracker.PeerScore.GetPtopicStats | src/score/peer-score.ts:538-562 | stats of scored topics, made on demand |
| PeerScoreTheorems.NextInv | src/score/peer-score.ts:111-562 | every event keeps counters within caps, penalties non-negative, and every known address listed |
| PeerScoreTheorems.ReachableScoreBounded | src/score/peer-score.ts:111-562 | in every reachable state every peer's score is within the bound (see also `src/score/compute-score.ts:4-98`) |
| PeerScoreTheorems.ExactKeptIff | src/score/peer-score.ts:224-261 | an event keeps the address index exact if and only if it is none of two named ones (see also `src/score/peer-score.ts:522-532`) |
| PeerScoreTheorems.AddressLeftBehind | src/score/peer-score.ts:224-245 | a run in which a peer whose score was retained returns from another address and stays listed at the old one (see also `src/score/peer-score.ts:263-294`) |
| PeerScoreTheorems.RefreshesFade | src/score/peer-score.ts:111-176 | n refreshes alone leave each of a connected peer's five counters at `c * d^n` or zero, and at zero in the end |
| PeerScoreTheorems.PenaltyFades | src/score/peer-score.ts:170-174 | the behaviour penalty does so for peers in no topic too |
| PeerScoreTheorems.RetainedUntilExpiry | src/score/peer-score.ts:115-130 | refreshes keep retained stats untouched up to the expiry, and not beyond |
| PeerScoreTheorems.ReconnectForgets | src/score/peer-score.ts:224-235 | after connecting anew, a score computed from the stats is a newcomer's |
| PeerScoreTheorems.NewcomersHaveTheApplicationShare | src/score/compute-score.ts:4-98 | a newcomer's score is the application's share, if the behaviour threshold is not negative |
| PeerScoreTheorems.ReconnectReads | src/score/peer-score.ts:181-211 | but a score still remembered is read instead (see also `src/score/peer-score.ts:224-235`) |
| PeerScoreTheorems.RemovalRemembers | src/score/peer-score.ts:263-294 | a removal leaves the score it read remembered, and the stats exactly if that is not positive (see also `src/score/peer-score.ts:181-211`) |
| PeerScoreTheorems.RetentionDoesNotSurviveReconnect | src/score/peer-score.ts:224-235 | after a reconnect, `score()` gives at every time the score at the departure while that is remembered, a newcomer's after; the reconnect shows if and only if the memory has run out or the two agree (see also `src/score/peer-score.ts:125-130`, `src/score/peer-score.ts:181-211`, `src/score/peer-score.ts:263-294`) |
| PeerScoreTheorems.RememberedScoreStands | src/score/peer-score.ts:181-211 | no later event replaces a remembered score before it runs out, forgetting the peer aside (see also `src/score/peer-score.ts:115-130`) |
| DeliveryCounts.FirstDeliveriesCounted | src/score/peer-score.ts:336-351 | in every run between two decays the counter is what it was plus the number of delivery events, up to the cap, whatever messages they are about (see also `src/score/peer-score.ts:470-484`) |
| DeliveryCounts.RepeatedDeliveries | src/score/peer-score.ts:470-484 | n deliveries, repeated or not, add n to both counters up to their caps, to the mesh counter only in the mesh |
| DeliveryCounts.SecondDeliveryHarmlessIff | src/score/peer-score.ts:336-351 | delivering a message again changes nothing if and only if the topic is not scored or the counters reach their caps with the first |
| DeliveryCounts.AcceptedCountsTwice | src/index.ts:2374-2384 | a run in which one accepted message makes two first deliveries (see also `src/index.ts:2204-2207`) |
| MeshCredits.MeshDeliveriesCounted | src/score/peer-score.ts:336-450 | in every run of a mesh stay between decays, the mesh counter is what it was plus deliveries, copies before a delivery and first copies within the window, up to the cap (see also `src/score/peer-score.ts:490-517`) |
| MeshCredits.DuplicateNext | src/score/peer-score.ts:419-450 | what a copy does to its sender's counters: a credit for the first within the window in the mesh, a blame after the message was found invalid |
| MeshCredits.InvalidDeliveriesCounted | src/score/peer-score.ts:372-450 | in every run between decays, invalid deliveries are what they were plus every rejection as source, every copy before it and every first copy after it (see also `src/score/peer-score.ts:455-463`) |
| RecordRules.VerdictRule | src/score/peer-score.ts:336-450 | the first delivery or rejection decides the status for good; the record names all senders of copies, or nobody once rejected |
| RecordRules.RecordKeptIff | src/score/message-deliveries.ts:53-89 | in every run a record is there from the first event about its message to the first collection after two minutes |
| ScoreEvents.GraftRule | src/score/peer-score.ts:297-309 | a graft starts the time in the mesh anew and nothing else |
| ScoreEvents.PruneRule | src/score/peer-score.ts:312-330 | a prune makes the square of the missing deliveries sticky |
| ScoreEvents.DepartureRule | src/score/peer-score.ts:263-294 | what is kept of a peer whose score is not positive, and until when |
| ScoreEvents.MeshTimeRule | src/score/peer-score.ts:161-167 | in every stay in the mesh, its time is that of the latest refresh, and deliveries count once a refresh finds the activation time exceeded |
| PeerScoreTheorems.RecordLifetime | src/score/peer-score.ts:332-450 | in every run a living record goes through exactly its own events |
| PeerScoreTheorems.CreditedOnceInRun | src/score/peer-score.ts:332-450 | so in every run of all events a peer is credited at most once in a record's lifetime |
| PeerScoreTheorems.RememberedScores | src/score/peer-score.ts:181-211 | every remembered score was the peer's score at a moment of the run |
| PeerScoreTheorems.ScoreReadIsRecent | src/score/peer-score.ts:181-211 | a score read is current or less than the validity period old |
| PeerScoreTheorems.ScoreReadBounded | src/score/peer-score.ts:181-211 | so in every run the score read, remembered or not, is within the bounds (see also `src/score/compute-score.ts:4-98`) |
| IWantTracing.IWantTracer.AddPromise | src/tracer.ts:44-69 | a new promise expires after the follow-up time; an old one keeps its expiry |
| IWantTracing.IWantTracer.GetBrokenPromises | src/tracer.ts:76-103 | exactly the expired promises go; each peer's count is the number of its expired promises |
| IWantTracing.IWantTracer.DeliverMessage | src/tracer.ts:108-123 | all promises for the message go |
| IWantTracing.IWantTracer.RejectMessage | src/tracer.ts:129-142 | so too, unless the reason is Error |
| IWantTracing.IWantTracer.Clear | src/tracer.ts:144-146 | nothing is left |
| IWantTracing.IWantTracer.Prune | src/tracer.ts:148-165 | stopping early removes exactly the old request times |
| IWantTracing.NeverEmpty | src/tracer.ts:44-142 | no run leaves a message without promises in the table |
| IWantTracing.LeavesIff | src/tracer.ts:76-146 | a step takes a promise away exactly for one of the four reasons |
| IWantTracing.ComesOnlyByPromise | src/tracer.ts:44-69 | a promise comes into the table only by being given, with the follow-up time to go |
| IWantTracing.Conservation | src/tracer.ts:44-146 | promises entered = promises left for a reason + outstanding, in every run |
| IWantTracing.OutstandingWasGiven | src/tracer.ts:44-69 | an outstanding promise was given at a step of the run and has been outstanding since |
| IWantTracing.BrokenOnlyAfterExpiry | src/tracer.ts:76-103 | a peer is reported only when more than the follow-up time has passed since it promised |
| IWantPenalties.ApplyIwantPenalties | src/index.ts:1801-1806 | each known peer's behaviour penalty grows by the number of promises it broke, and nothing else changes |
| IWantPenalties.PenaltyRule | src/index.ts:1801-1806 | each known peer's penalty grows by the number of promised messages whose time ran out |
| MessageCaching.MessageCache.Put | src/message-cache.ts:63-84 | new messages enter the newest window, known ones change nothing |
| MessageCaching.MessageCache.ObserveDuplicate | src/message-cache.ts:86-97 | senders are noted until validation |
| MessageCaching.MessageCache.GetWithIWantCount | src/message-cache.ts:110-120 | counts the request and returns message and count |
| MessageCaching.MessageCache.GetGossipIDs | src/message-cache.ts:125-142 | for each topic with any, its gossip ids |
| MessageCaching.MessageCache.Validate | src/message-cache.ts:149-165 | marks the message and hands over its known senders |
| MessageCaching.MessageCache.Shift | src/message-cache.ts:170-184 | whatever the oldest window names goes, and the count follows |
| MessageCaching.MessageCache.Remove | src/message-cache.ts:186-195 | the message goes, its name in the window and the count stay |
| MessageCaching.MessageCache.HandleIWant | src/index.ts:1546-1592 | the loops over lists of ids answer with the messages present that the peer has not asked for too often, each once |
| MessageCacheTheorems.SurvivesShifts | src/message-cache.ts:170-184 | in any state, a message outlasts n shifts if and only if none of the n oldest windows names it |
| MessageCacheTheorems.PutLastsIff | src/message-cache.ts:63-84 | a message put lasts its full time if and only if no window still named its id (see also `src/message-cache.ts:170-195`) |
| MessageCacheTheorems.EarlyEviction | src/message-cache.ts:170-195 | a run on an empty cache that evicts a message a shift too early |
| MessageCacheTheorems.RunRefines | src/message-cache.ts:63-195 | in every run without such a put the cache is a map of ages: present exactly if put fewer than `historyCapacity` shifts ago and not removed |
| MessageCacheTheorems.GossipIsYoung | src/message-cache.ts:125-142 | gossiped are exactly the validated messages of the topic younger than `gossip` shifts |
| MessageCacheTheorems.GossipNewestFirst | src/message-cache.ts:125-142 | each once, newest window first |
| MessageCacheTheorems.CountDrift | src/message-cache.ts:186-195 | in every run the count exceeds the messages not validated by the number removed before validation (see also `src/message-cache.ts:79-81`, `src/message-cache.ts:155-157`, `src/message-cache.ts:175-178`) |
| MessageCacheTheorems.CountStaysBehind | src/message-cache.ts:186-195 | a run on an empty cache that ends empty with a count of one |
| MessageCacheTheorems.SentAtMost | src/index.ts:1562-1578 | while a message stays cached, a peer gets it on request at most three times (see also `src/constants.ts:102-107`) |
| MessageCacheTheorems.AnsweredIff | src/index.ts:1562-1578 | a request for a cached message is answered if and only if the peer asked for it fewer than three times before |
| RpcCodec.EncodeMessage | src/message/rpc.ts:765-789 | the writer ends with the fields' encoding, behind its length unless told otherwise (see also `src/message/rpc.ts:97-136`, `src/message/rpc.ts:208-253`) |
| RpcCodec.DecodeMessage | src/message/rpc.ts:789-838 | the reader loop: known fields assigned or pushed, others skipped, until the end (see also `src/message/rpc.ts:136-180`, `src/message/rpc.ts:253-324`) |
| RpcCodec.EncodeRpc | src/message/rpc.ts:844-846 | the bytes of an RPC |
| RpcCodec.DecodeRpc | src/message/rpc.ts:848-850 | the RPC of the bytes, or failure |
| RpcBytes.EncodingIs | src/message/rpc.ts:765-789 | the bytes of an RPC, tag by tag: each of the ten messages with its records in order (see also `src/message/rpc.ts:30-42`, `src/message/rpc.ts:97-136`, `src/message/rpc.ts:208-253`, `src/message/rpc.ts:350-366`, `src/message/rpc.ts:490-500`, `src/message/rpc.ts:549-575`, `src/message/rpc.ts:640-652`) |
| RpcCodec.DecodingIs | src/message/rpc.ts:789-850 | a buffer of these tags and records decodes to its RPC |
| RpcCodec.ConcatenationJoins | src/message/rpc.ts:789-838 | two RPCs one after the other: lists are joined, the later control message stands |
| RpcCodec.HigherFieldIgnored | src/message/rpc.ts:830-833 | a further field with a higher number changes nothing |
| Wire.VarintIs | src/message/rpc.ts:772 | the bytes of a varint: seven bits each, least significant first, all but the last marked |
| RpcSchema.FieldsBack | src/message/rpc.ts:789-838 | every decode, nested ones included, stops exactly at the end of what was encoded and gives the fields its type knows (see also `src/message/rpc.ts:253-324`) |
| RpcSchema.FittingIsKnown | src/message/rpc.ts:789-838 | nothing is lost of fields that are all known |
| Rpc.RpcBack | src/message/rpc.ts:765-838 | the fields written for an RPC, read back, make the same RPC |
| Rpc.MessageBack | src/message/rpc.ts:97-180 | so for a message, whose empty topic is left out |
| Rpc.ControlBack | src/message/rpc.ts:208-324 | so for a control message with its five lists |
| Rpc.PruneBack | src/message/rpc.ts:549-612 | so for a PRUNE with peers and backoff |
| RpcCodec.RoundTrip | src/message/rpc.ts:765-850 | decoding the encoding of any RPC gives that RPC (see also `src/message/rpc.ts:97-180`, `src/message/rpc.ts:208-324`, `src/message/rpc.ts:549-612`) |
| RpcCodec.UnknownFieldsIgnored | src/message/rpc.ts:830-833 | fields a decoder does not know, of any wire type, groups included, at any depth, change nothing (see also `src/message/rpc.ts:172-175`, `src/message/rpc.ts:316-319`) |
| RpcCodec.EncodingInjective | src/message/rpc.ts:765-850 | different RPCs have different encodings |

## Left out

- Streams, pushables, the registrar, dialling, following up offers of peers, direct-peer connections, the peer store: I/O and other libraries.
- Signing, key parsing, message ids, multiaddr parsing and UTF-8: foreign functions. Ids, peers, topics and addresses are
  abstract values; strings of the codec are their UTF-8 bytes; an id and its string form are one value.
- Metrics, events, peer tagging, logging, timers; the request times of the promise tracer are modelled, what they feed is not.
- `stop()`, which clears everything; the runs are those of a started router.
- Interleavings inside an `await`: a received PRUNE that connects to peers, and the heartbeat that connects to direct peers or
  awaits the PRUNEs it makes, are single steps. PRUNEs prepared later are steps of their own in the runs (`SendPrune`).
- The heartbeat's table of scores is filled beforehand and its grafts are told after the passes, where the program does both as it
  goes: that comes to the same (HeartbeatScore.ReadAnyTime, HeartbeatScore.StatsAfterHeartbeat).
- Floating-point rounding: scores, counters and decay are reals; the application's score is a fixed function of the peer.
- Aliasing: delivery records, topic stats and cache entries are values in the maps, where the program updates shared objects.
- In the runs of the router alone the scores of a step are any function; `Node.GossipSub` ties those of the heartbeat to the score.
- One class for everything: the fields of `GossipSub` are split over `GossipRouter`, `TopicPass`, `IdontwantTracker`,
  `IHaveTracker` and `SeenFilter`, each with its own tick or clock. `Node.GossipSub` puts them together for the heartbeat;
  elsewhere what the router tells the score or the caches is modelled on their side. A node without fast message ids has a
  cache of them that stays empty.
- Sending: queueing, piggybacking, the emission of IHAVE gossip and IDONTWANT, floodsub forwarding. Whom the heartbeat gossips
  to, and with which ids, is modelled; the shuffling and the maximal size of an IHAVE are not.
- Decode limits: the router passes the limits of control lists under a name the codec does not read (`src/index.ts:1049`,
  `src/message/rpc.ts:826`).
- The ten generated encoders and decoders are one encoder and one decoder over a table of their fields (`RpcSchema.KindOf`).
- protons-runtime is not part of the repository: its writer and reader follow the Protocol Buffers encoding (sections
  "Base 128 Varints", "Message Structure", "Length-Delimited Records" and "Groups"). Overlong varints fail here.
- Validation of thresholds, default parameters, error classes: one-branch facts.
- RpcCodec.RoundTrip: asks for backoffs below 2^53, which doubles hold exactly, and encodings below 4 GiB, as lengths are 32 bits.
- MessageCacheTheorems.RunRefines: excludes runs that put a removed id while a window still names it, because the cache then is not the map of ages (PutLastsIff).
- PeerScoreTheorems.RefreshesFade: speaks of decays in [0, 1) and non-negative counters, as other decays are accepted only where the weight is zero.
- IWantTracing.IWantTracer.AddPromise: asks for a non-empty list, which every request has (IHave.BatchFacts).
