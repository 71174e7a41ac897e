# Mint-ConnectUnit: verified model of the protocol cores

Mint-ConnectUnit is a peer-to-peer VPN. This project models the state machines at its core in Dafny and proves what they
promise over every run: path-MTU discovery, the routing table and its reverse indexes, relay and multipath selection, the
anti-replay windows and the control rate limiter, leaderless address claims, background congestion control, and tracker
discovery. `dafny verify dfyconfig.toml` checks everything.

Objects whose methods update their fields are classes here, with the same fields. Most of them carry a ghost history, and their
invariant says that the fields are what that history leads to; the theorems about histories then hold of every reachable object.
Clocks, random transaction ids and the outcome of sending are parameters. Hash maps are iterated in arbitrary order. `f64` is
modelled as exact `real`. Node ids and VIPs are strings under lexicographic order, endpoints are opaque.

| file | content |
|---|---|
| `PmtudPeer` | one peer's search machine as functions, stage by stage, and its histories |
| `PmtudWindow`, `PmtudProbes`, `PmtudHysteresis`, `PmtudLiveness`, `PmtudConvergence`, `PmtudSpeed`, `PmtudTermination` | theorems over every history of a peer |
| `ProbeTurns`, `Pmtud` | the round-robin cursor; the engine: all peers, the cached minimum, the tick |
| `RouteIndexes`, `Routing` | rows, reverse indexes, stamps and tombstones; the table that keeps them |
| `RelaySelection`, `PathSwitching` | one-hop relay choice; which of a peer's paths carries traffic |
| `ReplayWindow`, `ReplayTable`, `RateLimiter` | the bitmap, the bounded table of bitmaps, the token buckets |
| `ClaimGossip`, `ClaimConvergence`, `ClaimBarriers`, `VipFight` | claims, their merging, what keeps claims out, rerolls |
| `BackgroundCc` | rate update, token bucket, delivery accounting |
| `Bencode`, `TrackerReplies` | the bencode reader, compact peers, tracker replies |
| `TrackerSession`, `TrackerClient` | what a session sent and was granted; the client |
| `Text`, `Wrappers` | string order, dotted-decimal addresses; shared helpers |

## What turned out not to hold

- The cached minimum MTU can exceed the true one. It is exact if and only if no peer was inserted by a tick since the last
  recomputation, or the cached value is at most 1220 (`CachedMinimumAccuracy`; `NewcomerIsNotCounted` reaches such a state).
- A peer whose outstanding probe has id 0 is never moved by a tick again (`IdZeroWedges`, `WedgedForever`). Until the engine has
  drawn 2^32 probe ids it has no such peer (`NoPeerIsWedged`), and it draws one per reported probe (`OnTick`). Every other due peer
  is moved, unless it only waits for its turn to send and the tick used up its slots (`OnTick`, `DueTickMovesUnlessWedged`).
- A probe budget of at most `confirm_count` never suffices to confirm a loss, so timeouts then teach a search nothing. The clamped
  tuning allows this with 8 and 8 (`ScarceBudgetConfirmsNothing`). With a larger budget every search on a fixed path narrows the
  window, and 280 of them find the path MTU exactly (`SearchEnds`, `EverySearchLearns`, `SearchesFindTheMtu`).
- A peer that wants to send a probe can be passed over for ever, because the cursor is a position in a list that changes
  (`PassedOver`). It gets its turn if as many ticks as there are wanting peers see the same ones and have a slot (`TurnComes`), and
  at once if the tick leaves slots unused (`OnTick`).
- The endpoint index of the routing table is sound but not complete. An update or removal keeps it complete if and only if it does
  not leave an endpoint that another row shares (`CompleteAfterUpdate`, `CompleteAfterRemove`, `SharedEndpointIsForgotten`).
- Merging claims is insensitive to order if and only if no node claims two VIPs in its newest epoch (`MergeOrderIrrelevantIff`).
- Arrivals that a leave tombstone catches do not renew a fight-suppress entry, so a claim that never pauses for 30 s can still get
  in (`TombstoneStarvesSuppression`; `RefusedExactlyWhileKeptAlive` is the exact condition).
- Forgetting idle sources is visible to callers of the rate limiter, and breaks the bound of capacity + refill * T grants in a span
  T, if and only if 300 s do not refill a bucket and a bucket can hold a whole token at all (`ReapingInvisibleIff`,
  `GrantsBoundedIff`).
- A loss that counts as congestion can raise the sending rate, because the additive increase follows the cut
  (`LossLowersExactlyWhen`, `LossCanRaise`). `clamp_rate_knobs` panics if and only if the minimum rate exceeds 50 MB/s
  (`ClampRateKnobs`).
- Of two sources with equal commit times either may be evicted first, so in a table of two places or more the number of sources
  committed since does not decide who is present (`TiesMayEvictTheNewer`). With ties too a source stays as long as fewer than
  max_sources others have committed no earlier (`PresentWhileRecent`, `RecentSourceStaysProtected`); without ties the two counts
  agree (`RecentByCount`).
- A tracker that has just answered can be asked again at once: within a minute of the answer this happens if and only if another
  due slot has the same address as its current one and no such request is open (`AnsweredIsLeftAlone`, `SecondSlotAsksAgain`). A
  request without an answer is repeated after 20 s, and an address that never answers keeps its slot.

## Model

| member | source | states |
|---|---|---|
| PmtudWindow.StepKeepsWindow | src/pmtud.rs:728-1075 | every event keeps 576 <= last_good <= stable <= 1500, last_good < first_bad <= 1501, at most one of in-flight and grace, none of them in Plateau or Frozen, an in-flight size inside the window while searching and equal to stable while re-validating; after a tick a never-acknowledged private peer is at 1220 or more |
| PmtudWindow.EveryRunKeepsWindow | src/pmtud.rs:544-1275 | the same after any history of ticks, acknowledgements, hard failures, hints, pins, seeds and tuning changes |
| PmtudProbes.AcceptedAckAnswersLastProbe | src/pmtud.rs:1142-1176 | after any history an acknowledgement that does not name the probe sent last, by id, size and generation, changes nothing |
| PmtudProbes.EveryRunKeepsRecord | src/pmtud.rs:610-625 | after any history the probe in flight or in grace is the one sent last, in the present generation |
| PmtudProbes.NewSearchNewGeneration | src/pmtud.rs:793-826 | a search can only be started by a tick, and has a new generation |
| PmtudHysteresis.DowngradesNeedSoftDowns | src/pmtud.rs:552-578 | with N downgrade batches, N times the number of lowered stable sizes, plus the campaigns already counted, is at most the number of soft-downs |
| PmtudHysteresis.OnlyFailedRevalidationEntersRecheck | src/pmtud.rs:1044-1053 | a peer comes to Recheck only from a failed Revalidate |
| PmtudHysteresis.SoftDownHasCause | src/pmtud.rs:635-664 | every soft-down is a hard local send failure or ends a Recheck that a failed Revalidate started and nothing interrupted |
| PmtudHysteresis.UnheardDownSearchReopens | src/pmtud.rs:580-591 | a down-search that ends without any acknowledgement forgets the failed sizes, so the next search may raise to the maximum |
| PmtudLiveness.StepKeepsSearchable | src/pmtud.rs:514-542 | in Raise there is always a raise target, in Binary and DownSearch always a binary target; a tuning change ends the searches for which this would fail |
| PmtudLiveness.SearchingPeerIssues | src/pmtud.rs:876-930 | a searching peer that waits for nothing sends a probe, or is out of budget and freezes |
| PmtudLiveness.SlotLeavesNoSearcher | src/pmtud.rs:828-871 | a tick that had a slot for a peer leaves it sending, frozen or not searching |
| PmtudLiveness.DueTickMovesUnlessWedged | src/pmtud.rs:777-871 | with clamped tuning, a tick that finds a peer due moves it if and only if its outstanding probe does not have id 0; a peer that waits only for its turn to send must get that turn |
| PmtudLiveness.IdZeroWedges | src/pmtud.rs:781-781 | a history that wedges a peer: its first probe has id 0 |
| PmtudProbes.OutstandingIsNumbered | src/pmtud.rs:464-467 | if all ids that the ticks of a history used are in 1..n, so is the id of the probe in flight or in grace |
| PmtudLiveness.WedgedForever | src/pmtud.rs:781-781 | a peer with outstanding probe id 0 keeps that probe, its phase and its window through every later tick, acknowledgement, failure and hint |
| PmtudConvergence.StepNarrows | src/pmtud.rs:999-1233 | on a path with fixed MTU C, a step keeps last_good == stable <= C < first_bad, never lowers last_good, never soft-downs, and strictly narrows the window for each resolved Raise or Binary probe |
| PmtudConvergence.EveryRunConverges | src/pmtud.rs:999-1233 | from a fresh peer, any history on such a path keeps all that, has no soft-down, and resolves at most 281 probes minus what is left of the window |
| PmtudConvergence.ProvenSizeNeverShrinks | src/pmtud.rs:1077-1233 | last_good after a prefix of such a history is at most last_good after all of it |
| PmtudConvergence.ClosedBinaryIsAccurate | src/pmtud.rs:514-542 | leaving Binary for Plateau leaves C - last_good below resolve_epsilon |
| PmtudConvergence.AcknowledgedRaiseIsExact | src/pmtud.rs:1077-1233 | a Raise that an acknowledgement ends stops exactly at C |
| PmtudSpeed.EveryRunProbesMiddle | src/pmtud.rs:530-542 | after any history a Binary probe in flight tests the middle of the window |
| PmtudSpeed.BinaryHalves | src/pmtud.rs:530-542 | on a path with fixed MTU each resolved Binary probe leaves at most half of the sizes in question |
| PmtudSpeed.BinaryIsLogarithmic | src/pmtud.rs:999-1233 | after k resolved probes of one Binary search at most a 2^k-th of them is left |
| PmtudSpeed.NineProbesSuffice | src/pmtud.rs:999-1233 | nine resolved probes of one Binary search find the path MTU exactly |
| PmtudTermination.StepIsOnward | src/pmtud.rs:777-1233 | on a path with fixed MTU, an answer or a due tick ends a Raise or Binary search or lowers the bound on what it still takes; it freezes only if its budget is spent |
| PmtudTermination.RestChangesNothing | src/pmtud.rs:777-1274 | every other event leaves such a search as it is: a tick before the deadline or without a slot, an answer or failure that does not match, a hint, an early wake |
| PmtudTermination.SearchEnds | src/pmtud.rs:793-1233 | on such a path, a search is over once R * (confirm_count + 1) events answered its probe, found it overdue or had a slot for the next one, whatever happens in between; R is at most 19 and depends on the raise step; it ends in Plateau with C - last_good below resolve_epsilon, also straight from a failed Raise, or frozen; with a budget above R * confirm_count it never freezes, and with one above confirm_count it has narrowed the window |
| PmtudTermination.SearchOfLifeEnds | src/pmtud.rs:793-1233 | the same for any search within a peer's history |
| PmtudTermination.EverySearchLearns | src/pmtud.rs:932-1075 | with a budget above confirm_count, the searches that ended in a history on such a path and the width of the window add up to at most 281, so 280 searches find C exactly |
| PmtudTermination.DefaultSearchFinds | src/advanced_tuning.rs:492-504 | with the default tuning a search finds the path MTU after at most 56 such events |
| PmtudTermination.ScarceBudgetConfirmsNothing | src/pmtud.rs:932-997 | with a budget of at most confirm_count no tick of any history confirms the loss of a search probe |
| Pmtud.PathMtuDiscovery.RecalcMin | src/pmtud.rs:469-480 | sets the cached minimum to the least last_good of all peers, or the pin, or the default without peers |
| Pmtud.PathMtuDiscovery.SetPinned | src/pmtud.rs:255-285 | a pin overwrites every peer and the minimum, and removing it puts all peers back to the default; every search ends |
| Pmtud.PathMtuDiscovery.ApplyTuning | src/pmtud.rs:224-244 | every peer of an unpinned engine aborts its search by a retune event; the raise period and, when pinned, the peers stay |
| Pmtud.PathMtuDiscovery.SetRaisePeriod | src/pmtud.rs:246-248 | only the raise period changes, to at least a second, and the engine stays valid |
| Pmtud.PathMtuDiscovery.RemovePeer | src/pmtud.rs:297-301 | forgets the peer and recomputes the minimum |
| Pmtud.PathMtuDiscovery.SeedPlateauAt | src/pmtud.rs:353-372 | the peer steps by a seed event and the minimum is exact afterwards |
| Pmtud.PathMtuDiscovery.RequestRevalidate | src/pmtud.rs:374-395 | taken exactly outside the cooldown for an idle unpinned peer, whose next search then starts now |
| Pmtud.PathMtuDiscovery.RequestEarlyWake | src/pmtud.rs:397-418 | taken exactly outside the cooldown for a waiting unpinned peer, whose next search then starts now |
| Pmtud.PathMtuDiscovery.ResolveAck | src/pmtud.rs:1095-1134 | an acknowledgement is for the peer at its address; from an unknown address it is for the only peer of that IP whose probe it matches, and for none if there is not exactly one |
| Pmtud.PathMtuDiscovery.OnAck | src/pmtud.rs:1077-1233 | the peer is found as above; handled exactly if it accepts, and then that peer alone steps by an acknowledgement and the minimum is exact, otherwise nothing changes |
| Pmtud.PathMtuDiscovery.OnSendHardFail | src/pmtud.rs:1236-1274 | exactly the named peer of an unpinned engine steps by a hard failure, and the minimum stays right |
| Pmtud.PathMtuDiscovery.ExpireGrace | src/pmtud.rs:758-775 | every expired grace period becomes a confirmed failure |
| Pmtud.PathMtuDiscovery.ExpireProbes | src/pmtud.rs:777-791 | every due probe times out; exactly the re-sent ones are reported, each with a newly drawn id |
| Pmtud.PathMtuDiscovery.Admit | src/pmtud.rs:737-756 | after the first stages exactly the routed peers are tracked, healed and with their inputs noted; the minimum is recomputed only if a peer is healed or dropped |
| Pmtud.PathMtuDiscovery.IssueProbes | src/pmtud.rs:847-871 | tried are exactly the peers at the first positions from the cursor on, until the free slots are filled or all were tried; each probe has a newly drawn id, and the cursor moves on by the probes sent, but by one at least |
| ProbeTurns.TurnComes | src/pmtud.rs:856-871 | as long as the same n peers want a probe and every tick has a slot, each of them is tried within n ticks |
| ProbeTurns.PassedOver | src/pmtud.rs:856-871 | a schedule of one slot and three peers in which one of them always wants a probe and never gets one |
| Pmtud.PathMtuDiscovery.NextProbeId | src/pmtud.rs:464-467 | the id is the number of ids drawn so far modulo 2^32 |
| Pmtud.PathMtuDiscovery.OnTick | src/pmtud.rs:728-874 | each routed peer lives through exactly one tick event and private floors hold; every reported probe is outstanding as reported, every newly outstanding one is reported, and one id is drawn for each; no peer is reported twice, and more than max_concurrent only if all are sent again; with clamped tuning a due peer is moved if and only if it is not wedged, where a peer that waits for its turn to send counts only if a slot was left, and then no peer is left waiting for its turn |
| Pmtud.PathMtuDiscovery.NoPeerIsWedged | src/pmtud.rs:464-467 | until 2^32 ids were drawn no peer of a reachable engine is wedged |
| Pmtud.PathMtuDiscovery.NoPeerIsStuck | src/pmtud.rs:728-874 | with clamped tuning every peer of a reachable unpinned engine has a probe out, is in grace, wants a probe or waits in Plateau or Frozen; until 2^32 ids were drawn its probe has an id other than 0 |
| Pmtud.PathMtuDiscovery.SearchIsOver | src/pmtud.rs:728-1274 | before 2^32 ids were drawn, a search of a tracked peer on a path with fixed MTU has ended as stated for `SearchEnds` once enough events got on with it |
| Pmtud.PathMtuDiscovery.SearchesFindTheMtu | src/pmtud.rs:728-1274 | likewise, after 280 searches under one tuning with a budget above confirm_count the peer is exactly at the path MTU |
| Pmtud.PathMtuDiscovery.NextDeadline | src/pmtud.rs:420-453 | never later than the time any peer is due, and attained by some peer or the raise period |
| Pmtud.PathMtuDiscovery.ReachablePeersAreSane | src/pmtud.rs:185-202 | every peer of every reachable engine has a sane window |
| Pmtud.PathMtuDiscovery.CachedMinimumAccuracy | src/pmtud.rs:469-496 | unpinned, the cached minimum is the true one if and only if no tick inserted a peer since the last recomputation or the minimum is at most 1220; capped at 1220 it never exceeds any peer's size |
| Pmtud.NewcomerIsNotCounted | src/pmtud.rs:752-756 | three ticks and an acknowledgement after which the cached minimum is 1252 while a tracked peer is at 1220 |
| RouteIndexes.VipU32Injective | src/routing.rs:1477-1480 | two VIP texts with the same numeric address are the same text |
| RouteIndexes.CompleteAfterRemove | src/routing.rs:673-693 | a removal keeps it complete if and only if the index does not name that row for an endpoint it shares |
| RouteIndexes.SameRoutesKeep | src/routing.rs:1051-1060 | measurements and state changes never disturb the endpoint, node and address indexes |
| Routing.RoutingTable.RebuildPathIndex | src/routing.rs:440-457 | afterwards the path index names the row for exactly its own secondary endpoints and names other rows as before |
| Routing.RoutingTable.PruneTombstones | src/routing.rs:459-469 | keeps exactly the retained tombstones and those younger than 600 s; the 300 s limit never matters |
| Routing.RejectsAlias | src/routing.rs:477-502 | an update for another row's endpoint is refused exactly if that row is identified and the update names a different node, or none while the row is healthy |
| Routing.RoutingTable.Displace | src/routing.rs:509-516 | an identified update replaces the row at its endpoint, an anonymous one only takes the endpoint |
| Routing.RoutingTable.Install | src/routing.rs:519-606 | the new row, its stamp, the moved endpoint entry and the renamed node entry |
| Routing.RoutingTable.Update | src/routing.rs:471-607 | refused exactly as above and then without effect; otherwise only the row and an identified predecessor change, a new row is an unmeasured candidate, the stamp is renewed exactly if the row is new, moved or renamed, all indexes stay sound, the address index exact, table and tombstones disjoint, direct paths at the primary endpoint, and stamps distinct and at most the revision until that wraps |
| Routing.CompleteAfterUpdate | src/routing.rs:471-607 | an accepted update keeps a complete endpoint index complete if and only if the row does not leave an endpoint it shares; a displaced row makes no difference |
| Routing.RoutingTable.Remove | src/routing.rs:673-693 | the row, its endpoint and path entries and the entry of its node go, a tombstone with a new stamp comes, and the same invariants hold |
| Routing.RoutingTable.DrainVipsOutsideSubnet | src/routing.rs:622-651 | removes exactly the rows whose VIP is no address in the subnet and reports each once with its endpoint and node; an unreadable own VIP changes nothing |
| Routing.RoutingTable.EvictOldStale | src/routing.rs:1062-1075 | removes exactly the stale rows last seen too long ago, with one revision each |
| Routing.RoutingTable.MarkStaleIfIdle | src/routing.rs:1051-1060 | marks exactly the idle rows and keeps all invariants |
| Routing.RoutingTable.ClearRelayPath | src/routing.rs:1089-1101 | the relay slot is empty and inactive, nothing else of any row changes, and the path index no longer knows it |
| Routing.RoutingTable.StampRelayHop | src/routing.rs:1104-1115 | the hop is the sticky hop and, unless it is the primary endpoint, indexed for this row; an unknown VIP changes nothing |
| Routing.RoutingTable.LookupByVipU32 | src/routing.rs:653-656 | finds the row with that numeric address whenever there is one |
| Routing.RoutingTable.LookupEpByNode | src/routing.rs:668-671 | the endpoint found belongs to a row of that node |
| Routing.RoutingTable.VipForDataEndpoint | src/routing.rs:1225-1237 | the row found really uses the endpoint, as primary whenever the index knows it as one |
| Routing.SharedEndpointIsForgotten | src/routing.rs:587-587 | three updates after which a row's endpoint is not in the index |
| Routing.OctetSubnets | src/routing.rs:1482-1489 | prefixes 0, 8, 16, 24 and 32 or more compare no, one, two, three and all octets |
| Routing.SubnetsNest | src/routing.rs:1482-1489 | a longer prefix never joins what a shorter one separates |
| RelaySelection.OutranksTotal | src/routing.rs:1175-1188 | of two rows exactly one goes before the other |
| RelaySelection.BestUnique | src/routing.rs:1157-1194 | there is one best row, whatever order the table is scanned in |
| RelaySelection.UsableMeans | src/routing.rs:1117-1148 | a hop is usable exactly if it is not excluded and not the destination's, and the index names a healthy row for it that is neither us nor the destination |
| RelaySelection.UsableHasRow | src/routing.rs:1117-1148 | a usable endpoint has an eligible row that sits there, because the index is sound |
| RelaySelection.UnsoundIndexHidesHops | src/routing.rs:1157-1194 | with an unsound index a usable hop can be out of the scan's reach |
| RelaySelection.BestUsablePeerHop | src/routing.rs:1157-1194 | the endpoint of the best eligible row by quality, round-trip time and VIP; none exactly if no indexed endpoint is usable |
| RelaySelection.SelectRelayEndpoint | src/routing.rs:1196-1211 | the sticky hop if usable, else the best, else none exactly if no indexed endpoint is usable; what is returned is usable |
| RelaySelection.SelectBroadcastRelayHop | src/routing.rs:1213-1222 | the best hop without a destination, none exactly if no indexed endpoint is usable |
| PathSwitching.BestPath | src/routing.rs:172-190 | a usable path of the highest score, the last one of several, or none if none is usable |
| PathSwitching.BestUnique | src/routing.rs:172-190 | that determines the path |
| PathSwitching.ScoreInUnit | src/routing.rs:57-76 | scores lie between 0 and 1 |
| PathSwitching.ScoreIsMonotone | src/routing.rs:57-76 | a path that is no slower, no lossier and, where bandwidth counts, no narrower never scores lower; an unmeasured round trip counts as 200 ms and an unmeasured bandwidth as 15 Mb/s, so a path measured as narrower scores below it |
| PathSwitching.ChallengerLeads | src/routing.rs:221-239 | over any run of calls and cleared relays, a waiting challenger has been best by at least 0.15 at every call that saw a usable path since the one that named it, against the same active path and with no relay cleared in between |
| PathSwitching.EverySwitchHasCause | src/routing.rs:192-240 | over any such run, every switch goes to the best path and is forced by a gap of 0.40 or a score below 0.1 or was earned by three seconds of such a lead, or leaves a relay that was cleared for the direct path |
| PathSwitching.LastingLeadWins | src/routing.rs:221-235 | a lead that lasts is acted on at the first call three seconds after the one that named the challenger |
| PathSwitching.PathSet.ReselectActive | src/routing.rs:192-240 | each call sees the best path and the current score and steps the selector accordingly |
| PathSwitching.PathSet.ClearRelay | src/routing.rs:1089-1098 | the relay slot is empty, nothing else of the paths changes, and the selector steps by a cleared relay |
| PathSwitching.PathSet.SetPath | src/routing.rs:156-170 | setting or measuring a path changes its slot and not the choice |
| ReplayWindow.EveryRunRemembers | src/crypto.rs:244-265 | after any commits, top is the largest and bit d is set exactly if top - d was committed |
| ReplayWindow.AllowedExactlyWhenNew | src/crypto.rs:225-238 | allowed exactly if above all commits, or fewer than 128 behind the top and never committed |
| ReplayWindow.CommittedNeverAllowedAgain | src/crypto.rs:220-266 | a committed counter is refused after any further commits, far jumps included |
| ReplayWindow.DataReplayWindow.Check | src/crypto.rs:225-238 | answers by that rule for the commits so far |
| ReplayWindow.DataReplayWindow.Record | src/crypto.rs:244-265 | the bitmap stands for the longer sequence of commits |
| ReplayWindow.WireCounterRoundTrip | src/crypto.rs:268-282 | encoding fails exactly beyond 48 bits and otherwise decodes to the same counter |
| ReplayWindow.NoncesNeverRepeat | src/crypto.rs:284-292 | under one salt, equal nonces mean equal counters |
| ReplayTable.CtrlReplayTable.EvictOldestUntilRoom | src/crypto.rs:415-427 | a full table loses one source, seen no later than any other |
| ReplayTable.CtrlReplayTable.Record | src/crypto.rs:397-413 | the source's window takes the counter, with room made first; the table never exceeds its limit |
| ReplayTable.CtrlReplayTable.Clear | src/crypto.rs:386-388 | forgets everything |
| ReplayTable.CtrlReplayTable.PresentWhileRecent | src/crypto.rs:397-427 | with times that do not decrease, a source is present if fewer than max_sources others committed no earlier than it, and only if fewer committed later; with increasing times exactly if fewer were committed since |
| ReplayTable.CtrlReplayTable.RecentSourceStaysProtected | src/crypto.rs:390-427 | with times that do not decrease, a counter stays refused as long as fewer than max_sources others have committed no earlier than its source |
| ReplayTable.CtrlReplayTable.RecentByCount | src/crypto.rs:390-427 | with increasing times, as long as fewer than max_sources others were committed since |
| ReplayTable.TiesMayEvictTheNewer | src/crypto.rs:415-427 | with equal times a full table of any size from 2 on may drop the source committed last, after which only the new one was committed |
| RateLimiter.ControlRateLimiter.Admit | src/crypto.rs:471-505 | one call housekeeps, tops up and charges the bucket, and is granted exactly with a whole token |
| RateLimiter.RunsAgree | src/crypto.rs:471-505 | if 300 s refill a bucket, any calls get the answers of a ledger that never forgets, but for full-table refusals |
| RateLimiter.ReapingInvisibleIff | src/crypto.rs:460-505 | that holds of all calls if and only if capacity <= 300 * refill or capacity < 1 |
| RateLimiter.GrantsBounded | src/crypto.rs:471-505 | if 300 s refill a bucket, one source is granted at most what its bucket holds plus refill * T calls in any span T |
| RateLimiter.GrantsBoundedIff | src/crypto.rs:460-505 | after every history, in every span T and for every source, at most capacity + refill * T calls are granted, if and only if capacity <= 300 * refill or capacity < 1 |
| ClaimGossip.RemoveClaimsForVip | src/net/claim_gossip.rs:165-176 | drops and reports exactly the claims on a VIP |
| ClaimGossip.SettleDuplicateVips | src/net/claim_gossip.rs:203-221 | keeps the smallest claimant of every VIP and reports exactly the others |
| ClaimGossip.SettlingIsFinal | src/net/claim_gossip.rs:203-221 | the kept VIPs are distinct, none is lost, each is with its smallest claimant, and settling again removes nothing |
| ClaimConvergence.MergeOrderIrrelevantIff | src/net/claim_gossip.rs:64-119 | without barriers, all orders and repetitions of a set of claims merge to the same map if and only if no node claims two VIPs in its newest epoch |
| ClaimConvergence.GossipConverges | src/net/claim_gossip.rs:64-221 | members that heard the same consistent claims settle on the same owners |
| ClaimBarriers.TombstoneHolds | src/net/claim_gossip.rs:224-263 | while a leave tombstone stands, no run stores a claim of that node at its epoch or below |
| ClaimBarriers.LoserStaysOut | src/net/claim_gossip.rs:122-162 | a losing claim that keeps arriving less than 30 s apart never gets in, with prunes and other events interleaved |
| ClaimBarriers.RefusedExactlyWhileKeptAlive | src/net/claim_gossip.rs:64-162 | it is refused exactly while its entry was kept alive or a tombstone blocks it |
| ClaimBarriers.TombstoneStarvesSuppression | src/net/claim_gossip.rs:74-95 | after a lost fight and a leave, any arrivals of the claim before the tombstone ends are caught by it and renew nothing, and the claim gets in when it ends |
| ClaimBarriers.PruningIsInvisible | src/net/claim_gossip.rs:160-250 | over any run, leaving out all prunes changes no claim and no barrier that has not expired |
| VipFight.ExactlyOneLoses | src/net/claim_gossip.rs:192-199 | of two claimants of a VIP exactly the larger id loses |
| VipFight.ScanVisitsEachHostOnce | src/net/claim.rs:21-40 | the scan visits each host 1..254 exactly once |
| VipFight.PickFreeVip | src/net/claim.rs:21-40 | picks the first free host of the scan, or nothing for a base that is no address |
| VipFight.PickIsFree | src/net/claim.rs:21-40 | the pick is free and in the /24, and missing exactly if all 254 are taken |
| VipFight.RerollResolvesOneLoser | src/net/claim.rs:9-40 | with at most 254 members a loser finds a VIP, moves alone, and is the only one to leave the losers |
| VipFight.EveryRunSettles | README.md:137-137 | every run moves only losers, settles one per turn, and is at its end exactly when the VIPs are distinct |
| VipFight.UnsettledRunContinues | README.md:137-137 | until then some loser can reroll |
| VipFight.SettlesExactlyWhenMembersFit | README.md:137-137 | fights can be settled in a /24 exactly if it has at most 254 members |
| BackgroundCc.ClampRateKnobs | src/advanced_tuning.rs:426-443 | panics exactly for a minimum above 50 MB/s; otherwise all knobs are in range and values in range are kept |
| BackgroundCc.EveryRunIsBounded | src/net/background_cc.rs:187-369 | over any run rate and smoothed rate stay in [min, max], tokens in [0, burst cap]; bytes on tokens are at most the starting tokens plus max rate times elapsed time; each consumed byte is still accumulating or counted in exactly one closed window |
| BackgroundCc.TokensGrow | src/net/background_cc.rs:187-210 | without sends tokens grow by at least min rate times elapsed time until the bucket is full, however the rate is steered |
| BackgroundCc.WaitingPacketGoes | src/net/background_cc.rs:279-296 | so a packet that fits the bucket may go after its length divided by the minimum rate |
| BackgroundCc.DelayLowersExactlyWhen | src/net/background_cc.rs:298-369 | delay above the target lowers the rate exactly if that is above its minimum |
| BackgroundCc.LossLowersExactlyWhen | src/net/background_cc.rs:349-366 | an actionable loss without delay or anchor leaves the rate no higher exactly if the cut outweighs the increase or the rate is at its maximum |
| BackgroundCc.LossCanRaise | src/net/background_cc.rs:349-366 | with the default configuration, 17 delayed samples bring a new peer to the minimum rate, where an actionable loss raises the rate by the additive increase |
| BackgroundCc.CalmRaisesExactlyWhen | src/net/background_cc.rs:354-366 | delay below the target without actionable loss raises the rate exactly if that is below its maximum |
| BackgroundCc.ColdDelayNeverRaises | src/net/background_cc.rs:349-366 | without delay telemetry the rate is never raised and lowered only by an actionable loss |
| BackgroundCc.RandomLossIsIgnored | src/net/background_cc.rs:309-327 | with the classifier on, a loss without congestive delay changes the rates no more than no loss |
| BackgroundCc.LossActsOncePerEdge | src/net/background_cc.rs:305-307 | over any run a loss is acted on only if the sample before it was not lossy |
| BackgroundCc.DeliveryApproachesSample | src/net/background_cc.rs:197-208 | a closed window leaves exactly the share 1 - alpha of the distance between estimate and sample; the first one sets the estimate |
| BackgroundCc.SmoothedFollows | src/net/background_cc.rs:366-369 | the smoothed rate moves towards the new rate, not past it, and jumps to it on an anchored decrease |
| BackgroundCc.BackgroundCcEngine.RefillAllTokens | src/net/background_cc.rs:187-210 | every peer's history grows by this refill, none if disabled or no time passed |
| BackgroundCc.BackgroundCcEngine.OnCcSample | src/net/background_cc.rs:212-222 | only this peer's history grows, by the sample, a new peer starting fresh |
| BackgroundCc.BackgroundCcEngine.CanSendData | src/net/background_cc.rs:224-232 | data waits exactly if the peer is paced, its head of line is recent, tokens are short and no oversize exception applies |
| BackgroundCc.BackgroundCcEngine.ConsumeSendBytes | src/net/background_cc.rs:234-243 | only a known peer's history grows, by the sent bytes |
| BackgroundCc.BackgroundCcEngine.EnsurePeer | src/net/background_cc.rs:245-253 | an unknown peer starts with an empty history |
| BackgroundCc.BackgroundCcEngine.RemovePeer | src/net/background_cc.rs:255-257 | the peer and its history go |
| BackgroundCc.BackgroundCcEngine.PeersAreBounded | src/net/background_cc.rs:111-257 | with clamped tuning every peer of a reachable engine is in bounds, within its allowance, and conserves bytes |
| Bencode.Parse | src/nat/tracker.rs:386-458 | on any input a successful read ends strictly after its start and within the data |
| Bencode.ParseBencode | src/nat/tracker.rs:386-458 | the cursor loops and recursion read exactly what the grammar says |
| Bencode.RoundTrip | src/nat/tracker.rs:386-458 | the encoding of any value, at any position and with anything after it, is read as that value and up to exactly its end |
| Bencode.EncodingsArePrefixFree | src/nat/tracker.rs:386-458 | no encoding is the beginning of another |
| Bencode.LenientInts | src/nat/tracker.rs:390-406 | integers with a plus sign or leading zeros are read too, a bare sign or nothing is not |
| TrackerReplies.ParseCompactPeers | src/nat/tracker.rs:102-120 | refuses lengths not divisible by six and more than 512 peers, and otherwise yields the peers with a port in order |
| TrackerReplies.CompactRoundTrip | src/nat/tracker.rs:102-120 | a written compact list is read as exactly its peers with a port, in order, up to 512 |
| TrackerReplies.RepliesAreDistinct | src/nat/tracker.rs:58-144 | no datagram answers both a connect and an announce |
| TrackerReplies.ConnectReplyReads | src/nat/tracker.rs:58-77 | a connect reply laid out as in BEP 15 gives its connection id to the request it answers and to no other |
| TrackerReplies.AnnounceReplyReads | src/nat/tracker.rs:122-144 | an announce reply gives its interval and its peers with a port to the request it answers and to no other, unless it has more than 512 |
| TrackerReplies.Gather | src/nat/tracker.rs:259-281 | one pass finds the last "interval", or without one the first "min interval", and the last compact peers, and fails exactly for peers that are not compact |
| TrackerReplies.ParseHttpAnnounceBody | src/nat/tracker.rs:239-287 | reads a body as its dictionary says |
| TrackerReplies.AnnounceBodyReads | src/nat/tracker.rs:239-287 | any written dictionary, with anything after it, gives its interval and exactly its peers with a port, or is refused exactly for a failure, peers that are not compact, no valid interval or more than 512 peers |
| TrackerSession.PendingBounded | src/net/decentralized.rs:395-404 | with one connect and one announce per address, open requests are at most twice the resolved addresses |
| TrackerClient.DueBetween | src/net/decentralized.rs:163-172 | a slot is due at the latest 300 s after its last answer and never within 60 s |
| TrackerClient.RotationReachesAll | src/net/decentralized.rs:149-161 | rotating away from failing addresses reaches every resolved address within one round |
| TrackerClient.AnsweredIsLeftAlone | src/net/decentralized.rs:519-597 | within a minute of its answer an address is asked again if and only if another due UDP slot has it as its current address and no request of the kind it needs is open |
| TrackerClient.SecondSlotAsksAgain | src/net/decentralized.rs:488-493 | an answer leaves every later slot with the address as it was, and one that was never answered asks again whenever no request is open |
| TrackerClient.DecentralizedState.Start | src/net/decentralized.rs:185-213 | a new session with at most 32 fresh slots and nothing pending or connected |
| TrackerClient.DecentralizedState.Stop | src/net/decentralized.rs:215-219 | nothing is left but the next generation |
| TrackerClient.DecentralizedState.AddResolvedAddrs | src/net/decentralized.rs:358-367 | exactly the new addresses are appended to that slot |
| TrackerClient.DecentralizedState.SweepExpiredPending | src/net/decentralized.rs:373-376 | keeps exactly the requests younger than 20 s |
| TrackerClient.DecentralizedState.TickTrackerSlot | src/net/decentralized.rs:519-597 | sends exactly what a due UDP slot wants: a connect without unexpired id, an announce with one, and neither while one of that kind is open to the address; only a failed send rotates the slot to its next address |
| TrackerClient.DecentralizedState.Tick | src/net/decentralized.rs:599-644 | if nothing fails and no transaction id repeats, every due UDP slot with an address has a request open to it afterwards; the session's guarantees hold in any case |
| TrackerClient.DecentralizedState.HandleDatagram | src/net/decentralized.rs:442-517 | only the asked address can answer an open request, which closes it; a grant is recorded for 55 s; an answered announce notes the peers and sets interval and time of the first slot with that address; anything else changes nothing |
| TrackerClient.DecentralizedState.TakePendingHttpAnnounces | src/net/decentralized.rs:273-311 | from the first slot on exactly those that want an announce get one and are marked, until four are in flight or all slots were looked at |
| TrackerClient.DecentralizedState.SweepExpiredHttp | src/net/decentralized.rs:378-393 | exactly the HTTP requests older than 20 s stop counting |
| TrackerClient.DecentralizedState.ApplyHttpAnnounceResult | src/net/decentralized.rs:313-350 | a result of an earlier session changes nothing, up to 2^64 sessions; one of this session frees its slot and, if successful, sets its interval and time and notes the peers |
| TrackerClient.DecentralizedState.SessionIsSound | src/net/decentralized.rs:273-597 | in every reachable client each announce carried an id its address granted, in answer to this session's own connect, less than 55 s before; open requests and HTTP requests are bounded |
| Text.Ipv4RoundTrip | src/routing.rs:1477-1480 | an address text is read exactly if it is the canonical text of that address |

## Left out

- Sockets, DNS, HTTP transfer, threads and the engine's select loop: only their effects enter, as parameters.
- AEGIS, HKDF, BLAKE2, SHA-256 and base64: foreign libraries.
- Terminal UI, daemon, IPC, configuration files, metrics and tracing: easy or system calls.
- Floating-point rounding and NaN: rates, scores, tokens and delays are exact reals.
- FEC, pacing and retransmission: not part of this model, except the congestion test that the rate update calls.
- Event counters and log lines of every modelled component.
- Delay baselines, one-way delay, jitter and quality updates of a route row: measurements may take any value here.
- Path measurements inside the routing table's rows: those rows keep only the endpoints of the multipath slots; switching between
  paths is modelled in `PathSwitching` on its own.
- Changing the congestion configuration of a running engine: the theorems are about one configuration.
- Punch targets, join fan-out, the bound on discovered peers and the request builders of the tracker client.
- Tracker URLs: `Start` takes the list of those that parse, with their scheme.
- Error texts: failures carry no message.
- Bencode.RoundTrip: covers integers in 64 bits and byte strings with 64-bit lengths, which is what the reader can hold.
