# Indra's Network in Dafny

A Dafny 4.11 model of the parts of Indra's Network that carry its guarantees, with proofs about every run of them.
`dafny verify dfyconfig.toml` checks the whole project.

**Store-and-forward engine** (`simulation/`). `SimTypes` holds the data, `SimSpec` the transition rules as functions on
states, and class `Simulation` the engine as the code runs it, phase by phase, with loops over its fields; every method
is proved equal to the rules (`SimLoops` unrolls them one round at a time). `SimInvariant` states what every reachable
state satisfies, `SimMoves`, `SimPhases`, `SimBackprops` and `SimRuns` prove it for single moves, phases, ticks and
runs, `SimTheorems` and `SimProgress` draw the conclusions, `SimChoices` says what each single move decides and changes,
and `SimPanic` builds a run that panics. A run starts from an unused mesh (`Mesh` shows that `add_peer`, `connect` and
`from_edges` produce one), initializes it with any draw, and then sends, ticks and forces peers in any order. Random
wake and sleep draws are arbitrary inputs. A run in which the program panics has no further states. The messages sent,
the messages dropped and the peer that made each delivery are history kept for the theorems; no rule reads it.

**DTN layer** (`crates/indras-dtn`). `Prophet` and `ProphetState` model the delivery probabilities over exact reals,
`Custody` one custody manager and `CustodyNetwork` any number of them exchanging messages, `Epidemic` the router with
its duplicate memory and spray-and-wait arithmetic. Custody follows section 5.10 of RFC 5050; PRoPHET follows the code,
whose transitive rule is additive and capped, unlike section 2.1.2 of RFC 6693. In `CustodyNetwork` a node answers an
offer with an acceptance exactly when its own `accept_custody` returned Ok, and the network does not duplicate messages;
the model shows both what follows from this and what goes wrong without it.

**Artifact economy** (`crates/indras-artifacts`). `Artifacts` gives the store and the vault and exchange operations as
functions, `ArtifactCalls` what each call does, `ArtifactRuns` what runs of them guarantee, `Intentions` the release of
attention as tokens, and `Vault` the store, vault, exchange and intention code in place.

**Pass stories and encodings** (`crates/indras-crypto`). `Entropy` models the entropy gate, `PassStory` the whitespace
loop and the slot encoding, `DeviceCert` the signed message, `Bytes` little-endian integers.

Some natural claims are false of the code, and are stated with their exact condition instead:

- The confirmation phase removes timed-out entries first and then uses positions recorded before. It removes exactly the
  finished entries only when a tick does not do both (`StalePositions`), and it can panic (`StepPanicsExactly`,
  `APanicIsReachable`).
- `n` encounters follow the PRoPHET closed form exactly when `P_init <= max`, because the first encounter is not capped
  (`EncountersFollowClosedForm`).
- A message can expire, on any mesh, exactly when retries may last as long as the timeout (`ExpiryIsPossibleExactly`).
- Calling `initialize` again makes the log disagree with the online flags exactly when it turns an online peer off
  (`InitializeKeepsFlagsExactly`).
- `revoke_access` promises to protect permanent grants but looks at a grantee's first grant only
  (`RevokeRemovesPermanentExactly`).
- Two live grants of one grantee can coexist: a repeated audience member, or a clock that goes back, adds a second one
  (`GrantsAreKeptExactly`, `ClockGoingBackDoublesGrants`).
- A recalled or transferred artifact still changes hands when an exchange of it is completed (`InactiveStaysExactly`).
- Placing an artifact under an id that has a history, or releasing attention under a token that has one or is minted twice,
  can break the stewardship chain (`ChainsAreKeptExactly`, `ReleaseKeepsChainExactly`).
- `release_attention` is not atomic: when the intention is missing, a token has already been given away
  (`FailureLeavesAToken`).
- A device certificate's message reads back exactly when its fields are below 2^32 bytes (`MessageParsesExactly`); from
  there on different certificates can share a message (`LongFieldsCollide`).

Where documentation and code differ, the code is followed: the path of a confirmation is documented as the route from
source to destination, but is the sorted set of visited peers, without the destination; `best_candidate` is documented to
use the candidate's probability for the destination, but uses ours for the candidate.

## Model

| member | source | states |
|---|---|---|
| `SimTheorems.MessagesAreConserved` | simulation/src/simulation.rs:184-219 | After every run the multiset of messages ever sent is exactly pending + queued + in inboxes + dropped, message by message; hence messages_sent = pending + dropped + queue lengths + delivered. |
| `SimTheorems.PacketsAreNowhereTwice` | simulation/src/simulation.rs:318-386 | In every reachable state a packet id occurs at most once over all relay queues and inboxes together. |
| `SimTheorems.RelayingIsBounded` | simulation/src/simulation.rs:515-615 | Every queued packet has visited + ttl = 11, sits at a peer it visited and has not passed its destination; every id is relayed at most min(10, peers - 1) times over the whole log; no run logs a NoRoute drop, and with at most 11 peers none logs TtlExpired. |
| `SimTheorems.LogDeterminesState` | simulation/src/simulation.rs:240-279 | Folding the event log gives each peer's delivered list in order (which is also its inbox), its online flag, and both counters; every delivery in the log goes to a peer awake at that point, every relay joins two awake neighbours, every confirmation hop two awake peers. |
| `SimTheorems.InboxesAreRight` | simulation/src/simulation.rs:332-386 | Every delivery made in a run was made by a peer that had held the packet and is a neighbour of its destination; every packet in an inbox is addressed to that peer and was delivered so; deliveries made, messages_delivered and packets in inboxes are equally many. |
| `SimTheorems.DeliveriesAreCounted` | simulation/src/simulation.rs:345-371 | Over every run the deliveries made are those of the log, in order; direct_deliveries counts those whose packet visited one peer, relayed_deliveries the others, total_hops sums the peers visited and total_delivery_latency the ticks from minting to delivery. |
| `SimTheorems.ConfirmationsAreOrdered` | simulation/src/simulation.rs:373-386 | In every reachable state confirmations are ordered by delivery tick, have paths of at least two peers and a valid position, and concern delivered packets. |
| `SimTheorems.FinishedConfirmationsLeave` | simulation/src/simulation.rs:667-771 | In any tick from a reachable state exactly the finished confirmations are removed if and only if the tick does not both time out and complete some; survivors have moved by at most one hop. |
| `SimTheorems.StepPanicsExactly` | simulation/src/simulation.rs:196-219 | From a reachable state a tick panics if and only if the aging interval is zero, or confirmations both time out and complete and the last recorded position lies beyond the shortened list. |
| `SimPanic.APanicIsReachable` | simulation/src/simulation.rs:729-741 | Five public calls on the line A - B - C lead from an unused mesh to a state whose next tick panics on a stale index. |
| `SimPanic.LineIsFromEdges` | simulation/src/topology.rs:282-292 | What from_edges promises for the edges A-B and B-C pins down exactly the mesh of that run. |
| `SimPanic.BuildLine` | simulation/src/topology.rs:282-292 | from_edges builds that mesh. |
| `SimChoices.RelaysExactly` | simulation/src/simulation.rs:515-615 | Every outcome of find_relay_path: without an online unvisited neighbour the packet is held; without hops left it is dropped; otherwise it goes, one hop poorer, to the relay the priorities choose, with event, encounter and queue. Selections by PRoPHET are counted. |
| `SimChoices.SelectsExactly` | simulation/src/simulation.rs:528-555 | The relay is the neighbour more probable than the destination with the highest probability (of equals the last); else the least one in the hints; else the least one next to the destination; else the least one; there is none exactly when nobody may relay. |
| `SimChoices.ChosenIsUnique` | simulation/src/simulation.rs:528-555 | The four priorities determine the relay. |
| `SimChoices.FirstHopIsShort` | simulation/src/simulation.rs:491-555 | A sender that has met nobody, not connected to the destination but with an online neighbour in common with it, relays to such a neighbour: the packet is then next to its destination. |
| `SimChoices.MintsExactly` | simulation/src/simulation.rs:485-494 | A new packet has the sender's next number, ten hops, its source as only visited peer, and as hints exactly the common neighbours of sender and destination. |
| `SimChoices.SendsExactly` | simulation/src/simulation.rs:434-513 | The fate of a send: dropped or retried while the sender is offline; delivered at once to an online neighbour, held for an offline one, relayed to anybody else. |
| `SimChoices.TriesExactly` | simulation/src/simulation.rs:388-432 | A send older than the timeout is dropped as expired, any other one is announced and routed. |
| `SimChoices.DeliversExactly` | simulation/src/simulation.rs:332-386 | A delivery changes the destination's inbox and list, the deliverer's table, the log and counters, and starts a confirmation over the sorted visited peers unless the packet came straight from its source; nothing else. |
| `SimChoices.ForwardsExactly` | simulation/src/simulation.rs:617-665 | A queued packet is delivered to an online neighbour, waits for an offline one, and is relayed on to anybody else. |
| `SimChoices.AddressedIsFiltered` | simulation/src/simulation.rs:307-330 | A woken peer is handed exactly the packets addressed to it, in queue order. |
| `SimChoices.ConfirmationsMoveExactly` | simulation/src/simulation.rs:682-727 | Every confirmation moves by one hop in a tick exactly when it is not late, not at its end, and both peers of the hop are online; each move is logged, in order, as a hop between those two. |
| `SimChoices.FinishedExactly` | simulation/src/simulation.rs:672-686 | A confirmation is recorded as late exactly beyond the timeout, and as complete exactly when it is not late and has no hop left. |
| `SimChoices.TransitionsAreCounted` | simulation/src/simulation.rs:240-279 | wake_events and sleep_events count the drawn peers that were offline and online. |
| `SimChoices.ForcesExactly` | simulation/src/simulation.rs:817-841 | Forcing flips, logs and stamps a known peer in the other state, and changes nothing otherwise. |
| `SimChoices.AgesExactly` | simulation/src/simulation.rs:214-218 | Every tick divisible by the interval ages every peer's table once and nothing else; a zero interval panics. |
| `SimProgress.WakingReceives` | simulation/src/simulation.rs:281-330 | From any reachable state, a peer that wakes in a tick receives in that tick every packet waiting for it at any neighbour, even an offline one. |
| `SimProgress.NeighborsDeliver` | simulation/src/simulation.rs:617-665 | From any reachable state, a packet queued at a peer that is online in a tick, next to a destination online in that tick, is delivered in that tick. |
| `SimProgress.RetriesTrackAge` | simulation/src/simulation.rs:388-483 | In every reachable state a pending send has retry_count = tick - created_tick and has waited no longer than either limit; if retries run out before the timeout, messages_expired is 0 forever. |
| `SimProgress.ExpiryIsPossibleExactly` | simulation/src/simulation.rs:388-417 | On every mesh, for every configuration and initial draw: some run counts an expired message if and only if the aging interval is positive, a timeout is set, and retries may go on at least as long as the timeout. |
| `SimProgress.OnlySendersOfflineWait` | simulation/src/simulation.rs:434-483 | After a tick the only sends still pending belong to offline or unknown senders. |
| `SimProgress.InitializeKeepsFlagsExactly` | simulation/src/simulation.rs:163-181 | A further call of initialize leaves the online flags readable from the log if and only if it turns no online peer off, because it logs no Sleep. |
| `SimProgress.TransitionsExactly` | simulation/src/simulation.rs:240-279 | The transition loop flips exactly the drawn peers, stamps exactly those that wake, and leaves queues alone. |
| `SimRuns.StepKeepsInv` | simulation/src/simulation.rs:196-219 | One tick keeps the whole invariant (conservation, single copy, hop budget, log agreement, retry age, confirmation order) and delivers every deliverable packet. |
| `SimRuns.RunKeepsInv` | simulation/src/simulation.rs:148-219 | Every run of sends, ticks and forced transitions keeps the invariant. |
| `SimRuns.InitializeKeepsInv` | simulation/src/simulation.rs:163-181 | initialize, with every listed peer offline at tick 0, keeps the invariant for any draw. |
| `SimPhases.RelayQueuesKeepsInv` | simulation/src/simulation.rs:617-665 | The relay phase keeps the invariant and every packet deliverable when it began has arrived when it ends. |
| `SimPhases.ProcessSendsKeepsInv` | simulation/src/simulation.rs:388-513 | The send phase keeps the invariant while it drains the pending sends, and takes no packet away from a peer next to its destination. |
| `SimPhases.AwakeSignalsKeepsInv` | simulation/src/simulation.rs:281-330 | The awake phase keeps the invariant and only moves packets from queues to the inboxes they are addressed to. |
| `SimPhases.FindRelayKeepsInv` | simulation/src/simulation.rs:515-615 | Relay selection keeps the invariant with a packet in hand, whatever PRoPHET answers. |
| `SimBackprops.StalePositions` | simulation/src/simulation.rs:729-741 | The removal loops leave exactly the unfinished confirmations if and only if timed-out and completed ones are not both present. |
| `SimBackprops.PhaseIsRest` | simulation/src/simulation.rs:667-771 | The phase panics exactly when a recorded position is out of range after the timed-out prefix is gone; otherwise it removes precisely the stale positions and changes no queue. |
| `SimBackprops.PhaseIsCounted` | simulation/src/simulation.rs:729-771 | The phase counts one timeout per timed-out entry, one completion per removed position, and adds up how long the removed entries had been under way. |
| `SimBackprops.CleanupIsIdle` | simulation/src/simulation.rs:747-763 | The relay-queue cleanup of a confirmed packet never removes anything. |
| `SimBackprops.TimedOutIsPrefix` | simulation/src/simulation.rs:672-680 | Timed-out confirmations are a prefix of the list. |
| `Simulation.Simulation.constructor` | simulation/src/simulation.rs:150-160 | A new simulation is the initial state of the transition rules. |
| `Simulation.Simulation.Initialize` | simulation/src/simulation.rs:163-181 | The loop over peers equals the initialize rule for the given draw. |
| `Simulation.Simulation.SendMessage` | simulation/src/simulation.rs:184-193 | Queues one pending send at the current tick and counts it. |
| `Simulation.Simulation.ForceOnline` | simulation/src/simulation.rs:817-828 | Wakes a known offline peer and logs it, otherwise nothing. |
| `Simulation.Simulation.ForceOffline` | simulation/src/simulation.rs:831-841 | Puts a known online peer to sleep and logs it, otherwise nothing. |
| `Simulation.Simulation.ProcessStateTransitions` | simulation/src/simulation.rs:240-279 | The in-place loop equals the transition rule. |
| `Simulation.Simulation.ProcessAwakeSignals` | simulation/src/simulation.rs:281-305 | The nested loops equal the awake-signal rule. |
| `Simulation.Simulation.DeliverPendingPackets` | simulation/src/simulation.rs:307-330 | Removes and delivers exactly the packets addressed to the peer, in queue order. |
| `Simulation.Simulation.DeliverPacket` | simulation/src/simulation.rs:332-386 | Encounter, inbox, delivered list, event, counters and confirmation are updated as the delivery rule says. |
| `Simulation.Simulation.ProcessPendingSends` | simulation/src/simulation.rs:388-432 | Drains the pending sends and tries each one once. |
| `Simulation.Simulation.RouteMessageWithRetry` | simulation/src/simulation.rs:434-513 | Retry, drop, direct delivery, hold or relay, as the routing rule says. |
| `Simulation.Simulation.FindRelayPath` | simulation/src/simulation.rs:515-615 | Candidate filter, the four selection priorities, TTL and enqueueing equal the relay rule. |
| `Simulation.Simulation.ProcessRelayQueues` | simulation/src/simulation.rs:617-665 | The nested loops equal the relay-phase rule. |
| `Simulation.Simulation.ScanBackprops` | simulation/src/simulation.rs:667-718 | The scan advances entries in place and records exactly the timed-out and completed positions and the hop events. |
| `Simulation.Simulation.ProcessBackprops` | simulation/src/simulation.rs:667-771 | The three loops equal the confirmation rule, a panic included. |
| `Simulation.Simulation.ProcessProphetAging` | simulation/src/simulation.rs:773-784 | Ages every peer's table and counts one cycle. |
| `Simulation.Simulation.Step` | simulation/src/simulation.rs:196-219 | One tick equals the step rule, panics exactly when it does, and keeps the invariant. |
| `Simulation.Simulation.RunTicks` | simulation/src/simulation.rs:234-238 | A number of ticks equals the run of that many steps, up to a panic. |
| `Mesh.Mesh.AddPeer` | simulation/src/topology.rs:63-68 | Adds an unconnected peer if it is new; links do not change. |
| `Mesh.Mesh.Connect` | simulation/src/topology.rs:71-92 | Adds exactly one undirected edge and missing endpoints, nothing for a self-loop; adjacency stays symmetric, irreflexive and equal to connections, interfaces its normalized edges. |
| `Mesh.Mesh.MutualPeers` | simulation/src/topology.rs:135-143 | Exactly the peers linked to both. |
| `Mesh.Mesh.AreConnected` | simulation/src/topology.rs:100-105 | Linked, in either direction. |
| `Mesh.FromEdges` | simulation/src/topology.rs:282-292 | Fails exactly on a letter that is not a capital; otherwise the links are exactly the listed edges, the peers their endpoints, and the mesh is unused. |
| `CustodyNetwork.CustodyIsNeverSilentlyLost` | crates/indras-dtn/src/custody.rs:120-301 | For any nodes, bundles and runs with loss, delay, reordering, timeouts, re-offers and stale replies: custodians + released or expired >= custodies taken at a source + acceptances in flight; so an unreleased bundle always has a custodian, and every node stays within its own bounds. |
| `CustodyNetwork.DuplicationLosesCustody` | crates/indras-dtn/src/custody.rs:173-201 | A run with one duplicated acceptance ends with nobody holding a bundle that nobody released: the exclusion of duplicates is necessary. |
| `CustodyNetwork.ReceiveReplyKeepsInv` | crates/indras-dtn/src/custody.rs:173-201 | A reply, also a late one to an older offer, ends custody only against an acceptance that leaves the network. |
| `CustodyNetwork.ReceiveOfferKeepsInv` | crates/indras-dtn/src/custody.rs:120-149 | Answering an offer adds a custodian exactly when it adds an acceptance. |
| `CustodyNetwork.NextKeepsInv` | crates/indras-dtn/src/custody.rs:120-301 | Every network event keeps the cover of every bundle and the bounds of every node. |
| `Custody.CustodyManager.AcceptCustody` | crates/indras-dtn/src/custody.rs:120-149 | Storage-full before already-held, otherwise a record expiring after the remaining lifetime. |
| `Custody.CustodyManager.OfferCustody` | crates/indras-dtn/src/custody.rs:154-170 | Opens or replaces an offer exactly for bundles in custody. |
| `Custody.CustodyManager.HandleReply` | crates/indras-dtn/src/custody.rs:173-201 | Closes the open offer; acceptance ends custody, refusal counts an attempt, no open offer changes nothing. |
| `Custody.CustodyManager.ReleaseCustody` | crates/indras-dtn/src/custody.rs:221-224 | Removes record and offer, returns the record. |
| `Custody.CustodyManager.CheckForTimeouts` | crates/indras-dtn/src/custody.rs:229-246 | Withdraws exactly the late offers, counts one attempt each, and keeps custody. |
| `Custody.CustodyManager.Cleanup` | crates/indras-dtn/src/custody.rs:271-277 | Releases exactly the expired records. |
| `Custody.HandlingStaysSound` | crates/indras-dtn/src/custody.rs:173-201 | Open offers stay a subset of records, and records within capacity. |
| `Custody.CustodyLastsTheRemainingLifetime` | crates/indras-dtn/src/custody.rs:120-149 | Refused for want of room before anything else, then if already held; a record taken at (utc, now) is released by a cleanup at a later reading exactly when more than the bundle's remaining lifetime has passed. |
| `Custody.OffersStandForTheTimeout` | crates/indras-dtn/src/custody.rs:154-170 | An offer to a bundle in custody is withdrawn by a later check exactly when more than the acceptance timeout has passed; an acceptance in between names the node it was made to. |
| `Custody.RepliesExactly` | crates/indras-dtn/src/custody.rs:173-201 | A reply closes the open offer; acceptance removes that record, refusal costs it one attempt; without an open offer nothing changes. |
| `Custody.ChecksExactly` | crates/indras-dtn/src/custody.rs:229-277 | The timeout check withdraws exactly the late offers at one attempt each; the cleanup releases exactly the expired records, with their offers. |
| `Prophet.TransitiveUpdateIsOrderIndependent` | crates/indras-dtn/src/prophet.rs:182-216 | For inputs in [0,1] the resulting table is the same for every arrangement of the intermediary's list, duplicates included. |
| `Prophet.TransitiveUpdateExactly` | crates/indras-dtn/src/prophet.rs:182-216 | For inputs in [0,1]: the entry for d becomes min(max, 1 - (1 - P0) * product of (1 - P(via) * p * transitivity) over the list's pairs (d, p)); it is unchanged for ourselves, the intermediary, entries above the cap, and altogether when P(via) <= min; an absent entry appears exactly when positive. |
| `Prophet.EncountersRaise` | crates/indras-dtn/src/prophet.rs:154-173 | n encounters with a known peer give min(max, 1 - (1 - P0) * (1 - P_init)^n). |
| `Prophet.DefaultRates` | crates/indras-dtn/src/prophet.rs:49-60 | With the default settings: 1 - 4^-n up to 0.99 after n meetings, a quarter of both probabilities' product for one piece of hearsay, 0.98^k after k firings down to 0.01. |
| `Prophet.EncountersFollowClosedForm` | crates/indras-dtn/src/prophet.rs:154-173 | n encounters from an absent entry give min(max, 1 - (1 - P_init)^n) for every n if and only if P_init <= max (the first encounter is not capped). |
| `Prophet.AgedExactly` | crates/indras-dtn/src/prophet.rs:222-261 | After k firings an untouched entry is p * gamma^k, or gone exactly when that is below the minimum. |
| `Prophet.AgingForgets` | crates/indras-dtn/src/prophet.rs:222-261 | An untouched entry p has vanished after max(0, floor((p - min) / (min (1 - gamma)))) + 1 firings. |
| `Prophet.TablesStaySound` | crates/indras-dtn/src/prophet.rs:154-261 | Over every run of encounters, transitive updates and aging all entries stay in (0, max] and the local id is never listed. |
| `Prophet.BestCandidateIsExact` | crates/indras-dtn/src/prophet.rs:273-306 | best_candidate answers exactly when should_forward_to holds for some candidate, and then with a candidate of maximal probability, of equals the last in the list. |
| `ProphetNode.ProphetState.Encounter` | crates/indras-dtn/src/prophet.rs:154-173 | The in-place update equals the encounter rule. |
| `ProphetNode.ProphetState.TransitiveUpdate` | crates/indras-dtn/src/prophet.rs:182-216 | The loop equals the transitive rule, including its early exit and never-lower guard. |
| `ProphetNode.ProphetState.AgeAll` | crates/indras-dtn/src/prophet.rs:222-261 | Fires exactly when the interval has passed; then removes entries that would fall below the minimum and scales the rest. |
| `ProphetNode.ProphetState.ForceAge` | crates/indras-dtn/src/prophet.rs:264-267 | Always fires. |
| `ProphetNode.ProphetState.BestCandidate` | crates/indras-dtn/src/prophet.rs:273-294 | The search equals the maximal-candidate rule, ties going to the last. |
| `Epidemic.DuplicatesAreSuppressed` | crates/indras-dtn/src/epidemic.rs:143-285 | Two decisions of one router that find the same bundle new are at least seen_timeout apart, with a cleanup between them that forgot the bundle; for every run with a clock that does not go back. |
| `Epidemic.ForwardingHasTargets` | crates/indras-dtn/src/epidemic.rs:86-116 | For every decision of route: it forwards exactly when it has targets, all targets are online unvisited neighbours, direct delivery exactly when the destination is one of them, and it is fresh exactly when the bundle was neither too old nor seen. |
| `Epidemic.RoutesExactly` | crates/indras-dtn/src/epidemic.rs:143-231 | Every decision of route and what it remembers: expired by lifetime or age in whole seconds; duplicate; direct delivery; NoNeighbors exactly when nobody is usable; without spray-and-wait all usable neighbours in order, whatever the copies; with it the first SprayTargets of them with targets plus kept copies equal to the copies there were, and waiting with at most one copy. |
| `Epidemic.SprayTargetsExactly` | crates/indras-dtn/src/epidemic.rs:215-219 | Half the copies, rounded up, but not more than there are neighbours. |
| `Epidemic.MarksAreCounted` | crates/indras-dtn/src/epidemic.rs:234-242 | n marks count n sights, keep the time of the first, and touch no other bundle. |
| `Epidemic.CleanupExactly` | crates/indras-dtn/src/epidemic.rs:264-285 | Exactly the records younger than seen_timeout stay, unchanged. |
| `Epidemic.SprayConserves` | crates/indras-dtn/src/epidemic.rs:205-231 | Targets plus remaining copies are the copies there were, remaining >= 1, and the byte casts never truncate; targets number what calculate_spray_targets says. |
| `Epidemic.SprayReachesWait` | crates/indras-dtn/src/epidemic.rs:205-231 | Repeating the decision with non-empty neighbour lists reaches the wait phase within copies - 1 rounds, after exactly copies - 1 targets. |
| `Epidemic.SprayIsLogarithmic` | crates/indras-dtn/src/epidemic.rs:205-231 | With enough neighbours it takes exactly floor(log2 copies) rounds. |
| `Epidemic.EpidemicRouter.RouteBundle` | crates/indras-dtn/src/epidemic.rs:143-198 | The method equals the routing rule. |
| `Epidemic.EpidemicRouter.CleanupSeen` | crates/indras-dtn/src/epidemic.rs:264-285 | Keeps exactly the records younger than seen_timeout and returns how many went. |
| `Epidemic.EpidemicRouter.MarkBundle` | crates/indras-dtn/src/epidemic.rs:234-242 | First sight is remembered; later sights only count. |
| `ArtifactRuns.LiveGrantsStayUnique` | crates/indras-artifacts/src/vault.rs:224-307 | With a clock that does not go back and duplicate-free audiences, after every run of all operations each grantee has at most one live grant per artifact, now and later. |
| `ArtifactRuns.GrantsAreKeptExactly` | crates/indras-artifacts/src/vault.rs:154-248 | For every call and every reading t of the clock at which live grants are unique: they are unique at t after the call if and only if a placed audience has no repetition and a granted mode is expired at t or the grantee has no grant live at t. |
| `ArtifactRuns.ClockGoingBackDoublesGrants` | crates/indras-artifacts/src/vault.rs:241-243 | On every active artifact and for every grantee without grants: a timed grant, then any grant made after its expiry, are two live grants at every earlier reading at which the second is not expired. |
| `ArtifactRuns.RevokeRemovesPermanentExactly` | crates/indras-artifacts/src/vault.rs:251-268 | revoke_access removes a permanent grant if and only if the grantee's first grant is not permanent and some grant is; on success exactly that grantee's grants are gone. |
| `ArtifactRuns.OnlyExpiredTimedHidesPermanent` | crates/indras-artifacts/src/vault.rs:262-265 | Where live grants are unique, that first grant is an expired timed one. |
| `ArtifactRuns.PermanentCanBeRevoked` | crates/indras-artifacts/src/vault.rs:262-265 | On every active artifact and for every grantee without grants, a timed grant, its expiry and a permanent grant make the permanent grant revocable. |
| `ArtifactRuns.InactiveStaysExactly` | crates/indras-artifacts/src/exchange.rs:189-258 | Over all operations: steward, status and grants of a recalled or transferred artifact stay if and only if the call does not place it anew and does not complete an exchange of it between two different stewards (complete never reads the status). |
| `ArtifactRuns.InactiveIsFrozen` | crates/indras-artifacts/src/vault.rs:224-307 | Once recalled or transferred, an artifact is unchanged by every run of grant, revoke, recall and transfer. |
| `ArtifactRuns.ChainsAreKeptExactly` | crates/indras-artifacts/src/vault.rs:279-307 | Every operation keeps every stewardship history a chain ending at the steward, except that placing an id anew does so if and only if its history is empty or ends at the placing player. |
| `ArtifactRuns.HistoryIsAChain` | crates/indras-artifacts/src/exchange.rs:224-247 | Over every run without re-placing it, an artifact's history stays a linked chain ending at its steward, transfers and completed exchanges mixed. |
| `ArtifactRuns.CompleteSwapsStewards` | crates/indras-artifacts/src/exchange.rs:189-258 | Success means both current stewards had accepted an open exchange; exactly the two stewards are swapped and every other steward is unchanged. |
| `ArtifactRuns.ClosedIsAbsorbing` | crates/indras-artifacts/src/exchange.rs:114-172 | Over every run of accept, reject and complete, by anybody and on any exchanges, a closed exchange stays closed. |
| `ArtifactRuns.CompletesAtMostOnce` | crates/indras-artifacts/src/exchange.rs:189-258 | After one success every later complete of the same exchange fails with ExchangeClosed. |
| `ArtifactRuns.FailureChangesNothing` | crates/indras-artifacts/src/vault.rs:224-307 | A refused vault or exchange call leaves the store as it was. |
| `ArtifactCalls.RecallsExactly` | crates/indras-artifacts/src/vault.rs:271-276 | recall succeeds exactly for the steward of an active artifact; it sets the status to recalled at that time and changes nothing else, in this or any other artifact. |
| `ArtifactCalls.RecallIsFinal` | crates/indras-artifacts/src/vault.rs:224-307 | After a recall, over every run that neither places the artifact anew nor completes an exchange that moves it: steward, status and grants stay, and every grant, revocation, recall or transfer of it is refused, the steward's with NotActive. |
| `ArtifactCalls.GrantsExactly` | crates/indras-artifacts/src/vault.rs:224-248 | Refused exactly without the artifact, for another steward, when inactive, or while a grant of the grantee is live; otherwise one grant is appended and nothing else changes. |
| `ArtifactCalls.RevokesExactly` | crates/indras-artifacts/src/vault.rs:251-268 | Refused without a grant and when the first one is permanent; otherwise exactly the grantee's grants go, the others keep their order. |
| `ArtifactCalls.TransfersExactly` | crates/indras-artifacts/src/vault.rs:279-307 | Exactly the steward of an active artifact hands it on: steward, status and one history record change together, nothing else. |
| `ArtifactCalls.PlacesExactly` | crates/indras-artifacts/src/vault.rs:86-178 | A placed artifact is new and active, stewarded by its placer, with one permanent grant for the placer or for each audience member. |
| `ArtifactCalls.AcceptsExactly` | crates/indras-artifacts/src/exchange.rs:114-133 | On an open exchange exactly this player's acceptance is added; a closed one is refused. |
| `ArtifactCalls.RejectsExactly` | crates/indras-artifacts/src/exchange.rs:136-156 | Any exchange is closed and its rejecter recorded; nothing else changes. |
| `ArtifactCalls.CompletesExactly` | crates/indras-artifacts/src/exchange.rs:189-258 | complete succeeds exactly on an open exchange between two existing artifacts whose stewards have both accepted, and then leaves one history record on each side. |
| `ArtifactCalls.TwoAcceptancesComplete` | crates/indras-artifacts/src/exchange.rs:114-258 | On any open exchange, acceptances by the two stewards in either order let the next complete swap them and nobody else. |
| `Intentions.ReleaseHandsTokens` | crates/indras-artifacts/src/intention.rs:242-308 | release_attention succeeds exactly when the intention exists (or the first token bears its id); the returned tokens are those of the windows in order, all held by the submitter, and no other steward has changed. |
| `Intentions.TokensAreBlessed` | crates/indras-artifacts/src/intention.rs:255-286 | Every released token ends as a new artifact blessed once by its releaser for the intention and transferred to the submitter, whatever was stored under its id. |
| `Intentions.TokensAreDistinctExactly` | crates/indras-artifacts/src/intention.rs:255-267 | As many different tokens as windows if and only if the durations are pairwise different. |
| `Intentions.FailureLeavesAToken` | crates/indras-artifacts/src/intention.rs:289-303 | A failed release has already minted and given away the first token. |
| `Intentions.UnreleasedShrinksExactly` | crates/indras-artifacts/src/intention.rs:189-233 | After a release the unreleased windows are the earlier ones in order, less exactly those starting when a released one starts. |
| `Intentions.UnreleasedExactly` | crates/indras-artifacts/src/intention.rs:189-233 | Exactly the windows without a release record of this player, in order; an error exactly when the intention is missing. |
| `Intentions.ReleasedWindowsAreOmitted` | crates/indras-artifacts/src/intention.rs:189-233 | With different start times, exactly the released windows are omitted. |
| `Intentions.ReleaseKeepsChainExactly` | crates/indras-artifacts/src/intention.rs:242-308 | For every list of windows and every artifact: its stewardship history is still a chain after the release if and only if no processed window mints it, or its history was empty or ended at the releaser and it is minted once or releaser and submitter are the same. |
| `Intentions.ReleaseKeepsChains` | crates/indras-artifacts/src/intention.rs:242-308 | In particular, different, never before minted durations keep every stewardship history a chain. |
| `Intentions.EqualDurationsBreakTheChain` | crates/indras-artifacts/src/intention.rs:255-267 | In particular, two equal durations anywhere in the list keep their new token's history a chain if and only if releaser and submitter are the same. |
| `Intentions.PledgesAreReleasedOnce` | crates/indras-artifacts/src/intention.rs:311-326 | A successful release of pledged tokens lists no token twice, each was held and active, all go to the submitter, nothing else changes hands. |
| `Intentions.PledgesAreUnlisted` | crates/indras-artifacts/src/intention.rs:311-326 | A successful release of pledged tokens removes exactly the intention's references to them and keeps the others in order. |
| `Vault.Vault.constructor` | crates/indras-artifacts/src/vault.rs:36-71 | A new vault holds its own root artifact only. |
| `Vault.Vault.PlaceLeaf` | crates/indras-artifacts/src/vault.rs:86-121 | Stores a fresh artifact under the content's id, replacing any earlier one. |
| `Vault.Vault.PlaceTree` | crates/indras-artifacts/src/vault.rs:154-178 | Stores a fresh container with a permanent grant per audience member. |
| `Vault.Vault.GrantAccess` | crates/indras-artifacts/src/vault.rs:224-248 | Steward, active, no live grant; then the grant is appended. |
| `Vault.Vault.RevokeAccess` | crates/indras-artifacts/src/vault.rs:251-268 | The method equals the revocation rule. |
| `Vault.Vault.Recall` | crates/indras-artifacts/src/vault.rs:271-276 | Steward and active; then recalled. |
| `Vault.Vault.TransferStewardship` | crates/indras-artifacts/src/vault.rs:279-307 | Steward and active; then history, steward and status change together. |
| `Vault.ArtifactStore.RemoveGrant` | crates/indras-artifacts/src/store.rs:115-122 | Keeps exactly the other grantees' grants, in order. |
| `Vault.ArtifactStore.RecordTransfer` | crates/indras-artifacts/src/store.rs:171-177 | Appends one record to the artifact's history. |
| `Vault.Accept` | crates/indras-artifacts/src/exchange.rs:114-133 | Records the player's acceptance of an open exchange. |
| `Vault.Reject` | crates/indras-artifacts/src/exchange.rs:136-156 | Closes the exchange, whatever its state. |
| `Vault.Complete` | crates/indras-artifacts/src/exchange.rs:189-258 | The method equals the completion rule and closes the exchange on success. |
| `Vault.ReleaseAttention` | crates/indras-artifacts/src/intention.rs:242-308 | The loop equals the release rule, stopping at the first error with its effects kept. |
| `Vault.ReleasePledgedTokens` | crates/indras-artifacts/src/intention.rs:311-326 | The loop equals the pledge rule. |
| `Vault.UnreleasedAttention` | crates/indras-artifacts/src/intention.rs:189-233 | The windows whose start the metadata does not list, in order. |
| `Entropy.PassingNeedsVariety` | crates/indras-crypto/src/entropy.rs:49-133 | Every story the gate accepts has 9 d + 6 u >= 233 for its d different and u different unlisted words; hence at least 16 different words, at least 5 of them unlisted. |
| `Entropy.EighteenStrongSlotsPass` | crates/indras-crypto/src/entropy.rs:49-133 | Eighteen different unlisted words outside every cluster pass, whatever the other five slots hold. |
| `Entropy.AssuredBitsPass` | crates/indras-crypto/src/entropy.rs:49-133 | A story passes if its slots are assured of 233 bits beyond their first ones: 13 for each new unlisted word outside the clusters, floor(log2 rank) for each new listed one outside them that its position does not expect. |
| `Entropy.RareListedWordsPass` | crates/indras-crypto/src/entropy.rs:49-133 | Fifteen new unlisted words outside the clusters and eight new listed ones of rank 256 or more, neither clustered nor expected at their positions, always pass. |
| `Entropy.RankIsWorth` | crates/indras-crypto/src/word_frequencies.rs:165-175 | A listed word of rank r with 2^k <= r < 2^(k+1) is worth at least k + 1 and less than k + 2 bits, a higher rank more, an unlisted word over six bits more; a slot loses exactly its position's penalty, but stays at one bit or above. |
| `Entropy.WordIsWorth` | crates/indras-crypto/src/word_frequencies.rs:165-175 | 16 bits for an unlisted word, log2(rank) + 1 for a listed one: neither clamp ever acts. |
| `Entropy.SlotIsWorth` | crates/indras-crypto/src/entropy.rs:49-107 | One bit for a repeated slot; otherwise the word's bits less the position's penalty and then 1.5 per cluster hit, neither below one bit. |
| `Entropy.HitsAreCounted` | crates/indras-crypto/src/entropy.rs:74-95 | A cluster's hits on a slot are the slots among the three before it whose words it contains, if it contains the slot's own. |
| `Entropy.PenaltiesExactly` | crates/indras-crypto/src/word_frequencies.rs:180-273 | Which penalty an expected word costs at each of the 23 positions. |
| `Entropy.WeakSlotsExactly` | crates/indras-crypto/src/entropy.rs:118-128 | The reported slots are exactly those below six bits, ascending. |
| `Entropy.StoryEntropy` | crates/indras-crypto/src/entropy.rs:49-65 | The in-place loops compute, per slot, the minimum for a repeated word and otherwise the positional entropy less 1.5 per cluster hit, at least 1; and their sum. |
| `Entropy.ApplyClusteringPenalty` | crates/indras-crypto/src/entropy.rs:68-95 | Each slot is lowered once per cluster and earlier slot within three positions that share the cluster. |
| `Entropy.ApplyDuplicatePenalty` | crates/indras-crypto/src/entropy.rs:98-107 | Exactly the slots that repeat an earlier one fall to the minimum. |
| `Entropy.EntropyGate` | crates/indras-crypto/src/entropy.rs:113-133 | Passes exactly from 256 bits on; otherwise reports exactly the slots below 6 bits, in order. |
| `Entropy.SlotEntropyBound` | crates/indras-crypto/src/word_frequencies.rs:165-273 | A listed word is worth at most 10 bits, any word at most 16, at every position. |
| `Entropy.LoweredInOneGo` | crates/indras-crypto/src/entropy.rs:90-91 | Repeated clamped penalties equal one clamped penalty, so their order is irrelevant. |
| `PassStory.CollapseWhitespace` | crates/indras-crypto/src/pass_story.rs:53-74 | The loop yields the words of its input joined by single spaces. |
| `PassStory.CollapseIsIdempotent` | crates/indras-crypto/src/pass_story.rs:53-74 | Collapsing twice is collapsing once, and the result has no leading, trailing, double or other whitespace. |
| `PassStory.FixedExactlyWhenTidy` | crates/indras-crypto/src/pass_story.rs:53-74 | Collapsing changes nothing if and only if the string is already tidy. |
| `PassStory.WordsExactly` | crates/indras-crypto/src/pass_story.rs:53-74 | What words are: none in an empty text, one in a text without whitespace, and every whitespace character separates. |
| `PassStory.CanonicalEncode` | crates/indras-crypto/src/pass_story.rs:79-105 | Reports the first faulty slot, null byte before emptiness; otherwise the slots joined by null bytes, from which splitting gives the slots back. |
| `PassStory.FirstFaultExactly` | crates/indras-crypto/src/pass_story.rs:84-95 | The error is that of the first faulty slot: a null byte if it has one, otherwise its number counted from one. |
| `PassStory.SplitUndoesDelimited` | crates/indras-crypto/src/pass_story.rs:97-104 | Splitting the encoding on 0x00 returns the slots. |
| `PassStory.EncodingIsInjective` | crates/indras-crypto/src/pass_story.rs:79-105 | Different stories have different canonical encodings. |
| `DeviceCert.CanonicalMessage` | crates/indras-crypto/src/device_cert.rs:122-141 | Builds the message field by field; it parses back to the fields if and only if both are below 2^32 bytes. |
| `DeviceCert.MessageParsesExactly` | crates/indras-crypto/src/device_cert.rs:122-141 | Every message decodes to exactly its fields if and only if both variable fields are below 2^32 bytes. |
| `DeviceCert.MessageIsLaidOut` | crates/indras-crypto/src/device_cert.rs:122-141 | Byte for byte: the tag, key and name behind four-byte little-endian lengths modulo 2^32, eight little-endian bytes of time in two's complement, one byte for revocation. |
| `DeviceCert.ParseUndoesMessage` | crates/indras-crypto/src/device_cert.rs:122-141 | Every message with fields below 2^32 bytes decodes to exactly its fields. |
| `DeviceCert.MessageIsInjective` | crates/indras-crypto/src/device_cert.rs:122-141 | No two certificates with fields below 2^32 bytes share a message. |
| `DeviceCert.LongFieldsCollide` | crates/indras-crypto/src/device_cert.rs:131-137 | At 2^32 bytes the length prefix wraps and, for every content and time, two different certificates share a message. |

## Left out

- Integer widths: ticks, counters, sequence numbers and retry counts are unbounded; wrap-around after 2^32 or 2^64 steps is not modelled. Byte-wide copy counters, 32-bit length prefixes and 64-bit timestamps are.
- Floating-point rounding: probabilities and entropies are exact reals, and log2 is any function with the laws of a binary logarithm.
- The word-frequency table: only that listed words have ranks from 1 to 500.
- Unicode NFC normalization and lower-casing of slots; only the whitespace loop and the byte encoding are modelled.
- BLAKE3: leaves are named by their content, which takes the hash to be injective. Random container names are inputs.
- Metadata keys and values as strings: they are modelled parsed, so the formatting and parsing of player ids and timestamps is not.
- Payload store, artifact types, provenance, payload references and blessing messages: stored and never read by what is modelled.
- Exchange::propose, Vault::compose, Intention::create, proofs and pledging: they only place artifacts and add references.
- extract_dwell_windows, attention logs, heat and token value: dwell windows are given.
- list_by_*, accessible_by, can_view, extract_contact_ids, check_integrity, peering: filters and lookups with easy contracts.
- Simulated post-quantum and invite counters, tracing, summaries and visualization: no other behaviour depends on them.
- The settings initial_online_probability, wake_probability, sleep_probability, max_ticks and trace_routing: the draws and the number of ticks are inputs instead.
- PeerState.pending_backprops and the contents of interfaces: never changed by the modelled code.
- MeshBuilder topologies and Mesh::clone: built from the operations that are modelled.
- Timestamps of PRoPHET entries and ProphetSummary: not read by any decision. max_copies and spray_count of the epidemic router: set, never read.
- Lock and DashMap interleavings within one call: every call is atomic, and reads its clock once.
- Custody.CustodyManager.CheckForTimeouts: returns the late bundles as a set, because DashMap iteration order is unspecified.
- Custody.CustodyManager.Cleanup: returns the expired bundles as a set, for the same reason.
- accept_from_unknown, CustodyRelease messages, refusal reasons and the bundle's own custody history: not read by the custody manager.
- StrategySelector, DtnConfig presets, other routers, network, document and user-interface crates.
- Cryptographic primitives: signing, key derivation and encryption of what is encoded here.
- Simulation.Simulation.Step: after a panic the method promises nothing about its fields, because the process has ended.
