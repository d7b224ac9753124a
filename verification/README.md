# CrownLink: a verified model

CrownLink connects players of an old game directly to each other. A server passes signalling messages between them;
libjuice, an ICE library, then carries the game's packets. This project models the parts where a mistake is hard to see
by reading one function, and proves what they promise:

* **The signalling session** of two `JuiceAgent`s: attempt counters, roles, the exchange of session descriptions and the
  resets. `JuiceSession` holds every handler as a function, `Signalling` two agents and two channels in which messages
  may be lost, repeated and reordered and agents may be made again. `Hygiene` proves what all runs keep, `Agreement` that orderly runs end in
  agreement, `Recovery` exactly when a request gets a pair out of any reachable state, `Storm` a bound on the traffic, and `Conduct` what every event makes an agent do.
* **The agent pair** (`PairState`, `PairConduct`, `PairProperties`, `Redundancy`, `Pings`) and the manager of all pairs
  (`JuiceManagers`, `ManagerConduct`, `Echoes`): the path of a packet, duplication when quality drops, the downgrade for old peers, ping
  times, and the way of an answer from the agent that was pinged through the worker's queue and back.
* **The lobby table** (`LobbyTable`, `GameList`): an array edited in place, against a map from hosts to ads.
* **The receive path** (`ReceiveQueue`, `SocketRead`) and **the formats** (`AdCodec`, `Caps`).

The objects of the program are classes here (`JuiceAgents.JuiceAgent`, `AgentPairs.AgentPair`,
`JuiceManagers.JuiceManager`, `AdvertisementManagers.AdvertisementManager`, `ReceiveQueue.PacketQueue`, `Ema.EMA`,
`AdStructs.AdStruct`). Each method ties the new state of its object to a function of the old state; the lemmas about
whole runs are about those functions.

## What the proofs found

* **A lost description can strand a pair.** If the controlling agent's description is lost on its way to a follower
  without a session, the controlling agent counts the follower's request as processed and stays in its session, and the
  follower's counter never moves. No further request gets the two out (`Recovery.LostDescriptionSticks`,
  `Recovery.DeadlockLasts`) until libjuice reports a failure or an agent is reset or made again.
  `Recovery.RequestRecoversUnlessStuck` gives the condition: with nothing in flight, a request leads to agreement exactly
  if the pair is not `Stuck`, in at most six deliveries. A side that has just reset itself or was made again needs at
  most four (`Recovery.RenewedSideRecovers`, `Recovery.RestartedSideRecovers`).
* **A counter that starts from the clock serves only if the clock has passed what the peer has processed.** The clock
  counts whole seconds and can be set back, while every session adds to the counter. An agent made again brings the pair
  to agreement exactly if its peer has processed an older counter, or that very one without having a session to hold on
  to (`Recovery.RestartRecoversIfClockServes`). Two agents made at clock 100 agree; if the follower is made again while
  the clock shows 100, the pair is deadlocked (`Recovery.SameSecondStrands`).
* **The local description is cached in vain.** As long as gathering starts whenever it is asked for, no instance sends its
  description twice (`Hygiene.OneDescriptionBetweenResets`).
* **The game cannot revive a failed relay agent.** `send_message` resets a failed agent, but a pair only ever sends through
  a failed agent if that is the direct one, the relay agent is not connected and the peer is not a legacy one
  (`PairProperties.SendResetsOnlyDirect`). Any other failed agent stays failed until a message of its peer resets it
  (`PairProperties.OnlyThePeerRevives`).
* **`from_json` writes no terminator.** Into a struct that was used before, a shorter name keeps the tail of the old one;
  `AdCodec.NameInUsedStruct` says exactly when. No caller does so: messages are decoded into fresh values
  (`src/shared/Cbor.h:8-9`), where the text always arrives (`AdCodec.CreatedAdRoundTrip`).
* **A NUL in a name, subtitle or version spoils `caps.dat`**, and `load_providers` does not check for one. The
  records still end where their sizes say (`Caps.WalkFindsRecords`), but the texts are cut: the round trip holds if and
  only if no text holds a NUL (`Caps.CapsDatRoundTrip`, with a failing list in `Caps.NulNameIsLost`).

## Assumptions

* Each `juice_create` starts an instance with a fresh, non-empty description. `juice_gather_candidates` runs the state
  callback with GATHERING before it returns. Other callbacks come only for an instance that is gathering or later, and
  never report DISCONNECTED. The states are ordered as in `src/snp/JuiceAgent.h:31-36`.
* Handlers and callbacks are atomic. Handlers hold the agent's lock, but the callbacks of libjuice take none, so for them
  this is a simplification. The concurrent queues are FIFO.
* The clock that starts a counter shows more than zero seconds. In runs in which an agent is made again, it has passed the
  counter of the one before; from a state with nothing in flight, any reading is covered.
* The game's own packets are not of the CrownLink type.
* Attempt counters, tick counters and statistics do not wrap. Subtractions that may go below zero do wrap, in the width
  of the source: packet sizes, ping times, lobby ages.
* Averages are exact reals; the threshold 0.8 and the decay 2/51 are taken exactly.
* `snet.hpp`, which declares the structs of the game, is not part of this model. Taken from their use: a peer id is 16
  bytes compared in order, a packet is 512 bytes with a header of 12, text buffers are 128 bytes, extra bytes 32.
* While a table is pruned, the clock does not go back behind the last update (`LobbyTable.ClockFits`).

## Model

| member | source | states |
|---|---|---|
| Hygiene.SessionHygiene | src/snp/JuiceAgent.h:69-98 | In every run with loss, repetition, reordering and failures, each libjuice instance is given at most one remote description; a processed counter never exceeds the live peer's own; a description held is one the peer made public. |
| Hygiene.NewerRequestForgets | src/snp/JuiceAgent.h:69-83 | Handling a request clears the remote description exactly if the counter is newer or the instance had failed, and says exactly when the agent is reset. |
| Hygiene.CountersNeverGoBack | src/snp/JuiceAgent.cpp:90-99 | Across any run an agent's own counter and its instance only grow and an instance's description never changes; the counter it has processed only grows, too, unless the agent is made again. |
| Hygiene.OneDescriptionBetweenResets | src/snp/JuiceAgent.cpp:74-86 | Of the descriptions an agent sends in a run, with loss, repetition and reordering, each belongs to a newer instance than the one before and differs from all others: at most one between two resets. |
| Hygiene.DescriptionsAreOwn | src/snp/JuiceAgent.cpp:75-83 | Every description sent is that of the instance live at the end of its handler. |
| Hygiene.CandidatesKeepToPath | src/snp/JuiceAgent.cpp:286-301 | In every run, what an agent applies and what its peer sends it are candidates of its own path: relayed ones for a relay agent, direct ones for a direct agent, never Radmin. |
| Hygiene.NextKeeps | src/snp/JuiceAgent.h:60-108 | Each of the ten kinds of event keeps the invariant that relates both sessions and everything in flight. |
| Hygiene.ExecKeeps | src/snp/JuiceAgent.h:60-108 | Every run keeps that invariant. |
| Conduct.CallsAreExact | src/snp/JuiceAgent.h:84-107 | In every run, with loss, repetition, reordering, failures and restarts, a side's calls into libjuice are exactly, in order and on the instance live at the time: each candidate of its path and each end of gathering delivered to it, each description delivered while it holds none, one start of gathering for each description announced, and the game's data while connected. |
| Conduct.MessagesAreExact | src/snp/JuiceAgent.cpp:57-106 | In every run without loss, what a side has heard and what is on its way to it are exactly the messages its peer's events call for, in order: announcements, requests, the candidates of its path, ends of gathering. |
| Conduct.HandleIsExact | src/snp/JuiceAgent.h:60-108 | For every message and every session: when the instance is given up, when a description is announced, when a request is sent, and what counters, descriptions and state are left. |
| Conduct.OwnStepIsExact | src/snp/JuiceAgent.cpp:90-142 | The same for every event that is not a delivery; the other side is untouched. |
| Agreement.FreshAgentsAgree | src/snp/JuiceAgent.h:60-98 | From two fresh agents, over every orderly interleaving (order kept, nothing lost, no failure, requests while DISCONNECTED): nobody is ever reset, and whenever the channels are empty each side holds the other's description. |
| Agreement.ResetAndRequestAgree | src/snp/JuiceAgent.h:69-98 | From any reachable state with nothing in flight, after one side resets and asks, every orderly run leaves that side alone, resets the peer at most once and agrees when it is drained. |
| Agreement.RestartAgrees | src/snp/JuiceManager.cpp:177-192 | The same after a pair was cleared and made again, or its program restarted, with a clock that has passed what the peer has processed: the first request of the new agent is enough. |
| Agreement.CandidatesFollowDescriptions | src/snp/JuiceAgent.h:87-107 | In orderly runs no candidate and no gathering-done reaches an instance before its remote description, which is the sender's. |
| Agreement.ChatterFindsDescription | src/snp/JuiceAgent.cpp:247-262 | A candidate at the head of a channel finds the description of the instance it belongs to in place. |
| Agreement.ExecKeepsPhase | src/snp/JuiceAgent.h:69-98 | The phases an orderly run can be in, which it never leaves. |
| Recovery.RequestRecoversUnlessStuck | src/snp/JuiceAgent.h:69-97 | From any reachable state with nothing in flight, a request leads to agreement within six deliveries if and only if the pair is not stuck. |
| Recovery.RenewedSideRecovers | src/snp/JuiceAgent.h:69-97 | With one side reset and its counter newer than the peer has processed, its request leads to agreement in at most four deliveries, whichever side it is and whatever session the peer is in. |
| Recovery.RestartedSideRecovers | src/snp/JuiceManager.cpp:177-192 | A side whose agent is made again, with a clock that has passed what the peer has processed, agrees with it in at most four deliveries, whatever stale session the peer is in. |
| Recovery.RestartRecoversIfClockServes | src/snp/JuiceAgent.h:70-83 | For any reading of the clock, six deliveries after an agent is made again nothing is in flight, and the sides agree if and only if the peer has processed an older counter, or the same one and is not a controlling agent in a session. |
| Recovery.SameSecondStrands | src/snp/JuiceAgent.h:155 | Two agents made in one second agree; the follower made again in that second leaves the pair deadlocked. |
| Recovery.FailedAgentRecovers | src/snp/JuiceAgent.cpp:128-135 | A failed agent through which the game sends twice reaches agreement in four deliveries. A pair only sends so through its direct agent; see PairProperties.SendResetsOnlyDirect. |
| Recovery.ResetRenews | src/snp/JuiceAgent.cpp:90-112 | A reset makes an agent's counter newer than any its peer has processed. |
| Recovery.LostDescriptionSticks | src/snp/JuiceAgent.h:70-83 | A run of four events, one of them a lost description, after which no request from either side helps. |
| Recovery.StuckIsDeadlocked | src/snp/JuiceAgent.h:70-83 | With nothing in flight, the pairs that no request from either side helps are exactly the deadlocked ones. |
| Recovery.DeadlockLasts | src/snp/JuiceAgent.h:70-83 | A deadlocked pair stays without agreement in every run in which libjuice does not fail and no agent is reset or made again. |
| Storm.NoStorm | src/snp/JuiceAgent.h:64-98 | With one controlling side, however deliveries are ordered, requests and descriptions delivered plus what the end state can still cause are at most the starting potential plus five for each mismatch. |
| Storm.FreshAgentsSettle | src/snp/JuiceAgent.h:64-98 | Two fresh agents that get their messages in order exchange at most eight requests and descriptions, ever. |
| Storm.DeliveryShrinks | src/snp/JuiceAgent.h:64-98 | One delivery lowers the potential by one unless it replaces a description. |
| Storm.HandlerShrinks | src/snp/JuiceAgent.cpp:57-106 | What a handler sends, and the state it leaves, weigh less than the message it consumes. |
| Storm.TwoFollowersNeverStop | src/snp/JuiceAgent.h:79-82 | Without the split of roles there is no such bound: two followers answer each other for ever. |
| JuiceAgents.ExactlyOneControls | src/snp/JuiceAgent.cpp:47 | Of two agents with different ids exactly one controls, the one whose id is smaller in the first byte that differs; with equal ids, neither. |
| JuiceAgents.JuiceAgent.constructor | src/snp/JuiceAgent.cpp:7-50 | A new agent is DISCONNECTED with its role fixed by the ids and its request on the way. |
| JuiceAgents.JuiceAgent.HandleCrownlinkMessage | src/snp/JuiceAgent.h:60-108 | The object's state and messages after any message, a pong included, are those of the session function. |
| JuiceAgents.JuiceAgent.TryInitialize | src/snp/JuiceAgent.cpp:57-88 | All six states, with the fall through from FAILED. |
| JuiceAgents.JuiceAgent.Announce | src/snp/JuiceAgent.cpp:74-86 | The description is fetched once, sent before gathering starts, and gathering bumps the counter. |
| JuiceAgents.JuiceAgent.ResetAgent | src/snp/JuiceAgent.cpp:90-99 | A new instance, no descriptions, a newer counter. |
| JuiceAgents.JuiceAgent.SendConnectionRequest | src/snp/JuiceAgent.cpp:101-106 | One request with the current counter. |
| JuiceAgents.JuiceAgent.SetAgentType | src/snp/JuiceAgent.cpp:108-112 | The type changes and the session starts over. |
| JuiceAgents.JuiceAgent.SendMessage | src/snp/JuiceAgent.cpp:119-142 | A datagram when connected, a request when DISCONNECTED, a reset when FAILED, else nothing; true only if libjuice took it. |
| JuiceAgents.JuiceAgent.SendCustomMessage | src/snp/JuiceAgent.cpp:144-157 | Oversized or unconnected: nothing. Else one datagram with the header's size added. |
| JuiceAgents.JuiceAgent.SendPing | src/snp/JuiceAgent.cpp:165-171 | A ping carries the clock in network byte order. |
| JuiceAgents.JuiceAgent.HandlePing | src/snp/JuiceAgent.cpp:173-181 | The answer goes to the sender through an agent of this type and claims the ping's own payload size, which may have wrapped; it holds exactly that much of the ping's payload if that fits, and nothing otherwise. |
| JuiceAgents.JuiceAgent.HandlePingResponse | src/snp/JuiceAgent.cpp:183-206 | Only a plausible time of the right size reaches the average. |
| JuiceAgents.JuiceAgent.OnStateChanged | src/snp/JuiceAgent.cpp:208-245 | The state follows libjuice and GATHERING bumps the counter. |
| JuiceAgents.JuiceAgent.OnCandidate | src/snp/JuiceAgent.cpp:247-254 | A candidate is passed on only if the agent's type allows it. |
| JuiceAgents.JuiceAgent.OnGatheringDone | src/snp/JuiceAgent.cpp:256-262 | One message. |
| JuiceAgents.JuiceAgent.OnRecv | src/snp/JuiceAgent.cpp:264-275 | The agent's own part: a packet is for the game, for the worker's queue, for the average or for nobody. |
| Ema.EMA.constructor | src/snp/Ema.h:9-14 | The average starts empty or at the given value. |
| Ema.EMA.Update | src/snp/Ema.h:16-24 | One step of the average. |
| Ema.StaysInHull | src/snp/Ema.h:16-24 | After any samples within bounds the average is within them. |
| PairProperties.BestIsBest | src/snp/JuiceManager.cpp:34-45 | In legacy mode the direct agent; else the chosen agent is connected if either is, and the relay is chosen if and only if it alone is connected or its time is shorter by ten or more. |
| PairConduct.SendIsExact | src/snp/JuiceManager.cpp:11-117 | For every strategy: on which path the packet goes out, by connection, latency and quality; which counter grows; who pings, every fifteenth send; what an agent without a connection does; and that the game is told of success exactly if libjuice takes the packet on a path it went out on. |
| PairConduct.EachAgentOnItsOwn | src/snp/JuiceManager.h:71-90 | In every run each agent is where its own history alone leads: the messages of its type, the reports and packets on its path, the answers of its type, and the game's packets for its path. |
| PairConduct.NextConcerns | src/snp/JuiceManager.h:71-90 | One event does to each agent exactly what concerns it; a message goes to the agent of its own type, and in a legacy pair a direct one goes to the only agent. |
| PairConduct.FreshPairIsFresh | src/snp/JuiceManager.h:103-111 | Both agents of a new pair start with the same role and their own request, the averages empty and at one. |
| PairProperties.SendCopies | src/snp/JuiceManager.cpp:62-117 | The exact number of copies one send hands to libjuice: two exactly if duplication is due, else one if the path in use is connected, else none. |
| PairProperties.SendCounts | src/snp/JuiceManager.cpp:82-117 | A send is counted once, and as redundant exactly if duplication is due. |
| PairProperties.SendsAreAccounted | src/snp/JuiceManager.cpp:47-53 | Over every run of a pair, sends = direct + relay + redundant + those made in legacy mode. |
| PairProperties.LegacyIsCoherent | src/snp/JuiceManager.h:72-90 | In every reachable pair the legacy flag, the missing relay agent and the fallback type agree, and the downgrade happened at most once. |
| PairProperties.NextKeepsCoherent | src/snp/JuiceManager.h:72-90 | No event takes the downgrade back. |
| PairProperties.DowngradeResetsOnce | src/snp/JuiceManager.h:80-87 | The downgrade resets the direct agent exactly once before the message is handled. |
| PairProperties.RelayIsGone | src/snp/JuiceManager.h:77-79 | After it no message or queued packet for the relay agent has any effect. |
| PairProperties.SendResetsOnlyDirect | src/snp/JuiceManager.cpp:34-60 | A send resets an agent if and only if it is the failed direct agent of a pair that is not legacy and whose relay agent is not connected; otherwise all sessions stay as they are. |
| PairProperties.OnlyThePeerRevives | src/snp/JuiceManager.cpp:34-60 | A failed relay agent, or the failed agent of a legacy pair, stays failed through every run of sends, requests and packets. |
| Redundancy.SixResendsToDuplicate | src/snp/JuiceManager.cpp:62-80 | In every run of a fresh pair the quality is at least (49/51)^m after m resend requests, so nothing is duplicated before the sixth. |
| Redundancy.FortyOneCleanPacketsSuffice | src/snp/JuiceManager.cpp:136-142 | From any quality, forty-one clean packets in a row or more end duplication. |
| Redundancy.MilestonesAreSharp | src/snp/JuiceManager.h:16-17 | Six and forty-one cannot be improved. |
| Redundancy.QualityFollowsPackets | src/snp/JuiceManager.cpp:136-142 | In every run the quality is the average of the resend flags of the packets that arrived, and of nothing else. |
| Redundancy.AverageIsQuality | src/snp/Ema.h:16-24 | The average over fifty samples decays by 49/51 for each flag, towards zero or one. |
| Redundancy.QualityAfterResends | src/snp/JuiceManager.cpp:136-142 | The bound by the number of resend requests, in whatever order they come. |
| Redundancy.QualityAfterClean | src/snp/JuiceManager.cpp:136-142 | The exact distance from one after n clean packets. |
| AgentPairs.AgentPair.constructor | src/snp/JuiceManager.cpp:3-7 | Two fresh agents of the two kinds, and a quality of one. |
| AgentPairs.AgentPair.GetBest | src/snp/JuiceManager.cpp:34-45 | The path chosen is that of the pair's value. |
| AgentPairs.AgentPair.SendBest | src/snp/JuiceManager.cpp:47-53 | Counting and sending on the chosen path. |
| AgentPairs.AgentPair.SendLegacy | src/snp/JuiceManager.cpp:55-60 | Only the direct agent, and only if it is connected. |
| AgentPairs.AgentPair.SendWithPreference | src/snp/JuiceManager.cpp:11-20 | The second path is tried exactly if the first did not take the packet. |
| AgentPairs.AgentPair.SendRedundant | src/snp/JuiceManager.cpp:22-32 | Both connected paths are used, and one success suffices. |
| AgentPairs.AgentPair.ShouldSendRedundant | src/snp/JuiceManager.cpp:62-80 | The five conditions for duplication. |
| AgentPairs.AgentPair.SendPings | src/snp/JuiceManager.cpp:156-159 | A ping on every connected path. |
| AgentPairs.AgentPair.SendP2P | src/snp/JuiceManager.cpp:82-117 | The agents, the counters and the result after a send are those of the pair's value. |
| AgentPairs.AgentPair.SendConnectionRequest | src/snp/JuiceManager.cpp:119-122 | Both agents ask, or the direct one alone in legacy mode. |
| AgentPairs.AgentPair.SendCustomPacket | src/snp/JuiceManager.cpp:124-134 | A queued packet leaves through the agent of its kind, if it is still there. |
| AgentPairs.AgentPair.UpdateQuality | src/snp/JuiceManager.cpp:136-142 | One sample of zero or one. |
| AgentPairs.AgentPair.OnRecv | src/snp/JuiceAgent.cpp:264-278 | A packet for the game moves the quality by its resend flag; CrownLink's own packets do not. |
| AgentPairs.AgentPair.HandleCrownlinkMessage | src/snp/JuiceManager.h:72-90 | The right agent handles a message, after the downgrade if there is one. |
| JuiceManagers.PairsAreIndependent | src/snp/JuiceManager.cpp:170-192 | Through every run of the manager, with pairs made and cleared on the way, each pair is one that a run of its own leads to. |
| JuiceManagers.EveryPairIsCoherent | src/snp/JuiceManager.h:142-148 | So every pair the manager ever holds is coherent about being legacy and has a quality between zero and one. |
| ManagerConduct.EveryPairIsItsPast | src/snp/JuiceManager.cpp:170-248 | In every run there is a pair for a peer exactly from the first event that needs it until it is cleared, and it is what the events for that peer since then lead to, no more and no fewer. |
| ManagerConduct.RolesAreById | src/snp/JuiceAgent.cpp:47 | Every agent of every pair there ever is has the role its two ids give it. |
| ManagerConduct.TwinsHaveOppositeRoles | src/snp/JuiceAgent.cpp:47 | Of two peers' agents for each other, on one path, exactly one controls. |
| ManagerConduct.GamePacketsAreHandedOn | src/snp/JuiceAgent.cpp:264-284 | In every run the receive queue is given exactly the packets not of the CrownLink type that an existing agent received, in order. |
| ManagerConduct.PacketsReachTheGame | src/snp/SNPModule.cpp:184-216 | From libjuice to the game: those packets are exactly the ones delivered, dropped as stale or still queued, whatever the game does in between. |
| JuiceManagers.LateResponseIsDropped | src/snp/JuiceManager.cpp:234-243 | An answer for a peer or a relay agent that is gone vanishes without a trace. |
| JuiceManagers.JuiceManager.EnsureAgent | src/snp/JuiceManager.cpp:177-184 | A pair is made exactly if there is none, and no other pair changes. |
| JuiceManagers.JuiceManager.SendP2P | src/snp/JuiceManager.cpp:205-210 | Only the peer's pair changes, in place, and as its value says. |
| JuiceManagers.JuiceManager.HandleCrownlinkMessage | src/snp/JuiceManager.h:142-148 | The same for a message from the server. |
| JuiceManagers.JuiceManager.SendConnectionRequest | src/snp/JuiceManager.cpp:212-216 | The same for a request. |
| JuiceManagers.JuiceManager.OnRecv | src/snp/JuiceAgent.cpp:264-284 | The answer to a ping joins the worker's queue, a packet for the game the receive queue, and only the sender's pair changes. |
| JuiceManagers.JuiceManager.QueueCustomPacket | src/snp/JuiceManager.cpp:223-226 | The packet is the last in the queue. |
| JuiceManagers.JuiceManager.WorkerStep | src/snp/JuiceManager.cpp:234-243 | The worker takes the first packet and sends it if the peer's pair is still there. |
| JuiceManagers.JuiceManager.ClearInactive | src/snp/JuiceManager.cpp:186-192 | Exactly the inactive pairs go. |
| Pings.PingIsEchoedOrRefused | src/snp/JuiceAgent.cpp:144-181 | The agent's two parts: for every claimed size the queued answer, once given to the same agent, goes out with exactly the ping's payload or not at all; sizes that wrap and sizes too large are refused. |
| Echoes.PingIsAnswered | src/snp/JuiceManager.cpp:223-243 | End to end: a ping of any claimed size received by either agent of a pair, whatever waits before it, has exactly one effect once the worker has dealt with it: one answer with its payload in the log of the agent it came to, if that is connected and the size possible, and none otherwise. |
| Echoes.AnswersAreConserved | src/snp/JuiceManager.cpp:228-248 | Over every run of the manager, with pairs cleared, made again and downgraded, and for every peer, path, size and payload: answers given + waiting + refused for want of a connected agent + given by agents now gone = pings received. |
| Echoes.EveryAnswerWasAskedFor | src/snp/JuiceManager.cpp:228-248 | So no agent ever gives an answer more often than it was asked for it. |
| Echoes.EchoTakesSamePath | src/snp/JuiceManager.cpp:124-134 | In a coherent pair the type a packet was queued with leads back to the agent that queued it. |
| Pings.PongIsQuiet | src/snp/JuiceAgent.cpp:183-206 | An answer changes the average and causes nothing else. |
| Pings.EchoCounts | src/snp/JuiceAgent.cpp:183-206 | An echo of a ping sent at t moves the average by the time since then exactly if that is at most 30000. |
| Pings.LatencyIsTrue | src/snp/JuiceAgent.cpp:165-206 | In every run of two agents that ping each other, with game data, session changes, loss, repetition and reordering, each sample of either side is the true time from a ping given to libjuice to its answer, at most 30000, and the average is the average of those. |
| Pings.SentTimesAreInLog | src/snp/JuiceAgent.cpp:144-171 | A time counts as sent only if libjuice was given a ping that carries it. |
| LobbyTable.UpdateRefinesMap | src/snp/AdvertisementManager.cpp:73-100 | After an update the hosts are unique and those advertised, each entry is the last ad of its host up to the restamped fields, and the order is the survivors in old order, then new hosts by first appearance. |
| LobbyTable.UpdateIsExact | src/snp/AdvertisementManager.cpp:82-98 | Field by field: an entry holds the facts and the name of its host's last ad, the original name up to the first NUL, the time of the update, number and extra pointer of its slot. |
| LobbyTable.CStringEndsAtNul | src/snp/AdvertisementManager.cpp:90 | The original name is what comes before the first NUL. |
| LobbyTable.SurvivorMovesUp | src/snp/AdvertisementManager.cpp:76-98 | A surviving lobby's number never grows. |
| LobbyTable.UpdateIsTidy | src/snp/AdvertisementManager.cpp:93-99 | Afterwards all entries share one stamp, are numbered from two, and point at their own extra bytes. |
| LobbyTable.PruningKeepsPrefix | src/snp/AdvertisementManager.cpp:152-158 | Pruning, with the clock read once for each entry, keeps a prefix, and exactly the entries young enough. |
| LobbyTable.LookupInvertsNumbering | src/snp/AdvertisementManager.cpp:297-305 | A number finds the ad two slots below it, and nothing outside the table; so never for the status ad's. |
| GameList.TableStaysTidy | src/snp/AdvertisementManager.cpp:93-99 | In every run of updates, lockings, prunings and settings the table stays so, no two ads share a number and lookup inverts the numbering. |
| GameList.ListIsComplete | src/snp/AdvertisementManager.cpp:174-289 | Whenever locking succeeds, following the links from the head meets the status ad, if used, and every lobby once in order, and ends. |
| GameList.AdvertisedIsShown | src/snp/AdvertisementManager.cpp:73-177 | A locking within two seconds of an update shows every advertised host, and no other. |
| GameList.OldIsNotShown | src/snp/AdvertisementManager.cpp:152-177 | A locking later than that shows none of them. |
| GameList.LockIsExact | src/snp/AdvertisementManager.cpp:177-276 | What locking leaves of each entry: everything but the link and, if names are edited, the name, which is the text before it, the original name and the text behind it, cut to 128. |
| GameList.LockSucceeds | src/snp/AdvertisementManager.cpp:166-289 | Locking succeeds if and only if the status ad is used or a lobby is young enough, and what the head is. |
| GameList.StatusIsShown | src/snp/AdvertisementManager.cpp:368-374 | The status ad is a game in progress without a status, and open under the status as its name otherwise; nothing else of it changes. |
| GameList.IteratedAreYoung | src/snp/AdvertisementManager.cpp:307-317 | Iterating keeps exactly the lobbies of the last second. |
| GameList.NewListIsStatus | src/snp/AdvertisementManager.cpp:337-344 | A new manager shows the status ad and nothing else. |
| GameList.LastDisplayCounts | src/snp/AdvertisementManager.cpp:260-270 | What is shown depends on the last display only, so prefixes do not pile up. |
| GameList.LockingTwiceIsLockingOnce | src/snp/AdvertisementManager.cpp:160-290 | Locking again at once with the same display changes nothing. |
| GameList.ShownNameIsHostsName | src/snp/AdvertisementManager.cpp:82-91 | After an update the player sees the host's own last name, decorated once. |
| AdvertisementManagers.AdvertisementManager.constructor | src/snp/AdvertisementManager.cpp:337-344 | An empty table and a status ad with number one. |
| AdvertisementManagers.AdvertisementManager.UpdateLobbies | src/snp/AdvertisementManager.cpp:73-100 | The three passes over the table give the updated value. |
| AdvertisementManagers.AdvertisementManager.EraseUnadvertised | src/snp/AdvertisementManager.cpp:76-80 | The survivors. |
| AdvertisementManagers.AdvertisementManager.MergeIncoming | src/snp/AdvertisementManager.cpp:82-91 | Each ad replaces its host's entry or is appended. |
| AdvertisementManagers.AdvertisementManager.RestampAll | src/snp/AdvertisementManager.cpp:93-99 | Stamp, number and pointer of every entry. |
| AdvertisementManagers.AdvertisementManager.PruneLobbiesOlderThan | src/snp/AdvertisementManager.cpp:152-158 | Entries whose age exceeds the limit go. |
| AdvertisementManagers.AdvertisementManager.LockGameList | src/snp/AdvertisementManager.cpp:160-290 | Result, head and table after a locking are those of the value. |
| AdvertisementManagers.AdvertisementManager.LinkAndName | src/snp/AdvertisementManager.cpp:179-280 | Names and links, written through a pointer to the last ad. |
| AdvertisementManagers.AdvertisementManager.UpdateStatusAd | src/snp/AdvertisementManager.cpp:368-374 | An empty status hides the ad. |
| AdvertisementManagers.AdvertisementManager.GetAdByIndex | src/snp/AdvertisementManager.cpp:297-305 | The first ad with the number. |
| ReceiveQueue.PacketsAreConserved | src/snp/SNPModule.cpp:184-216 | In every run the packets for the game are exactly those delivered, dropped as stale or still queued, in order; loans out = deliveries - frees. |
| ReceiveQueue.LoansAreExact | src/snp/SNPModule.cpp:192-238 | In every run the loans out are exactly the packets delivered and not given back since. |
| ReceiveQueue.RunsBalance | src/snp/SNPModule.cpp:192-214 | In every run dropped packets were stale, delivered ones were not, and each loan is the packet it was made for. |
| ReceiveQueue.ReceiveKeepsBalance | src/snp/SNPModule.cpp:194-215 | A call hands out one packet and shortens the queue, or drains it. |
| ReceiveQueue.ReadingDrainsInOrder | src/snp/SNPModule.cpp:184-216 | Calling until false empties the queue and yields, in order, exactly the packets not stale at the clock reading taken for each. |
| ReceiveQueue.ReadingsAreOwn | src/snp/SNPModule.cpp:184-216 | Each of those calls is one with clock readings of its own. |
| ReceiveQueue.PacketQueue.Enqueue | src/snp/JuiceAgent.cpp:264-284 | CrownLink's own packets are not queued. |
| ReceiveQueue.PacketQueue.SpiReceive | src/snp/SNPModule.cpp:184-216 | The loop ends with a fresh loan of the first packet that is not stale, or null. |
| ReceiveQueue.PacketQueue.SpiFree | src/snp/SNPModule.cpp:230-238 | One loan fewer, or nothing for null. |
| SocketRead.ReceiveInto | src/crow_serve/CrowServe.h:278-310 | For every behaviour of the socket: the caller's test passes if and only if the bytes come without failure within ten empty polls, and then the container holds the next bytes of the stream in order; otherwise both results tell at which poll and why it gave up. |
| SocketRead.LastByteDecides | src/crow_serve/CrowServe.h:284-307 | Success depends only on failures and empty polls before the last byte. |
| SocketRead.OnlyEmptyPollsCount | src/crow_serve/CrowServe.h:284-307 | Two sockets that cut the stream in any two ways, with as many empty polls in any places, succeed alike. |
| SocketRead.ChunkingIsIrrelevant | src/crow_serve/CrowServe.h:297-306 | Cutting a piece in two, or joining two, never changes success. |
| SocketRead.DelayIsTolerated | src/crow_serve/CrowServe.h:288-295 | One more empty poll anywhere is harmless while there were fewer than ten. |
| SocketRead.ReadIsDecided | src/crow_serve/CrowServe.h:283-295 | A read of n bytes is decided after n and eleven polls. |
| SocketRead.NeverCompletes | src/crow_serve/CrowServe.h:286-304 | When the loop gives up, waiting would not have helped. |
| AdCodec.AdRoundTrip | src/shared/StormTypes.h:64-126 | Into a zeroed struct every field but the pointers comes back if and only if the texts are padded with zeros. |
| AdCodec.CreatedAdRoundTrip | src/snp/AdvertisementManager.cpp:102-121 | Every ad that create_ad can make, with any Latin-1 name and description of up to 127 characters, comes back whole. |
| AdCodec.CreatedAdIsExact | src/snp/AdvertisementManager.cpp:102-121 | Each field as the reader of a created ad finds it, one by one. |
| AdCodec.SentAdArrives | src/shared/StormTypes.h:85-104 | Into any struct: every field, and each text in front of what its buffer held. |
| AdCodec.NameInUsedStruct | src/shared/StormTypes.h:94-97 | Into a used struct the name is the one sent exactly if the old one ended no later. |
| AdCodec.Utf8FormFits | src/shared/StormTypes.h:65-68 | The UTF-8 form of a terminated text fits 256 bytes with its terminator. |
| AdCodec.Utf8IsExact | src/shared/StormTypes.h:65-68 | Each character becomes itself or the two bytes of section 3 of RFC 3629 that carry its bits. |
| AdCodec.Utf8RoundTrip | src/shared/StormTypes.h:94-97 | Decoding inverts encoding (section 3 of RFC 3629) and at most doubles the length. |
| AdStructs.AdStruct.FromJson | src/shared/StormTypes.h:121-126 | The struct filled field by field is the one the value says, over what it held before; it fails exactly if a field is missing or does not fit. |
| AdStructs.AdStruct.InfoFromJson | src/shared/StormTypes.h:85-104 | The same for the game's part. |
| AdStructs.AdStruct.CreateAd | src/snp/AdvertisementManager.cpp:102-121 | A cleared struct with the given fields. |
| Caps.CapsDatRoundTrip | scripts/build_caps.py:93-106 | Reading the file back gives the ids, texts and caps in order if and only if no text holds a NUL. |
| Caps.WalkFindsRecords | scripts/build_caps.py:101-106 | For every list that can be written, walking by the size fields lands on every record and at the very end. |
| Caps.EntryIsExact | scripts/build_caps.py:62-104 | What is read back of each provider, literally: name, description, the nine caps and the id as a multi-character constant. |
| Caps.FieldsAreLittleEndian | scripts/build_caps.py:78-90 | Each byte of the caps: four bytes a field, the lowest first. |
| Caps.NulNameIsLost | scripts/build_caps.py:49-59 | One provider that passes every check and is not read back. |
| Caps.EntryRoundTrip | scripts/build_caps.py:101-105 | The same for one record. |
| Caps.DescriptionIsWritable | scripts/build_caps.py:67-75 | A description is free of NULs exactly if the version and the subtitle are. |
| Caps.FileAndHeaderAgree | scripts/build_caps.py:109-123 | The k-th id read from the file is the k-th constant read from the header. |
| Caps.HeaderHoldsIds | scripts/build_caps.py:110-121 | Reading the header's list gives back the ids. |
| Caps.IdsAreInjective | scripts/build_caps.py:62-64 | Different ids stay different as numbers. |
| Caps.LoadProviders | scripts/build_caps.py:37-59 | A list is accepted exactly if every check holds; otherwise the error says which check failed first, and for which provider. |
| Caps.BuildCapsDat | scripts/build_caps.py:93-106 | The file is the records in order, or an error exactly if a text is outside Latin-1. |
| Caps.BuildRecord | scripts/build_caps.py:96-105 | The parts of one record, behind its size. |

## Left out

- ICE, STUN and TURN inside libjuice, DSCP marking and the contents of descriptions and candidates: an environment with
  opaque descriptions. The candidate filters see two flags instead of matching text.
- The byte layout of a packet and the header parsing of `make_game_packet`: a received packet is a value whose fields are
  arbitrary. CBOR and the internals of the UTF-8 library are left out the same way; Json is a value.
- Duplicate keys, other kinds of numbers in Json, and the partial output for invalid UTF-8, which here converts to nothing.
  A text longer than its buffer, or one without a terminator, is outside what the code defines.
- The body read in `listen` (`src/crow_serve/CrowServe.h:224-233`): one `recv` without a loop.
- The pairing of lock and unlock around `lock_game_list`, and delivery by the other path when `send_best` fails.
- `either_agent_state`, `best_agent_state`, `send_all` and `disconnect_if_inactive`: easy members.
- Missing fields in the providers file, and a packet size that is no integer: a provider here has all its fields.
- Pointers into the table are slot numbers, so what a growing vector does to old addresses is not visible.
- Logging, configuration, Windows events, thread priorities, socket setup, the warnings of `build_caps.py` and the rest of
  the generated header: input and output.
- JuiceAgents.JuiceAgent.OnStateChanged: does not model the connection type read from the selected candidates, which
  nothing uses (`final_connection_type` always gives the standard type).
- JuiceAgents.JuiceAgent.OnRecv: leaves the quality to AgentPairs.AgentPair.OnRecv, and the queues to
  JuiceManagers.JuiceManager.OnRecv.
- Pings.PingIsEchoedOrRefused: leaves out the way in between, which is that of Echoes.PingIsAnswered.
- JuiceManagers.JuiceManager.ClearInactive: takes the inactive peers as an argument, because `is_active` and the clock
  behind it are not modelled.
- AdvertisementManagers.AdvertisementManager.LockGameList: does not model the request for advertisements, nor the agents
  and connection requests made for joinable lobbies while their prefixes are built.
- AdvertisementManagers.AdvertisementManager.LinkAndName: takes the text before and after a name as arguments, any
  functions of what the host said.
- AdvertisementManagers.AdvertisementManager.UpdateStatusAd: takes the status line as an argument, and cuts one of 128
  characters or more, at which the program stops.
- AdStructs.AdStruct.FromJson: says nothing of the struct after a failure, when the caller drops it, and fails for extra
  bytes that do not fit, for which the source defines nothing.
- AdStructs.AdStruct.InfoFromJson: says nothing of the fields already written when it fails.
- ReceiveQueue.PacketQueue.SpiFree: only for loans that are out, as the game must not free one twice.
- Redundancy.SixResendsToDuplicate: in exact arithmetic; rounding of 32-bit floats is not modelled.
- Storm.NoStorm: bounds the deliveries by the number of mismatches; that those stop under every schedule is not claimed.
