# gretun, modelled and verified in Dafny

gretun builds a mesh of GRE tunnels between machines behind NATs. A coordinator
keeps a registry of peers, hands out tunnel addresses and relays sealed disco
envelopes. On each machine a daemon follows the registry, runs one hole-punching
state machine per peer and creates a GRE-over-FOU tunnel when a peer becomes
reachable. This project models that core and proves what it keeps over every input,
every run and every interleaving. `dafny verify dfyconfig.toml` checks all of it.

| file | what it models |
|---|---|
| `PeerMachine`, `PeerRuns`, `PeerTraffic` | the per-peer state machine, its timed runs, and what it sends and remembers in them |
| `PeerNetwork`, `PeerRelay`, `PeerRefresh`, `PeerRestart`, `PeerMeeting` | two such machines joined by an unreliable network and the coordinator's relay |
| `AddressPool`, `PeerRegistry`, `RegistryHistory`, `CoordStore` | the coordinator's registry and address allocation, and what it holds and answers after any calls |
| `SignalQueue`, `SignalWake`, `SignalPulls` | the envelope queues, the wait and wake protocol around them, and what each pull answers with |
| `LongPoll`, `EndpointArrays`, `EtagCondition`, `PollProgress` | coordinator and daemon together: exactly when does the daemon see every change, and how soon? |
| `Updates`, `UpdateLoss` | what the daemon's machines are told, and what a full channel loses |
| `Daemon`, `FleetOwnership`, `FleetTeardown`, `FleetPorts` | reconciliation, interface names, who owns which kernel link, whether it goes with its machine, and whether links keep their ports |
| `Tunnel`, `TunnelResults`, `TunnelRuns`, `TunnelRace` | tunnel creation with rollback and deletion: the results and the link of one call, sequences of calls, concurrent calls |
| `Cidr`, `AddressPlan` | interface address validation, and how it meets the allocator |
| `Checksum`, `WorkerPool`, `WorkerResults` | the ICMP probe's checksum, and the bounded parallel prober with its results |
| `Basics` | names for plain values shared by the others |

Objects that the source updates in place are classes whose methods are proved
against a function on values. The theorems about whole runs are lemmas about those
functions.

## What the proofs show about the code

Where the code and its documentation or intent differ, the model follows the code.

- **Keepalive loss never re-punches.** The log line and the diagram in
  `docs/NAT_TRAVERSAL.md` say a lost direct path is punched again. The deadline is
  armed only on leaving `unknown`, so it has already passed: no later tick sends a
  ping, and the next tick in `punching` moves to `relay`
  (`PeerRuns.NoPunchingAfterLoss`). Such a loss is reachable between two peers for every
  non-empty endpoint list (`PeerRefresh.LossIsReachable`).
- **Joint relay is final.** `relayRetryEvery` is unused. Two peers that are both in
  relay stay there for good exactly when no ping or pong is left in flight or queued
  (`PeerRelay.RelayIsFinalIff`). A run from the start leads there for any two non-empty
  endpoint lists (`PeerRelay.QuietRelayIsReachable`).
- **A duplicated pong keeps a path alive.** A pong's id is not compared with an
  outstanding ping. After one round trip, duplicates keep a machine in `direct` for any
  length of time (`PeerRefresh.OneRoundTripLastsForever`). If no two pongs of one id are
  delivered and keepalive ticks come at most k apart, it has been in `direct` for at most
  75 s + k for each of its pings that was answered (`PeerRefresh.DirectNeedsRoundTrips`).
- **A restarted machine can inherit a path.** A pong takes a machine from `unknown`
  straight to `direct`. After a machine is started anew for a known key, `direct` means a
  round trip of its own in every run if and only if nothing is left of its predecessor's
  pings: no ping in flight or queued at the other side, no pong in flight
  (`PeerRestart.RestartIsSafeIff`).
- **An update forgets what peers announced.** `update` replaces the whole record. Inside
  the punch window a tick pings an address learnt from a call_me_maybe exactly until the
  next stored snapshot, unless that snapshot lists it too (`PeerRuns.TickPingsIff`).
- **`update` can be handled too early.** It sends its event before storing the
  snapshot. A machine that handles the event first stays `unknown` through every
  later timer, exactly when the old snapshot had no endpoints (`PeerRuns.UpdateRace`).
- **Tunnel creation is all-or-nothing only if its cleanup calls work.** A failed
  `Create` can leave a link without its FOU port exactly when `LinkDel` fails and
  `FouDel` succeeds after this call opened the port (`TunnelRuns.CreateKeepsBackedIff`).
- **Concurrent creations can close each other's port.** If the cleanup calls `LinkDel`
  and `FouDel` do not fail, every interleaving is safe if and only if no creation that
  can open a port shares it with another that can add a link, unless it was open before
  (`TunnelRace.ConcurrentCreatesSafeIff`). If they may fail, it is safe if and only if
  every link that can be added has its port open before
  (`TunnelRace.ConcurrentCreatesSafeUnderFaultsIff`). For a whole daemon with working
  cleanup, whose peers come and go and may win with several addresses, the ports are safe
  if and only if no machine can open a port that a link of another can lie on, unless it
  was open before (`FleetPorts.FleetKeepsPortsIff`).
- **An existing FOU port is accepted whatever its encapsulation.** A FOU and then a GUE
  tunnel on the same port both succeed, and the second has no port of its kind
  (`TunnelRuns.MismatchIsReachable`). With working cleanup this happens exactly for a
  valid creation with a free name whose port is open for the other encapsulation
  (`TunnelRuns.CreateAlwaysKeepsMatchedIff`).
- **Half of the allocated addresses are refused as `/30`.** With a pool aligned to
  four, the address of the n-th peer passes the CIDR validator exactly when n mod 4
  is 1 or 2; `bringUpTunnel` ignores the error (`AddressPlan.NthPeerAssignable`).
- **A repeated etag can hide a change.** Etags are hashes of a clock reading. Every
  interleaving of polls, failures and torn replies has converged when it is parked on an
  open channel, if and only if an etag that comes back stands for the same snapshot and
  no store in between overwrote one of that snapshot's endpoints in place with another
  (`EtagCondition.ConvergesIff`). Distinct etags are enough
  (`LongPoll.DistinctEtagsSuffice`), and not necessary.
- **A full channel loses an update.** `update` then drops the new record. The daemon can
  be parked and converged while a machine holds any earlier record of its peer
  (`UpdateLoss.StaleRecord`). A machine whose last update was not refused holds the
  registry's record, followed by endpoints it learnt from call_me_maybe messages since.
  The poll's timeout is the retry (`UpdateLoss.NextPollRepairs`).
- **The checksum is RFC 1071's for every message up to 131074 bytes**, and for no
  longer length in general: the 32-bit accumulator wraps (`Checksum.SafeLengthIsSharp`).

## Model

| member | source | states |
|---|---|---|
| `PeerMachine.AbsorbUnion` | internal/daemon/peer.go:265-280 | Absorbed endpoints are the known ones, in their order, followed by new parseable ones: a union without duplicates |
| `PeerMachine.AbsorbInOrder` | internal/daemon/peer.go:272-279 | New endpoints are appended in the order of the message: absorbing a part of it gives a beginning of the result |
| `PeerMachine.PeerFsm.constructor` | internal/daemon/peer.go:100-108 | A new machine is unknown, with the given endpoints and no tunnel |
| `PeerMachine.PeerFsm.PeerUpdate` | internal/daemon/peer.go:212-226 | Only an unknown machine with endpoints starts punching, and only then is the deadline armed |
| `PeerMachine.PeerFsm.BringUpTunnel` | internal/daemon/peer.go:364-403 | The tunnel flag is only ever raised |
| `PeerMachine.PeerFsm.AbsorbEndpoints` | internal/daemon/peer.go:265-280 | The loop with its seen-map computes the union specified by `Absorb` |
| `PeerMachine.PeerFsm.DiscoUdp` | internal/daemon/peer.go:228-256 | The code does on the fields what `OnDiscoUdp` does on values; what that sends and changes, in every run and from its inputs alone, is stated by `PeerTraffic.PongsSentIff`, `TunnelUpIff`, `LastPongFromHistory`, `KeepalivePingsWinner` and `StateFollows` |
| `PeerMachine.PeerFsm.Handle` | internal/daemon/peer.go:201-263 | Dispatch of queued events; a relayed message acts as one from the zero address |
| `PeerMachine.PeerFsm.TickPunch` | internal/daemon/peer.go:282-300 | A tick pings every endpoint once inside the window and falls back to relay after it |
| `PeerMachine.PeerFsm.Keepalive` | internal/daemon/peer.go:302-317 | A keepalive pings the winning address, or leaves direct after 75 s without a pong |
| `PeerRuns.ArmedAtMostOnce` | internal/daemon/peer.go:212-226 | In every timed run the punch deadline is armed at most once |
| `PeerRuns.TickPingsInWindow` | internal/daemon/peer.go:282-300 | Every ping sent by a tick falls within 5 s after the one arming, which precedes it |
| `PeerRuns.NoPunchingAfterLoss` | internal/daemon/peer.go:282-317 | After a keepalive loss no tick ever pings again; the next tick in punching gives up |
| `PeerRuns.LossIsReachable` | internal/daemon/peer.go:302-317 | For one machine and every non-empty endpoint list, an update, a pong and a late keepalive tick lead to such a loss |
| `PeerRuns.DirectIsFresh` | internal/daemon/peer.go:302-317 | A direct machine whose last keepalive tick is k old heard a pong within 75 s + k |
| `PeerRuns.PunchingIsShort` | internal/daemon/peer.go:282-317 | A machine whose last tick is d old has been punching for at most 5 s + d, on either entry to that state |
| `PeerRuns.DirectIsPaidFor` | internal/daemon/peer.go:302-317 | With keepalive ticks at most k apart, a direct phase has lasted at most 75 s + k for each pong handled in it |
| `PeerRuns.StuckUnknown` | internal/daemon/peer.go:282-317 | Timers alone never take a machine out of unknown |
| `PeerRuns.EndpointsFromHistory` | internal/daemon/peer.go:110-120 | A machine knows an address exactly if it started with it, or a snapshot or call_me_maybe brought it, with no snapshot stored since |
| `PeerRuns.TickPingsIff` | internal/daemon/peer.go:282-300 | A tick pings an address exactly if the machine is punching inside its window and knows the address in that sense |
| `PeerRuns.UpdateRace` | internal/daemon/peer.go:110-120 | Handling an update before its snapshot is stored loses it, exactly when the old snapshot was empty |
| `PeerTraffic.PongsSentIff` | internal/daemon/peer.go:230-232 | In every run: an iteration sends a pong with id tx to an address if and only if its input is a ping with id tx that came from there, the zero address for a relayed one, and then it sends that one packet, naming that address, and nothing else |
| `PeerTraffic.OnlyTimersPing` | internal/daemon/peer.go:282-317 | Pings are sent by the two timers only, and nothing but pings and those pongs is ever sent |
| `PeerTraffic.TickIds` | internal/daemon/peer.go:297-299 | Each ping of a tick carries an id of its own, in the order drawn |
| `PeerTraffic.TickPingsOnce` | internal/daemon/peer.go:297-299 | No tick pings an address twice, if no snapshot lists one twice |
| `PeerTraffic.LastPongFromHistory` | internal/daemon/peer.go:237-251 | The time of the last pong is that of the last iteration that handled one |
| `PeerTraffic.DeadlineFromHistory` | internal/daemon/peer.go:218-225 | Deadline and start of punching are those of the one arming: 5 s after its last clock reading, and its first |
| `PeerTraffic.TunnelUpIff` | internal/daemon/peer.go:243-247 | In every run the tunnel is up if and only if some entry into direct could bring it up |
| `PeerTraffic.KeepaliveIff` | internal/daemon/peer.go:308-316 | A keepalive tick sends if and only if the machine is direct and the last pong handled is at most 75 s old |
| `PeerTraffic.KeepalivePingsWinner` | internal/daemon/peer.go:302-317 | It then sends one ping, to the source of the pong that the current direct phase began with |
| `PeerTraffic.StateFollows` | internal/daemon/peer.go:201-317 | For every iteration of every run, exactly when the machine is direct, unknown or in relay afterwards, from its state before and the inputs so far; otherwise it punches |
| `PeerNetwork.StepKeepsInv` | internal/daemon/peer.go:141-317 | Every step of two machines, their queues and the network keeps the joint invariant |
| `PeerNetwork.RunKeepsInv` | internal/daemon/peer.go:141-317 | So does every run |
| `PeerNetwork.PongsAnswerPings` | internal/daemon/peer.go:228-256 | Every pong in flight or queued carries an id its receiver sent and the other side then answered, in that order in time |
| `PeerNetwork.DirectMeansRoundTrip` | internal/daemon/peer.go:228-256 | A direct machine punched before, its winning address is one it heard from, and a full ping-pong round trip took place |
| `PeerRelay.PunchCanSucceed` | internal/daemon/peer.go:282-300 | From any state of the pair and for any ids drawn, a machine punching inside its window with an endpoint has a run into direct, if its packets get through |
| `PeerRelay.QuietRelayIsAbsorbing` | internal/daemon/peer.go:282-317 | With both in relay and no ping or pong left, no run changes a state or sends a ping |
| `PeerRelay.RelayIsFinalIff` | internal/daemon/peer.go:46-52 | Both stay in relay under every run if and only if no ping or pong is left in flight or queued |
| `PeerRelay.QuietRelayIsReachable` | internal/daemon/peer.go:282-300 | For any two non-empty endpoint lists a run from the start ends in that final state |
| `PeerMeeting.DroppedIffFull` | internal/daemon/peer.go:121-135 | A datagram or relayed message joins the end of the incoming channel if and only if fewer than 32 events wait in it |
| `PeerMeeting.ChannelBound` | internal/daemon/peer.go:106 | In every run at most 32 events wait |
| `PeerMeeting.Introduced` | internal/daemon/peer.go:252-254 | An announcement relayed to an unknown machine makes it punch for 5 s, with the addresses that parse |
| `PeerMeeting.MeetThroughRelay` | internal/daemon/peer.go:192-199 | From two machines that know no endpoints, any usable announcement of one side has a run that takes the other into direct |
| `PeerRefresh.DuplicatesKeepDirect` | internal/daemon/peer.go:228-251 | Deliveries of one and the same pong keep a machine in direct through any number of keepalive ticks |
| `PeerRefresh.OneRoundTripLastsForever` | internal/daemon/peer.go:228-251 | From the start, one single round trip suffices to be in direct after any number of 25 s periods |
| `PeerRefresh.LossIsReachable` | internal/daemon/peer.go:302-317 | Between two peers, a round trip and then a silence of more than 75 s lead from the start to a keepalive loss |
| `PeerRefresh.RefreshesAreRoundTrips` | internal/daemon/peer.go:228-251 | Over every run a pong is handled no more often than it is delivered, and only if it answers a ping of the receiver |
| `PeerRefresh.OnlyPongsRefresh` | internal/daemon/peer.go:233-251 | Only a handled pong moves the time of the last pong |
| `PeerRefresh.LifetimeIsARun` | internal/daemon/peer.go:141-167 | What a side does in any run of the network is a well-timed lifetime of one machine |
| `PeerRefresh.DirectNeedsRoundTrips` | internal/daemon/peer.go:228-317 | If no two pongs of one id are delivered, a machine has been in direct for at most 75 s + k for each of its pings that was answered |
| `PeerRestart.RestartKeepsInv` | internal/daemon/daemon.go:301-329 | Starting a machine anew keeps the joint invariant, if nothing is left of its predecessor's pings |
| `PeerRestart.DirectMeansRoundTripAcrossRestarts` | internal/daemon/peer.go:228-256 | Over every history with any number of such restarts of both sides, a direct machine has made a round trip in its own lifetime |
| `PeerRestart.LeftoverMakesDirect` | internal/daemon/peer.go:233-247 | Any ping or pong left of the predecessor has a run that makes the new machine direct though it sent no ping |
| `PeerRestart.RestartIsSafeIff` | internal/daemon/peer.go:228-256 | After a restart direct means a round trip of the new machine in every run if and only if nothing is left of its predecessor's pings |
| `AddressPool.ContainsIff` | internal/coord/store.go:107-123 | Prefix containment above the pool address is a bound by the block's last address |
| `AddressPool.LastInRange` | internal/coord/store.go:107-123 | The block's last address is a 32-bit address not below the pool address |
| `AddressPool.SlashTwentyFour` | internal/coord/store.go:107-123 | A /24 pool holds the addresses that share three octets with it, and serves 254 peers less the last octet of its address |
| `PeerRegistry.ApplyKeeps` | internal/coord/store.go:72-143 | Every operation keeps the registry valid; a failing one changes nothing; no peer is dropped or moved |
| `PeerRegistry.ExecKeeps` | internal/coord/store.go:72-143 | The same over every history |
| `PeerRegistry.AddressNeverChanges` | internal/coord/store.go:70-105 | A key that got an address gets the same one at every later registration, whatever happened between |
| `PeerRegistry.OrderIsFirstSeen` | internal/coord/store.go:107-123 | Peers are admitted in the order first seen, up to the pool's capacity |
| `PeerRegistry.AddressOfKey` | internal/coord/store.go:107-123 | The i-th distinct key holds pool address + 1 + i if and only if that is below the last address of the block |
| `PeerRegistry.SortedIsUnique` | internal/coord/store.go:146-160 | Any sort of peers with distinct addresses gives one and the same list |
| `PeerRegistry.PeersIsAFunction` | internal/coord/store.go:146-160 | The peer listing depends on the registry alone, not on map order or the sort used |
| `RegistryHistory.AdmittedIff` | internal/coord/store.go:107-123 | A key is registered if and only if it is among the first distinct keys that tried, as many as there are addresses |
| `RegistryHistory.RecordFromHistory` | internal/coord/store.go:85-104 | After every history of calls, a registered key has the disco key and name of its last attempt, the endpoints of the last uncancelled `SetEndpoints` since its first attempt or else of that attempt, and the time of the last of all these calls |
| `RegistryHistory.RecordIsDecided` | internal/coord/store.go:85-104 | Those calls exist for every registered key |
| `RegistryHistory.SnapshotFromHistory` | internal/coord/store.go:146-160 | The listing is the first keys that tried, in that order, with consecutive addresses and those records |
| `RegistryHistory.ReplyFromHistory` | internal/coord/store.go:72-143 | Which error, or which success, every call gets, from the calls before it |
| `RegistryHistory.AddressFromHistory` | internal/coord/store.go:93-104 | A registration is told the address of its key's place among the distinct keys that tried, or that the pool is exhausted |
| `CoordStore.MapsAreInverse` | internal/coord/store.go:94-104 | The peer map and the address map are inverses of each other |
| `CoordStore.MemStore.constructor` | internal/coord/store.go:51-63 | A new store mirrors the empty registry, with no call made |
| `CoordStore.MemStore.BumpEtag` | internal/coord/store.go:181-186 | The open broadcast channel is closed once and replaced by an open one |
| `CoordStore.MemStore.AllocateIp` | internal/coord/store.go:107-123 | The scan finds an address exactly while capacity remains, and it is the next in sequence |
| `CoordStore.MemStore.Register` | internal/coord/store.go:72-105 | The call joins the history and the store mirrors the registry that the history makes, whose records and replies `RegistryHistory` states; waiters are woken exactly on success |
| `CoordStore.MemStore.Refresh` | internal/coord/store.go:85-91 | Likewise for a known key: it keeps its address and endpoints and takes disco key, name and time of the call |
| `CoordStore.MemStore.Insert` | internal/coord/store.go:93-104 | A new key gets the next address, or nothing changes when there is none |
| `CoordStore.MemStore.Store` | internal/coord/store.go:98-104 | Both maps get the new peer, and waiters are woken |
| `CoordStore.MemStore.SetEndpoints` | internal/coord/store.go:126-143 | Likewise for replacing endpoints; a failing call leaves maps, etag and channel as they are |
| `CoordStore.MemStore.Peers` | internal/coord/store.go:146-160 | Collecting and sorting the map gives the listing that the history of calls determines, with the current etag |
| `CoordStore.MemStore.DiscoKeyForNodeKey` | internal/coord/server.go:155-166 | A key is found if and only if it is among the first distinct keys that tried to register, and the answer is the disco key of its last attempt |
| `CoordStore.FindDisco` | internal/coord/server.go:155-166 | The linear search over the listing finds a peer of that key if there is one |
| `CoordStore.SortByTunnelIp` | internal/coord/store.go:156-158 | The result is ascending and a permutation |
| `SignalQueue.QueueIsLast64` | internal/coord/store.go:189-208 | A queue holds exactly the last 64 envelopes sent since the last pop, in order |
| `SignalQueue.FateMeans` | internal/coord/store.go:194-227 | The fates in counts and seconds: dropped if and only if 64 later ones for the recipient came before its next pop; otherwise met by that pop, delivered only if younger than 30 s then and expired only if not; queued if and only if there was none |
| `SignalQueue.DeliveredIfEarlier` | internal/coord/store.go:221-226 | An envelope that a pop delivers would be delivered by it at any earlier time |
| `SignalQueue.QueueAgreesWithFate` | internal/coord/store.go:189-229 | An envelope is queued if and only if its history-defined fate says so: not popped, fewer than 64 later ones |
| `SignalQueue.DeliveryAgreesWithFate` | internal/coord/store.go:212-229 | A pop returns an envelope if and only if that is its fate, which `FateMeans` states in counts and seconds |
| `SignalQueue.DeliveredInOrder` | internal/coord/store.go:212-229 | Over all pops of a recipient, envelopes come in sending order, each at most once, and before all still queued |
| `SignalQueue.Queues.EnqueueSignal` | internal/coord/store.go:189-208 | The map of queues follows the history; a cancelled call changes nothing |
| `SignalQueue.Queues.PopSignals` | internal/coord/store.go:212-229 | The queue is empty afterwards, the list returned is the history's delivery, and an envelope is in it if and only if it was queued and is younger than 30 s; a cancelled call changes nothing |
| `SignalWake.StepKeepsInv` | internal/coord/store.go:189-251 | Every lock section and every close keeps the channel invariant, and a released channel stays released |
| `SignalWake.RunKeepsInv` | internal/coord/store.go:189-251 | So does every interleaving |
| `SignalWake.NoDoubleClose` | internal/coord/store.go:189-208 | Each channel is registered, about to be closed by one enqueuer, or closed, and never two of these: no close panics |
| `SignalWake.NoLostWakeup` | internal/coord/server.go:127-142 | A parked pull whose queue is not empty waits on a channel that is closed or about to be; what it does once woken is stated by `SignalPulls.PullStory` and `WokenPullPopsAgain` |
| `SignalWake.EnqueueReleasesWaiters` | internal/coord/store.go:189-251 | An enqueue releases every pull parked for that key, and nothing later undoes it |
| `SignalPulls.PullStory` | internal/coord/server.go:127-142 | In every interleaving the steps of every pull are those of the handler: pop, then wait if it got nothing, then pop once more unless it timed out, then answer |
| `SignalPulls.WokenPullPopsAgain` | internal/coord/server.go:137-138 | A pull that is woken and later done, without being cancelled, has popped in between |
| `SignalPulls.PopDrains` | internal/coord/store.go:218-219 | Right after any pop the queue of its key is empty, and every other is as before |
| `SignalPulls.ParksIffEmpty` | internal/coord/store.go:232-243 | Waiting parks a pull if and only if its queue is empty, on the channel registered for its key |
| `SignalPulls.WokenByEnqueue` | internal/coord/store.go:245-250 | A parked pull is woken only after an envelope for its key was enqueued |
| `SignalPulls.DeliveredIffAnswered` | internal/coord/server.go:127-142 | In every interleaving an envelope has the fate of being delivered if and only if some pull answers with it |
| `SignalPulls.AnsweredOnce` | internal/coord/server.go:127-142 | That is one pull only, one for the envelope's recipient, and its pop is the one that the fate names |
| `LongPoll.StepKeepsInv` | internal/coord/store.go:146-186 | Every step of store, handler and daemon keeps the convergence invariant |
| `LongPoll.RunKeepsInv` | internal/coord/store.go:146-186 | So does every run, whatever etags the clock gives |
| `LongPoll.SnapshotKeys` | internal/daemon/daemon.go:291-323 | What the daemon wants from a snapshot is every registered disco key but its own |
| `LongPoll.ParkedMeansConverged` | internal/coord/server.go:98-111 | If the etags tell the snapshots apart, a daemon waiting on an open channel has the current snapshot, runs exactly the registered peers, and each machine whose last update was not refused holds the registry's record followed by endpoints it learnt since |
| `EndpointArrays.HistoryHoused` | internal/coord/store.go:139 | In every history each peer's endpoints fit the array they lie in, and no two peers share one |
| `EndpointArrays.MovesIff` | internal/coord/store.go:139 | A peer's endpoints move to another array if and only if they are set to a list that does not fit |
| `PollProgress.OnlyRepliesTeach` | internal/daemon/daemon.go:254-269 | Nothing but a received reply changes etag, snapshot or machines of the daemon; after a failed request it asks again from the same etag |
| `PollProgress.PollGoesOn` | internal/coord/server.go:98-111 | Until the daemon waits on the open channel there is a poll step to make |
| `PollProgress.PollComesToRest` | internal/daemon/daemon.go:254-269 | Once mutations, failures and timeouts stop, every run makes at most nine poll steps, and exactly when it can make no more the daemon waits on the open channel, converged if the etags tell the snapshots apart |
| `LongPoll.DistinctEtagsSuffice` | internal/coord/store.go:65-68 | Distinct etags tell the snapshots apart |
| `EtagCondition.RepeatHidesChange` | internal/coord/store.go:65-68 | An etag that comes back for another snapshot has a run that waits on the outdated one |
| `EtagCondition.RepeatHidesTear` | internal/coord/store.go:139-142 | An etag that comes back for the same snapshot, after an endpoint of it was overwritten in the same array, has a run that waits on a torn one |
| `EtagCondition.ConvergesIff` | internal/coord/store.go:146-186 | For every sequence of mutations and their etags: all interleavings converge if and only if the etags tell the snapshots apart |
| `Updates.SyncedRecord` | internal/daemon/peer.go:110-120 | After a reconcile a machine holds the snapshot's record exactly if it was new or its channel had room, and otherwise what it held before |
| `Updates.SyncIsCurrent` | internal/daemon/daemon.go:291-330 | After a reconcile every machine whose update was not refused is current |
| `Updates.LearnKeepsCurrent` | internal/daemon/peer.go:265-280 | Absorbing announced endpoints keeps the registry's record, with the new ones after its own |
| `Updates.AbsorbedUnion` | internal/daemon/peer.go:265-280 | The addresses listed after absorbing are those of both lists |
| `Updates.LearnMeans` | internal/daemon/peer.go:265-280 | A machine that learns endpoints lists them besides its own, and nothing else changes |
| `UpdateLoss.RefusedUpdateIsLost` | internal/daemon/peer.go:110-120 | A refused update leaves the daemon parked and converged with that machine's old record |
| `UpdateLoss.StaleRecord` | internal/daemon/peer.go:110-120 | Any record the registry ever had for a key can be what its machine holds in a parked and converged daemon |
| `UpdateLoss.NextPollRepairs` | internal/daemon/daemon.go:254-269 | From every parked poll the timeout leads to every machine having exactly the registry's record, if the channels have room |
| `Daemon.DecimalReads` | internal/daemon/daemon.go:303-304 | The decimal text of a number reads as that number and has no leading zero |
| `Daemon.NameParts` | internal/daemon/daemon.go:303-304 | An interface name is the pattern with the number in place of its verb |
| `Daemon.NamesAreDistinct` | internal/daemon/daemon.go:303-304 | Different sequence numbers give different interface names |
| `Daemon.ReconcileTracksRegistry` | internal/daemon/daemon.go:291-330 | After a reconcile the running machines are exactly the wanted ones; survivors keep theirs, newcomers get new ones, and a machine is stopped exactly when its peer left |
| `Daemon.InterfacesNeverReused` | internal/daemon/daemon.go:303-304 | Over every sequence of snapshots no two machines ever started share an interface name |
| `Daemon.Reconciler.ReconcilePeers` | internal/daemon/daemon.go:291-330 | The loops over snapshot and map compute `Reconcile` on the machines and `Sync` on the records they hold |
| `Daemon.Reconciler.Tell` | internal/daemon/daemon.go:301-322 | A wanted record starts a machine with a new interface, or updates the existing one if its channel has room |
| `Daemon.Reconciler.RetireUnseen` | internal/daemon/daemon.go:324-329 | The second loop stops and forgets exactly the unseen peers |
| `FleetOwnership.StepKeepsInv` | internal/daemon/peer.go:169-180 | Reconciling, every single netlink call, tearing down and other processes keep link ownership |
| `FleetOwnership.RunKeepsInv` | internal/daemon/peer.go:169-180 | So does every run |
| `FleetOwnership.MachinesOwnTheirLinks` | internal/daemon/peer.go:364-403 | From any kernel and with netlink calls interleaved: a machine creates at most one link, changes no link of another name and none of its own name that it did not add, and a teardown finds the very link that machine created |
| `FleetTeardown.SuccessIsNoted` | internal/daemon/peer.go:390-401 | A machine notes a tunnel if and only if its creation succeeded, and that link is in the kernel as configured |
| `FleetTeardown.TeardownRemovesIff` | internal/daemon/peer.go:169-180 | In every run a teardown leaves a link of the machine's name if and only if there is one and the machine has no tunnel of its own or netlink fails |
| `FleetPorts.StepKeepsPorts` | internal/daemon/peer.go:364-403 | With ports apart and working cleanup, reconciling, every netlink call of any planned configuration and every teardown keep each link's port open |
| `FleetPorts.SharedPlanIsUnsafe` | internal/daemon/peer.go:380-389 | Two machines with configurations that share a port not open before have a run from the start that closes it under a link |
| `FleetPorts.FleetKeepsPortsIff` | internal/daemon/peer.go:364-403 | For any set of configurations per machine and working cleanup: every link keeps its port in every run of a daemon if and only if no machine can open a port that a link of another can lie on, unless it was open before |
| `Tunnel.ValidateConfig` | internal/tunnel/validate.go:164-197 | The checks accept exactly the valid configurations |
| `Tunnel.EnsureFou` | internal/tunnel/gre.go:112-129 | The call reports a creation exactly when it opened the port; an open port is left as it is |
| `Tunnel.CreateTunnel` | internal/tunnel/gre.go:25-102 | The netlink calls with their rollbacks compute `Create` for every pattern of failing calls; its results, the link it leaves and its rollback are stated by `TunnelResults` and `TunnelRuns` |
| `Tunnel.DeleteTunnel` | internal/tunnel/gre.go:202-232 | Likewise for `Delete`; after a success the link is gone |
| `TunnelResults.ValidConfigIff` | internal/tunnel/validate.go:164-197 | Exactly which configurations are valid: the name's length and characters, the seven reserved prefixes, the excluded address blocks, the port and the MTU range, each as numbers or text |
| `TunnelResults.CreateResultIff` | internal/tunnel/gre.go:25-102 | Exactly which result a creation has |
| `TunnelResults.CreatedAsConfigured` | internal/tunnel/gre.go:40-64 | After a success the link has, field by field, the configured addresses and key, TTL 64 unless set, the set MTU or 1468 if encapsulated, and the configured ports and checksum flag only if encapsulated; a port it opened has protocol 47 for FOU and 0 for GUE; nothing else changed |
| `TunnelResults.DeleteResultIff` | internal/tunnel/gre.go:202-232 | Exactly which result a deletion has |
| `TunnelResults.DeleteRemoves` | internal/tunnel/gre.go:202-232 | A successful deletion removes that link and nothing else, any other changes nothing |
| `TunnelResults.DeleteUndoesCreate` | internal/tunnel/gre.go:202-232 | Deleting a created tunnel restores the links; its port stays open |
| `TunnelRuns.CreateIsATransaction` | internal/tunnel/gre.go:25-146 | Success adds one link and a missing port, which `TunnelResults.CreatedAsConfigured` states field by field; failure with working cleanup changes nothing; nothing else is ever touched |
| `TunnelRuns.CreateSucceedsIff` | internal/tunnel/gre.go:25-102 | Exactly when a creation succeeds |
| `TunnelRuns.LeavesLinkIff` | internal/tunnel/gre.go:71-95 | Exactly when a failed creation leaves its link behind |
| `TunnelRuns.CreateKeepsBackedIff` | internal/tunnel/gre.go:71-95 | Exactly when a creation keeps every encapsulated link's port open |
| `TunnelRuns.DeleteKeepsBacked` | internal/tunnel/gre.go:202-232 | A deletion keeps that, every other link and every port |
| `TunnelRuns.PortsStayOpen` | internal/tunnel/gre.go:25-102 | So does every sequence of calls whose creations never fail to delete a link while closing its port |
| `TunnelRuns.EndsWithLinkIff` | internal/tunnel/gre.go:25-102 | From the inputs alone, exactly when a creation ends with its link in place, and with which port |
| `TunnelRuns.CreateKeepsMatchedIff` | internal/tunnel/gre.go:112-129 | Under every pattern of failures and from the inputs alone, exactly when a creation keeps each link's port of that link's encapsulation |
| `TunnelRuns.CreateAlwaysKeepsMatchedIff` | internal/tunnel/gre.go:112-129 | With working cleanup, whatever else fails, exactly when it does |
| `TunnelRuns.MismatchIsReachable` | internal/tunnel/gre.go:112-129 | From the empty kernel a FOU and then a GUE creation on one port succeed and break it |
| `TunnelRace.StepKeepsInv` | internal/tunnel/gre.go:25-102 | With ports apart and working cleanup, every netlink call of any number of concurrent creations keeps every link's port open |
| `TunnelRace.RunKeepsInv` | internal/tunnel/gre.go:25-102 | So does every interleaving |
| `TunnelRace.StepKeepsOpenInv` | internal/tunnel/gre.go:25-102 | With all ports open before, every netlink call does, whatever fails |
| `TunnelRace.SharedPortIsLost` | internal/tunnel/gre.go:46-71 | A valid creation that opens a port and another that adds a link on it have an interleaving that closes the port under the link |
| `TunnelRace.FailedCleanupLosesPort` | internal/tunnel/gre.go:73-95 | A creation that opens its port can lose it when its own cleanup fails |
| `TunnelRace.ConcurrentCreatesSafeIff` | internal/tunnel/gre.go:25-102 | For any configurations and working cleanup: every interleaving is safe if and only if no creation that can open a port shares it with another that can add a link, unless it was open before |
| `TunnelRace.ConcurrentCreatesSafeUnderFaultsIff` | internal/tunnel/gre.go:25-102 | If cleanup may fail too: if and only if every link that can be added has its port open before |
| `TunnelRace.LoneCallIsCreate` | internal/tunnel/gre.go:25-102 | A single call's steps have the effect and the result of `Create` under every pattern of failures |
| `Cidr.BroadcastOf` | internal/tunnel/validate.go:74-78 | The loop fills in the host bits of each byte |
| `Cidr.ValidateCidr` | internal/tunnel/validate.go:48-86 | The byte-level checks give the verdict defined by arithmetic on the address value |
| `Cidr.BlockBounds` | internal/tunnel/validate.go:66-82 | Masking gives the largest multiple of the block size not above the address, broadcasting the last address of that block |
| `Cidr.DottedQuadAccepted` | internal/tunnel/validate.go:48-86 | An IPv4 address is accepted if and only if it is a /32 or lies strictly between network and broadcast |
| `Cidr.VerdictIff` | internal/tunnel/validate.go:66-82 | Which verdict: network address if and only if masking leaves the address as it is, broadcast address if and only if filling the host bits does |
| `Cidr.MappedIff` | internal/tunnel/validate.go:58-60 | An address of 16 bytes counts as IPv4 if and only if it lies in ::ffff:0:0/96 |
| `AddressPlan.SlashThirty` | internal/tunnel/validate.go:48-86 | A /30 address is accepted if and only if its value mod 4 is 1 or 2 |
| `AddressPlan.MaskedPoolAligned` | internal/coord/store.go:107-123 | A masked pool of at most 30 bits starts at a multiple of four |
| `AddressPlan.QuadValue` | internal/daemon/peer.go:394-397 | Every address is the value of its four octets |
| `AddressPlan.NthPeerAssignable` | internal/daemon/peer.go:394-397 | Over every registration history, exactly which peers' allocated addresses, written as four octets, the validator accepts as /30 |
| `Checksum.IcmpChecksum` | internal/health/probe.go:96-108 | The loops compute the complement of the folded 32-bit sum, which up to 131074 bytes is RFC 1071's checksum |
| `Checksum.SumWords` | internal/health/probe.go:97-103 | The first loop and the odd byte give the word sum in 32 bits |
| `Checksum.FoldCarries` | internal/health/probe.go:104-106 | The second loop folds it below 65536 |
| `Checksum.FoldAtMostTwice` | internal/health/probe.go:104-106 | Folding a 32-bit sum takes at most two rounds and keeps its residue mod 65535 and whether it is zero |
| `Checksum.OnesSumValue` | internal/health/probe.go:96-103 | One's-complement addition agrees with the plain sum mod 65535 |
| `Checksum.CorrectIff` | internal/health/probe.go:96-108 | The deferred-carry checksum is RFC 1071's exactly when the wraps of the accumulator are harmless |
| `Checksum.SafeLengthIsSharp` | internal/health/probe.go:96-108 | A length is safe for all contents if and only if it is at most 131074 |
| `Checksum.SelfVerifies` | internal/health/probe.go:88-91 | A message with its checksum stored sums to a checksum of zero |
| `Checksum.VerifiesIff` | internal/health/probe.go:96-108 | A message verifies exactly when its word sum is a non-zero multiple of 65535 |
| `Checksum.DetectsWordChange` | internal/health/probe.go:96-108 | A changed word, the padded last one of an odd message included, goes unnoticed exactly when it swaps the two zeros of one's complement |
| `Checksum.BuildEchoRequest` | internal/health/probe.go:68-93 | The request is written into the buffer, verifies, and leaves the rest of the buffer alone |
| `Checksum.EchoVerifies` | internal/health/probe.go:68-93 | Every echo request verifies, for every identifier |
| `Checksum.EchoLayout` | internal/health/probe.go:68-93 | The bytes of an echo request: type 8, code 0, the identifier and the sequence number 1 in network order, and the payload |
| `WorkerPool.StepKeepsInv` | internal/health/probe.go:237-295 | Every step of dispatcher, workers and cancellation keeps slots, results and wait count in agreement |
| `WorkerPool.RunKeepsInv` | internal/health/probe.go:237-295 | So does every interleaving |
| `WorkerPool.BoundedParallelism` | internal/health/probe.go:243-281 | Never more probes at once than the requested concurrency, nor than targets |
| `WorkerResults.ParallelismIsReached` | internal/health/probe.go:243-281 | Some interleaving has exactly that many probes running at once |
| `WorkerResults.ResultIsLastWrite` | internal/health/probe.go:264-289 | In every interleaving a target has a result if and only if a goroutine for it stored one, and the last to do so decides whether it is that of a probe or of a cancellation |
| `WorkerResults.AllProbedUnlessCancelled` | internal/health/probe.go:264-289 | Without a cancellation every result is of a probe that ran |
| `WorkerPool.ReturnedResults` | internal/health/probe.go:237-295 | On return all workers are done and the results are those of exactly the dispatched targets: all of them unless cancelled |
| `WorkerPool.StepDecreases` | internal/health/probe.go:237-295 | Every step reduces the remaining work |
| `WorkerPool.NoDeadlock` | internal/health/probe.go:237-295 | Before the return some step other than cancellation is enabled |
| `WorkerPool.AlwaysReturns` | internal/health/probe.go:237-295 | Every run has at most 5n + 3 steps, and one that cannot go on has returned |

## Left out

- Cryptography, request signing and envelope framing: an opened envelope is taken to come from the peer it names.
- The HTTP and JSON layers, STUN, sockets, the CLI, metrics and logging: no logic of the core lives there.
- The translation of netlink errors to error values: a failing call is one `NetlinkError`.
- Clock readings, etags, transaction ids and failing netlink calls are parameters; `FouAdd` reports EEXIST exactly for an open port.
- `ProbeMultiple`, tunnel listing and status: they would only add easy members.
- Aggressive punching and data-plane relay: the source does not implement them.
- IPv6 pools: `NewMemStore` asks for IPv4.
- The kernel effect of `AssignIP`: only its CIDR verdict is modelled.
- `context` cancellation in the middle of a lock section: the source looks at it only on entry.
- Go's `sort.Slice` is stood for by an insertion sort; `PeerRegistry.SortedIsUnique` shows any sort gives the same list.
- Each handler of the peer machine is one step; only `update`'s late snapshot store interleaves with it.
- PeerNetwork.DirectMeansRoundTrip: covers one machine lifetime per side and a single global clock; `PeerRestart` has restarts.
- PeerRestart.RestartIsSafeIff: a machine is replaced in one step, and its predecessor's goroutine makes no step afterwards.
- EtagCondition.ConvergesIff: the spare capacity of an array that `append` allocates is a parameter, and a torn reply shows whole endpoints; a data race that tears a single endpoint is not modelled.
- LongPoll.ParkedMeansConverged: a reconcile is one step, and whether a machine's channel has room for each record is a parameter of it.
- FleetOwnership.MachinesOwnTheirLinks: other processes may do anything but change a link that a machine has added and not torn down; runs end before shutdown.
- Daemon.NamesAreDistinct: covers patterns with one `%d`, because the pattern is user-supplied text.
- PeerMachine.PeerFsm.BringUpTunnel: choosing the local address, `Create` and `AssignIP` are one success flag; `Create` has modules of its own, and the verdict on the address is in `AddressPlan`.
- PeerRelay.PunchCanSucceed: delivery is a possibility only, and the network does not look at the address a packet is sent to, because which addresses a NAT lets through is not the program's to decide.
- FleetPorts.FleetKeepsPortsIff: no other process changes links or ports.
- TunnelRace.ConcurrentCreatesSafeIff: deletions do not interleave; `FleetPorts` has the teardowns of a daemon.
