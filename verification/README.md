# LinkG verification

A Dafny model, with proofs, of the stateful parts of LinkG: a mesh daemon that carries traffic
between an access point (AP) and its stations (STA) over Wi-Fi and 5G at once, and the kernel
drivers under it. `dafny verify dfyconfig.toml` checks everything.

| part | modules |
|---|---|
| Path reference lifecycle, step by step | PathTypes, PathProtocol, PathSafety |
| Node's peer and path tables | NodeTable |
| Path Probe engine and lifecycle | ProbeSummary, ProbeTable, ProbeEngine, ProbeInvariant, ProbeSteps, ProbeRequests, ProbeRuns, ProbeRuntime, ProbeLifecycle |
| Discovery peers, topology, local state, session | DiscoveryTypes, DiscoveryPeers, DiscoveryInvariant, DiscoveryTopology, DiscoveryRuns, DiscoveryCore, DiscoveryLocal, DiscoverySession |
| Discovery wire format | WireBytes, DiscoveryWire, WireRoundTrips, WireBuffers |
| From a datagram to the report handler | DiscoveryDatagrams |
| GMAC receive ring and coalescing | GmacRing, GmacRx, GmacDriver |
| Packet pool | PacketPool |
| TUN fragment-class cache | FragmentCache |
| Counting with sets | SetSizes |
| Link transmission and start/stop | LinkTx, LinkLifecycle |

How the models are built:

- State that the code changes in place is a class (`Node`, `Probe`, `Discovery`, `LocalState`,
  `Driver`, `PacketPool`, `FragmentClasses`) or an array; its methods follow the code's branches
  and loops and are proved equal to functions on plain values. What the system promises is proved
  about those functions, over one call or over every run.
- Concurrency is interleaving. `PathProtocol`, `GmacRx`, `LinkLifecycle`, `ProbeLifecycle` and
  `PacketPool` have one step per atomic access or lock section, with any number of threads.
  `NodeTable` runs each locked operation with arbitrary lock-free releases between its atomic
  accesses; that these are all that can happen is `PathSafety.OutsideLockIsLockFree`. Around a
  lock-free release other threads, whole Node operations included, are arbitrary functions on the
  stored table with the guarantee that every operation is proved to give.
- Calls into parts that are not modelled answer what they like: the results of Switch, Transport,
  Node and Route during one discovery operation, a driver's answer to each batch, each queue
  purge, clock readings and received messages are parameters.

## Findings

Places where the code does not do what one would expect of it, each with a proof:

- A retired path can be stranded. A thread that took the count to zero while the path was still
  ACTIVE can run its completion swap after Node has taken its cleanup reference and retired the
  path. The callback then finds the cleanup reference and gives up, and Node's own last release
  finds the path already RELEASED. `RetireLosesNotificationIff` gives the exact condition. When
  the whole peer was unregistered its slot stays retiring for ever (`StrandedForEver`): the node
  id is busy (`StrandedIsBusy`) and Node can no longer be taken down (`Node.Deinit`).
- Start's rollback closes the driver without `io_lock`, so a purge can be inside it
  (`PurgeCanOverlapRollback`). `OverlapBeginsIff` gives the step that lets it happen, and some
  interleaving of a link has it exactly when a thread purges the link at all
  (`OverlapPossibleIff`). Sends cannot.
- `submit_batch` returns a count and leaves results at -EINPROGRESS when a driver answers a later
  batch with that very code (`Submit`, `InProgressCanRemain`).
- `geth_rx` tests the ownership bit only, so with budget left it goes on into slots that were
  never submitted once every outstanding descriptor is completed (`Driver.Receive` says exactly
  when). If refills find their buffers this happens in some run exactly when the poll budget is
  not below the ring size; the driver's budget is a quarter of it (`BudgetFitsIff`). If one
  refill finds no memory it happens at once (`FailedRefillStarves`). After it the ring looks full
  although it is empty (`EmptyRingLooksFull`); each further slot taken makes room for one more
  submission, but nothing submitted from there on is looked at until rx_dirty has gone once round
  the ring (`NothingNewForALap`). The guarantees of the coalescing are proved for runs in which
  it does not happen, the condition `Fed`.
- Comments in `kernel/sunxi-gmac.c` speak of 16 frames per interrupt and a 50 ms timer; the code
  uses 8 and 10 ms. The model follows the code.
- Unreachable: Node's -EFAULT after its own retire, -ENOSPC when a discovery slot was found, -ESTALE
  when a probe is marked, both error branches of the single-packet reservation, the overflow guard
  of the packet pool.

## Model

| member | source | states |
|---|---|---|
| `PathProtocol.StepKeepsInv` | core/link/linkg_path.c:25-87 | One atomic access by any thread keeps the protocol invariant: the count is the sum of the references the threads hold, an empty slot has none, a drained retired path has a completion swap ahead, a holder still sees the link and activation it acquired, and only the lock's owner is inside a locked operation |
| `PathSafety.ReachableSafety` | core/node/linkg_node.c:382-428 | In every interleaving of locked acquire, activate, retire and reset with lock-free releases: count = outstanding references; EMPTY means none; a RETIRED path with count 0 has a thread whose completion swap is pending; no thread ever sees count 0 right after Node's own retire, so the -EFAULT branch is dead |
| `PathSafety.HolderKeepsPath` | core/link/linkg_path.c:196-246 | Over any run during which a thread keeps a reference, the slot is not emptied and not activated again, and keeps the link id |
| `PathSafety.AtMostOneReleasePerActivation` | core/link/linkg_path.c:25-57 | Each activation has at most one successful RETIRED to RELEASED transition in any run |
| `PathSafety.ReleasesAreBounded` | core/link/linkg_path.c:25-57 | From any invariant state, the transitions still possible for one activation: at most one while it can come, none once the slot is RELEASED or past it |
| `PathSafety.OutsideLockIsLockFree` | core/link/linkg_path.c:62-87 | A thread without the Node lock can only lower the count or turn RETIRED into RELEASED; link and activation stay; this is the interference every Node operation is proved under |
| `PathSafety.RetireLosesNotificationIff` | core/node/linkg_node.c:382-428 | When Node retires a path under its cleanup reference, some continuation ends RELEASED with nobody left to notify Node, if and only if a thread that drained the path while it was ACTIVE still has its completion swap ahead |
| `PathSafety.LostUntilReset` | core/link/linkg_path.c:307-341 | A lost release stays lost until a later Node operation resets the slot explicitly |
| `PathSafety.EarlyCompletion` | core/link/linkg_path.c:62-87 | The late swap wins although Node's reference is outstanding: the four steps end with the path RELEASED and a positive count |
| `PathSafety.RetiredPathCanBeStranded` | core/node/linkg_node.c:476-518 | A concrete run from the initial state to a RELEASED path with no reference, every thread idle and no callback to come: the claim that every retired path is reclaimed is false of the code |
| `NodeTable.Node.RegisterPeer` | core/node/linkg_node.c:828-907 | Under the table invariant (peer_count = valid slots, ids unique among valid and retiring slots, free slots have only EMPTY paths, path_count = ACTIVE paths of a valid slot, one non-EMPTY path per link, a STA has at most one valid peer): the exact status for every table, an unused slot filled or the peer's own refreshed on success, nothing changed otherwise, and every held path keeps its owner |
| `NodeTable.Node.UnregisterPeer` | core/node/linkg_node.c:915-1015 | The exact status; on success the slot goes from valid to retiring, or straight to free when no path was in use; the paths handed back are exactly the ACTIVE ones, each with one cleanup reference; everything else only saw lock-free releases |
| `NodeTable.Node.RegisterPath` | core/node/linkg_node.c:1024-1112 | Each status and when it is given: -EBUSY exactly when the peer has a path there that is retired or released, -ENOSPC exactly when it has none and all its slots are in use; success means exactly one path changed and peer and link now have an ACTIVE path to that endpoint |
| `NodeTable.Node.UnregisterPath` | core/node/linkg_node.c:1120-1204 | Each status and when it is given: -EBUSY exactly when no path was retired by the call and one is still held there; the path handed back was ACTIVE and is now retired with the caller's cleanup reference; without one the call at most emptied the retired or released path there; on success the link has no ACTIVE path any more |
| `NodeTable.Node.PrepareRetire` | core/node/linkg_node.c:382-428 | With any number of releases between its atomic accesses: ACTIVE becomes RETIRED (or RELEASED already), a cleanup reference is kept exactly then, and the count check after the swap never sees zero |
| `NodeTable.Node.PathReleased` | core/node/linkg_node.c:476-518 | The release callback empties a RELEASED path only when its count is 0 and frees a retiring slot exactly when its last path is empty; held paths keep their owner |
| `NodeTable.Node.CompletePeerRelease` | core/node/linkg_node.c:362-374 | A retiring slot becomes free exactly when all its paths are empty |
| `NodeTable.Node.AcquirePathBatch` | core/node/linkg_node.c:1212-1270 | Each status and when it is given; on success the caller holds n more references on the ACTIVE path of that peer and link, and the stored table is the one before with n added to that count and other threads' releases in between; on failure only releases happened |
| `NodeTable.Node.ReleasePath` | core/link/linkg_path.c:62-87 | However many swaps lose to other threads and Node operations first, the one that wins lowers the stored count by exactly one, completes the release when that made it zero, and stores nothing else; the loaded count is never 0 |
| `NodeTable.QuietRelease` | core/link/linkg_path.c:62-87 | With nobody else around, which is one of the environments the releases above allow, a release lowers that one stored count by one, the last reference of a retired path empties the slot, and no other path changes |
| `NodeTable.Node.CompleteRelease` | core/link/linkg_path.c:25-57 | The completion after draining: the table the swap saw has RETIRED turned into RELEASED and then the callback's effect, every other state is left alone; other threads' stores before the swap and before the callback got the lock are kept |
| `NodeTable.Node.PurgeRetired` | core/node/linkg_node.c:436-469 | The table afterwards is that of one release after the other on the retired paths, so every stored cleanup reference is given back whatever each queue purge answers; the result is the first failure |
| `NodeTable.Node.RemovePeer` | core/node/linkg_node.c:915-1015 | unregister_peer with its purge: the stored table is the unregistered one after releasing each retired path once, and the calling thread is left with exactly the references it had before |
| `NodeTable.InterferenceKeepsTable` | core/link/linkg_path.c:62-87 | Lock-free releases by other threads never break the table invariant |
| `NodeTable.ReleasedPathEmptied` | core/link/linkg_path.c:307-341 | Resetting a released, unreferenced path keeps the table invariant and leaves the peer without an ACTIVE path on that link |
| `NodeTable.StrandedForEver` | core/node/linkg_node.c:476-518 | A retiring slot with a RELEASED, unreferenced path, what a lost notification leaves, stays as it is over any number of steps that keep it; every Node operation, every callback of another path and every lock-free release is proved to be such a step in its contract or below |
| `NodeTable.ReleaseKeepsStranded` | core/link/linkg_path.c:25-87 | A whole release with its completion and callback keeps such a slot: it can only be another path's, since the swap that gives a reference back finds a count above zero |
| `NodeTable.StrandedIsBusy` | core/node/linkg_node.c:828-907 | While the slot is stranded, register_peer answers -EBUSY for its node id, none of its paths can be registered, and the slot stays in use |
| `NodeTable.Node.Deinit` | core/node/linkg_node.c:589-648 | linkg_node_deinit goes through exactly when no slot is in use, so a stranded slot keeps it from ever doing so |
| `ProbeSummary.SummaryInRange` | core/probe/path_probe_runtime.c:207-300 | Whatever states the samples ended in: sent = received + lost, loss_permille at most 1000, and with a reply min <= average <= max and jitter <= max - min |
| `ProbeSummary.AddsUpIff` | core/probe/path_probe_runtime.c:207-300 | requested = sent + send failures holds exactly when no sample was left open |
| `ProbeSummary.ComputeSummary` | core/probe/path_probe_runtime.c:207-300 | The accumulation loop with running sum, minimum, maximum and jitter computes the summary defined on the list of round-trip times |
| `ProbeSummary.FiguresFit` | core/probe/path_probe_runtime.c:207-300 | With 32-bit round-trip times every published figure fits 32 bits, so the narrowing casts lose nothing |
| `ProbeTable.SomeNumberIsFree` | core/probe/path_probe_runtime.c:1122-1146 | Pigeonhole: at most 259 consecutive sequence numbers, wrap included, can all be in use |
| `ProbeTable.AllocateIsFresh` | core/probe/path_probe_runtime.c:1122-1146 | An allocated sequence is nonzero, fits 32 bits and no live record carries it |
| `ProbeTable.AllocateSequence` | core/probe/path_probe_runtime.c:1122-1146 | The search loop always ends, with exactly the first free number |
| `ProbeRuns.StepKeepsInv` | core/probe/path_probe_runtime.c:1258-1406 | Every operation, at any clock value, keeps the engine invariant and only moves generations, tickets and published send times forward |
| `ProbeRuns.FinishedDiagnosticAddsUp` | core/probe/path_probe_runtime.c:207-315 | In every reachable state a completed diagnostic has requested = packets asked for, sent = received + lost, loss_permille <= 1000, ordered round-trip figures within the response timeout, and, with status 0, requested = sent + send_failed |
| `ProbeRuns.RunningDiagnosticHasWork` | core/probe/path_probe_runtime.c:1356-1386 | A running diagnostic always has a sample left to send or a record in flight: it is never left waiting for nothing |
| `ProbeRuns.InFlightTable` | core/probe/path_probe_runtime.c:1122-1253 | In every reachable state records sit in the partition of their type, sequences are nonzero and pairwise distinct, pending_count equals the live diagnostic's records, and an async record exists exactly when its class slot is active, dispatched and PENDING |
| `ProbeRuns.OneOutcomeEach` | core/probe/path_probe_runtime.c:428-460 | Every reservation is in flight or has ended, never both, and an ended one keeps its outcome over every further run |
| `ProbeRuns.FinishTouchesOwnRequestOnly` | core/probe/path_probe_runtime.c:583-638 | A finished send acts on the record it reserved or on nothing, even if others freed it meanwhile; only a lost path's own diagnostic goes with it |
| `ProbeRuns.OnlyCurrentGenerations` | core/probe/path_probe_runtime.c:526-578 | No record of an old path generation is ever in flight, so none is published and -ESTALE is never answered |
| `ProbeRuns.PathComesBackClean` | core/probe/path_probe_runtime.c:712-783 | When a path goes nothing of it stays in flight, and when it comes back its generation is new |
| `ProbeRuns.PublishedSendTimeNeverBack` | core/probe/path_probe_runtime.c:428-500 | While a path keeps its generation the send time behind its published result never goes back |
| `ProbeRuns.GenerationsAreNotReused` | core/probe/path_probe_runtime.c:739-783 | A generation number is never given out twice |
| `ProbeSteps.TaskIsAlone` | core/probe/path_probe_runtime.c:505-521 | The record at the index the worker remembers is its own request or free: comparing sequence, generation and path is enough |
| `ProbeSteps.MarkKeepsInv` | core/probe/path_probe_runtime.c:526-578 | Marking answers 0 for a request still in the table and -ECANCELED otherwise, never -ESTALE, and keeps the invariant |
| `ProbeSteps.FinishKeepsInv` | core/probe/path_probe_runtime.c:583-638 | Finishing a send keeps the invariant for every status, with an early reply, a passed deadline or neither |
| `ProbeSteps.ReplyKeepsInv` | core/probe/path_probe_runtime.c:643-682 | A reply with any sequence, from any path and class, at any time keeps the invariant |
| `ProbeSteps.ExpireKeepsInv` | core/probe/path_probe_runtime.c:687-705 | Expiry of everything overdue keeps the invariant |
| `ProbeSteps.CancelDiagKeepsInv` | core/probe/path_probe_runtime.c:320-348 | Cancelling a diagnostic ends it and every record of it, and nothing else |
| `ProbeRequests.PickAsyncKeepsInv` | core/probe/path_probe_runtime.c:1211-1253 | A queued single-packet request always goes out: neither error branch of its reservation is reachable |
| `ProbeRequests.PickDiagKeepsInv` | core/probe/path_probe_runtime.c:1356-1386 | Picking a diagnostic sample moves to the next one, skips exactly a missed slot, and never cancels the diagnostic |
| `ProbeRequests.PickPeriodicKeepsInv` | core/probe/path_probe_runtime.c:1151-1204 | Picking a periodic probe keeps the invariant, with a free slot and without one |
| `ProbeRequests.RemovePathKeepsInv` | core/probe/path_probe_runtime.c:712-734 | Removing a path keeps the invariant |
| `ProbeRequests.SubmitKeepsInv` | core/probe/linkg_path_probe.c:630-737 | Queueing a single-packet request keeps the invariant and the uniqueness of handles |
| `ProbeRequests.PollKeepsInv` | core/probe/linkg_path_probe.c:742-788 | Polling expires what is overdue, frees a decided slot and keeps the invariant |
| `ProbeRequests.CancelAsyncKeepsInv` | core/probe/linkg_path_probe.c:793-821 | Cancelling a request keeps the invariant |
| `ProbeRequests.StopKeepsInv` | core/probe/linkg_path_probe.c:290-352 | Stopping ends the diagnostic and empties the table under the invariant |
| `ProbeRuntime.Probe.CompletePending` | core/probe/path_probe_runtime.c:428-500 | On the arrays: publishing, freeing and finishing do exactly what the engine's completion does |
| `ProbeRuntime.Probe.CancelDiagnostic` | core/probe/path_probe_runtime.c:320-348 | On the arrays: the loop over the records does exactly what the engine's cancellation does |
| `ProbeRuntime.Probe.CancelOnPath` | core/probe/path_probe_runtime.c:375-395 | On the arrays: every outstanding request of that path and generation is withdrawn, no other |
| `ProbeRuntime.Probe.MarkSending` | core/probe/path_probe_runtime.c:526-578 | On the arrays: status and effect of marking |
| `ProbeRuntime.Probe.FinishSend` | core/probe/path_probe_runtime.c:583-638 | On the arrays: status by status the effect of finishing a send |
| `ProbeRuntime.Probe.AcceptReply` | core/probe/path_probe_runtime.c:643-682 | On the arrays: the first matching record, and early or late completion |
| `ProbeRuntime.Probe.ExpirePending` | core/probe/path_probe_runtime.c:687-705 | On the arrays: the loop completes exactly what is overdue, in slot order |
| `ProbeRuntime.Probe.DropPath` | core/probe/path_probe_runtime.c:712-734 | On the arrays: removal of a path with its records, requests and diagnostic |
| `ProbeRuntime.Probe.SendSample` | core/probe/path_probe_runtime.c:1356-1386 | On the arrays: the diagnostic part of pick_task |
| `ProbeRuntime.Probe.SendPeriodic` | core/probe/path_probe_runtime.c:1151-1204 | On the arrays: rescheduling and reserving a periodic probe |
| `ProbeRuntime.Probe.SendVerify` | core/probe/path_probe_runtime.c:1211-1253 | On the arrays: reserving a queued single-packet request |
| `ProbeLifecycle.CallbacksAreOfThisRun` | core/probe/linkg_path_probe.c:65-124 | In every interleaving of init, start, stop, deinit, worker exit, callbacks and a diagnosing caller: rx_users is the number of callbacks inside, each was called with the present run token, and the pool they borrow is still there |
| `ProbeLifecycle.ResetsFindNobody` | core/probe/linkg_path_probe.c:203-390 | No table is reset, no run begins and no deinit succeeds while a callback or a diagnosing caller is inside, and leaving never finds rx_users at 0 |
| `ProbeLifecycle.OldCookieStaysOut` | core/probe/linkg_path_probe.c:84-104 | Over any run, restarts included, a callback that carries the cookie of an earlier run never gets in |
| `ProbeLifecycle.DrainGoesDown` | core/probe/linkg_path_probe.c:65-79 | While stop drains nobody new gets in, and every departure brings it closer to the end |
| `DiscoveryRuns.StepKeepsSound` | core/discovery/discovery_peer.c:643-932 | Every locked operation, whatever the calls into Switch, Transport, Node and Route answer, keeps the peer table sound and moves each slot only as the protocol allows |
| `DiscoveryRuns.ReachableTable` | core/discovery/discovery_peer_runtime.c:520-639 | In every reachable state peer_count equals the online slots, node ids are distinct, and every online peer has a registered active access |
| `DiscoveryRuns.AgingGuarantee` | core/discovery/discovery_peer.c:853-932 | After age(now) every peer still online has an active access less than 10 s old or stamped after now; a slot was freed only when offline at least 15 s with its route cleanup done |
| `DiscoveryRuns.AcceptedReport` | core/discovery/discovery_peer.c:643-771 | An accepted report leaves its sender online in that session and revision with that access seen at now |
| `DiscoveryRuns.IgnoredIffOutOfDate` | core/discovery/discovery_peer.c:552-582 | A report is IGNORED exactly when it passes the admission checks and belongs to the replaced session, a closed one, or an older revision of the current one; then the table is unchanged |
| `DiscoveryRuns.RevisionNeverBack` | core/discovery/discovery_peer.c:552-582 | Over any run in which the session is not replaced the accepted revision never decreases and a closed session stays closed |
| `DiscoveryRuns.ShutOut` | core/discovery/discovery_peer.c:593-631 | A session closed by an accepted LEAVE, or just replaced by a newer one, stays shut out over any run until a further session replaces it or the slot is given up |
| `DiscoveryRuns.BlockedIsNotAccepted` | core/discovery/discovery_peer.c:643-771 | A report of a shut-out session is never accepted and changes nothing |
| `DiscoveryRuns.MacStaysBound` | core/discovery/discovery_peer.c:490-543 | On an AP a MAC bound to an online peer stays the same over any run in which it stays online, sessions included |
| `DiscoveryRuns.SessionChangeCarriesMac` | core/discovery/discovery_peer.c:490-527 | A session change accepted for an online bound peer carries the bound, valid MAC |
| `DiscoveryInvariant.RoomForOneMore` | core/discovery/discovery_peer_runtime.c:520-639 | With a free slot the peer count is below the table size: the -ENOSPC check cannot fire |
| `DiscoveryRuns.ListFollowsRevision` | core/discovery/discovery_topology.c:229-242 | On a running AP the online-STA list is determined by session and topology revision, which never goes back |
| `DiscoveryRuns.SnapshotsOfOneRevision` | core/discovery/discovery_topology.c:346-394 | Two AP_SYNC an AP builds in one session with one revision name the same nodes |
| `DiscoveryRuns.RecordNeverBack` | core/discovery/discovery_topology.c:406-451 | Over every run in which the AP stays online in one session, as the only peer of its STA (Node's rule), the STA's record is never cleared or switched to another session and its revision never goes back |
| `DiscoveryRuns.StaRecordsApStates` | core/discovery/discovery_topology.c:139-219 | An AP run and a STA run together: when each AP_SYNC was built by some state of the AP's run, and however they are lost, delayed, repeated or reordered and whatever route calls fail, the STA's record is the revision and list of some state of that AP |
| `DiscoveryRuns.TopologyAgreement` | core/discovery/discovery_topology.c:139-219 | and so, for every state of the AP's run with the recorded revision, the record is exactly that state's online list without the STA itself |
| `DiscoveryTopology.SharedRoutesAreKept` | core/discovery/discovery_topology.c:139-219 | Applying a list removes a route only for a node of the old list that is not in the new one, and only after every new route was added |
| `DiscoveryTopology.AppliedListIsRecorded` | core/discovery/discovery_topology.c:96-219 | An applied list is recorded without the STA itself, each of its routes was added and each dropped one removed in that call; a failed one leaves the record alone |
| `DiscoveryTopology.RejectedIffInvalid` | core/discovery/discovery_validate.c:206-273 | The AP_SYNC checks, in the order of the code, reject exactly the messages that are not valid |
| `DiscoveryTopology.BuiltSyncIsValid` | core/discovery/discovery_topology.c:346-394 | What a running AP builds is accepted by the validity check of every STA it is for |
| `DiscoveryCore.Discovery.HandlePeerReport` | core/discovery/discovery_peer.c:643-771 | On the peer array: classification, staged registration with rollback, refresh, update and restart do what the table's report function says, for every answer of the calls |
| `DiscoveryCore.Discovery.HandlePeerLeave` | core/discovery/discovery_peer.c:783-840 | On the peer array: the LEAVE checks and taking the peer offline |
| `DiscoveryCore.Discovery.AgePeers` | core/discovery/discovery_peer.c:853-932 | On the peer array: the aging loop, slot by slot, with the first error kept |
| `DiscoveryCore.Discovery.DeactivateAccess` | core/discovery/discovery_peer.c:356-425 | On the peer array: dropping one access from every peer, taking those without another one offline |
| `DiscoveryCore.Discovery.RegisterPeer` | core/discovery/discovery_peer_runtime.c:520-639 | On the peer array: each stage of the registration, and its rollback, for every answer of the calls |
| `DiscoveryCore.Discovery.UnregisterPeer` | core/discovery/discovery_peer_runtime.c:844-938 | On the peer array: unregistering with the route cleanup remembered when it fails |
| `DiscoveryCore.Discovery.AcquireSlot` | core/discovery/discovery_peer.c:131-176 | The search for an unused slot, then for an expired one |
| `DiscoveryCore.Discovery.BuildApSync` | core/discovery/discovery_topology.c:346-394 | On the peer array: the snapshot holds the online peers in slot order, refused off an AP |
| `DiscoveryCore.Discovery.ApplyApTopology` | core/discovery/discovery_topology.c:139-219 | Route calls in the order made, the first error reported, and the recorded list |
| `DiscoveryCore.Discovery.HandleApSync` | core/discovery/discovery_topology.c:406-451 | Report, session and revision checks and the application, as one call |
| `DiscoveryLocal.OneContentPerRevision` | core/discovery/discovery_local.c:333-456 | Two local reports of one session with the same revision have the same path flags and equivalent endpoints, whatever the interfaces did in between |
| `DiscoveryLocal.RefreshSettles` | core/discovery/discovery_local.c:333-456 | A refresh that succeeds takes in all there was to see: repeating it with the same interfaces changes nothing, the revision included |
| `DiscoveryLocal.LocalState.Refresh` | core/discovery/discovery_local.c:333-456 | The refresh of both endpoints on the stored report, with its return code |
| `DiscoveryLocal.ReceiverHoldsSendersContent` | core/discovery/discovery_peer_runtime.c:723-833 | A sender and a receiver together, over any run in which the reports of that session were built by the sender's own refreshes: what the receiver stores, kept on REFRESH and replaced on UPDATE, has the content of every sender state of the stored revision |
| `DiscoveryLocal.AcceptedReportIsHeld` | core/discovery/discovery_peer_runtime.c:723-833 | After a report is accepted its sender is online and the stored report says the same as the one just received, although a REFRESH does not store it |
| `DiscoverySession.CleanupGuarantee` | core/discovery/linkg_discovery.c:124-187 | Ending a session takes every peer offline whatever fails; without a failure nothing is left, with one every route that would not go is still on record |
| `DiscoverySession.EndedSessionStartsAgain` | core/discovery/linkg_discovery.c:83-187 | From every state reachable in a session, a cleanup whose calls succeed reports no error and leaves a state from which, with both channels gone, start's check passes |
| `DiscoverySession.RetrySucceeds` | core/discovery/linkg_discovery.c:639-702 | A retried stop ends the session as soon as no call fails any more |
| `DiscoveryDatagrams.SentReportIsHandled` | core/discovery/discovery_wifi.c:670-700 | What a plain report does to a table after encoding, decoding and the check of the sender's address is what the report itself does, and nothing when it comes from another address than it declares |
| `DiscoveryDatagrams.AnyDatagramIsSafe` | core/discovery/discovery_wire.c:454-507 | Whatever bytes arrive the table stays sound, and a datagram of another length or header leaves it as it was |
| `DiscoveryDatagrams.PaddingDoesNotMatter` | core/discovery/discovery_wire.c:454-507 | Buffers that differ only in the endpoints' meaningless bytes are handled alike |
| `WireRoundTrips.StaReportRoundTrip` | core/discovery/discovery_wire.c:403-507 | A STA report is encoded exactly when 71 bytes fit and both endpoints can be; decoding gives back all the wire carries, MAC included |
| `WireRoundTrips.StaReportRestoredIff` | core/discovery/discovery_wire.c:86-195 | The report itself comes back exactly when its endpoints have exact sockaddr sizes, no flow and no scope id, and its role fits a byte |
| `WireRoundTrips.StaReportAcceptedIff` | core/discovery/discovery_wire.c:454-507 | Exactly the 71-byte buffers with the right header and known endpoint kinds are accepted |
| `WireRoundTrips.StaReportReencodes` | core/discovery/discovery_wire.c:403-507 | Re-encoding a decoded report gives the same buffer with its meaningless endpoint bytes zeroed |
| `WireRoundTrips.StaReportCanonical` | core/discovery/discovery_wire.c:403-507 | Buffers that decode alike have one common re-encoding, which decodes like them, and different ones have different ones |
| `WireRoundTrips.ApSyncRoundTrip` | core/discovery/discovery_wire.c:520-681 | An AP sync is encoded exactly when it names at most 16 nodes, its endpoints can be encoded and the buffer is large enough; decoding gives back everything but the AP's wifi_mac |
| `WireRoundTrips.ApSyncRestoredIff` | core/discovery/discovery_wire.c:520-681 | The sync itself comes back exactly for plain endpoints, a zero wifi_mac and a zeroed tail of the node array |
| `WireRoundTrips.ApSyncAcceptedIff` | core/discovery/discovery_wire.c:597-681 | Exactly the buffers whose header, node count and length agree are accepted |
| `WireRoundTrips.ApSyncReencodes` | core/discovery/discovery_wire.c:520-681 | Re-encoding a decoded sync gives the same buffer with its meaningless endpoint bytes zeroed |
| `WireRoundTrips.ApSyncCanonical` | core/discovery/discovery_wire.c:520-681 | One canonical buffer for all buffers that decode to the same sync |
| `WireRoundTrips.LeaveRoundTrip` | core/discovery/discovery_wire.c:693-798 | A leave is always restored |
| `WireRoundTrips.LeaveAcceptedIff` | core/discovery/discovery_wire.c:747-798 | Exactly the 25-byte buffers with the leave header are accepted, and re-encoding gives the very same bytes |
| `WireRoundTrips.NoAcceptedPrefix` | core/discovery/discovery_wire.c:454-507 | No accepted message starts another one: a datagram cut short or extended is always refused |
| `WireRoundTrips.KindAndLength` | core/discovery/discovery_wire.c:361-394 | An accepted message is accepted by one decoder only and its length is the one its header gives |
| `WireBuffers.EncodeStaReportInto` | core/discovery/discovery_wire.c:403-447 | The encoder fills the caller's buffer at advancing offsets with exactly those bytes, touches nothing behind them, and reports the length only on success |
| `WireBuffers.EncodeApSyncInto` | core/discovery/discovery_wire.c:520-592 | The same for the AP sync, with its node loop and both size checks |
| `WireBuffers.EncodeLeaveInto` | core/discovery/discovery_wire.c:693-742 | The same for the leave; a refused call leaves the buffer alone |
| `WireBuffers.EncodeReportAt` | core/discovery/discovery_wire.c:211-262 | The 57-byte report inside a larger buffer, with the error of the first bad endpoint |
| `WireBuffers.EncodeEndpointAt` | core/discovery/discovery_wire.c:86-139 | The 19-byte endpoint over zeroed bytes, with each error code |
| `WireBuffers.DecodeStaReportFrom` | core/discovery/discovery_wire.c:454-507 | The decoder, on a buffer no longer than the datagram, gives exactly the format's answer and error code; no read is out of bounds |
| `WireBuffers.DecodeApSyncFrom` | core/discovery/discovery_wire.c:597-681 | The same for the AP sync |
| `WireBuffers.DecodeLeaveFrom` | core/discovery/discovery_wire.c:747-798 | The same for the leave, whose length is checked first |
| `WireBuffers.WriteU64` | core/discovery/discovery_wire.c:57-67 | The eight shifted bytes are the number in network byte order |
| `WireBuffers.ReadU64At` | core/discovery/discovery_wire.c:72-77 | The eight shifts are the number those bytes stand for |
| `WireBytes.ValueOfBigEndian` | core/discovery/discovery_wire.c:21-77 | Reading what was written gives the number back |
| `WireBytes.BigEndianOfValue` | core/discovery/discovery_wire.c:21-77 | Writing what was read gives the bytes back |
| `GmacRing.RefillGuard` | kernel/sunxi-gmac.c:85-89 | For every ring size, power of two or not, the masked circ_space is positive exactly when the ring is not full |
| `GmacRing.FullByIndex` | kernel/sunxi-gmac.c:85-89 | By index the ring looks full exactly when size - 1 descriptors are outstanding |
| `GmacRx.StepKeepsInv` | kernel/sunxi-gmac.c:1943-2053 | Every lock section of refill, receive, mode update, both timers and the drain checks keeps the receive invariant, as long as no slot without a submitted descriptor is taken |
| `GmacRx.SilentDescriptorsAreWatched` | kernel/sunxi-gmac.c:1897-1927 | In every run that takes no slot without a submitted descriptor, with the coalescing lock free: in LOW mode each outstanding descriptor without an interrupt lies from rx_dirty to rx_drain_target and the drain timer is enabled and pending or running; in HIGH mode the RX timer is |
| `GmacRx.OneInterruptInEight` | kernel/sunxi-gmac.c:1233-1303 | In every such run, in HIGH mode any 8 descriptors submitted in a row in one mode include one with its interrupt on |
| `GmacRx.OneInterruptInAnyEight` | kernel/sunxi-gmac.c:1943-2053 | In every such run, with ring and poll budget of together at most 3200, that holds across mode switches too |
| `GmacRx.RingNeverOverruns` | kernel/sunxi-gmac.c:1233-1303 | In every such run at most size - 1 descriptors are outstanding, and rx_dirty is never ahead of the DMA nor the DMA of rx_clean |
| `GmacRx.CompleteIsRight` | kernel/sunxi-gmac.c:1897-1909 | The drain is declared complete only when no silent descriptor is left |
| `GmacRx.DrainTimerKeepsRunning` | kernel/sunxi-gmac.c:2108-2223 | A drain timer that fires while a silent descriptor is outstanding restarts itself |
| `GmacRx.BudgetFitsIff` | kernel/sunxi-gmac.c:2777-2902 | With refills that find their buffers, every run takes only submitted descriptors if and only if the poll budget is below the ring size |
| `GmacRx.FailedRefillStarves` | kernel/sunxi-gmac.c:2777-2902 | Without buffers no budget is small enough: the run from the opened ring whose first refill fails and whose first poll takes a slot that was never submitted |
| `GmacRx.EmptyRingLooksFull` | kernel/sunxi-gmac.c:1233-1303 | After a receive from an empty ring the refill guard takes the ring for full with nothing outstanding |
| `GmacRx.NothingNewForALap` | kernel/sunxi-gmac.c:2777-2902 | After that, in any run until rx_dirty has gone once round, no descriptor submitted meanwhile is at the index the receive loop looks at; once round it is back at the first of them |
| `GmacDriver.Driver.SubmitOne` | kernel/sunxi-gmac.c:1233-1303 | Index, ownership bit, interrupt bit and coalescing count change together as one submission of the ring model |
| `GmacDriver.Driver.Refill` | kernel/sunxi-gmac.c:1233-1303 | The refill loop is a number of submissions, and ends with a full ring or for want of a buffer for its next slot |
| `GmacDriver.Driver.DmaCompletes` | kernel/sunxi-gmac.c:2777-2902 | The hardware gives back the oldest descriptor it owns, with an error or without |
| `GmacDriver.Driver.Receive` | kernel/sunxi-gmac.c:2777-2902 | The receive loop looks at the ownership bit only. It takes the completed prefix up to its budget; the ring stays in order if and only if the budget is used up by then or an outstanding descriptor stops it, and otherwise it takes at least one slot that was not submitted. Frames with an error keep their buffer |
| `PacketPool.SlotsAreDisjoint` | core/packet/linkg_packet_pool.c:106-175 | Every accepted layout has 64-byte aligned slots that do not overlap, stay in the region and leave room behind the headroom; the region's size fits |
| `PacketPool.Conservation` | core/packet/linkg_packet_pool.c:271-350 | packet_count = free stack + referenced packets + packets between count zero and push |
| `PacketPool.ReachablePool` | core/packet/linkg_packet_pool.c:382-413 | In every interleaving of alloc, retain, release and push nothing is lost, nothing is on the stack twice, and nothing on the stack is referenced |
| `PacketPool.PushAlwaysFits` | core/packet/linkg_packet_pool.c:382-413 | The overflow guard never drops a packet |
| `PacketPool.NotHandedOutTwice` | core/packet/linkg_packet_pool.c:271-350 | Over any run in which a packet keeps a reference, no allocation hands it out |
| `PacketPool.AllocManyIs` | core/packet/linkg_packet_pool.c:308-350 | A batch takes the top of the stack in order and comes short only when the pool is empty |
| `PacketPool.ReleaseManyKeeps` | core/packet/linkg_packet_pool.c:420-468 | A batch release takes exactly as many references from each packet as it names it, and pushes those that reach zero |
| `PacketPool.PacketPool.AllocPacket` | core/packet/linkg_packet_pool.c:271-301 | The stack pop with reset and count 1 |
| `PacketPool.PacketPool.AllocBatch` | core/packet/linkg_packet_pool.c:308-350 | The batch equals as many single allocations |
| `PacketPool.PacketPool.ReleasePacket` | core/packet/linkg_packet_pool.c:382-413 | With anything happening between the decrement and the push: the last reference puts that packet back, another one only lowers the count |
| `PacketPool.PacketPool.ReleaseBatch` | core/packet/linkg_packet_pool.c:420-468 | The batch equals as many single releases, duplicates included |
| `PacketPool.PacketPool.CanDestroy` | core/packet/linkg_packet_pool.c:198-262 | The pool may go exactly when no packet is referenced or on its way back |
| `FragmentCache.StoreRefines` | kernel/tun.c:1267-1321 | A store keeps the cache a part of the unbounded map, keys distinct, whatever it updates, reuses or evicts |
| `FragmentCache.LookupRefines` | kernel/tun.c:1326-1377 | So does a lookup with expiry and removal |
| `FragmentCache.HitIsIdeal` | kernel/tun.c:1326-1377 | A hit is the class of the latest store of that key not taken out, within its deadline |
| `FragmentCache.EvictionNeedsSeventeen` | kernel/tun.c:1267-1321 | An unexpired entry is evicted only when more than 16 stores are alive |
| `FragmentCache.StoreComplete` | kernel/tun.c:1267-1321 | With at most 16 stores alive the cache holds them all |
| `FragmentCache.LookupComplete` | kernel/tun.c:1326-1377 | and answers every lookup, hit or miss, as the unbounded map does |
| `FragmentCache.SmallLoadsAreExact` | kernel/tun.c:1267-1377 | Over every run of stores and lookups in which no store leaves more than 16 alive, the cache answers each later lookup exactly as the unbounded map does |
| `FragmentCache.RunRefines` | kernel/tun.c:1425-1501 | Over every run of classified packets the cache stays a part of the unbounded map |
| `FragmentCache.FragmentsFollowTheirFirst` | kernel/tun.c:1468-1500 | Over any run of packets of other datagrams and middle fragments of this one, a later fragment before the deadline gets the class of its first fragment or DATA from the cache, and exactly that class when no store leaves more than 16 alive |
| `FragmentCache.FragmentClasses.Store` | kernel/tun.c:1267-1321 | The scanning loop and the round-robin index on the array |
| `FragmentCache.FragmentClasses.Lookup` | kernel/tun.c:1326-1377 | The scanning loop on the array, with expired entries dropped |
| `FragmentCache.FragmentClasses.MatchRules` | kernel/tun.c:1384-1420 | The loop over the rules finds exactly that rule |
| `FragmentCache.FirstRuleIs` | kernel/tun.c:1384-1420 | The class is that of the first rule that matches protocol and port, and DATA when none does |
| `FragmentCache.FragmentClasses.Classify` | kernel/tun.c:1425-1501 | Class and new cache are those of the run model: a non-first fragment gets its first fragment's class or DATA, everything else gets what an unbounded cache would give |
| `LinkTx.ChunkIsRight` | core/link/link_tx.c:59-100 | A chunk fits the driver, never splits an adjacent FIRST/LAST pair and is as long as these allow; it is empty exactly when a pair meets a driver that takes one packet at a time |
| `LinkTx.FinalizeChunk` | core/link/link_tx.c:105-140 | Results the driver left at -EINPROGRESS become -EIO, nothing else changes, and the accepted packets are counted |
| `LinkTx.CheckPackets` | core/link/link_tx.c:165-219 | The packets are all valid or the first invalid one's error is returned |
| `LinkTx.Submit` | core/link/link_tx.c:220-290 | For every batch size and driver: it ends; packets go over in order in consecutive chunks; a negative return exactly when the first chunk failed; otherwise the return is the number of zero results, and no entry is left at -EINPROGRESS if and only if the driver answered no batch with that code |
| `LinkTx.InProgressCanRemain` | core/link/link_tx.c:260-290 | The concrete driver answer for which an entry does stay at -EINPROGRESS |
| `LinkLifecycle.SendNeverOverlapsClose` | core/link/linkg_link.c:192-314 | In every interleaving of start, stop, senders and purgers the driver's send_batch never overlaps its close |
| `LinkLifecycle.PurgeOverlapsOnlyRollback` | core/link/linkg_link.c:234-304 | A purge overlaps a close only if that close is the rollback of a failed start |
| `LinkLifecycle.PurgeCanOverlapRollback` | core/link/linkg_link.c:92-184 | and there it does: with any thread that purges, the run from creation that shows it |
| `LinkLifecycle.OverlapBeginsIff` | core/link/linkg_link.c:92-184 | From any reachable state without an overlap, a step begins one if and only if it is the failed thread start while a purge is inside, or a purge passing its is_open check while start rolls back |
| `LinkLifecycle.OverlapPossibleIff` | core/link/link_tx.c:331-373 | Some interleaving of a link's threads overlaps a close if and only if the link has a thread that purges |
| `LinkLifecycle.StoppedIsClosed` | core/link/linkg_link.c:92-314 | A STOPPED link is closed with no send inside, a RUNNING one is open |

## Left out

- Counter and clock wrap: 64-bit counters, clocks, jiffies and the 32-bit reference counts are
  unbounded; the 32-bit probe sequence, the 16- to 64-bit wire fields, the pool's layout arithmetic
  and the local revision limit are modelled at their width.
- Memory order weaker than sequential consistency, pthread error returns, and random session ids
  (sessions are taken as they come).
- Sockets, poll loops, netlink, ioctl, /proc and logging; the I/O halves of `discovery_wifi.c` and
  `discovery_cellular.c`, `linkg_nat.c` and `cmain.c`.
- Switch policy, Transport, Scheduler, Route and the thread library: only their answers appear.
  When a call fails the model keeps what the caller recorded; what the callee is left with is open.
- `NodeTable`: peers are array slots and the packet, byte and drop statistics of a path are absent.
  A path is addressed by slot, so the search by path address in the callback is not modelled.
- `NodeTable.Node.Others`: other threads' Node operations are any function on the table with the
  guarantee each operation is proved to give, not calls of the methods themselves.
- Path Probe: which of several due tasks the worker picks first, the packet rate policy and its
  smoothing, tx and rx counters, and the peer slots behind the paths (a path is its peer and access).
- `ProbeLifecycle.ResetsFindNobody`: an exhausted run token and a failing condition wait are not steps.
- Discovery: address checks of `linkg_network_ops` are a verdict carried with each endpoint, Switch
  notifications have no effect on the table, and the channel threads are two flags.
- `DiscoveryTopology.AppliedListIsRecorded`: routes are the calls made, not a table of their own.
- GMAC: PHY, clocks, power, ethtool, the TX path, DMA mapping, `geth_stop`, and the lengths of the
  drain timer's back-off.
- `GmacRx.SilentDescriptorsAreWatched`, `GmacRx.OneInterruptInEight`, `GmacRx.RingNeverOverruns`:
  for runs that take no slot without a submitted descriptor; what happens
  in the others is `GmacRx.NothingNewForALap` and `GmacRx.FailedRefillStarves`.
- `GmacRx.OneInterruptInAnyEight`: shown for ring and poll budget of together at most 3200 frames,
  not beyond that.
- Packet pool: packet data is not modelled, only its place in the region, counts and metadata.
- TUN: queues, batches and the character device; the cache, the port rules and the classification
  only. A datagram's key is the one of section 3.2 of RFC 791.
- `LinkTx.Submit`: the state and `io_lock` checks in front of the loop are `LinkLifecycle`'s; packet
  contents are absent.
- Wire format: NULL arguments, and what a decoder leaves in its output when it reports an error.
- `WireRoundTrips.ApSyncRoundTrip`: the AP's own wifi_mac is not carried, as in the protocol.
- `linkg_path.c` statistics, `link_resource`, `linkg_main.c` ordering and `linkg_link_manager.c`:
  straightforward code.
