/** The locked operations on the direct peers (discovery_peer.c, discovery_peer_runtime.c)
    as functions on the table. Calls into other modules answer through `calls`. */
module DiscoveryPeers {
  import opened DiscoveryTypes

  function SetPeer(t: Table, i: nat, p: Peer): Table
    requires i < |t.peers|
  {
    t.(peers := t.peers[i := p])
  }

  // ------------------------------------------------------------------ liveness

  function LiveOf(p: Peer, a: Access): Liveness { if a == Wifi then p.wifi else p.cellular }

  function SetLive(p: Peer, a: Access, l: Liveness): Peer {
    if a == Wifi then p.(wifi := l) else p.(cellular := l)
  }

  function ClearLive(p: Peer): Peer { p.(wifi := NO_LIVENESS, cellular := NO_LIVENESS) }

  function MarkSeen(p: Peer, a: Access, now: nat): Peer { SetLive(p, a, Liveness(true, true, now)) }

  predicate HasActive(p: Peer) {
    (p.wifi.registered && p.wifi.active) || (p.cellular.registered && p.cellular.active)
  }

  predicate Fresh(l: Liveness, now: nat) { now < l.lastSeenUs || now - l.lastSeenUs < LIVENESS_US }

  function Aged(l: Liveness, now: nat): Liveness {
    if l.registered && l.active && !Fresh(l, now) then l.(active := false) else l
  }

  function AgeLive(p: Peer, now: nat): Peer { p.(wifi := Aged(p.wifi, now), cellular := Aged(p.cellular, now)) }

  /** An expired access whose path is gone is forgotten; otherwise the cleanup is retried later. */
  function AfterDrop(l: Liveness, ret: int): Liveness {
    if l.registered && !l.active && Removed(ret) == 0 then NO_LIVENESS else l
  }

  function DropExpired(p: Peer, calls: Calls): Peer {
    p.(wifi := AfterDrop(p.wifi, calls.dropWifi), cellular := AfterDrop(p.cellular, calls.dropCellular))
  }

  function DropError(l: Liveness, ret: int): int { if l.registered && !l.active then Removed(ret) else 0 }

  // ------------------------------------------------------------------ topology kept beside the peers

  /** The route removals of a topology clear: the first failure. */
  function ClearError(nodes: seq<nat>, local: nat, results: seq<int>): int {
    if nodes == [] then 0
    else
      var k := |nodes| - 1;
      First(ClearError(nodes[..k], local, results), if nodes[k] == local || k >= |results| then 0 else results[k])
  }

  function ClearTopology(t: Table, results: seq<int>): (Table, int) {
    if t.local.role != Sta then (t, EPERM)
    else
      var error := ClearError(t.topology.nodes, t.local.id, results);
      if error != 0 then (t.(topology := Topology(0, 0, t.topology.nodes)), error) else (t.(topology := NO_TOPOLOGY), 0)
  }

  // ------------------------------------------------------------------ runtime operations

  /** register_peer_locked. */
  function Register(t: Table, i: nat, report: Report, calls: Calls): (Table, int)
    requires i < |t.peers|
  {
    var p := t.peers[i];
    if p.online then (t, EALREADY)
    else if p.used && p.report.id != report.id then (t, EINVAL)
    else if t.peerCount >= PEER_MAX then (t, ENOSPC)
    else if p.routePending && p.used && calls.removeRoute != 0 then (t, calls.removeRoute)
    else if p.routePending && !p.used then (t, EINVAL)
    else
      var t1 := SetPeer(t, i, p.(routePending := false));
      var ret := First(calls.registerNode,
                 First(calls.registerTransport,
                 First(if calls.registerPath < 0 then calls.registerPath else 0,
                 First(if calls.registerPath > 0 then calls.setPlan else 0, calls.addRoute))));
      if ret != 0 then (t1, ret)
      else (SetPeer(t1, i, t1.peers[i].(used := true, online := true, report := report, offlineSinceUs := 0))
              .(peerCount := t.peerCount + 1, revision := if t.local.role == Ap then t.revision + 1 else t.revision), 0)
  }

  /** update_peer_locked: the report is replaced once everything else has worked. */
  function Update(t: Table, i: nat, report: Report, calls: Calls): (Table, int)
    requires i < |t.peers|
  {
    var stored := t.peers[i].report;
    var dropped := First(if stored.flags.wifi && !report.flags.wifi then Removed(calls.dropWifi) else 0,
                         if stored.flags.cellular && !report.flags.cellular then Removed(calls.dropCellular) else 0);
    if dropped < 0 then (t, dropped)
    else if calls.registerPath < 0 then (t, calls.registerPath)
    else if calls.registerPath > 0 && calls.ensurePlan != 0 then (t, calls.ensurePlan)
    else (SetPeer(t, i, t.peers[i].(report := report)), 0)
  }

  /** refresh_peer_locked changes nothing here. */
  function RefreshResult(calls: Calls): int {
    if calls.registerPath < 0 then calls.registerPath
    else if calls.registerPath > 0 then calls.ensurePlan
    else 0
  }

  function ResetResult(calls: Calls): int {
    First(Removed(calls.removePlan),
          First(Removed(calls.dropWifi), First(Removed(calls.dropCellular), calls.resetTransport)))
  }

  /** unregister_peer_locked: whatever fails, the peer is offline afterwards. */
  function Unregister(t: Table, i: nat, now: nat, calls: Calls): (Table, int)
    requires i < |t.peers|
  {
    var p := t.peers[i];
    if !p.used then (t, EINVAL)
    else if !p.online then (t, 0)
    else
      var error := First(Removed(calls.removePlan), First(Removed(calls.unregisterTransport),
                   First(Removed(calls.unregisterNode), calls.removeRoute)));
      var t1 := SetPeer(t, i, p.(routePending := calls.removeRoute != 0, online := false, offlineSinceUs := now))
                .(peerCount := if t.peerCount > 0 then t.peerCount - 1 else 0,
                  revision := if t.local.role == Ap then t.revision + 1 else t.revision);
      if t.local.role == Sta then
        var (t2, cleared) := ClearTopology(t1, calls.clearRoutes);
        (t2, First(error, cleared))
      else (t1, error)
  }

  /** Unregistering as every caller does it: an offline peer has no liveness left. */
  function TakeOffline(t: Table, i: nat, now: nat, calls: Calls): (Table, int)
    requires i < |t.peers|
  {
    var (t1, ret) := Unregister(t, i, now, calls);
    if i < |t1.peers| && !t1.peers[i].online then (SetPeer(t1, i, ClearLive(t1.peers[i])), ret) else (t1, ret)
  }

  // ------------------------------------------------------------------ finding a slot

  function FindPeer(peers: seq<Peer>, id: nat, from: nat): (i: nat)
    requires from <= |peers|
    ensures from <= i <= |peers|
    ensures i < |peers| ==> peers[i].used && peers[i].report.id == id
    ensures forall j :: from <= j < i ==> !(peers[j].used && peers[j].report.id == id)
    decreases |peers| - from
  {
    if from == |peers| || (peers[from].used && peers[from].report.id == id) then from else FindPeer(peers, id, from + 1)
  }

  function FirstUnused(peers: seq<Peer>, from: nat): (i: nat)
    requires from <= |peers|
    ensures from <= i <= |peers|
    ensures i < |peers| ==> !peers[i].used
    ensures forall j :: from <= j < i ==> peers[j].used
    decreases |peers| - from
  {
    if from == |peers| || !peers[from].used then from else FirstUnused(peers, from + 1)
  }

  /** A tombstone old enough to be reused. */
  predicate Expired(p: Peer, now: nat) {
    && p.used && !p.online && !p.routePending
    && p.offlineSinceUs != 0 && now >= p.offlineSinceUs && now - p.offlineSinceUs >= TOMBSTONE_US
  }

  function FirstExpired(peers: seq<Peer>, now: nat, from: nat): (i: nat)
    requires from <= |peers|
    ensures from <= i <= |peers|
    ensures i < |peers| ==> Expired(peers[i], now)
    ensures forall j :: from <= j < i ==> !Expired(peers[j], now)
    decreases |peers| - from
  {
    if from == |peers| || Expired(peers[from], now) then from else FirstExpired(peers, now, from + 1)
  }

  function Acquire(peers: seq<Peer>, now: nat): (i: nat)
    ensures i <= |peers|
    ensures i < |peers| ==> !peers[i].used || Expired(peers[i], now)
  {
    var unused := FirstUnused(peers, 0);
    if unused < |peers| then unused else FirstExpired(peers, now, 0)
  }

  // ------------------------------------------------------------------ reports

  datatype Event = New | Refresh | UpdateEvent | Stale | Restart

  /** classify_peer_report on a known peer. */
  function Classify(p: Peer, r: Report): Event {
    if p.previous != 0 && r.session == p.previous then Stale
    else if r.session != p.report.session then (if p.online then Restart else New)
    else if p.closed || r.revision < p.report.revision then Stale
    else if !p.online then New
    else if r.revision == p.report.revision then Refresh
    else UpdateEvent
  }

  /** check_peer_mac: what an AP answers before it looks at the session. */
  function MacCheck(local: Report, known: bool, p: Peer, access: Access, r: Report): int {
    if local.role != Ap then 0
    else if access == Wifi && !MacValid(r.mac) then EINVAL
    else if !known || !p.online || !p.macBound then 0
    else if MacValid(r.mac) then (if p.mac != r.mac then EADDRINUSE else 0)
    else if r.session != p.report.session then EADDRINUSE
    else 0
  }

  function BindMac(p: Peer, mac: Mac): Peer { if MacValid(mac) then p.(mac := mac, macBound := true) else p }

  /** A new or returning peer in slot `i`. */
  function NewPeer(t: Table, i: nat, access: Access, r: Report, now: nat, calls: Calls): (Table, int)
    requires i < |t.peers|
  {
    var last := if t.peers[i].used then t.peers[i].report.session else 0;
    var (t1, ret) := Register(t, i, r, calls);
    if ret != 0 || i >= |t1.peers| then (t1, ret)
    else
      var p := t1.peers[i];
      var p1 := p.(previous := if last != 0 && last != r.session then last else p.previous, mac := NO_MAC,
                   macBound := false);
      (SetPeer(t1, i, MarkSeen(ClearLive(BindMac(p1, r.mac).(closed := false)), access, now)), 0)
  }

  function RefreshPeer(t: Table, i: nat, access: Access, r: Report, now: nat, calls: Calls): (Table, int)
    requires i < |t.peers|
  {
    var ret := RefreshResult(calls);
    if ret != 0 then (t, ret) else (SetPeer(t, i, MarkSeen(BindMac(t.peers[i], r.mac), access, now)), 0)
  }

  function UpdatePeer(t: Table, i: nat, access: Access, r: Report, now: nat, calls: Calls): (Table, int)
    requires i < |t.peers|
  {
    var (t1, ret) := Update(t, i, r, calls);
    if ret != 0 || i >= |t1.peers| then (t1, ret)
    else (SetPeer(t1, i, MarkSeen(BindMac(t1.peers[i], r.mac), access, now)), 0)
  }

  /** A newer session of an online peer. */
  function RestartPeer(t: Table, i: nat, access: Access, r: Report, now: nat, calls: Calls): (Table, int)
    requires i < |t.peers|
  {
    var p := t.peers[i].(closed := true);
    var reset := ResetResult(calls);
    if reset != 0 then (SetPeer(t, i, p), reset)
    else
      var p1 := p.(previous := p.report.session, report := r, closed := false);
      var ret := RefreshResult(calls);
      (SetPeer(t, i, MarkSeen(ClearLive(BindMac(p1, r.mac)), access, now)), if ret == EBUSY then 0 else ret)
  }

  predicate ChannelUp(t: Table, a: Access) { if a == Wifi then t.channels.0 else t.channels.1 }

  function KnownPeer(t: Table, i: nat): Peer { if i < |t.peers| then t.peers[i] else FREE_PEER }

  function HandleKnown(t: Table, i: nat, access: Access, r: Report, now: nat, calls: Calls): (Table, int)
    requires i < |t.peers|
  {
    match Classify(t.peers[i], r)
    case New => NewPeer(t, i, access, r, now, calls)
    case Refresh => RefreshPeer(t, i, access, r, now, calls)
    case UpdateEvent => UpdatePeer(t, i, access, r, now, calls)
    case Restart => RestartPeer(t, i, access, r, now, calls)
    case Stale => (t, IGNORED)
  }

  /** handle_peer_report_locked. */
  function HandleReport(t: Table, access: Access, r: Report, now: nat, calls: Calls): (Table, int) {
    if !ChannelUp(t, access) then (t, ENODEV)
    else if !ReportValid(r) || !Related(t.local, r) then (t, EINVAL)
    else
      var i := FindPeer(t.peers, r.id, 0);
      var check := MacCheck(t.local, i < |t.peers|, KnownPeer(t, i), access, r);
      if check != 0 then (t, check)
      else if i == |t.peers| then
        var free := Acquire(t.peers, now);
        if free == |t.peers| then (t, ENOSPC) else NewPeer(SetPeer(t, free, FREE_PEER), free, access, r, now, calls)
      else HandleKnown(t, i, access, r, now, calls)
  }

  // ------------------------------------------------------------------ leaving and aging

  /** A LEAVE that closes the current session of a known peer. */
  predicate Accepted(t: Table, leave: Leave) {
    && leave.session != 0 && leave.revision != 0 && IdValid(leave.id)
    && var i := FindPeer(t.peers, leave.id, 0);
       i < |t.peers| && leave.session == t.peers[i].report.session && leave.revision >= t.peers[i].report.revision
         && !t.peers[i].closed
  }

  /** handle_peer_leave_locked. */
  function HandleLeave(t: Table, leave: Leave, now: nat, calls: Calls): (Table, int) {
    if leave.session == 0 || leave.revision == 0 || !IdValid(leave.id) then (t, EINVAL)
    else if !Accepted(t, leave) then (t, 0)
    else
      var i := FindPeer(t.peers, leave.id, 0);
      var t1 := SetPeer(t, i, t.peers[i].(closed := true));
      if !t1.peers[i].online then (t1, 0) else TakeOffline(t1, i, now, calls)
  }

  function AgeOnline(t: Table, i: nat, now: nat, calls: Calls): (Table, int)
    requires i < |t.peers|
  {
    var p := AgeLive(t.peers[i], now);
    if HasActive(p) then
      (SetPeer(t, i, DropExpired(p, calls)),
       First(DropError(p.wifi, calls.dropWifi), DropError(p.cellular, calls.dropCellular)))
    else TakeOffline(SetPeer(t, i, p), i, now, calls)
  }

  function AgeOffline(t: Table, i: nat, now: nat, calls: Calls): (Table, int)
    requires i < |t.peers|
  {
    if t.peers[i].routePending && calls.removeRoute != 0 then (t, calls.removeRoute)
    else
      var p := t.peers[i].(routePending := false);
      (SetPeer(t, i, if Expired(p, now) then FREE_PEER else p), 0)
  }

  function AgeSlot(t: Table, i: nat, now: nat, calls: Calls): (Table, int)
    requires i < |t.peers|
  {
    if !t.peers[i].used then (t, 0)
    else if t.peers[i].online then AgeOnline(t, i, now, calls)
    else AgeOffline(t, i, now, calls)
  }

  /** The first `k` slots aged, with the first error. */
  function Age(t: Table, now: nat, calls: seq<Calls>, k: nat): (r: (Table, int))
    requires k <= |t.peers| && k <= |calls|
    ensures |r.0.peers| == |t.peers|
  {
    if k == 0 then (t, 0)
    else
      var (t1, e1) := Age(t, now, calls, k - 1);
      var (t2, e2) := AgeSlot(t1, k - 1, now, calls[k - 1]);
      (t2, First(e1, e2))
  }

  /** deactivate_access_locked on one slot. */
  function DeactivateSlot(t: Table, i: nat, access: Access, now: nat, calls: Calls): (Table, int)
    requires i < |t.peers|
  {
    var p := t.peers[i];
    if !p.used then (t, 0)
    else if !p.online then (SetPeer(t, i, SetLive(p, access, NO_LIVENESS)), 0)
    else
      var p1 := SetLive(p, access, LiveOf(p, access).(active := false));
      if HasActive(p1) then
        var ret := Removed(if access == Wifi then calls.dropWifi else calls.dropCellular);
        (SetPeer(t, i, SetLive(p1, access, if ret == 0 then NO_LIVENESS else LiveOf(p1, access).(registered := true))),
         ret)
      else TakeOffline(SetPeer(t, i, p1), i, now, calls)
  }

  function Deactivate(t: Table, access: Access, now: nat, calls: seq<Calls>, k: nat): (r: (Table, int))
    requires k <= |t.peers| && k <= |calls|
    ensures |r.0.peers| == |t.peers|
  {
    if k == 0 then (t, 0)
    else
      var (t1, e1) := Deactivate(t, access, now, calls, k - 1);
      var (t2, e2) := DeactivateSlot(t1, k - 1, access, now, calls[k - 1]);
      (t2, First(e1, e2))
  }
}
