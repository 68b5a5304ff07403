/** What every locked operation on the direct peers keeps, and what it may do to one slot. */
module DiscoveryInvariant {
  import opened DiscoveryTypes
  import opened DiscoveryPeers

  // ------------------------------------------------------------------ the invariant

  function OnlineCount(peers: seq<Peer>): nat {
    if peers == [] then 0 else OnlineCount(peers[..|peers| - 1]) + (if peers[|peers| - 1].online then 1 else 0)
  }

  predicate PeerOk(p: Peer, local: Report) {
    && (!p.used ==> p == FREE_PEER)
    && (p.used ==> ReportValid(p.report) && Related(local, p.report))
    && (p.online ==> p.used && HasActive(p) && !p.routePending)
    && (!p.online ==> p.wifi == NO_LIVENESS && p.cellular == NO_LIVENESS)
    && (p.macBound ==> MacValid(p.mac))
  }

  predicate IdsDistinct(peers: seq<Peer>) {
    forall i, j :: 0 <= i < j < |peers| && peers[i].used && peers[j].used ==> peers[i].report.id != peers[j].report.id
  }

  predicate Sound(t: Table) {
    && |t.peers| == PEER_MAX
    && t.local.role != OtherRole
    && (forall i :: 0 <= i < |t.peers| ==> PeerOk(t.peers[i], t.local))
    && IdsDistinct(t.peers)
    && t.peerCount == OnlineCount(t.peers)
    && (t.local.role == Ap ==> t.revision >= 1)
  }

  // ------------------------------------------------------------------ one slot over one operation

  /** A slot is given up only as an offline record older than 15 s with its route gone. */
  predicate Freed(a: Peer, b: Peer) { a.used && !(b.used && b.report.id == a.report.id) }

  predicate SessionStep(a: Peer, b: Peer) {
    if b.report.session == a.report.session then
      a.report.revision <= b.report.revision && (a.closed ==> b.closed) && b.previous == a.previous
    else b.previous == a.report.session && !b.closed
  }

  /** On an AP the MAC of an online peer is fixed, and a session change has to carry it. */
  predicate MacStep(a: Peer, b: Peer) {
    a.online && a.macBound && b.online ==>
      b.macBound && b.mac == a.mac && (b.report.session != a.report.session ==> b.report.mac == a.mac)
  }

  predicate SlotStep(a: Peer, b: Peer, ap: bool, now: nat) {
    && (Freed(a, b) ==> Expired(a.(routePending := false), now))
    && (a.used && !Freed(a, b) ==> SessionStep(a, b))
    && (ap ==> MacStep(a, b))
    && (a.online && b.online ==> a.report.id == b.report.id)
  }

  /** Which nodes are online, by slot. */
  predicate SameOnline(a: seq<Peer>, b: seq<Peer>) {
    |a| == |b| && forall i :: 0 <= i < |a| ==>
      a[i].online == b[i].online && (a[i].online ==> a[i].report.id == b[i].report.id)
  }

  /** What any operation does to the table as a whole. */
  predicate TableStep(t: Table, t': Table, now: nat) {
    && |t'.peers| == |t.peers| && t'.local == t.local
    && (forall i :: 0 <= i < |t.peers| ==> SlotStep(t.peers[i], t'.peers[i], t.local.role == Ap, now))
    && t.revision <= t'.revision
    && (t.local.role == Ap && t'.revision == t.revision ==> SameOnline(t.peers, t'.peers))
    && (t.local.role == Ap ==> t'.topology == t.topology)
  }

  // ------------------------------------------------------------------ replacing one slot

  lemma {:induction false} OnlineCountUpdate(peers: seq<Peer>, i: nat, p: Peer)
    requires i < |peers|
    ensures OnlineCount(peers[i := p])
            == OnlineCount(peers) - (if peers[i].online then 1 else 0) + (if p.online then 1 else 0)
    ensures peers[i].online ==> OnlineCount(peers) > 0
  {
    var n := |peers| - 1;
    if i == n {
      assert peers[i := p][..n] == peers[..n];
    } else {
      assert peers[i := p][..n] == peers[..n][i := p];
      OnlineCountUpdate(peers[..n], i, p);
    }
  }

  lemma {:induction false} OnlineCountBounded(peers: seq<Peer>)
    ensures OnlineCount(peers) <= |peers|
  {
    if peers != [] {
      OnlineCountBounded(peers[..|peers| - 1]);
    }
  }

  lemma {:induction false} NobodyOnline(peers: seq<Peer>)
    requires forall i :: 0 <= i < |peers| ==> !peers[i].online
    ensures OnlineCount(peers) == 0
  {
    if peers != [] {
      NobodyOnline(peers[..|peers| - 1]);
    }
  }

  /** With a free slot the online count is below the table size: -ENOSPC cannot happen there. */
  lemma RoomForOneMore(peers: seq<Peer>, i: nat)
    requires i < |peers| && !peers[i].online
    ensures OnlineCount(peers) < |peers|
  {
    OnlineCountUpdate(peers, i, peers[i].(online := true));
    OnlineCountBounded(peers[i := peers[i].(online := true)]);
  }

  /** The one way operations change the table: slot `i` becomes `p`. */
  predicate OneSlot(t: Table, t': Table, i: nat, p: Peer) {
    && i < |t.peers| && t'.peers == t.peers[i := p]
    && t'.local == t.local && t'.channels == t.channels
    && t'.peerCount == t.peerCount - (if t.peers[i].online then 1 else 0) + (if p.online then 1 else 0)
    && t.revision <= t'.revision
  }

  lemma OneSlotKeeps(t: Table, t': Table, i: nat, p: Peer, now: nat)
    requires Sound(t) && OneSlot(t, t', i, p) && PeerOk(p, t.local)
    requires p.used ==> forall j :: 0 <= j < |t.peers| && j != i && t.peers[j].used ==>
               t.peers[j].report.id != p.report.id
    requires SlotStep(t.peers[i], p, t.local.role == Ap, now)
    requires t.local.role == Ap ==> t'.topology == t.topology
    requires t.local.role == Ap && t'.revision == t.revision ==>
               t.peers[i].online == p.online && (p.online ==> p.report.id == t.peers[i].report.id)
    ensures Sound(t') && TableStep(t, t', now)
  {
    OnlineCountUpdate(t.peers, i, p);
  }

  // ------------------------------------------------------------------ going offline

  /** Taking slot `i` offline, after `p` was put there. */
  lemma TakeOfflineKeeps(t: Table, i: nat, p: Peer, now: nat, calls: Calls)
    requires Sound(t) && i < |t.peers| && t.peers[i].online && p.used && p.online
    requires p == t.peers[i].(closed := p.closed, wifi := p.wifi, cellular := p.cellular)
    requires t.peers[i].closed ==> p.closed
    ensures var (t', e) := TakeOffline(SetPeer(t, i, p), i, now, calls);
            && Sound(t') && TableStep(t, t', now)
            && t'.peers == t.peers[i := ClearLive(p.(routePending := calls.removeRoute != 0, online := false,
                                                     offlineSinceUs := now))]
  {
    var t0 := SetPeer(t, i, p);
    var (t1, e) := TakeOffline(t0, i, now, calls);
    OnlineCountUpdate(t.peers, i, p);
    var q := ClearLive(p.(routePending := calls.removeRoute != 0, online := false, offlineSinceUs := now));
    assert t1.peers == t.peers[i := q];
    OneSlotKeeps(t, t1, i, q, now);
  }

  // ------------------------------------------------------------------ reports

  lemma FreeSlotStep(t: Table, free: nat, now: nat)
    requires Sound(t) && free < |t.peers| && (!t.peers[free].used || Expired(t.peers[free], now))
    ensures Sound(SetPeer(t, free, FREE_PEER)) && TableStep(t, SetPeer(t, free, FREE_PEER), now)
  {
    OneSlotKeeps(t, SetPeer(t, free, FREE_PEER), free, FREE_PEER, now);
  }

  predicate ReportFits(t: Table, i: nat, r: Report) {
    && i < |t.peers| && ReportValid(r) && Related(t.local, r)
    && (if t.peers[i].used then t.peers[i].report.id == r.id
        else forall j :: 0 <= j < |t.peers| && t.peers[j].used ==> t.peers[j].report.id != r.id)
  }

  /** The peer in slot `i` after a report of an unknown or offline peer was accepted. */
  function Welcomed(p: Peer, access: Access, r: Report, now: nat): Peer {
    var last := if p.used then p.report.session else 0;
    MarkSeen(ClearLive(BindMac(
      p.(used := true, online := true, routePending := false, report := r, offlineSinceUs := 0,
         previous := if last != 0 && last != r.session then last else p.previous, mac := NO_MAC, macBound := false),
      r.mac).(closed := false)), access, now)
  }

  /** Registering either changes nothing but a finished route cleanup, or brings the peer online. */
  lemma NewPeerIs(t: Table, i: nat, access: Access, r: Report, now: nat, calls: Calls)
    requires Sound(t) && ReportFits(t, i, r) && !t.peers[i].online
    ensures var (t', ret) := NewPeer(t, i, access, r, now, calls);
            if ret != 0 then t' == t || t' == SetPeer(t, i, t.peers[i].(routePending := false))
            else t' == SetPeer(t, i, Welcomed(t.peers[i], access, r, now))
                       .(peerCount := t.peerCount + 1,
                         revision := if t.local.role == Ap then t.revision + 1 else t.revision)
  {
  }

  lemma WelcomedOk(p: Peer, local: Report, access: Access, r: Report, now: nat)
    requires PeerOk(p, local) && !p.online && ReportValid(r) && Related(local, r)
    requires p.used ==> p.report.id == r.id && Classify(p, r) == New
    ensures PeerOk(Welcomed(p, access, r, now), local)
    ensures SlotStep(p, Welcomed(p, access, r, now), local.role == Ap, now)
  {
  }

  lemma NewPeerKeeps(t: Table, i: nat, access: Access, r: Report, now: nat, calls: Calls)
    requires Sound(t) && ReportFits(t, i, r) && !t.peers[i].online
    requires t.peers[i].used ==> Classify(t.peers[i], r) == New
    ensures var (t', ret) := NewPeer(t, i, access, r, now, calls); Sound(t') && TableStep(t, t', now)
  {
    NewPeerIs(t, i, access, r, now, calls);
    var (t', ret) := NewPeer(t, i, access, r, now, calls);
    assert PeerOk(t.peers[i], t.local);
    WelcomedOk(t.peers[i], t.local, access, r, now);
    OneSlotKeeps(t, t', i, t'.peers[i], now);
  }

  lemma RefreshKeeps(t: Table, i: nat, access: Access, r: Report, now: nat, calls: Calls)
    requires Sound(t) && ReportFits(t, i, r) && t.peers[i].online && Classify(t.peers[i], r) == Refresh
    requires MacCheck(t.local, true, t.peers[i], access, r) == 0
    ensures var (t', ret) := RefreshPeer(t, i, access, r, now, calls); Sound(t') && TableStep(t, t', now)
  {
    var (t', ret) := RefreshPeer(t, i, access, r, now, calls);
    OneSlotKeeps(t, t', i, t'.peers[i], now);
  }

  lemma UpdatedOk(t: Table, i: nat, access: Access, r: Report, now: nat, calls: Calls)
    requires ReportFits(t, i, r) && PeerOk(t.peers[i], t.local) && t.peers[i].online
    requires Classify(t.peers[i], r) == UpdateEvent
    ensures var p := UpdatePeer(t, i, access, r, now, calls).0.peers[i];
            PeerOk(p, t.local) && p.used && p.online && p.report.id == r.id
  {
  }

  lemma UpdateStep(t: Table, i: nat, access: Access, r: Report, now: nat, calls: Calls)
    requires ReportFits(t, i, r) && PeerOk(t.peers[i], t.local) && t.peers[i].online
    requires Classify(t.peers[i], r) == UpdateEvent
    requires MacCheck(t.local, true, t.peers[i], access, r) == 0 && t.local.role != OtherRole
    ensures SlotStep(t.peers[i], UpdatePeer(t, i, access, r, now, calls).0.peers[i], t.local.role == Ap, now)
  {
  }

  lemma UpdateKeeps(t: Table, i: nat, access: Access, r: Report, now: nat, calls: Calls)
    requires Sound(t) && ReportFits(t, i, r) && t.peers[i].online && Classify(t.peers[i], r) == UpdateEvent
    requires MacCheck(t.local, true, t.peers[i], access, r) == 0
    ensures var (t', ret) := UpdatePeer(t, i, access, r, now, calls); Sound(t') && TableStep(t, t', now)
  {
    var (t', ret) := UpdatePeer(t, i, access, r, now, calls);
    UpdatedOk(t, i, access, r, now, calls);
    UpdateStep(t, i, access, r, now, calls);
    OneSlotKeeps(t, t', i, t'.peers[i], now);
  }

  lemma RestartedOk(t: Table, i: nat, access: Access, r: Report, now: nat, calls: Calls)
    requires ReportFits(t, i, r) && PeerOk(t.peers[i], t.local) && t.peers[i].online
    requires Classify(t.peers[i], r) == Restart
    ensures var p := RestartPeer(t, i, access, r, now, calls).0.peers[i];
            PeerOk(p, t.local) && p.used && p.online && p.report.id == r.id
  {
  }

  lemma RestartStep(t: Table, i: nat, access: Access, r: Report, now: nat, calls: Calls)
    requires ReportFits(t, i, r) && PeerOk(t.peers[i], t.local) && t.peers[i].online
    requires Classify(t.peers[i], r) == Restart
    requires MacCheck(t.local, true, t.peers[i], access, r) == 0 && t.local.role != OtherRole
    ensures SlotStep(t.peers[i], RestartPeer(t, i, access, r, now, calls).0.peers[i], t.local.role == Ap, now)
  {
  }

  lemma RestartKeeps(t: Table, i: nat, access: Access, r: Report, now: nat, calls: Calls)
    requires Sound(t) && ReportFits(t, i, r) && t.peers[i].online && Classify(t.peers[i], r) == Restart
    requires MacCheck(t.local, true, t.peers[i], access, r) == 0
    ensures var (t', ret) := RestartPeer(t, i, access, r, now, calls); Sound(t') && TableStep(t, t', now)
  {
    var (t', ret) := RestartPeer(t, i, access, r, now, calls);
    RestartedOk(t, i, access, r, now, calls);
    RestartStep(t, i, access, r, now, calls);
    OneSlotKeeps(t, t', i, t'.peers[i], now);
  }

  lemma NothingHappened(t: Table, now: nat)
    requires Sound(t)
    ensures TableStep(t, t, now)
  {
  }

  lemma TableStepTwice(a: Table, b: Table, c: Table, now: nat, i: nat)
    requires TableStep(a, b, now) && TableStep(b, c, now) && Sound(a) && Sound(b) && i < |a.peers|
    requires forall j :: 0 <= j < |a.peers| && j != i ==> a.peers[j] == b.peers[j]
    requires b.peers[i] == FREE_PEER && !a.peers[i].online
    requires a.peers[i].used && c.peers[i].used ==> c.peers[i].report.id != a.peers[i].report.id
    ensures TableStep(a, c, now)
  {
  }

  lemma UnknownKeeps(t: Table, free: nat, access: Access, r: Report, now: nat, calls: Calls)
    requires Sound(t) && ReportValid(r) && Related(t.local, r) && FindPeer(t.peers, r.id, 0) == |t.peers|
    requires free < |t.peers| && (!t.peers[free].used || Expired(t.peers[free], now))
    ensures var (t', ret) := NewPeer(SetPeer(t, free, FREE_PEER), free, access, r, now, calls);
            Sound(t') && TableStep(t, t', now)
  {
    FreeSlotStep(t, free, now);
    var t1 := SetPeer(t, free, FREE_PEER);
    NewPeerKeeps(t1, free, access, r, now, calls);
    NewPeerIs(t1, free, access, r, now, calls);
    TableStepTwice(t, t1, NewPeer(t1, free, access, r, now, calls).0, now, free);
  }

  lemma HandleReportKeeps(t: Table, access: Access, r: Report, now: nat, calls: Calls)
    requires Sound(t)
    ensures var (t', ret) := HandleReport(t, access, r, now, calls); Sound(t') && TableStep(t, t', now)
  {
    NothingHappened(t, now);
    var i := FindPeer(t.peers, r.id, 0);
    if ChannelUp(t, access) && ReportValid(r) && Related(t.local, r)
      && MacCheck(t.local, i < |t.peers|, KnownPeer(t, i), access, r) == 0 {
      if i == |t.peers| {
        var free := Acquire(t.peers, now);
        if free < |t.peers| {
          UnknownKeeps(t, free, access, r, now, calls);
        }
      } else {
        match Classify(t.peers[i], r)
        case New => NewPeerKeeps(t, i, access, r, now, calls);
        case Refresh => RefreshKeeps(t, i, access, r, now, calls);
        case UpdateEvent => UpdateKeeps(t, i, access, r, now, calls);
        case Restart => RestartKeeps(t, i, access, r, now, calls);
        case Stale =>
      }
    }
  }
}
