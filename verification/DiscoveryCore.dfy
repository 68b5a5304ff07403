/** g_discovery and the loops over it. Every method runs under the Discovery lock and is
    proved equal to the function the whole-run theorems are about. `calls` holds what the
    other modules answer while the method runs. */
module DiscoveryCore {
  import opened DiscoveryTypes
  import opened DiscoveryPeers
  import opened DiscoveryTopology

  class Discovery {
    var local: Report
    const peers: array<Peer>
    var channels: (bool, bool)
    var topology: Topology
    var revision: nat
    var peerCount: nat

    function Abs(): Table
      reads this, peers
    {
      Table(local, peers[..], channels, topology, revision, peerCount)
    }

    constructor (local: Report)
      ensures fresh(peers)
      ensures Abs()
              == Table(local, seq(PEER_MAX, _ => FREE_PEER), (false, false), NO_TOPOLOGY,
                       if local.role == Ap then 1 else 0, 0)
    {
      this.local := local;
      peers := new Peer[PEER_MAX](_ => FREE_PEER);
      channels, topology, peerCount := (false, false), NO_TOPOLOGY, 0;
      revision := if local.role == Ap then 1 else 0;
      new;
      assert peers[..] == seq(PEER_MAX, _ => FREE_PEER);
    }

    // ---------------------------------------------------------------- scans

    method Find(id: nat) returns (i: nat)
      ensures i == FindPeer(peers[..], id, 0)
    {
      i := 0;
      while i < peers.Length && !(peers[i].used && peers[i].report.id == id)
        invariant i <= peers.Length
        invariant FindPeer(peers[..], id, i) == FindPeer(peers[..], id, 0)
      {
        assert peers[..][i] == peers[i];
        i := i + 1;
      }
      assert i < peers.Length ==> peers[..][i] == peers[i];
    }

    method AcquireSlot(now: nat) returns (i: nat)
      ensures i == Acquire(peers[..], now)
    {
      i := 0;
      while i < peers.Length && peers[i].used
        invariant i <= peers.Length && FirstUnused(peers[..], i) == FirstUnused(peers[..], 0)
      {
        assert peers[..][i] == peers[i];
        i := i + 1;
      }
      assert i < peers.Length ==> peers[..][i] == peers[i];
      if i < peers.Length {
        return;
      }
      i := 0;
      while i < peers.Length
        invariant i <= peers.Length && FirstExpired(peers[..], now, i) == FirstExpired(peers[..], now, 0)
      {
        var p := peers[i];
        assert peers[..][i] == p;
        if !(!p.used || p.online) && !p.routePending && !(p.offlineSinceUs == 0 || now < p.offlineSinceUs)
           && !(now - p.offlineSinceUs < TOMBSTONE_US)
        {
          return;
        }
        i := i + 1;
      }
    }

    // ---------------------------------------------------------------- peers going offline

    method ClearRemoteTopology(results: seq<int>) returns (error: int)
      modifies this`topology
      ensures (Abs(), error) == ClearTopology(old(Abs()), results)
    {
      if local.role != Sta {
        return EPERM;
      }
      topology := Topology(0, 0, topology.nodes);
      error := 0;
      for k := 0 to |topology.nodes|
        invariant error == ClearError(topology.nodes[..k], local.id, results)
      {
        assert topology.nodes[..k + 1][..k] == topology.nodes[..k];
        if topology.nodes[k] == local.id {
          continue;
        }
        var ret := if k < |results| then results[k] else 0;
        if ret != 0 && error == 0 {
          error := ret;
        }
      }
      assert topology.nodes[..|topology.nodes|] == topology.nodes;
      if error == 0 {
        topology := NO_TOPOLOGY;
      }
    }

    method UnregisterPeer(i: nat, now: nat, calls: Calls) returns (error: int)
      requires i < peers.Length
      modifies this`topology, this`revision, this`peerCount, peers
      ensures (Abs(), error) == Unregister(old(Abs()), i, now, calls)
    {
      var p := peers[i];
      assert p == peers[..][i];
      if !p.used {
        return EINVAL;
      }
      if !p.online {
        return 0;
      }
      error := 0;
      if calls.removePlan != 0 && calls.removePlan != ENOENT {
        error := calls.removePlan;
      }
      if calls.unregisterTransport != 0 && calls.unregisterTransport != ENOENT && error == 0 {
        error := calls.unregisterTransport;
      }
      if calls.unregisterNode != 0 && calls.unregisterNode != ENOENT && error == 0 {
        error := calls.unregisterNode;
      }
      if calls.removeRoute != 0 && error == 0 {
        error := calls.removeRoute;
      }
      peers[i] := p.(routePending := calls.removeRoute != 0, online := false, offlineSinceUs := now);
      if peerCount > 0 {
        peerCount := peerCount - 1;
      }
      if local.role == Ap {
        revision := revision + 1;
      } else if local.role == Sta {
        var cleared := ClearRemoteTopology(calls.clearRoutes);
        if cleared != 0 && error == 0 {
          error := cleared;
        }
      }
    }

    method PeerOffline(i: nat, now: nat, calls: Calls) returns (error: int)
      requires i < peers.Length
      modifies this`topology, this`revision, this`peerCount, peers
      ensures (Abs(), error) == TakeOffline(old(Abs()), i, now, calls)
    {
      error := UnregisterPeer(i, now, calls);
      assert peers[i] == Abs().peers[i];
      if !peers[i].online {
        peers[i] := ClearLive(peers[i]);
      }
    }

    // ---------------------------------------------------------------- reports

    method RegisterPeer(i: nat, report: Report, calls: Calls) returns (ret: int)
      requires i < peers.Length
      modifies this`revision, this`peerCount, peers
      ensures (Abs(), ret) == Register(old(Abs()), i, report, calls)
    {
      var p := peers[i];
      assert p == peers[..][i];
      if p.online {
        return EALREADY;
      }
      if p.used && p.report.id != report.id {
        return EINVAL;
      }
      if peerCount >= PEER_MAX {
        return ENOSPC;
      }
      if p.routePending {
        if !p.used {
          return EINVAL;
        }
        if calls.removeRoute != 0 {
          return calls.removeRoute;
        }
        p := p.(routePending := false);
        peers[i] := p;
      }
      assert peers[..] == old(peers[..])[i := p];
      if calls.registerNode != 0 {
        return calls.registerNode;
      }
      if calls.registerTransport != 0 {
        return calls.registerTransport;
      }
      if calls.registerPath < 0 {
        return calls.registerPath;
      }
      if calls.registerPath > 0 && calls.setPlan != 0 {
        return calls.setPlan;
      }
      if calls.addRoute != 0 {
        return calls.addRoute;
      }
      peers[i] := p.(used := true, online := true, routePending := false, report := report, offlineSinceUs := 0);
      peerCount := peerCount + 1;
      if local.role == Ap {
        revision := revision + 1;
      }
      return 0;
    }

    method HandleNew(i: nat, access: Access, report: Report, now: nat, calls: Calls) returns (ret: int)
      requires i < peers.Length
      modifies this`revision, this`peerCount, peers
      ensures (Abs(), ret) == NewPeer(old(Abs()), i, access, report, now, calls)
    {
      assert peers[i] == peers[..][i];
      var last := if peers[i].used then peers[i].report.session else 0;
      ret := RegisterPeer(i, report, calls);
      assert peers[i] == Abs().peers[i];
      if ret != 0 {
        return;
      }
      var p := peers[i];
      if last != 0 && last != report.session {
        p := p.(previous := last);
      }
      p := BindMac(p.(mac := NO_MAC, macBound := false), report.mac);
      peers[i] := MarkSeen(ClearLive(p.(closed := false)), access, now);
    }

    method HandlePeerReport(access: Access, report: Report, now: nat, calls: Calls) returns (ret: int)
      modifies this`revision, this`peerCount, peers
      ensures (Abs(), ret) == HandleReport(old(Abs()), access, report, now, calls)
    {
      if !(if access == Wifi then channels.0 else channels.1) {
        return ENODEV;
      }
      if !ReportValid(report) || !Related(local, report) {
        return EINVAL;
      }
      var i := Find(report.id);
      assert i < peers.Length ==> peers[..][i] == peers[i];
      var check := MacCheck(local, i < peers.Length, if i < peers.Length then peers[i] else FREE_PEER, access, report);
      if check != 0 {
        return check;
      }
      if i == peers.Length {
        i := AcquireSlot(now);
        if i == peers.Length {
          return ENOSPC;
        }
        peers[i] := FREE_PEER;
        ret := HandleNew(i, access, report, now, calls);
        return;
      }
      ret := HandleKnown(i, access, report, now, calls);
    }

    /** update_peer_locked. */
    method UpdateRuntime(i: nat, report: Report, calls: Calls) returns (ret: int)
      requires i < peers.Length
      modifies peers
      ensures (Abs(), ret) == Update(old(Abs()), i, report, calls)
    {
      var p := peers[i];
      assert p == peers[..][i];
      ret := 0;
      if p.report.flags.wifi && !report.flags.wifi {
        ret := Removed(calls.dropWifi);
      }
      if p.report.flags.cellular && !report.flags.cellular && ret == 0 {
        ret := Removed(calls.dropCellular);
      }
      if ret < 0 {
        return;
      }
      if calls.registerPath < 0 {
        return calls.registerPath;
      }
      if calls.registerPath > 0 && calls.ensurePlan != 0 {
        return calls.ensurePlan;
      }
      peers[i] := p.(report := report);
      return 0;
    }

    method HandleKnown(i: nat, access: Access, report: Report, now: nat, calls: Calls) returns (ret: int)
      requires i < peers.Length
      modifies this`revision, this`peerCount, peers
      ensures (Abs(), ret) == DiscoveryPeers.HandleKnown(old(Abs()), i, access, report, now, calls)
    {
      var p := peers[i];
      assert p == peers[..][i];
      match Classify(p, report)
      case New =>
        ret := HandleNew(i, access, report, now, calls);
      case Refresh =>
        ret := RefreshResult(calls);
        if ret == 0 {
          peers[i] := MarkSeen(BindMac(p, report.mac), access, now);
        }
      case UpdateEvent =>
        ret := UpdateRuntime(i, report, calls);
        assert peers[i] == Abs().peers[i];
        if ret == 0 {
          peers[i] := MarkSeen(BindMac(peers[i], report.mac), access, now);
        }
      case Restart =>
        var reset := ResetResult(calls);
        if reset != 0 {
          peers[i] := p.(closed := true);
          return reset;
        }
        p := p.(previous := p.report.session, report := report, closed := false);
        peers[i] := MarkSeen(ClearLive(BindMac(p, report.mac)), access, now);
        ret := RefreshResult(calls);
        if ret == EBUSY {
          ret := 0;
        }
      case Stale =>
        ret := IGNORED;
    }

    method HandlePeerLeave(leave: Leave, now: nat, calls: Calls) returns (ret: int)
      modifies this`topology, this`revision, this`peerCount, peers
      ensures (Abs(), ret) == HandleLeave(old(Abs()), leave, now, calls)
    {
      if leave.session == 0 || leave.revision == 0 || !IdValid(leave.id) {
        return EINVAL;
      }
      var i := Find(leave.id);
      if i == peers.Length {
        return 0;
      }
      var p := peers[i];
      assert p == peers[..][i];
      if leave.session != p.report.session || leave.revision < p.report.revision || p.closed {
        return 0;
      }
      peers[i] := p.(closed := true);
      assert peers[i] == peers[..][i];
      if !p.online {
        return 0;
      }
      ret := PeerOffline(i, now, calls);
    }

    // ---------------------------------------------------------------- aging

    method AgePeer(i: nat, now: nat, calls: Calls) returns (ret: int)
      requires i < peers.Length
      modifies this`topology, this`revision, this`peerCount, peers
      ensures (Abs(), ret) == AgeSlot(old(Abs()), i, now, calls)
    {
      var p := peers[i];
      assert p == peers[..][i];
      if !p.used {
        return 0;
      }
      if p.online {
        p := AgeLive(p, now);
        if HasActive(p) {
          peers[i] := DropExpired(p, calls);
          return First(DropError(p.wifi, calls.dropWifi), DropError(p.cellular, calls.dropCellular));
        }
        peers[i] := p;
        ret := PeerOffline(i, now, calls);
        return;
      }
      if p.routePending {
        if calls.removeRoute != 0 {
          return calls.removeRoute;
        }
        p := p.(routePending := false);
      }
      if !(p.offlineSinceUs == 0 || now < p.offlineSinceUs) && now - p.offlineSinceUs >= TOMBSTONE_US {
        p := FREE_PEER;
      }
      peers[i] := p;
      return 0;
    }

    method AgePeers(now: nat, calls: seq<Calls>) returns (error: int)
      requires |calls| == peers.Length
      modifies this`topology, this`revision, this`peerCount, peers
      ensures (Abs(), error) == Age(old(Abs()), now, calls, peers.Length)
    {
      ghost var t := Abs();
      error := 0;
      for i := 0 to peers.Length
        invariant (Abs(), error) == Age(t, now, calls, i)
      {
        var ret := AgePeer(i, now, calls[i]);
        if ret != 0 && error == 0 {
          error := ret;
        }
      }
    }

    method DeactivatePeer(i: nat, access: Access, now: nat, calls: Calls) returns (ret: int)
      requires i < peers.Length
      modifies this`topology, this`revision, this`peerCount, peers
      ensures (Abs(), ret) == DeactivateSlot(old(Abs()), i, access, now, calls)
    {
      var p := peers[i];
      assert p == peers[..][i];
      if !p.used {
        return 0;
      }
      if !p.online {
        peers[i] := SetLive(p, access, NO_LIVENESS);
        return 0;
      }
      p := SetLive(p, access, LiveOf(p, access).(active := false));
      if HasActive(p) {
        ret := Removed(if access == Wifi then calls.dropWifi else calls.dropCellular);
        if ret == 0 {
          peers[i] := SetLive(p, access, NO_LIVENESS);
        } else {
          peers[i] := SetLive(p, access, LiveOf(p, access).(registered := true));
        }
        return;
      }
      peers[i] := p;
      ret := PeerOffline(i, now, calls);
    }

    method DeactivateAccess(access: Access, now: nat, calls: seq<Calls>) returns (error: int)
      requires |calls| == peers.Length
      modifies this`topology, this`revision, this`peerCount, peers
      ensures (Abs(), error) == Deactivate(old(Abs()), access, now, calls, peers.Length)
    {
      ghost var t := Abs();
      error := 0;
      for i := 0 to peers.Length
        invariant (Abs(), error) == Deactivate(t, access, now, calls, i)
      {
        var ret := DeactivatePeer(i, access, now, calls[i]);
        if ret != 0 && error == 0 {
          error := ret;
        }
      }
    }

    // ---------------------------------------------------------------- topology

    method BuildApSync() returns (built: Built)
      requires peers.Length == PEER_MAX
      ensures built == BuildSync(Abs())
    {
      if local.role != Ap {
        return Refused(EPERM);
      }
      if revision == 0 {
        return Refused(EINVAL);
      }
      OnlineIdsFit(peers[..]);
      var nodes := [];
      for i := 0 to peers.Length
        invariant nodes == OnlineIds(peers[..i]) && |nodes| <= i
      {
        assert peers[..i + 1][..i] == peers[..i];
        if !peers[i].online || peers[i].report.role != Sta {
          continue;
        }
        nodes := nodes + [peers[i].report.id];
      }
      assert peers[..peers.Length] == peers[..];
      return Built(Sync(local, revision, nodes));
    }

    /** build_remote_topology_locked. */
    method BuildRemote(nodes: seq<nat>) returns (remote: seq<nat>)
      ensures remote == Without(nodes, local.id)
    {
      remote := [];
      for k := 0 to |nodes|
        invariant remote == Without(nodes[..k], local.id)
      {
        assert nodes[..k + 1][..k] == nodes[..k];
        if nodes[k] == local.id {
          continue;
        }
        remote := remote + [nodes[k]];
      }
      assert nodes[..|nodes|] == nodes;
    }

    method AddRoutes(nodes: seq<nat>, results: seq<int>) returns (error: int, trace: seq<RouteCall>)
      ensures error == FirstError(results, |nodes|) && trace == Adds(nodes)
    {
      error, trace := 0, [];
      for k := 0 to |nodes|
        invariant error == FirstError(results, k) && trace == Adds(nodes[..k])
      {
        assert nodes[..k + 1][..k] == nodes[..k];
        trace := trace + [AddRoute(nodes[k])];
        var ret := if k < |results| then results[k] else 0;
        if ret != 0 && error == 0 {
          error := ret;
        }
      }
      assert nodes[..|nodes|] == nodes;
    }

    method RemoveObsolete(remote: seq<nat>, results: seq<int>) returns (error: int, trace: seq<RouteCall>)
      ensures var gone := Obsolete(topology.nodes, remote);
              error == FirstError(results, |gone|) && trace == Removals(gone)
    {
      error, trace := 0, [];
      ghost var gone := [];
      for k := 0 to |topology.nodes|
        invariant gone == Obsolete(topology.nodes[..k], remote)
        invariant error == FirstError(results, |gone|) && trace == Removals(gone)
      {
        assert topology.nodes[..k + 1][..k] == topology.nodes[..k];
        if topology.nodes[k] in remote {
          continue;
        }
        var ret := if |trace| < |results| then results[|trace|] else 0;
        RemovalsLength(gone);
        trace := trace + [RemoveRoute(topology.nodes[k])];
        gone := gone + [topology.nodes[k]];
        assert gone[..|gone| - 1] == Obsolete(topology.nodes[..k], remote);
        if ret != 0 && error == 0 {
          error := ret;
        }
      }
      assert topology.nodes[..|topology.nodes|] == topology.nodes;
    }

    method ApplyApTopology(s: Sync, adds: seq<int>, removes: seq<int>) returns (ret: int, trace: seq<RouteCall>)
      modifies this`topology
      ensures (Abs(), ret, trace) == Apply(old(Abs()), s, adds, removes)
    {
      var remote := BuildRemote(s.nodes);
      if |remote| > STA_MAX {
        return EOVERFLOW, [];
      }
      ret, trace := AddRoutes(remote, adds);
      if ret != 0 {
        return;
      }
      var removed;
      ret, removed := RemoveObsolete(remote, removes);
      trace := trace + removed;
      if ret != 0 {
        return;
      }
      topology := Topology(s.ap.session, s.revision, remote);
    }

    /** validate_ap_sync_locked on the node list. */
    method ValidateNodes(s: Sync) returns (error: int)
      ensures error == NodesError(s, |s.nodes|)
    {
      for k := 0 to |s.nodes|
        invariant NodesError(s, k) == 0
      {
        if !IdValid(s.nodes[k]) || s.nodes[k] == s.ap.id {
          NodesErrorStays(s, k + 1, |s.nodes|);
          return EINVAL;
        }
        for j := 0 to k
          invariant forall i :: 0 <= i < j ==> s.nodes[i] != s.nodes[k]
        {
          if s.nodes[j] == s.nodes[k] {
            NodesErrorStays(s, k + 1, |s.nodes|);
            return EEXIST;
          }
        }
      }
      return 0;
    }

    method HandleApSync(access: Access, s: Sync, now: nat, calls: Calls, adds: seq<int>, removes: seq<int>)
      returns (ret: int, trace: seq<RouteCall>)
      modifies this`topology, this`revision, this`peerCount, peers
      ensures (Abs(), ret, trace) == HandleSync(old(Abs()), access, s, now, calls, adds, removes)
    {
      RejectedIffInvalid(local, s);
      if local.role != Sta {
        return EPERM, [];
      }
      if !ReportValid(s.ap) || s.ap.role != Ap || s.ap.id == local.id || s.revision == 0 || |s.nodes| > STA_MAX {
        return EINVAL, [];
      }
      ret := ValidateNodes(s);
      if ret != 0 {
        return ret, [];
      }
      ret := HandlePeerReport(access, s.ap, now, calls);
      if ret != 0 {
        return ret, [];
      }
      var current := ApSessionOnline(s.ap);
      if !current {
        return IGNORED, [];
      }
      if topology.session == s.ap.session && topology.revision != 0 && s.revision <= topology.revision {
        return 0, [];
      }
      ret, trace := ApplyApTopology(s, adds, removes);
    }

    method ApSessionOnline(r: Report) returns (found: bool)
      ensures found == SessionOnline(peers[..], r)
    {
      for i := 0 to peers.Length
        invariant forall j :: 0 <= j < i ==> !(peers[j].used && peers[j].online && peers[j].report.role == Ap
                                               && peers[j].report.id == r.id && peers[j].report.session == r.session)
      {
        var p := peers[i];
        assert p == peers[..][i];
        if p.used && p.online && p.report.role == Ap && p.report.id == r.id && p.report.session == r.session {
          return true;
        }
      }
      return false;
    }
  }

  lemma {:induction false} RemovalsLength(nodes: seq<nat>)
    ensures |Removals(nodes)| == |nodes|
  {
    if nodes != [] {
      RemovalsLength(nodes[..|nodes| - 1]);
    }
  }

  lemma {:induction false} NodesErrorStays(s: Sync, k: nat, n: nat)
    requires k <= n <= |s.nodes| && NodesError(s, k) != 0
    ensures NodesError(s, n) == NodesError(s, k)
  {
    if k < n {
      NodesErrorStays(s, k, n - 1);
    }
  }
}
