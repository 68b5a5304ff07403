/** The AP's topology snapshot and how a STA applies it (discovery_topology.c). */
module DiscoveryTopology {
  import opened DiscoveryTypes
  import opened DiscoveryPeers
  import opened DiscoveryInvariant

  /** A call into the Route module, in the order issued. */
  datatype RouteCall = AddRoute(id: nat) | RemoveRoute(id: nat)

  // ------------------------------------------------------------------ AP side

  /** Ids of the online STAs, in slot order. */
  function OnlineIds(peers: seq<Peer>): seq<nat> {
    if peers == [] then []
    else OnlineIds(peers[..|peers| - 1]) +
         (if peers[|peers| - 1].online && peers[|peers| - 1].report.role == Sta then [peers[|peers| - 1].report.id]
          else [])
  }

  /** build_ap_sync_locked; the model's result is None where the source answers an error. */
  datatype Built = Refused(error: int) | Built(sync: Sync)

  function BuildSync(t: Table): Built {
    if t.local.role != Ap then Refused(EPERM)
    else if t.revision == 0 then Refused(EINVAL)
    else if |OnlineIds(t.peers)| > STA_MAX then Refused(EOVERFLOW)
    else Built(Sync(t.local, t.revision, OnlineIds(t.peers)))
  }

  // ------------------------------------------------------------------ STA side

  function Without(nodes: seq<nat>, self: nat): (r: seq<nat>)
    ensures |r| <= |nodes|
  {
    if nodes == [] then []
    else Without(nodes[..|nodes| - 1], self) + (if nodes[|nodes| - 1] == self then [] else [nodes[|nodes| - 1]])
  }

  lemma {:induction false} WithoutIs(nodes: seq<nat>, self: nat, x: nat)
    ensures x in Without(nodes, self) <==> x in nodes && x != self
  {
    if nodes != [] {
      WithoutIs(nodes[..|nodes| - 1], self, x);
      assert nodes == nodes[..|nodes| - 1] + [nodes[|nodes| - 1]];
    }
  }

  /** The first failure among `n` calls answered by `results`. */
  function FirstError(results: seq<int>, n: nat): int {
    if n == 0 then 0 else First(FirstError(results, n - 1), if n - 1 < |results| then results[n - 1] else 0)
  }

  function Adds(nodes: seq<nat>): seq<RouteCall> {
    if nodes == [] then [] else Adds(nodes[..|nodes| - 1]) + [AddRoute(nodes[|nodes| - 1])]
  }

  /** Old nodes the new list no longer has. */
  function Obsolete(old_: seq<nat>, new_: seq<nat>): seq<nat> {
    if old_ == [] then []
    else Obsolete(old_[..|old_| - 1], new_) + (if old_[|old_| - 1] in new_ then [] else [old_[|old_| - 1]])
  }

  function Removals(nodes: seq<nat>): seq<RouteCall> {
    if nodes == [] then [] else Removals(nodes[..|nodes| - 1]) + [RemoveRoute(nodes[|nodes| - 1])]
  }

  /** apply_ap_topology_locked with the calls it issues: all additions first, removals only
      when every addition worked, the new topology only when every removal worked too. */
  function Apply(t: Table, s: Sync, adds: seq<int>, removes: seq<int>): (Table, int, seq<RouteCall>) {
    var remote := Without(s.nodes, t.local.id);
    var gone := Obsolete(t.topology.nodes, remote);
    if |remote| > STA_MAX then (t, EOVERFLOW, [])
    else if FirstError(adds, |remote|) != 0 then (t, FirstError(adds, |remote|), Adds(remote))
    else if FirstError(removes, |gone|) != 0 then (t, FirstError(removes, |gone|), Adds(remote) + Removals(gone))
    else (t.(topology := Topology(s.ap.session, s.revision, remote)), 0, Adds(remote) + Removals(gone))
  }

  /** ap_session_online_locked. */
  predicate SessionOnline(peers: seq<Peer>, r: Report) {
    exists i :: 0 <= i < |peers| && peers[i].used && peers[i].online && peers[i].report.role == Ap
                && peers[i].report.id == r.id && peers[i].report.session == r.session
  }

  /** handle_ap_sync_locked. */
  function HandleSync(t: Table, access: Access, s: Sync, now: nat, calls: Calls, adds: seq<int>,
                      removes: seq<int>): (Table, int, seq<RouteCall>) {
    if t.local.role != Sta then (t, EPERM, [])
    else if !SyncValid(t.local, s) then (t, SyncError(t.local, s), [])
    else
      var (t1, ret) := HandleReport(t, access, s.ap, now, calls);
      if ret != 0 then (t1, ret, [])
      else if !SessionOnline(t1.peers, s.ap) then (t1, IGNORED, [])
      else if t1.topology.session == s.ap.session && t1.topology.revision != 0
        && s.revision <= t1.topology.revision then (t1, 0, [])
      else Apply(t1, s, adds, removes)
  }

  /** Which error an invalid AP_SYNC gets. */
  function SyncError(local: Report, s: Sync): int {
    if !ReportValid(s.ap) || s.ap.role != Ap || s.ap.id == local.id || s.revision == 0 || |s.nodes| > STA_MAX then
      EINVAL
    else NodesError(s, |s.nodes|)
  }

  predicate Repeated(nodes: seq<nat>, k: nat)
    requires k < |nodes|
  {
    exists j :: 0 <= j < k && nodes[j] == nodes[k]
  }

  function NodesError(s: Sync, k: nat): int
    requires k <= |s.nodes|
  {
    if k == 0 then 0
    else if NodesError(s, k - 1) != 0 then NodesError(s, k - 1)
    else if !IdValid(s.nodes[k - 1]) || s.nodes[k - 1] == s.ap.id then EINVAL
    else if Repeated(s.nodes, k - 1) then EEXIST
    else 0
  }

  lemma {:induction false} NodesErrorIs(s: Sync, k: nat)
    requires k <= |s.nodes|
    ensures NodesError(s, k) == 0 <==>
              (forall i :: 0 <= i < k ==> IdValid(s.nodes[i]) && s.nodes[i] != s.ap.id) &&
              (forall i, j :: 0 <= i < j < k ==> s.nodes[i] != s.nodes[j])
  {
    if k > 0 {
      NodesErrorIs(s, k - 1);
    }
  }

  /** An AP_SYNC is rejected with an error exactly when it is not valid. */
  lemma RejectedIffInvalid(local: Report, s: Sync)
    ensures SyncError(local, s) == 0 <==> SyncValid(local, s)
  {
    if |s.nodes| <= STA_MAX {
      NodesErrorIs(s, |s.nodes|);
    }
  }

  // ------------------------------------------------------------------ routes

  lemma {:induction false} ObsoleteIs(old_: seq<nat>, new_: seq<nat>, x: nat)
    ensures x in Obsolete(old_, new_) <==> x in old_ && x !in new_
  {
    if old_ != [] {
      ObsoleteIs(old_[..|old_| - 1], new_, x);
      assert old_ == old_[..|old_| - 1] + [old_[|old_| - 1]];
    }
  }

  lemma {:induction false} AddsOnlyAdd(nodes: seq<nat>, c: RouteCall)
    ensures c in Adds(nodes) <==> c.AddRoute? && c.id in nodes
  {
    if nodes != [] {
      AddsOnlyAdd(nodes[..|nodes| - 1], c);
      assert nodes == nodes[..|nodes| - 1] + [nodes[|nodes| - 1]];
    }
  }

  lemma {:induction false} RemovalsOnlyRemove(nodes: seq<nat>, c: RouteCall)
    ensures c in Removals(nodes) <==> c.RemoveRoute? && c.id in nodes
  {
    if nodes != [] {
      RemovalsOnlyRemove(nodes[..|nodes| - 1], c);
      assert nodes == nodes[..|nodes| - 1] + [nodes[|nodes| - 1]];
    }
  }

  /** Applying a list only ever removes routes of nodes the old list had and the new one has not. */
  lemma SharedRoutesAreKept(t: Table, s: Sync, adds: seq<int>, removes: seq<int>, id: nat)
    requires RemoveRoute(id) in Apply(t, s, adds, removes).2
    ensures id in t.topology.nodes && (id in s.nodes ==> id == t.local.id)
    ensures FirstError(adds, |Without(s.nodes, t.local.id)|) == 0
  {
    var remote := Without(s.nodes, t.local.id);
    var gone := Obsolete(t.topology.nodes, remote);
    AddsOnlyAdd(remote, RemoveRoute(id));
    RemovalsOnlyRemove(gone, RemoveRoute(id));
    ObsoleteIs(t.topology.nodes, remote, id);
    WithoutIs(s.nodes, t.local.id, id);
  }

  /** A list that was applied is recorded exactly, without the STA itself; every recorded
      node had its route added in the same call. A list that was not leaves the record alone. */
  lemma AppliedListIsRecorded(t: Table, s: Sync, adds: seq<int>, removes: seq<int>, id: nat)
    ensures var (t', ret, trace) := Apply(t, s, adds, removes);
            if ret != 0 then t' == t
            else && t'.topology.session == s.ap.session && t'.topology.revision == s.revision
                 && (id in t'.topology.nodes <==> id in s.nodes && id != t.local.id)
                 && (id in t'.topology.nodes ==> AddRoute(id) in trace)
                 && (id in t.topology.nodes && id !in t'.topology.nodes ==> RemoveRoute(id) in trace)
  {
    var remote := Without(s.nodes, t.local.id);
    var gone := Obsolete(t.topology.nodes, remote);
    WithoutIs(s.nodes, t.local.id, id);
    AddsOnlyAdd(remote, AddRoute(id));
    RemovalsOnlyRemove(gone, RemoveRoute(id));
    ObsoleteIs(t.topology.nodes, remote, id);
  }

  // ------------------------------------------------------------------ the AP's list

  lemma {:induction false} SameOnlineSameIds(a: seq<Peer>, b: seq<Peer>, local: Report)
    requires SameOnline(a, b)
    requires forall i :: 0 <= i < |a| ==> PeerOk(a[i], local) && PeerOk(b[i], local)
    ensures OnlineIds(a) == OnlineIds(b)
  {
    if a != [] {
      SameOnlineSameIds(a[..|a| - 1], b[..|b| - 1], local);
      var n := |a| - 1;
      assert PeerOk(a[n], local) && PeerOk(b[n], local);
    }
  }

  lemma {:induction false} OnlineIdsFit(peers: seq<Peer>)
    ensures |OnlineIds(peers)| <= |peers|
  {
    if peers != [] {
      OnlineIdsFit(peers[..|peers| - 1]);
    }
  }

  lemma {:induction false} OnlineIdsAre(peers: seq<Peer>, id: nat)
    ensures id in OnlineIds(peers) <==>
              exists i :: 0 <= i < |peers| && peers[i].online && peers[i].report.role == Sta && peers[i].report.id == id
  {
    if peers != [] {
      var front := peers[..|peers| - 1];
      OnlineIdsAre(front, id);
      var n := |peers| - 1;
      assert forall i :: 0 <= i < n ==> peers[i] == front[i];
    }
  }

  lemma {:induction false} OnlineIdsDistinct(peers: seq<Peer>)
    requires IdsDistinct(peers) && forall i :: 0 <= i < |peers| && peers[i].online ==> peers[i].used
    ensures var ids := OnlineIds(peers); forall i, j :: 0 <= i < j < |ids| ==> ids[i] != ids[j]
  {
    if peers != [] {
      var front := peers[..|peers| - 1];
      OnlineIdsDistinct(front);
      OnlineIdsAre(front, peers[|peers| - 1].report.id);
    }
  }

  /** What a running AP builds is a valid AP_SYNC for every STA that is not on its list's AP id. */
  lemma BuiltSyncIsValid(t: Table, sta: Report)
    requires Sound(t) && t.local.role == Ap && ReportValid(t.local) && sta.id != t.local.id
    ensures var b := BuildSync(t); b.Built? && SyncValid(sta, b.sync)
  {
    OnlineIdsFit(t.peers);
    OnlineIdsDistinct(t.peers);
    var ids := OnlineIds(t.peers);
    forall k | 0 <= k < |ids| ensures IdValid(ids[k]) && ids[k] != t.local.id {
      OnlineIdsAre(t.peers, ids[k]);
      var i :| 0 <= i < |t.peers| && t.peers[i].online && t.peers[i].report.role == Sta
        && t.peers[i].report.id == ids[k];
      assert PeerOk(t.peers[i], t.local);
    }
  }
}
