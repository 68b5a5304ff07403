/** Ending a discovery session (cleanup_runtime_locked, stop and start of linkg_discovery.c). */
module DiscoverySession {
  import opened DiscoveryTypes
  import opened DiscoveryPeers
  import opened DiscoveryInvariant
  import opened DiscoveryRuns

  function CleanupSlot(t: Table, i: nat, now: nat, calls: Calls): (Table, int)
    requires i < |t.peers|
  {
    var p := t.peers[i];
    if !p.used then (t, 0)
    else if p.online then Unregister(t, i, now, calls)
    else if !p.routePending then (t, 0)
    else if calls.removeRoute != 0 then (t, calls.removeRoute)
    else (SetPeer(t, i, p.(routePending := false)), 0)
  }

  function CleanupPeers(t: Table, now: nat, calls: seq<Calls>, k: nat): (r: (Table, int))
    requires k <= |t.peers| && k <= |calls|
    ensures |r.0.peers| == |t.peers|
  {
    if k == 0 then (t, 0)
    else
      var (t1, e1) := CleanupPeers(t, now, calls, k - 1);
      var (t2, e2) := CleanupSlot(t1, k - 1, now, calls[k - 1]);
      (t2, First(e1, e2))
  }

  /** cleanup_runtime_locked: everything is released only when nothing failed. */
  function Cleanup(t: Table, now: nat, calls: seq<Calls>, clear: seq<int>): (Table, int)
    requires |calls| == |t.peers|
  {
    var (t1, e1) := CleanupPeers(t, now, calls, |t.peers|);
    var (t2, e2) := if t.local.role == Sta && t1.topology.nodes != [] then ClearTopology(t1, clear) else (t1, 0);
    if First(e1, e2) != 0 then (t2, First(e1, e2))
    else (t2.(peers := seq(|t2.peers|, _ => FREE_PEER), topology := NO_TOPOLOGY, peerCount := 0, revision := 0), 0)
  }

  /** runtime_empty_locked: what a new session requires. */
  predicate RuntimeEmpty(t: Table) {
    && t.peerCount == 0 && t.topology.nodes == []
    && (forall i :: 0 <= i < |t.peers| ==> !t.peers[i].used)
    && !t.channels.0 && !t.channels.1
  }

  // ------------------------------------------------------------------ guarantees

  /** The counter is exact throughout, also between the slots. */
  predicate Counted(t: Table) {
    t.peerCount == OnlineCount(t.peers) && forall i :: 0 <= i < |t.peers| ==> (t.peers[i].online ==> t.peers[i].used)
  }

  /** A route that could not be removed is remembered for the next attempt. */
  predicate Remembered(p: Peer, p': Peer, calls: Calls) {
    p.used && (p.online || p.routePending) && calls.removeRoute != 0 ==>
      p'.used && p'.routePending && p'.report.id == p.report.id
  }

  lemma CleanupSlotKeeps(t: Table, i: nat, now: nat, calls: Calls)
    requires Counted(t) && i < |t.peers|
    ensures var (t', e) := CleanupSlot(t, i, now, calls);
            && Counted(t') && !t'.peers[i].online && t'.peers == t.peers[i := t'.peers[i]]
            && t'.local == t.local && t'.channels == t.channels
            && Remembered(t.peers[i], t'.peers[i], calls)
  {
    OnlineCountUpdate(t.peers, i, t.peers[i].(online := false));
    var (t', e) := CleanupSlot(t, i, now, calls);
    OnlineCountUpdate(t.peers, i, t'.peers[i]);
  }

  lemma {:induction false} CleanupPeersCounted(t: Table, now: nat, calls: seq<Calls>, k: nat)
    requires Counted(t) && k <= |t.peers| && k <= |calls|
    ensures var t' := CleanupPeers(t, now, calls, k).0;
            && Counted(t') && t'.local == t.local && t'.channels == t.channels
            && (forall i :: k <= i < |t.peers| ==> t'.peers[i] == t.peers[i])
  {
    if k > 0 {
      CleanupPeersCounted(t, now, calls, k - 1);
      var t1 := CleanupPeers(t, now, calls, k - 1).0;
      CleanupSlotKeeps(t1, k - 1, now, calls[k - 1]);
      assert CleanupPeers(t, now, calls, k).0 == CleanupSlot(t1, k - 1, now, calls[k - 1]).0;
    }
  }

  predicate CleanedUp(p: Peer, p': Peer, calls: Calls) { !p'.online && Remembered(p, p', calls) }

  lemma {:induction false} CleanupPeersKeeps(t: Table, now: nat, calls: seq<Calls>, k: nat)
    requires Counted(t) && k <= |t.peers| && k <= |calls|
    ensures var t' := CleanupPeers(t, now, calls, k).0;
            forall i :: 0 <= i < k ==> CleanedUp(t.peers[i], t'.peers[i], calls[i])
  {
    if k > 0 {
      CleanupPeersKeeps(t, now, calls, k - 1);
      CleanupPeersCounted(t, now, calls, k - 1);
      CleanupSlotKeeps(CleanupPeers(t, now, calls, k - 1).0, k - 1, now, calls[k - 1]);
    }
  }

  /** Ending a session takes every peer offline whatever fails. Without a failure nothing is
      left; with one, each route that would not go is still on record. */
  lemma CleanupGuarantee(t: Table, now: nat, calls: seq<Calls>, clear: seq<int>)
    requires Counted(t) && |calls| == |t.peers|
    ensures var (t', e) := Cleanup(t, now, calls, clear);
            && t'.peerCount == 0 && |t'.peers| == |t.peers| && t'.channels == t.channels
            && (forall i :: 0 <= i < |t'.peers| ==> !t'.peers[i].online)
            && (e == 0 ==> t'.topology == NO_TOPOLOGY && forall i :: 0 <= i < |t'.peers| ==> t'.peers[i] == FREE_PEER)
            && (e != 0 ==> forall i :: 0 <= i < |t'.peers| ==> Remembered(t.peers[i], t'.peers[i], calls[i]))
  {
    CleanupPeersKeeps(t, now, calls, |t.peers|);
    CleanupPeersCounted(t, now, calls, |t.peers|);
    var t1 := CleanupPeers(t, now, calls, |t.peers|).0;
    forall i | 0 <= i < |t1.peers| ensures !t1.peers[i].online && Remembered(t.peers[i], t1.peers[i], calls[i]) {
      assert CleanedUp(t.peers[i], t1.peers[i], calls[i]);
    }
    NobodyOnline(t1.peers);
  }

  /** A session that ended without error can be started again once its channels are gone. */
  lemma CleanEndAllowsStart(t: Table, now: nat, calls: seq<Calls>, clear: seq<int>)
    requires Counted(t) && |calls| == |t.peers| && Cleanup(t, now, calls, clear).1 == 0
    ensures RuntimeEmpty(Cleanup(t, now, calls, clear).0.(channels := (false, false)))
  {
  }

  predicate Quiet(c: Calls) {
    c.removePlan == 0 && c.unregisterTransport == 0 && c.unregisterNode == 0 && c.removeRoute == 0
      && c.clearRoutes == []
  }

  lemma {:induction false} NoClearError(nodes: seq<nat>, local: nat)
    ensures ClearError(nodes, local, []) == 0
  {
    if nodes != [] {
      NoClearError(nodes[..|nodes| - 1], local);
    }
  }

  lemma {:induction false} QuietCleanup(t: Table, now: nat, calls: seq<Calls>, k: nat)
    requires k <= |t.peers| && k <= |calls| && forall i :: 0 <= i < |calls| ==> Quiet(calls[i])
    ensures CleanupPeers(t, now, calls, k).1 == 0
  {
    if k > 0 {
      QuietCleanup(t, now, calls, k - 1);
      NoClearError(CleanupPeers(t, now, calls, k - 1).0.topology.nodes, CleanupPeers(t, now, calls, k - 1).0.local.id);
    }
  }

  /** Retrying ends the session as soon as no call fails any more. */
  lemma RetrySucceeds(t: Table, now: nat, calls: seq<Calls>, clear: seq<int>, later: nat, calls': seq<Calls>)
    requires |calls| == |calls'| == |t.peers| && forall i :: 0 <= i < |calls'| ==> Quiet(calls'[i])
    ensures |Cleanup(t, now, calls, clear).0.peers| == |t.peers|
    ensures Cleanup(Cleanup(t, now, calls, clear).0, later, calls', []).1 == 0
  {
    var t1 := Cleanup(t, now, calls, clear).0;
    QuietCleanup(t1, later, calls', |t1.peers|);
    var t2 := CleanupPeers(t1, later, calls', |t1.peers|).0;
    NoClearError(t2.topology.nodes, t2.local.id);
    assert CleanupPeers(t1, later, calls', |t1.peers|).1 == 0;
    assert t1.local.role == Sta ==> t2.local.role == Sta by { CleanupKeepsLocal(t1, later, calls', |t1.peers|); }
  }

  lemma {:induction false} CleanupKeepsLocal(t: Table, now: nat, calls: seq<Calls>, k: nat)
    requires k <= |t.peers| && k <= |calls|
    ensures CleanupPeers(t, now, calls, k).0.local == t.local
  {
    if k > 0 {
      CleanupKeepsLocal(t, now, calls, k - 1);
    }
  }

  /** Any run of a session, ended with no call failing, leaves what start asks for once its
      channels are gone: the session can be started again. */
  lemma EndedSessionStartsAgain(local: Report, steps: seq<Step>, now: nat, calls: seq<Calls>)
    requires local.role != OtherRole && Run(Started(local), steps)
    requires |calls| == PEER_MAX && forall i :: 0 <= i < |calls| ==> Quiet(calls[i])
    ensures |Final(Started(local), steps).peers| == PEER_MAX
    ensures var (t, e) := Cleanup(Final(Started(local), steps), now, calls, []);
            e == 0 && RuntimeEmpty(t.(channels := (false, false)))
  {
    StartedSound(local);
    RunKeepsSound(Started(local), steps);
    var t := Final(Started(local), steps);
    assert Counted(t) by {
      forall i | 0 <= i < |t.peers| ensures t.peers[i].online ==> t.peers[i].used {
        assert PeerOk(t.peers[i], t.local);
      }
    }
    QuietCleanup(t, now, calls, |t.peers|);
    var t1 := CleanupPeers(t, now, calls, |t.peers|).0;
    NoClearError(t1.topology.nodes, t1.local.id);
    CleanupKeepsLocal(t, now, calls, |t.peers|);
    CleanEndAllowsStart(t, now, calls, []);
  }
}
