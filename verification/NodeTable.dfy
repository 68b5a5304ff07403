/** linkg_node.c over the path slots of linkg_path.c.

    Every method below that needs the Node lock runs with it held. The lock keeps
    other Node operations out, but not the lock-free releases, so a method calls
    Interfere before each atomic access: any number of other threads' releases may
    happen there. */
module NodeTable {
  import opened PathTypes

  const PEER_MAX: nat := 16
  const PATH_MAX: nat := 2
  const ID_MIN: nat := 1
  const ID_MAX: nat := 254
  const LINK_INVALID: nat := 0

  datatype Role = Ap | Sta | NoRole
  datatype Info = Info(id: nat, role: Role)

  /** `usable` is the verdict of the address checks in linkg_network_ops. */
  datatype Endpoint = NoEndpoint | Endpoint(address: nat, port: nat, scope: nat, usable: bool)

  datatype Status = Ok | EInval | ENoEnt | ENoDev | EBusy | ENoSpc | EFault

  datatype Path = Path(state: PathState, count: nat, link: nat, hop: Endpoint)
  datatype Peer = Peer(valid: bool, retiring: bool, info: Info, pathCount: nat, paths: seq<Path>)

  const EMPTY_PATH := Path(Empty, 0, LINK_INVALID, NoEndpoint)
  const FREE_PEER := Peer(false, false, Info(0, NoRole), 0, [EMPTY_PATH, EMPTY_PATH])

  predicate IdValid(id: nat) { ID_MIN <= id <= ID_MAX }
  predicate InfoValid(info: Info) { IdValid(info.id) && info.role != NoRole }
  predicate EndpointValid(e: Endpoint) { e.Endpoint? && e.usable && e.port != 0 }

  predicate RolesMatch(local: Role, peer: Role) {
    (local == Ap && peer == Sta) || (local == Sta && peer == Ap)
  }

  predicate Used(p: Peer) { p.valid || p.retiring }

  // ------------------------------------------------------------------ the table invariant

  function ActivePaths(paths: seq<Path>): nat {
    if paths == [] then 0
    else ActivePaths(paths[..|paths| - 1]) + (if paths[|paths| - 1].state == Active then 1 else 0)
  }

  function ValidPeers(peers: seq<Peer>): nat {
    if peers == [] then 0
    else ValidPeers(peers[..|peers| - 1]) + (if peers[|peers| - 1].valid then 1 else 0)
  }

  predicate AllEmpty(paths: seq<Path>) {
    forall k :: 0 <= k < |paths| ==> paths[k].state == Empty
  }

  predicate PathsOk(paths: seq<Path>) {
    && |paths| == PATH_MAX
    && (forall k :: 0 <= k < |paths| ==>
          if paths[k].state == Empty then paths[k].count == 0 else paths[k].link != LINK_INVALID)
    && (forall j, k :: 0 <= j < k < |paths| && paths[j].state != Empty && paths[k].state != Empty ==>
          paths[j].link != paths[k].link)
  }

  predicate PeerOk(p: Peer, local: Info) {
    && PathsOk(p.paths)
    && !(p.valid && p.retiring)
    && (Used(p) ==> IdValid(p.info.id) && p.info.id != local.id && RolesMatch(local.role, p.info.role))
    && (p.valid ==> p.pathCount == ActivePaths(p.paths))
    && (p.retiring ==> p.pathCount == 0 && ActivePaths(p.paths) == 0 && !AllEmpty(p.paths))
    && (!Used(p) ==> AllEmpty(p.paths))
  }

  predicate IdsDistinct(peers: seq<Peer>) {
    forall i, j :: 0 <= i < j < |peers| && Used(peers[i]) && Used(peers[j]) ==> peers[i].info.id != peers[j].info.id
  }

  predicate TableOk(peers: seq<Peer>, peerCount: int, local: Info) {
    && |peers| == PEER_MAX
    && InfoValid(local)
    && (forall i :: 0 <= i < |peers| ==> PeerOk(peers[i], local))
    && IdsDistinct(peers)
    && peerCount == ValidPeers(peers)
    && (local.role == Sta ==> peerCount <= 1)
  }

  // ------------------------------------------------------------------ interference

  predicate PathInterfered(before: Path, after: Path, ours: nat) {
    && LockFreeChange(before.state, before.count, after.state, after.count)
    && after.link == before.link && after.hop == before.hop
    && (ours <= before.count ==> ours <= after.count)
  }

  predicate PeerInterfered(before: Peer, after: Peer) {
    && after == before.(paths := after.paths)
    && |after.paths| == |before.paths|
  }

  /** `ours` gives the references the calling thread holds on each path. */
  ghost predicate Interfered(before: seq<Peer>, after: seq<Peer>, ours: (nat, nat) -> nat) {
    && |after| == |before|
    && (forall i :: 0 <= i < |before| ==> PeerInterfered(before[i], after[i]))
    && (forall i, k :: 0 <= i < |before| && 0 <= k < |before[i].paths| ==>
          PathInterfered(before[i].paths[k], after[i].paths[k], ours(i, k)))
  }

  lemma {:induction false} ActivePathsSame(a: seq<Path>, b: seq<Path>)
    requires |a| == |b|
    requires forall k :: 0 <= k < |a| ==> (a[k].state == Active <==> b[k].state == Active)
    ensures ActivePaths(a) == ActivePaths(b)
  {
    if a != [] {
      ActivePathsSame(a[..|a| - 1], b[..|a| - 1]);
    }
  }

  lemma {:induction false} ValidPeersSame(a: seq<Peer>, b: seq<Peer>)
    requires |a| == |b|
    requires forall k :: 0 <= k < |a| ==> a[k].valid == b[k].valid
    ensures ValidPeers(a) == ValidPeers(b)
  {
    if a != [] {
      ValidPeersSame(a[..|a| - 1], b[..|a| - 1]);
    }
  }

  lemma {:induction false} ValidPeersUpdate(peers: seq<Peer>, i: nat, p: Peer)
    requires i < |peers|
    ensures ValidPeers(peers[i := p])
            == ValidPeers(peers) - (if peers[i].valid then 1 else 0) + (if p.valid then 1 else 0)
    ensures peers[i].valid ==> ValidPeers(peers) >= 1
  {
    var n := |peers| - 1;
    if i == n {
      assert peers[i := p][..n] == peers[..n];
    } else {
      assert peers[i := p][..n] == peers[..n][i := p];
      ValidPeersUpdate(peers[..n], i, p);
    }
  }

  lemma {:induction false} ActivePathsUpdate(paths: seq<Path>, k: nat, p: Path)
    requires k < |paths|
    ensures ActivePaths(paths[k := p]) ==
            ActivePaths(paths) - (if paths[k].state == Active then 1 else 0) + (if p.state == Active then 1 else 0)
    ensures paths[k].state == Active ==> ActivePaths(paths) >= 1
  {
    var n := |paths| - 1;
    if k == n {
      assert paths[k := p][..n] == paths[..n];
    } else {
      assert paths[k := p][..n] == paths[..n][k := p];
      ActivePathsUpdate(paths[..n], k, p);
    }
  }

  lemma InterferencePeer(before: Peer, after: Peer, local: Info)
    requires PeerOk(before, local) && PeerInterfered(before, after)
    requires forall k :: 0 <= k < |before.paths| ==> PathInterfered(before.paths[k], after.paths[k], 0)
    ensures PeerOk(after, local)
  {
    ActivePathsSame(before.paths, after.paths);
    if before.retiring {
      var k :| 0 <= k < |before.paths| && before.paths[k].state != Empty;
      assert after.paths[k].state != Empty;
    }
    assert PathsOk(after.paths);
  }

  /** Lock-free releases never break the table. */
  lemma InterferenceKeepsTable(before: seq<Peer>, after: seq<Peer>, ours: (nat, nat) -> nat, peerCount: int,
                               local: Info)
    requires TableOk(before, peerCount, local) && Interfered(before, after, ours)
    ensures TableOk(after, peerCount, local)
  {
    forall i | 0 <= i < |after| ensures PeerOk(after[i], local) {
      assert PeerInterfered(before[i], after[i]);
      forall k | 0 <= k < |before[i].paths| ensures PathInterfered(before[i].paths[k], after[i].paths[k], 0) {
        assert PathInterfered(before[i].paths[k], after[i].paths[k], ours(i, k));
      }
      InterferencePeer(before[i], after[i], local);
    }
    forall i | 0 <= i < |before|
      ensures before[i].valid == after[i].valid && Used(before[i]) == Used(after[i]) && before[i].info == after[i].info
    {
      assert PeerInterfered(before[i], after[i]);
    }
    ValidPeersSame(before, after);
  }

  /** Replacing one slot by a sound one keeps the table. */
  lemma ReplacePeer(peers: seq<Peer>, peerCount: int, i: nat, p: Peer, local: Info)
    requires TableOk(peers, peerCount, local) && i < |peers| && PeerOk(p, local)
    requires Used(p) ==> forall j :: 0 <= j < |peers| && j != i && Used(peers[j]) ==> peers[j].info.id != p.info.id
    requires local.role == Sta && p.valid && !peers[i].valid ==> peerCount == 0
    ensures TableOk(peers[i := p], peerCount - (if peers[i].valid then 1 else 0) + (if p.valid then 1 else 0), local)
  {
    ValidPeersUpdate(peers, i, p);
  }

  // ------------------------------------------------------------------ specifications

  ghost predicate Known(peers: seq<Peer>, id: nat) {
    exists i :: 0 <= i < |peers| && Used(peers[i]) && peers[i].info.id == id
  }

  ghost predicate Retiring(peers: seq<Peer>, id: nat) {
    exists i :: 0 <= i < |peers| && peers[i].retiring && peers[i].info.id == id
  }

  ghost predicate Full(peers: seq<Peer>) {
    forall i :: 0 <= i < |peers| ==> Used(peers[i])
  }

  /** Every path counts at least the references the calling thread holds on it. */
  ghost predicate BackedBy(peers: seq<Peer>, ours: (nat, nat) -> nat) {
    forall i, k :: 0 <= i < |peers| && 0 <= k < |peers[i].paths| ==> ours(i, k) <= peers[i].paths[k].count
  }

  lemma InterferenceKeepsBacked(before: seq<Peer>, after: seq<Peer>, ours: (nat, nat) -> nat)
    requires Interfered(before, after, ours) && BackedBy(before, ours)
    ensures BackedBy(after, ours)
  {
    forall i, k | 0 <= i < |after| && 0 <= k < |after[i].paths| ensures ours(i, k) <= after[i].paths[k].count {
      assert PeerInterfered(before[i], after[i]);
      assert PathInterfered(before[i].paths[k], after[i].paths[k], ours(i, k));
    }
  }

  /** One path slot rewritten, together with its peer's active count. */
  function SetPath(peers: seq<Peer>, p: nat, k: nat, path: Path, pathCount: nat): seq<Peer>
    requires p < |peers| && k < |peers[p].paths|
  {
    peers[p := peers[p].(pathCount := pathCount, paths := peers[p].paths[k := path])]
  }

  lemma SetPathTwice(peers: seq<Peer>, p: nat, k: nat, a: Path, n: nat, b: Path, m: nat)
    requires p < |peers| && k < |peers[p].paths|
    ensures SetPath(SetPath(peers, p, k, a, n), p, k, b, m) == SetPath(peers, p, k, b, m)
  {
    assert peers[p].paths[k := a][k := b] == peers[p].paths[k := b];
  }

  /** What register_peer answers: a retiring node id is busy until its slot is
      reclaimed, and a STA takes one AP only. */
  ghost function RegisterPeerStatus(peers: seq<Peer>, peerCount: int, local: Info, info: Info): Status {
    if !InfoValid(info) || info.id == local.id || !RolesMatch(local.role, info.role) then EInval
    else if Retiring(peers, info.id) then EBusy
    else if Known(peers, info.id) then Ok
    else if (local.role == Sta && peerCount != 0) || Full(peers) then ENoSpc
    else Ok
  }

  /** Exactly one slot changed, the peer's own or an unused one: it is valid and carries
      `info`, its paths are untouched. */
  ghost predicate Registered(before: seq<Peer>, after: seq<Peer>, info: Info) {
    exists i :: (&& 0 <= i < |before|
                 && (if Used(before[i]) then before[i].valid && before[i].info.id == info.id
                     else !Known(before, info.id))
                 && after == before[i := Peer(true, false, info, if Used(before[i]) then before[i].pathCount else 0,
                                              before[i].paths)])
  }

  /** All paths but one changed only by interference. */
  ghost predicate OthersInterfered(before: seq<Peer>, after: seq<Peer>, ours: (nat, nat) -> nat, p: nat, q: nat) {
    && |after| == |before|
    && (forall i :: 0 <= i < |before| ==> PeerInterfered(before[i], after[i]))
    && (forall i, k :: 0 <= i < |before| && 0 <= k < |before[i].paths| && (i != p || k != q) ==>
          PathInterfered(before[i].paths[k], after[i].paths[k], ours(i, k)))
  }

  lemma ThenInterfered(a: seq<Peer>, b: seq<Peer>, c: seq<Peer>, ours: (nat, nat) -> nat, later: (nat, nat) -> nat,
                       p: nat, q: nat)
    requires OthersInterfered(a, b, ours, p, q) && Interfered(b, c, later)
    requires forall i, k :: i != p || k != q ==> later(i, k) == ours(i, k)
    ensures OthersInterfered(a, c, ours, p, q)
  {
    forall i | 0 <= i < |a| ensures PeerInterfered(a[i], c[i]) {
      assert PeerInterfered(a[i], b[i]) && PeerInterfered(b[i], c[i]);
    }
    forall i, k | 0 <= i < |a| && 0 <= k < |a[i].paths| && (i != p || k != q)
      ensures PathInterfered(a[i].paths[k], c[i].paths[k], ours(i, k))
    {
      assert PathInterfered(a[i].paths[k], b[i].paths[k], ours(i, k));
      assert PathInterfered(b[i].paths[k], c[i].paths[k], later(i, k));
    }
  }

  predicate Gone(state: PathState) { state == Retired || state == Released }

  function Reclaimed(p: Peer): Peer {
    if p.retiring && AllEmpty(p.paths) then FREE_PEER.(paths := p.paths) else p
  }

  /** The first `k` paths that are ACTIVE, in slot order. */
  function ActiveIndices(paths: seq<Path>, k: nat): (r: seq<nat>)
    requires k <= |paths|
    ensures forall j :: j in r <==> 0 <= j < k && paths[j].state == Active
  {
    if k == 0 then []
    else ActiveIndices(paths, k - 1) + if paths[k - 1].state == Active then [k - 1] else []
  }

  /** Slot `p` of `now` has its first `k` paths retired; everything else was only interfered with. */
  ghost predicate RetiredUpTo(before: seq<Peer>, now: seq<Peer>, p: nat, k: nat) {
    && |now| == |before| && p < |before|
    && (forall i :: 0 <= i < |before| ==> PeerInterfered(before[i], now[i]))
    && (forall i, q :: 0 <= i < |before| && 0 <= q < |before[i].paths| && (i != p || q >= k) ==>
          PathInterfered(before[i].paths[q], now[i].paths[q], 0))
    && (forall q :: 0 <= q < k && q < |before[p].paths| ==> PathRetired(before[p].paths[q], now[p].paths[q]))
  }

  predicate PathRetired(before: Path, after: Path) {
    && after.link == before.link && after.hop == before.hop
    && (if before.state == Empty then after.state == Empty && after.count <= before.count else Gone(after.state))
  }

  lemma RetiredOneMore(before: seq<Peer>, now: seq<Peer>, next: seq<Peer>, ours: (nat, nat) -> nat, p: nat, k: nat)
    requires RetiredUpTo(before, now, p, k) && k < |before[p].paths|
    requires OthersInterfered(now, next, ours, p, k) && PathRetired(now[p].paths[k], next[p].paths[k])
    ensures RetiredUpTo(before, next, p, k + 1)
  {
    forall i | 0 <= i < |before| ensures PeerInterfered(before[i], next[i]) {
      assert PeerInterfered(before[i], now[i]) && PeerInterfered(now[i], next[i]);
    }
    forall i, q | 0 <= i < |before| && 0 <= q < |before[i].paths| && (i != p || q >= k + 1)
      ensures PathInterfered(before[i].paths[q], next[i].paths[q], 0)
    {
      assert PathInterfered(before[i].paths[q], now[i].paths[q], 0);
      assert PathInterfered(now[i].paths[q], next[i].paths[q], ours(i, q));
    }
    forall q | 0 <= q < k + 1 && q < |before[p].paths| ensures PathRetired(before[p].paths[q], next[p].paths[q]) {
      if q < k {
        assert PathRetired(before[p].paths[q], now[p].paths[q]);
        assert PathInterfered(now[p].paths[q], next[p].paths[q], ours(p, q));
      } else {
        assert PathInterfered(before[p].paths[q], now[p].paths[q], 0);
      }
    }
  }

  /** The slot of peer `id` went from valid to retiring, or straight to free when it had
      no path; the paths it retired are exactly those that were ACTIVE. */
  ghost predicate PeerUnregistered(before: seq<Peer>, after: seq<Peer>, p: nat, id: nat, retired: seq<nat>) {
    && |after| == |before| && p < |before| && |before[p].paths| == |after[p].paths| == PATH_MAX
    && before[p].valid && before[p].info.id == id
    && retired == ActiveIndices(before[p].paths, PATH_MAX)
    && (forall q :: 0 <= q < PATH_MAX ==> PathRetired(before[p].paths[q], after[p].paths[q]))
    && after[p] == Reclaimed(Peer(false, true, before[p].info, 0, after[p].paths))
    && (forall i :: 0 <= i < |before| && i != p ==> PeerInterfered(before[i], after[i]))
    && (forall i, q :: 0 <= i < |before| && i != p && 0 <= q < |before[i].paths| ==>
          PathInterfered(before[i].paths[q], after[i].paths[q], 0))
  }

  lemma {:induction false} NoneActive(paths: seq<Path>)
    requires forall q :: 0 <= q < |paths| ==> paths[q].state != Active
    ensures ActivePaths(paths) == 0
  {
    if paths != [] {
      NoneActive(paths[..|paths| - 1]);
    }
  }

  /** Replacing slot `p` in a table whose other slots were only interfered with. */
  lemma ReplaceAmongInterfered(before: seq<Peer>, after: seq<Peer>, peerCount: int, p: nat, local: Info)
    requires TableOk(before, peerCount, local) && |after| == |before| && p < |before|
    requires forall i :: 0 <= i < |before| && i != p ==> PeerInterfered(before[i], after[i])
    requires forall i, q ::
               0 <= i < |before| && i != p && 0 <= q < |before[i].paths| && |after[i].paths| == |before[i].paths| ==>
                 PathInterfered(before[i].paths[q], after[i].paths[q], 0)
    requires PeerOk(after[p], local)
    requires Used(after[p]) ==> Used(before[p]) && after[p].info == before[p].info
    requires after[p].valid ==> before[p].valid
    ensures TableOk(after, peerCount - (if before[p].valid && !after[p].valid then 1 else 0), local)
  {
    var mid := after[p := before[p]];
    assert Interfered(before, mid, (i, k) => 0);
    InterferenceKeepsTable(before, mid, (i, k) => 0, peerCount, local);
    assert after == mid[p := after[p]];
    ReplacePeer(mid, peerCount, p, after[p], local);
  }

  lemma UnregisterKeepsTable(before: seq<Peer>, now: seq<Peer>, after: seq<Peer>, peerCount: int, p: nat, local: Info)
    requires TableOk(before, peerCount, local) && p < |before| && before[p].valid
    requires RetiredUpTo(before[p := before[p].(valid := false, retiring := true)], now, p, PATH_MAX)
    requires after == now[p := Reclaimed(now[p].(pathCount := 0))]
    ensures TableOk(after, peerCount - 1, local)
    ensures PeerUnregistered(before, after, p, before[p].info.id, ActiveIndices(before[p].paths, PATH_MAX))
  {
    var s1 := before[p := before[p].(valid := false, retiring := true)];
    assert PeerOk(before[p], local) && PeerInterfered(s1[p], now[p]);
    forall i | 0 <= i < |before| && i != p ensures PeerInterfered(before[i], after[i]) {
      assert PeerInterfered(s1[i], now[i]);
    }
    forall i, q | 0 <= i < |before| && i != p && 0 <= q < |before[i].paths|
      ensures PathInterfered(before[i].paths[q], after[i].paths[q], 0)
    {
      assert PathInterfered(s1[i].paths[q], now[i].paths[q], 0);
    }
    forall q | 0 <= q < PATH_MAX ensures PathRetired(before[p].paths[q], now[p].paths[q]) {
      assert PathRetired(s1[p].paths[q], now[p].paths[q]);
    }
    NoneActive(now[p].paths);
    ReplaceAmongInterfered(before, after, peerCount, p, local);
  }

  /** An operation on path `k` of a valid peer `p`: the other paths were only interfered
      with, and the active count follows path `k`. */
  ghost predicate OnePathChanged(before: seq<Peer>, after: seq<Peer>, p: nat, k: nat) {
    && |after| == |before| && p < |before| && k < |before[p].paths| && before[p].valid
    && |after[p].paths| == |before[p].paths|
    && after[p] == before[p].(paths := after[p].paths, pathCount := after[p].pathCount)
    && after[p].pathCount == before[p].pathCount - (if before[p].paths[k].state == Active then 1 else 0)
                                                 + (if after[p].paths[k].state == Active then 1 else 0)
    && (forall i :: 0 <= i < |before| && i != p ==> PeerInterfered(before[i], after[i]))
    && (forall i, q :: (i != p || q != k) && 0 <= i < |before| && 0 <= q < |before[i].paths| ==>
          |after[i].paths| == |before[i].paths| ==>
            PathInterfered(before[i].paths[q], after[i].paths[q], 0))
  }

  lemma OnePathKeepsTable(before: seq<Peer>, after: seq<Peer>, peerCount: int, p: nat, k: nat, local: Info)
    requires TableOk(before, peerCount, local) && OnePathChanged(before, after, p, k)
    requires var a := after[p].paths[k];
             if a.state == Empty then a.count == 0
             else
               && a.link != LINK_INVALID
               && forall q :: 0 <= q < |before[p].paths| && q != k && before[p].paths[q].state != Empty ==>
                    before[p].paths[q].link != a.link
    ensures TableOk(after, peerCount, local)
  {
    assert PeerOk(before[p], local);
    var mid := after[p].paths[k := before[p].paths[k]];
    forall q | 0 <= q < |before[p].paths| ensures PathInterfered(before[p].paths[q], mid[q], 0) {
    }
    ActivePathsSame(before[p].paths, mid);
    ActivePathsUpdate(mid, k, after[p].paths[k]);
    assert after[p].paths == mid[k := after[p].paths[k]];
    assert PathsOk(after[p].paths);
    ReplaceAmongInterfered(before, after, peerCount, p, local);
  }

  /** A path with a reference counted in `ours` is not emptied, keeps its link and
      keeps its owner. `ours` can be any references that nobody gives back meanwhile. */
  ghost predicate HoldersKept(before: seq<Peer>, after: seq<Peer>, ours: (nat, nat) -> nat) {
    && |after| == |before|
    && (forall i, k :: 0 <= i < |before| && 0 <= k < |before[i].paths| && ours(i, k) > 0 ==>
          && k < |after[i].paths|
          && after[i].paths[k].state != Empty
          && after[i].paths[k].link == before[i].paths[k].link
          && after[i].info == before[i].info)
  }

  lemma InterferenceKeepsHolders(before: seq<Peer>, after: seq<Peer>, ours: (nat, nat) -> nat, peerCount: int,
                                 local: Info)
    requires TableOk(before, peerCount, local) && BackedBy(before, ours) && Interfered(before, after, ours)
    ensures HoldersKept(before, after, ours)
  {
    forall i, k | 0 <= i < |before| && 0 <= k < |before[i].paths| && ours(i, k) > 0
      ensures k < |after[i].paths| && after[i].paths[k].state != Empty && after[i].info == before[i].info
    {
      assert PeerOk(before[i], local) && PeerInterfered(before[i], after[i]);
      assert PathInterfered(before[i].paths[k], after[i].paths[k], ours(i, k));
    }
  }

  lemma OnePathKeepsHolders(before: seq<Peer>, after: seq<Peer>, p: nat, k: nat, ours: (nat, nat) -> nat,
                            peerCount: int, local: Info)
    requires TableOk(before, peerCount, local) && BackedBy(before, ours) && OnePathChanged(before, after, p, k)
    requires ours(p, k) > 0 ==> after[p].paths[k].state != Empty && after[p].paths[k].link == before[p].paths[k].link
    ensures HoldersKept(before, after, ours)
  {
    forall i, q | 0 <= i < |before| && 0 <= q < |before[i].paths| && ours(i, q) > 0
      ensures q < |after[i].paths| && after[i].paths[q].state != Empty && after[i].info == before[i].info
      ensures after[i].paths[q].link == before[i].paths[q].link
    {
      assert PeerOk(before[i], local);
      if i != p {
        assert PeerInterfered(before[i], after[i]);
      }
      if i != p || q != k {
        assert PathInterfered(before[i].paths[q], after[i].paths[q], 0);
      }
    }
  }

  lemma UnregisterKeepsHolders(before: seq<Peer>, after: seq<Peer>, p: nat, retired: seq<nat>, ours: (nat, nat) -> nat,
                               peerCount: int, local: Info)
    requires TableOk(before, peerCount, local) && BackedBy(before, ours) && p < |before|
    requires PeerUnregistered(before, after, p, before[p].info.id, retired)
    ensures HoldersKept(before, after, ours)
  {
    forall i, q | 0 <= i < |before| && 0 <= q < |before[i].paths| && ours(i, q) > 0
      ensures q < |after[i].paths| && after[i].paths[q].state != Empty && after[i].info == before[i].info
      ensures after[i].paths[q].link == before[i].paths[q].link
    {
      assert PeerOk(before[i], local);
      if i != p {
        assert PeerInterfered(before[i], after[i]);
        assert PathInterfered(before[i].paths[q], after[i].paths[q], 0);
      } else {
        assert PathRetired(before[p].paths[q], after[p].paths[q]);
      }
    }
  }

  /** The address comparison of linkg_node: padding and flow labels do not count. */
  predicate EndpointEqual(a: Endpoint, b: Endpoint) {
    a.Endpoint? && b.Endpoint? && a.address == b.address && a.port == b.port && a.scope == b.scope
  }

  ghost predicate Reachable(peers: seq<Peer>, id: nat) {
    exists i :: 0 <= i < |peers| && peers[i].valid && peers[i].info.id == id
  }

  /** Peer `id` now has an ACTIVE path on `link` towards `hop`. */
  ghost predicate PathRegistered(before: seq<Peer>, after: seq<Peer>, id: nat, link: nat, hop: Endpoint) {
    exists p: nat, k: nat :: (&& OnePathChanged(before, after, p, k)
                    && before[p].info.id == id
                    && after[p].paths[k].state == Active
                    && after[p].paths[k].link == link
                    && EndpointEqual(after[p].paths[k].hop, hop))
  }

  lemma PathNowActive(before: seq<Peer>, mid: seq<Peer>, p: nat, k: nat, path: Path, peerCount: int, local: Info,
                      ours: (nat, nat) -> nat, hop: Endpoint)
    requires TableOk(before, peerCount, local) && Interfered(before, mid, ours) && BackedBy(mid, ours)
    requires p < |before| && k < |before[p].paths| && k < |mid[p].paths| && before[p].valid
    requires path.state == Active && path.link != LINK_INVALID && EndpointEqual(path.hop, hop)
    requires path.count == mid[p].paths[k].count && BackedBy(before, ours)
    requires before[p].paths[k].state != Empty ==> before[p].paths[k].link == path.link
    requires forall q :: 0 <= q < |before[p].paths| && q != k && before[p].paths[q].state != Empty ==>
               before[p].paths[q].link != path.link
    ensures var after := SetPath(mid, p, k, path, mid[p].pathCount + if mid[p].paths[k].state == Active then 0 else 1);
            && TableOk(after, peerCount, local) && BackedBy(after, ours)
            && PathRegistered(before, after, before[p].info.id, path.link, hop)
            && HoldersKept(before, after, ours)
  {
    var after := SetPath(mid, p, k, path, mid[p].pathCount + if mid[p].paths[k].state == Active then 0 else 1);
    assert PeerInterfered(before[p], mid[p]) && PathInterfered(before[p].paths[k], mid[p].paths[k], ours(p, k));
    forall i | 0 <= i < |before| && i != p ensures PeerInterfered(before[i], after[i]) {
      assert PeerInterfered(before[i], mid[i]);
    }
    forall i, q | 0 <= i < |before| && 0 <= q < |before[i].paths| && |after[i].paths| == |before[i].paths|
      && (i != p || q != k)
      ensures PathInterfered(before[i].paths[q], after[i].paths[q], 0)
    {
      assert PathInterfered(before[i].paths[q], mid[i].paths[q], ours(i, q));
    }
    assert OnePathChanged(before, after, p, k);
    OnePathKeepsTable(before, after, peerCount, p, k, local);
    assert PeerOk(before[p], local);
    OnePathKeepsHolders(before, after, p, k, ours, peerCount, local);
  }

  /** What register_path makes of a path that is ACTIVE or free to be activated again. */
  function Replaced(path: Path, link: nat, hop: Endpoint): Path {
    if path.state != Active then Path(Active, 0, link, hop)
    else path.(hop := if EndpointEqual(path.hop, hop) then path.hop else hop)
  }

  function AfterReplace(peers: seq<Peer>, p: nat, k: nat, link: nat, hop: Endpoint): seq<Peer>
    requires p < |peers| && k < |peers[p].paths|
  {
    var path := peers[p].paths[k];
    SetPath(peers, p, k, Replaced(path, link, hop), peers[p].pathCount + if path.state == Active then 0 else 1)
  }

  lemma ReplacedNowActive(s0: seq<Peer>, s1: seq<Peer>, p: nat, k: nat, link: nat, hop: Endpoint, peerCount: int,
                          local: Info, ours: (nat, nat) -> nat)
    requires TableOk(s0, peerCount, local) && BackedBy(s0, ours) && Interfered(s0, s1, ours) && BackedBy(s1, ours)
    requires p < |s0| && k < |s0[p].paths| && s0[p].valid && EndpointValid(hop) && link != LINK_INVALID
    requires s0[p].paths[k].state != Empty && s0[p].paths[k].link == link
    requires k < |s1[p].paths| && s1[p].paths[k].link == link
    requires s1[p].paths[k].state == Active || (s1[p].paths[k].state == Released && s1[p].paths[k].count == 0)
    ensures var after := AfterReplace(s1, p, k, link, hop);
            && TableOk(after, peerCount, local) && BackedBy(after, ours)
            && PathRegistered(s0, after, s0[p].info.id, link, hop) && HoldersKept(s0, after, ours)
            && after[p].valid && after[p].info.id == s0[p].info.id && |after[p].paths| == |s0[p].paths|
            && after[p].paths[k].state == Active && after[p].paths[k].link == link
  {
    assert PeerOk(s0[p], local);
    assert PeerInterfered(s0[p], s1[p]);
    PathNowActive(s0, s1, p, k, Replaced(s1[p].paths[k], link, hop), peerCount, local, ours, hop);
  }

  /** `n` references on path `k` of peer `p` are all that was added; the rest is other threads' releases. */
  ghost predicate OnlyAcquired(before: seq<Peer>, after: seq<Peer>, p: int, k: int, n: nat, ours: (nat, nat) -> nat) {
    && 0 <= p < |after| && 0 <= k < |after[p].paths| && after[p].paths[k].count >= n
    && Interfered(before,
                  SetPath(after, p, k, after[p].paths[k].(count := after[p].paths[k].count - n), after[p].pathCount),
                    ours)
  }

  /** The path of peer `id` on `link` is retired, or released with references left. */
  ghost predicate PathBusy(peers: seq<Peer>, id: nat, link: nat) {
    exists p, k :: (&& 0 <= p < |peers| && 0 <= k < |peers[p].paths| && peers[p].valid && peers[p].info.id == id
                    && peers[p].paths[k].link == link
                    && (peers[p].paths[k].state == Retired
                        || (peers[p].paths[k].state == Released && peers[p].paths[k].count != 0)))
  }

  /** ... released with references left. */
  ghost predicate PathHeld(peers: seq<Peer>, id: nat, link: nat) {
    exists p, k :: (&& 0 <= p < |peers| && 0 <= k < |peers[p].paths| && peers[p].valid && peers[p].info.id == id
                    && peers[p].paths[k].link == link && peers[p].paths[k].state == Released
                    && peers[p].paths[k].count != 0)
  }

  /** Every path slot of peer `id` is in use. */
  ghost predicate PathsFull(peers: seq<Peer>, id: nat) {
    forall p, k :: 0 <= p < |peers| && peers[p].valid && peers[p].info.id == id && 0 <= k < |peers[p].paths| ==>
      peers[p].paths[k].state != Empty
  }

  ghost predicate HasPath(peers: seq<Peer>, id: nat, link: nat) {
    exists p, k :: (&& 0 <= p < |peers| && 0 <= k < |peers[p].paths| && peers[p].valid && peers[p].info.id == id
                    && peers[p].paths[k].link == link && peers[p].paths[k].state != Empty)
  }

  ghost predicate PathActive(peers: seq<Peer>, id: nat, link: nat) {
    exists p, k :: (&& 0 <= p < |peers| && 0 <= k < |peers[p].paths| && peers[p].valid && peers[p].info.id == id
                    && peers[p].paths[k].link == link && peers[p].paths[k].state == Active)
  }

  /** This call retired the ACTIVE path of peer `id` on `link`. */
  ghost predicate PathRetiredByCall(before: seq<Peer>, after: seq<Peer>, p: nat, k: nat, id: nat, link: nat) {
    && OnePathChanged(before, after, p, k)
    && before[p].info.id == id && before[p].paths[k].link == link && before[p].paths[k].state == Active
    && Gone(after[p].paths[k].state) && after[p].paths[k].link == link
  }

  /** The path of peer `id` on `link` was retired or released and is empty now; the rest of the
      table only saw releases. */
  ghost predicate PathReset(before: seq<Peer>, after: seq<Peer>, p: nat, k: nat, id: nat, link: nat,
                            ours: (nat, nat) -> nat) {
    && OthersInterfered(before, after, ours, p, k) && p < |before| && k < |before[p].paths|
    && before[p].valid && before[p].info.id == id && before[p].paths[k].link == link && Gone(before[p].paths[k].state)
    && after[p].paths[k] == EMPTY_PATH
  }

  lemma PathResetIs(before: seq<Peer>, mid: seq<Peer>, p: nat, k: nat, ours: (nat, nat) -> nat)
    requires Interfered(before, mid, ours) && p < |before| && k < |before[p].paths| && before[p].valid
    requires k < |mid[p].paths| && mid[p].paths[k].state == Released
    ensures PathReset(before, SetPath(mid, p, k, EMPTY_PATH, mid[p].pathCount), p, k, before[p].info.id,
                      before[p].paths[k].link, ours)
  {
    assert PeerInterfered(before[p], mid[p]) && PathInterfered(before[p].paths[k], mid[p].paths[k], ours(p, k));
  }

  lemma NoSuchPath(peers: seq<Peer>, p: nat, id: nat, link: nat)
    requires IdsDistinct(peers) && p < |peers| && peers[p].valid && peers[p].info.id == id
    requires forall q :: 0 <= q < |peers[p].paths| && peers[p].paths[q].state != Empty ==>
               peers[p].paths[q].link != link
    ensures !HasPath(peers, id, link)
  {
  }

  lemma OnlyThisPath(peers: seq<Peer>, p: nat, k: nat, id: nat, link: nat)
    requires IdsDistinct(peers) && p < |peers| && k < |peers[p].paths| && PathsOk(peers[p].paths)
    requires peers[p].valid && peers[p].info.id == id && peers[p].paths[k].state != Empty
    requires peers[p].paths[k].link == link
    ensures PathActive(peers, id, link) <==> peers[p].paths[k].state == Active
  {
  }

  lemma BusyIfThisPathIs(peers: seq<Peer>, p: nat, k: nat, id: nat, link: nat)
    requires IdsDistinct(peers) && p < |peers| && k < |peers[p].paths| && PathsOk(peers[p].paths)
    requires peers[p].valid && peers[p].info.id == id && peers[p].paths[k].state != Empty
    requires peers[p].paths[k].link == link
    ensures PathHeld(peers, id, link) <==> peers[p].paths[k].state == Released && peers[p].paths[k].count != 0
    ensures PathBusy(peers, id, link) <==>
              peers[p].paths[k].state == Retired
                || (peers[p].paths[k].state == Released && peers[p].paths[k].count != 0)
  {
  }

  lemma NoneBusy(peers: seq<Peer>, p: nat, id: nat, link: nat)
    requires IdsDistinct(peers) && p < |peers| && peers[p].valid && peers[p].info.id == id
    requires forall q :: 0 <= q < |peers[p].paths| && peers[p].paths[q].link == link ==>
               peers[p].paths[q].state == Empty || peers[p].paths[q].state == Active
    ensures !PathBusy(peers, id, link) && !PathHeld(peers, id, link)
  {
  }

  lemma FullIfThisPeerIs(peers: seq<Peer>, p: nat, id: nat)
    requires IdsDistinct(peers) && p < |peers| && peers[p].valid && peers[p].info.id == id
    ensures PathsFull(peers, id) <==> forall k :: 0 <= k < |peers[p].paths| ==> peers[p].paths[k].state != Empty
  {
  }

  lemma SetPathSame(peers: seq<Peer>, p: nat, k: nat)
    requires p < |peers| && k < |peers[p].paths|
    ensures SetPath(peers, p, k, peers[p].paths[k], peers[p].pathCount) == peers
  {
    assert peers[p].paths[k := peers[p].paths[k]] == peers[p].paths;
  }

  lemma AcquiredIs(before: seq<Peer>, mid: seq<Peer>, after: seq<Peer>, p: nat, k: nat, n: nat, ours: (nat, nat) -> nat)
    requires Interfered(before, mid, ours) && p < |mid| && k < |mid[p].paths|
    requires after == SetPath(mid, p, k, mid[p].paths[k].(count := mid[p].paths[k].count + n), mid[p].pathCount)
    ensures OnlyAcquired(before, after, p, k, n, ours)
  {
    var now := after[p].paths[k];
    SetPathTwice(mid, p, k, now, mid[p].pathCount, now.(count := now.count - n), mid[p].pathCount);
    SetPathSame(mid, p, k);
  }

  lemma OnlyThisPathAfter(before: seq<Peer>, after: seq<Peer>, p: nat, k: nat, id: nat, link: nat)
    requires IdsDistinct(before) && p < |before| && k < |before[p].paths| && PathsOk(before[p].paths)
    requires before[p].valid && before[p].info.id == id && before[p].paths[k].state != Empty
    requires before[p].paths[k].link == link
    requires OnePathChanged(before, after, p, k) && after[p].paths[k].state != Active
    ensures !PathActive(after, id, link)
  {
    forall i | 0 <= i < |after| && i != p ensures !(after[i].valid && after[i].info.id == id) {
      assert PeerInterfered(before[i], after[i]);
    }
    forall q | 0 <= q < |after[p].paths| && q != k
      ensures after[p].paths[q].link != link || after[p].paths[q].state != Active
    {
      assert PathInterfered(before[p].paths[q], after[p].paths[q], 0);
    }
  }

  lemma RetiredFrom(before: seq<Peer>, mid: seq<Peer>, end: seq<Peer>, after: seq<Peer>, ours: (nat, nat) -> nat,
                    p: nat, k: nat)
    requires Interfered(before, mid, ours) && OthersInterfered(mid, end, ours, p, k)
    requires p < |before| && k < |before[p].paths| && before[p].valid
    requires mid[p].paths[k].state == Active && end[p].pathCount >= 1
    requires after == SetPath(end, p, k, end[p].paths[k], end[p].pathCount - 1) && end[p].paths[k].state != Active
    ensures OnePathChanged(before, after, p, k)
  {
    assert PeerInterfered(before[p], mid[p]) && PeerInterfered(mid[p], end[p]);
    assert PathInterfered(before[p].paths[k], mid[p].paths[k], ours(p, k));
    forall i | 0 <= i < |before| && i != p ensures PeerInterfered(before[i], after[i]) {
      assert PeerInterfered(before[i], mid[i]) && PeerInterfered(mid[i], end[i]);
    }
    forall i, q | 0 <= i < |before| && 0 <= q < |before[i].paths| && |after[i].paths| == |before[i].paths|
      && (i != p || q != k)
      ensures PathInterfered(before[i].paths[q], after[i].paths[q], 0)
    {
      assert PathInterfered(before[i].paths[q], mid[i].paths[q], ours(i, q));
      assert PathInterfered(mid[i].paths[q], end[i].paths[q], ours(i, q));
    }
  }

  /** Resetting a released, unreferenced path. */
  lemma ReleasedPathEmptied(before: seq<Peer>, p: nat, k: nat, peerCount: int, local: Info, ours: (nat, nat) -> nat)
    requires TableOk(before, peerCount, local) && BackedBy(before, ours) && p < |before| && k < |before[p].paths|
    requires before[p].valid
    requires before[p].paths[k].state == Released && before[p].paths[k].count == 0
    ensures var after := SetPath(before, p, k, EMPTY_PATH, before[p].pathCount);
            && TableOk(after, peerCount, local) && BackedBy(after, ours)
            && !PathActive(after, before[p].info.id, before[p].paths[k].link)
            && !PathHeld(after, before[p].info.id, before[p].paths[k].link)
  {
    var after := SetPath(before, p, k, EMPTY_PATH, before[p].pathCount);
    assert PeerOk(before[p], local);
    assert OnePathChanged(before, after, p, k);
    OnePathKeepsTable(before, after, peerCount, p, k, local);
    OnlyThisPathAfter(before, after, p, k, before[p].info.id, before[p].paths[k].link);
    forall q | 0 <= q < |after[p].paths| && after[p].paths[q].link == before[p].paths[k].link
      ensures after[p].paths[q].state == Empty
    {
      assert q != k ==> after[p].paths[q] == before[p].paths[q];
    }
    NoneBusy(after, p, before[p].info.id, before[p].paths[k].link);
  }

  lemma AcquireKeepsTable(before: seq<Peer>, p: nat, k: nat, n: nat, ours: (nat, nat) -> nat, peerCount: int,
                          local: Info)
    requires TableOk(before, peerCount, local) && BackedBy(before, ours) && p < |before| && k < |before[p].paths|
    requires before[p].valid && before[p].paths[k].state == Active
    ensures var path := before[p].paths[k];
            var after := SetPath(before, p, k, path.(count := path.count + n), before[p].pathCount);
            TableOk(after, peerCount, local) && HoldersKept(before, after, ours)
  {
    var path := before[p].paths[k];
    var after := SetPath(before, p, k, path.(count := path.count + n), before[p].pathCount);
    assert PeerOk(before[p], local);
    assert OnePathChanged(before, after, p, k);
    OnePathKeepsTable(before, after, peerCount, p, k, local);
    OnePathKeepsHolders(before, after, p, k, ours, peerCount, local);
  }

  /** What the release callback makes of the table it sees. */
  function AfterCallback(seen: seq<Peer>, p: nat, k: nat): seq<Peer>
    requires p < |seen| && k < |seen[p].paths|
  {
    var path := seen[p].paths[k];
    if path.state == Released && path.count == 0 then
      seen[p := Reclaimed(seen[p].(paths := seen[p].paths[k := EMPTY_PATH]))]
    else seen
  }

  lemma CallbackKeepsPeer(peer: Peer, k: nat, local: Info)
    requires PeerOk(peer, local) && k < |peer.paths| && peer.paths[k].state == Released && peer.paths[k].count == 0
    ensures var after := Reclaimed(peer.(paths := peer.paths[k := EMPTY_PATH]));
            && PeerOk(after, local) && after.valid == peer.valid
            && (Used(after) ==> Used(peer) && after.info == peer.info)
            && |after.paths| == |peer.paths|
            && (forall q :: 0 <= q < |peer.paths| && q != k ==> after.paths[q] == peer.paths[q])
            && (!AllEmpty(after.paths) ==> after.info == peer.info)
            && after.paths[k] == EMPTY_PATH
  {
    var emptied := peer.(paths := peer.paths[k := EMPTY_PATH]);
    ActivePathsUpdate(peer.paths, k, EMPTY_PATH);
    assert PathsOk(emptied.paths);
    if AllEmpty(emptied.paths) {
      AllEmptyHasNoActive(emptied.paths);
    }
  }

  lemma CallbackKeepsTable(seen: seq<Peer>, p: nat, k: nat, ours: (nat, nat) -> nat, peerCount: int, local: Info)
    requires TableOk(seen, peerCount, local) && BackedBy(seen, ours) && p < |seen| && k < |seen[p].paths|
    ensures var after := AfterCallback(seen, p, k);
            TableOk(after, peerCount, local) && BackedBy(after, ours) && HoldersKept(seen, after, ours)
    ensures seen[p].paths[k].state == Empty ==> seen == seen[p := Reclaimed(seen[p])]
  {
    assert PeerOk(seen[p], local);
    InterferenceKeepsHolders(seen, seen, ours, peerCount, local);
    if seen[p].paths[k].state == Released && seen[p].paths[k].count == 0 {
      CallbackKeepsPeer(seen[p], k, local);
      var after := AfterCallback(seen, p, k);
      assert ours(p, k) == 0;
      ReplacePeer(seen, peerCount, p, after[p], local);
      forall q | 0 <= q < |seen[p].paths| && ours(p, q) > 0
        ensures after[p].paths[q] == seen[p].paths[q] && after[p].info == seen[p].info
        ensures seen[p].paths[q].state != Empty
      {
        assert after[p].paths[q].state != Empty;
      }
    }
  }

  lemma HoldersChain(a: seq<Peer>, b: seq<Peer>, c: seq<Peer>, ours: (nat, nat) -> nat)
    requires HoldersKept(a, b, ours) && HoldersKept(b, c, ours)
    ensures HoldersKept(a, c, ours)
  {
  }

  // ------------------------------------------------------------------ other threads

  /** What other threads do to the table between two steps of this one, given the table they find. */
  type Move = seq<Peer> -> seq<Peer>

  /** Node operations and releases of other threads, while this one holds `ours`: the guarantee
      every operation below is proved to give. */
  ghost predicate MoveOk(m: Move, ours: (nat, nat) -> nat, local: Info) {
    forall t: seq<Peer> {:trigger m(t)} :: TableOk(t, ValidPeers(t), local) && BackedBy(t, ours) ==>
      TableOk(m(t), ValidPeers(m(t)), local) && BackedBy(m(t), ours) && HoldersKept(t, m(t), ours)
  }

  /** Only releases: this thread has the Node lock. */
  ghost predicate ReleasesOk(m: Move, ours: (nat, nat) -> nat, local: Info) {
    forall t: seq<Peer> {:trigger m(t)} :: TableOk(t, ValidPeers(t), local) && BackedBy(t, ours) ==>
      Interfered(t, m(t), ours)
  }

  /** The moves around one release: before each try of the count swap, before the completion
      swap, before the callback has the lock, and before it reads the path. */
  datatype Env = Env(tries: seq<Move>, swap: Move, call: Move, read: Move)

  function Less(ours: (nat, nat) -> nat, p: nat, k: nat): (nat, nat) -> nat {
    (i: nat, j: nat) => if i == p && j == k && ours(i, j) > 0 then ours(i, j) - 1 else ours(i, j)
  }

  ghost predicate EnvOk(e: Env, ours: (nat, nat) -> nat, p: nat, k: nat, local: Info) {
    && (forall n :: 0 <= n < |e.tries| ==> MoveOk(e.tries[n], ours, local))
    && MoveOk(e.swap, Less(ours, p, k), local) && MoveOk(e.call, Less(ours, p, k), local)
    && ReleasesOk(e.read, Less(ours, p, k), local)
  }

  function PathAt(t: seq<Peer>, p: nat, k: nat): Path {
    if p < |t| && k < |t[p].paths| then t[p].paths[k] else EMPTY_PATH
  }

  function PutPath(t: seq<Peer>, p: nat, k: nat, path: Path): seq<Peer> {
    if p < |t| && k < |t[p].paths| then SetPath(t, p, k, path, t[p].pathCount) else t
  }

  function AfterMoves(t: seq<Peer>, moves: seq<Move>): seq<Peer> {
    if moves == [] then t else moves[|moves| - 1](AfterMoves(t, moves[..|moves| - 1]))
  }

  /** complete_release: a RETIRED path becomes RELEASED and the callback runs. */
  function AfterCompletion(t: seq<Peer>, e: Env, p: nat, k: nat): seq<Peer> {
    var s := e.swap(t);
    if PathAt(s, p, k).state != Retired then s
    else
      var seen := e.read(e.call(PutPath(s, p, k, PathAt(s, p, k).(state := Released))));
      if p < |seen| && k < |seen[p].paths| then AfterCallback(seen, p, k) else seen
  }

  function OneLess(path: Path): Path { path.(count := if path.count > 0 then path.count - 1 else 0) }

  lemma OneLessInterferes(t: seq<Peer>, ours: (nat, nat) -> nat, p: nat, k: nat)
    requires BackedBy(t, ours) && p < |t| && k < |t[p].paths| && ours(p, k) > 0
    ensures BackedBy(t, Less(ours, p, k)) && Interfered(t, PutPath(t, p, k, OneLess(t[p].paths[k])), Less(ours, p, k))
  {
  }

  lemma OneLessKeeps(t: seq<Peer>, ours: (nat, nat) -> nat, p: nat, k: nat, peerCount: int, local: Info)
    requires TableOk(t, peerCount, local) && BackedBy(t, ours) && p < |t| && k < |t[p].paths| && ours(p, k) > 0
    ensures var after := PutPath(t, p, k, OneLess(t[p].paths[k]));
            TableOk(after, peerCount, local) && BackedBy(after, Less(ours, p, k))
              && HoldersKept(t, after, Less(ours, p, k))
  {
    var after := PutPath(t, p, k, OneLess(t[p].paths[k]));
    OneLessInterferes(t, ours, p, k);
    InterferenceKeepsTable(t, after, Less(ours, p, k), peerCount, local);
    InterferenceKeepsBacked(t, after, Less(ours, p, k));
    InterferenceKeepsHolders(t, after, Less(ours, p, k), peerCount, local);
  }

  /** linkg_path_release: the count found at the successful swap drops by one, and whoever
      takes it to zero completes the release. */
  function AfterRelease(t: seq<Peer>, e: Env, p: nat, k: nat): seq<Peer> {
    var s := AfterMoves(t, e.tries);
    var dropped := PutPath(s, p, k, OneLess(PathAt(s, p, k)));
    if PathAt(s, p, k).count == 1 then AfterCompletion(dropped, e, p, k) else dropped
  }

  const IDLE := Env([], (t: seq<Peer>) => t, (t: seq<Peer>) => t, (t: seq<Peer>) => t)

  lemma IdleIsOk(ours: (nat, nat) -> nat, p: nat, k: nat, local: Info)
    ensures EnvOk(IDLE, ours, p, k, local)
  {
    forall t: seq<Peer> | TableOk(t, ValidPeers(t), local) && BackedBy(t, Less(ours, p, k))
      ensures Interfered(t, t, Less(ours, p, k)) && HoldersKept(t, t, Less(ours, p, k))
    {
      InterferenceKeepsHolders(t, t, Less(ours, p, k), ValidPeers(t), local);
    }
  }

  /** With nobody else about: one reference less, no other path touched, and a RETIRED path whose
      last one it was is empty. */
  lemma QuietRelease(t: seq<Peer>, ours: (nat, nat) -> nat, p: nat, k: nat, local: Info)
    requires p < |t| && k < |t[p].paths| && t[p].paths[k].count > 0
    ensures EnvOk(IDLE, ours, p, k, local)
    ensures var path, after := t[p].paths[k], AfterRelease(t, IDLE, p, k);
            && |after| == |t|
            && PathAt(after, p, k)
               == (if path.count == 1 && path.state == Retired then EMPTY_PATH else path.(count := path.count - 1))
            && forall i, j :: (i != p || j != k) && 0 <= i < |t| && 0 <= j < |t[i].paths| ==>
                 PathAt(after, i, j) == PathAt(t, i, j)
  {
    IdleIsOk(ours, p, k, local);
  }

  // ------------------------------------------------------------------ stranded slots

  /** A retiring slot with a RELEASED path that nobody references: what is left when the
      notification of the path's release is lost. */
  predicate Stranded(t: seq<Peer>, p: nat, k: nat) {
    && p < |t| && k < |t[p].paths| && !t[p].valid && t[p].retiring
    && t[p].paths[k].state == Released && t[p].paths[k].count == 0
  }

  predicate StillStranded(before: seq<Peer>, after: seq<Peer>, p: nat, k: nat) {
    Stranded(before, p, k) ==> Stranded(after, p, k) && after[p].info == before[p].info
  }

  ghost predicate StrandedKept(before: seq<Peer>, after: seq<Peer>) {
    forall p, k :: StillStranded(before, after, p, k)
  }

  /** Whatever happens to slot `q`, which is not retiring, while the others only see releases. */
  lemma OtherSlotsStranded(before: seq<Peer>, after: seq<Peer>, q: nat)
    requires |after| == |before| && (q < |before| ==> !before[q].retiring)
    requires forall i :: 0 <= i < |before| && i != q ==> PeerInterfered(before[i], after[i])
    requires forall i, k ::
               0 <= i < |before| && i != q && 0 <= k < |before[i].paths| && |after[i].paths| == |before[i].paths| ==>
                 PathInterfered(before[i].paths[k], after[i].paths[k], 0)
    ensures StrandedKept(before, after)
  {
    forall p: nat, k: nat ensures StillStranded(before, after, p, k) {
      if Stranded(before, p, k) {
        assert PeerInterfered(before[p], after[p]) && PathInterfered(before[p].paths[k], after[p].paths[k], 0);
      }
    }
  }

  lemma ReleasesKeepStranded(before: seq<Peer>, after: seq<Peer>, ours: (nat, nat) -> nat)
    requires Interfered(before, after, ours)
    ensures StrandedKept(before, after)
  {
    forall p: nat, k: nat ensures StillStranded(before, after, p, k) {
      if Stranded(before, p, k) {
        assert PeerInterfered(before[p], after[p]) && PathInterfered(before[p].paths[k], after[p].paths[k], ours(p, k));
      }
    }
  }

  lemma ResetKeepsStranded(before: seq<Peer>, after: seq<Peer>, q: nat, j: nat, ours: (nat, nat) -> nat)
    requires OthersInterfered(before, after, ours, q, j) && q < |before| && !before[q].retiring
    ensures StrandedKept(before, after)
  {
    forall i, k | 0 <= i < |before| && i != q && 0 <= k < |before[i].paths| && |after[i].paths| == |before[i].paths|
      ensures PathInterfered(before[i].paths[k], after[i].paths[k], 0)
    {
      assert PathInterfered(before[i].paths[k], after[i].paths[k], ours(i, k));
    }
    OtherSlotsStranded(before, after, q);
  }

  lemma PathChangeKeepsStranded(before: seq<Peer>, after: seq<Peer>, q: nat, j: nat)
    requires OnePathChanged(before, after, q, j) && !before[q].retiring
    ensures StrandedKept(before, after)
  {
    OtherSlotsStranded(before, after, q);
  }

  lemma AcquireKeepsStranded(before: seq<Peer>, after: seq<Peer>, q: nat, j: nat, n: nat, ours: (nat, nat) -> nat)
    requires OnlyAcquired(before, after, q, j, n, ours) && after[q].paths[j].state == Active
    ensures StrandedKept(before, after)
  {
    var mid := SetPath(after, q, j, after[q].paths[j].(count := after[q].paths[j].count - n), after[q].pathCount);
    ReleasesKeepStranded(before, mid, ours);
    forall p: nat, k: nat ensures StillStranded(before, after, p, k) {
      assert StillStranded(before, mid, p, k);
    }
  }

  /** The callback of any path but the stranded one itself. */
  lemma CallbackKeepsStranded(seen: seq<Peer>, q: nat, j: nat, p: nat, k: nat)
    requires q < |seen| && j < |seen[q].paths| && (q != p || j != k)
    ensures StillStranded(seen, AfterCallback(seen, q, j), p, k)
  {
    if Stranded(seen, p, k) && p == q && seen[q].paths[j].state == Released && seen[q].paths[j].count == 0 {
      var emptied := seen[q].paths[j := EMPTY_PATH];
      assert emptied[k] == seen[p].paths[k];
    }
  }

  lemma CallbackKeepsOthers(before: seq<Peer>, seen: seq<Peer>, q: nat, j: nat, ours: (nat, nat) -> nat)
    requires Interfered(before, seen, ours) && q < |seen| && j < |seen[q].paths|
    ensures forall p, k :: p != q || k != j ==> StillStranded(before, AfterCallback(seen, q, j), p, k)
  {
    ReleasesKeepStranded(before, seen, ours);
    forall p: nat, k: nat | p != q || k != j ensures StillStranded(before, AfterCallback(seen, q, j), p, k) {
      assert StillStranded(before, seen, p, k);
      CallbackKeepsStranded(seen, q, j, p, k);
    }
  }

  ghost predicate MoveKeepsStranded(m: Move, p: nat, k: nat) {
    forall t: seq<Peer> {:trigger m(t)} :: StillStranded(t, m(t), p, k)
  }

  lemma {:induction false} MovesKeepStranded(t: seq<Peer>, moves: seq<Move>, p: nat, k: nat)
    requires forall n :: 0 <= n < |moves| ==> MoveKeepsStranded(moves[n], p, k)
    ensures StillStranded(t, AfterMoves(t, moves), p, k)
  {
    if moves != [] {
      var n := |moves| - 1;
      MovesKeepStranded(t, moves[..n], p, k);
      assert MoveKeepsStranded(moves[n], p, k);
    }
  }

  /** A whole release of some path, its callback included. It can only be another path's: the
      swap that gives a reference back finds a count above zero. */
  lemma ReleaseKeepsStranded(t: seq<Peer>, e: Env, q: nat, j: nat, p: nat, k: nat)
    requires forall n :: 0 <= n < |e.tries| ==> MoveKeepsStranded(e.tries[n], p, k)
    requires MoveKeepsStranded(e.swap, p, k) && MoveKeepsStranded(e.call, p, k) && MoveKeepsStranded(e.read, p, k)
    requires PathAt(AfterMoves(t, e.tries), q, j).count > 0
    ensures StillStranded(t, AfterRelease(t, e, q, j), p, k)
  {
    var s := AfterMoves(t, e.tries);
    MovesKeepStranded(t, e.tries, p, k);
    if Stranded(t, p, k) {
      var dropped := PutPath(s, q, j, OneLess(PathAt(s, q, j)));
      assert q != p || j != k;
      assert StillStranded(s, dropped, p, k);
      if PathAt(s, q, j).count == 1 {
        CompletionKeepsStranded(dropped, e, q, j, p, k);
      }
    }
  }

  lemma CompletionKeepsStranded(t: seq<Peer>, e: Env, q: nat, j: nat, p: nat, k: nat)
    requires MoveKeepsStranded(e.swap, p, k) && MoveKeepsStranded(e.call, p, k) && MoveKeepsStranded(e.read, p, k)
    requires q != p || j != k
    ensures StillStranded(t, AfterCompletion(t, e, q, j), p, k)
  {
    var s := e.swap(t);
    if Stranded(t, p, k) && PathAt(s, q, j).state == Retired {
      var swapped := PutPath(s, q, j, PathAt(s, q, j).(state := Released));
      assert StillStranded(s, swapped, p, k);
      var seen := e.read(e.call(swapped));
      assert StillStranded(swapped, seen, p, k);
      if q < |seen| && j < |seen[q].paths| {
        CallbackKeepsStranded(seen, q, j, p, k);
      }
    }
  }

  lemma RegisterKeepsStranded(before: seq<Peer>, after: seq<Peer>, status: Status, id: nat, link: nat, hop: Endpoint,
                              ours: (nat, nat) -> nat, peerCount: int, local: Info)
    requires TableOk(before, peerCount, local)
    requires status != Ok ==> Interfered(before, after, ours)
    requires status == Ok ==> PathRegistered(before, after, id, link, hop)
    ensures StrandedKept(before, after)
  {
    if status != Ok {
      ReleasesKeepStranded(before, after, ours);
    } else {
      var q: nat, j: nat :| OnePathChanged(before, after, q, j);
      assert PeerOk(before[q], local);
      PathChangeKeepsStranded(before, after, q, j);
    }
  }

  lemma UnregisterPathKeepsStranded(before: seq<Peer>, after: seq<Peer>, q: nat, j: nat, retired: bool, id: nat,
                                    link: nat, ours: (nat, nat) -> nat, peerCount: int, local: Info)
    requires TableOk(before, peerCount, local)
    requires retired ==> PathRetiredByCall(before, after, q, j, id, link)
    requires !retired ==> Interfered(before, after, ours) || PathReset(before, after, q, j, id, link, ours)
    ensures StrandedKept(before, after)
  {
    if !retired && Interfered(before, after, ours) {
      ReleasesKeepStranded(before, after, ours);
    } else {
      assert PeerOk(before[q], local);
      if retired {
        PathChangeKeepsStranded(before, after, q, j);
      } else {
        ResetKeepsStranded(before, after, q, j, ours);
      }
    }
  }

  /** While a slot is stranded its node id cannot be registered again, nor can its paths, and the
      slot keeps Node from being taken down. */
  lemma StrandedIsBusy(t: seq<Peer>, p: nat, k: nat, peerCount: int, local: Info, info: Info)
    requires TableOk(t, peerCount, local) && Stranded(t, p, k) && info.id == t[p].info.id
    ensures Used(t[p]) && !Reachable(t, info.id)
    ensures RegisterPeerStatus(t, peerCount, local, info)
            == if InfoValid(info) && RolesMatch(local.role, info.role) then EBusy else EInval
  {
    assert PeerOk(t[p], local);
  }

  /** ... and that is so for ever: after any number of operations, releases and callbacks of
      other paths the slot is still there. */
  lemma {:induction false} StrandedForEver(tables: seq<seq<Peer>>, p: nat, k: nat)
    requires tables != [] && Stranded(tables[0], p, k)
    requires forall n :: 0 <= n < |tables| - 1 ==> StillStranded(tables[n], tables[n + 1], p, k)
    ensures Stranded(tables[|tables| - 1], p, k) && tables[|tables| - 1][p].info == tables[0][p].info
  {
    if |tables| > 1 {
      StrandedForEver(tables[..|tables| - 1], p, k);
      assert StillStranded(tables[|tables| - 2], tables[|tables| - 1], p, k);
    }
  }

  /** One release after the other. */
  function AfterPurge(t: seq<Peer>, p: nat, paths: seq<nat>, envs: seq<Env>): seq<Peer>
    requires |envs| >= |paths|
  {
    if paths == [] then t
    else
      var n := |paths| - 1;
      AfterRelease(AfterPurge(t, p, paths[..n], envs), envs[n], p, paths[n])
  }

  /** One reference less on each of these paths. */
  ghost predicate GivenBack(before: (nat, nat) -> nat, after: (nat, nat) -> nat, p: nat, paths: seq<nat>) {
    forall i, j :: after(i, j) == before(i, j) - if i == p && j in paths then 1 else 0
  }

  /** The moves of every release suit what this thread still holds then. */
  ghost predicate EnvsOk(envs: seq<Env>, ours: (nat, nat) -> nat, p: nat, paths: seq<nat>, local: Info) {
    && |envs| >= |paths|
    && forall n: nat, held: (nat, nat) -> nat :: n < |paths| && GivenBack(ours, held, p, paths[..n]) ==>
         EnvOk(envs[n], held, p, paths[n], local)
  }

  /** One reference more on each of these paths. */
  ghost predicate Taken(before: (nat, nat) -> nat, after: (nat, nat) -> nat, p: nat, paths: seq<nat>) {
    forall i, j :: after(i, j) == before(i, j) + if i == p && j in paths then 1 else 0
  }

  /** The moves after the locked part suit what this thread holds then. */
  ghost predicate RemovalOk(first: Move, envs: seq<Env>, ours: (nat, nat) -> nat, p: nat, paths: seq<nat>,
                            local: Info) {
    |envs| >= |paths| &&
    forall held: (nat, nat) -> nat :: Taken(ours, held, p, paths) ==>
      MoveOk(first, held, local) && EnvsOk(envs, held, p, paths, local)
  }

  /** Fewer references kept is less to keep. */
  lemma HoldersLess(before: seq<Peer>, after: seq<Peer>, ours: (nat, nat) -> nat, p: nat, k: nat)
    requires HoldersKept(before, after, ours)
    ensures HoldersKept(before, after, Less(ours, p, k))
  {
  }

  lemma GivenBackNext(before: (nat, nat) -> nat, mid: (nat, nat) -> nat, after: (nat, nat) -> nat, p: nat,
                      paths: seq<nat>, n: nat)
    requires n < |paths| && paths[n] !in paths[..n] && GivenBack(before, mid, p, paths[..n])
    requires forall i, j :: after(i, j) == mid(i, j) - if i == p && j == paths[n] then 1 else 0
    ensures GivenBack(before, after, p, paths[..n + 1])
  {
    assert paths[..n + 1] == paths[..n] + [paths[n]];
  }

  lemma PurgeNext(t: seq<Peer>, p: nat, paths: seq<nat>, envs: seq<Env>, n: nat)
    requires n < |paths| <= |envs|
    ensures AfterPurge(t, p, paths[..n + 1], envs)
            == AfterRelease(AfterPurge(t, p, paths[..n], envs), envs[n], p, paths[n])
  {
    assert paths[..n + 1][..n] == paths[..n];
  }

  // ------------------------------------------------------------------ the module

  class Node {
    const local: Info
    const peers: array<Peer>
    var peerCount: nat
    ghost var ours: (nat, nat) -> nat

    ghost predicate Backed()
      reads this, peers
    {
      BackedBy(peers[..], ours)
    }

    ghost predicate Valid()
      reads this, peers
    {
      TableOk(peers[..], peerCount, local) && Backed()
    }

    constructor (local: Info)
      requires InfoValid(local)
      ensures Valid() && fresh(peers) && this.local == local && peerCount == 0
    {
      this.local := local;
      peers := new Peer[PEER_MAX](_ => FREE_PEER);
      peerCount := 0;
      ours := (i, k) => 0;
      new;
      NoValidPeers(peers[..]);
    }

    /** Any number of other threads' lock-free releases. */
    method Interfere()
      modifies peers
      ensures Interfered(old(peers[..]), peers[..], ours)
    {
    }

    // ---------------------------------------------------------------- scans

    method FindPeer(id: nat) returns (slot: int)
      ensures -1 <= slot < peers.Length
      ensures slot >= 0 ==> Used(peers[slot]) && peers[slot].info.id == id
      ensures slot < 0 ==> !IdValid(id) || !Known(peers[..], id)
    {
      if !IdValid(id) {
        return -1;
      }
      for i := 0 to peers.Length
        invariant forall j :: 0 <= j < i ==> !(Used(peers[j]) && peers[j].info.id == id)
      {
        if !peers[i].valid && !peers[i].retiring {
          continue;
        }
        if peers[i].info.id == id {
          return i;
        }
      }
      return -1;
    }

    method FindUnusedPeer() returns (slot: int)
      ensures -1 <= slot < peers.Length
      ensures slot >= 0 ==> !Used(peers[slot])
      ensures slot < 0 <==> Full(peers[..])
    {
      for i := 0 to peers.Length
        invariant forall j :: 0 <= j < i ==> Used(peers[j])
      {
        if !peers[i].valid && !peers[i].retiring {
          assert peers[..][i] == peers[i];
          return i;
        }
      }
      return -1;
    }

    method FindPathIndex(p: nat, link: nat) returns (k: int)
      requires p < peers.Length
      ensures -1 <= k < |peers[p].paths|
      ensures k >= 0 ==> peers[p].paths[k].state != Empty && peers[p].paths[k].link == link && link != LINK_INVALID
      ensures k < 0 && link != LINK_INVALID ==>
                forall j :: 0 <= j < |peers[p].paths| && peers[p].paths[j].state != Empty ==>
                  peers[p].paths[j].link != link
    {
      if link == LINK_INVALID {
        return -1;
      }
      for i := 0 to |peers[p].paths|
        invariant forall j :: 0 <= j < i && peers[p].paths[j].state != Empty ==> peers[p].paths[j].link != link
      {
        if peers[p].paths[i].state == Empty {
          continue;
        }
        if peers[p].paths[i].link == link {
          return i;
        }
      }
      return -1;
    }

    method FindUnusedPath(p: nat) returns (k: int)
      requires p < peers.Length
      ensures -1 <= k < |peers[p].paths|
      ensures k >= 0 ==> peers[p].paths[k].state == Empty
      ensures k < 0 <==> forall j :: 0 <= j < |peers[p].paths| ==> peers[p].paths[j].state != Empty
    {
      for i := 0 to |peers[p].paths|
        invariant forall j :: 0 <= j < i ==> peers[p].paths[j].state != Empty
      {
        if peers[p].paths[i].state == Empty {
          return i;
        }
      }
      return -1;
    }

    method PathsEmpty(p: nat) returns (empty: bool)
      requires p < peers.Length
      ensures empty <==> AllEmpty(peers[p].paths)
    {
      for i := 0 to |peers[p].paths|
        invariant forall j :: 0 <= j < i ==> peers[p].paths[j].state == Empty
      {
        if peers[p].paths[i].state != Empty {
          return false;
        }
      }
      return true;
    }

    // ---------------------------------------------------------------- peers

    method RegisterPeer(info: Info) returns (status: Status)
      requires Valid()
      modifies this`peerCount, peers
      ensures Valid()
      ensures status == RegisterPeerStatus(old(peers[..]), old(peerCount), local, info)
      ensures status != Ok ==> peers[..] == old(peers[..]) && peerCount == old(peerCount)
      ensures status == Ok ==> Registered(old(peers[..]), peers[..], info)
      ensures peerCount == old(peerCount) + if status == Ok && !Known(old(peers[..]), info.id) then 1 else 0
      ensures HoldersKept(old(peers[..]), peers[..], ours)
      ensures StrandedKept(old(peers[..]), peers[..])
    {
      if !InfoValid(info) || info.id == local.id || !RolesMatch(local.role, info.role) {
        return EInval;
      }
      var slot := FindPeer(info.id);
      ghost var before := peers[..];
      InterferenceKeepsHolders(before, before, ours, peerCount, local);
      if slot >= 0 {
        assert before[slot].info.id == info.id;
        assert PeerOk(before[slot], local);
        if peers[slot].retiring {
          return EBusy;
        }
        if peers[slot].info.role != info.role {
          assert false;
        }
        ReplacePeer(before, peerCount, slot, before[slot].(info := info), local);
        peers[slot] := peers[slot].(info := info);
        assert peers[..] == before[slot := peers[slot]] == before;
        return Ok;
      }
      if local.role == Sta && peerCount != 0 {
        return ENoSpc;
      }
      slot := FindUnusedPeer();
      if slot < 0 {
        return ENoSpc;
      }
      FillSlot(slot, info);
      return Ok;
    }

    method FillSlot(slot: nat, info: Info)
      requires Valid() && slot < peers.Length && !Used(peers[slot]) && !Known(peers[..], info.id)
      requires InfoValid(info) && info.id != local.id && RolesMatch(local.role, info.role)
      requires local.role == Sta ==> peerCount == 0
      modifies this`peerCount, peers
      ensures Valid() && peerCount == old(peerCount) + 1
      ensures Registered(old(peers[..]), peers[..], info)
      ensures HoldersKept(old(peers[..]), peers[..], ours)
      ensures StrandedKept(old(peers[..]), peers[..])
    {
      ghost var before := peers[..];
      assert PeerOk(before[slot], local);
      AllEmptyHasNoActive(before[slot].paths);
      var peer := Peer(true, false, info, 0, peers[slot].paths);
      ReplacePeer(before, peerCount, slot, peer, local);
      InterferenceKeepsHolders(before, before, ours, peerCount, local);
      peers[slot] := peer;
      assert peers[..] == before[slot := peer];
      OtherSlotsStranded(before, before[slot := peer], slot);
      peerCount := peerCount + 1;
    }

    /** linkg_node_deinit goes through only when no slot is in use any more. */
    method Deinit() returns (status: Status)
      requires Valid()
      ensures status == if forall i :: 0 <= i < peers.Length ==> !Used(peers[i]) then Ok else EBusy
    {
      if peerCount != 0 {
        if forall i :: 0 <= i < |peers[..]| ==> !peers[..][i].valid {
          NoValidPeers(peers[..]);
        }
        return EBusy;
      }
      for index := 0 to peers.Length
        invariant forall i :: 0 <= i < index ==> !Used(peers[i])
      {
        assert PeerOk(peers[..][index], local);
        if peers[..][index].valid {
          SomeValidPeer(peers[..], index);
        }
        var empty := PathsEmpty(index);
        if peers[index].retiring || !empty {
          return EBusy;
        }
      }
      return Ok;
    }

    // ---------------------------------------------------------------- retiring a path

    /** prepare_path_retire: under the Node lock, with a cleanup reference taken first.
        The count check after the swap never sees zero, so the -EFAULT branch is dead. */
    method PrepareRetire(p: nat, k: nat) returns (status: Status, retired: bool)
      requires p < peers.Length && k < |peers[p].paths| && Backed()
      modifies this`ours, peers
      ensures Backed()
      ensures OthersInterfered(old(peers[..]), peers[..], old(ours), p, k)
      ensures forall i, j :: ours(i, j) == old(ours)(i, j) + if retired && i == p && j == k then 1 else 0
      ensures var b, a := old(peers[p].paths[k]), peers[p].paths[k];
              && a.link == b.link && a.hop == b.hop
              && status == (if b.state == Empty then ENoDev else Ok)
              && retired == (b.state == Active)
              && (if b.state == Empty then a.state == Empty && a.count <= b.count else Gone(a.state))
    {
      ghost var s0 := peers[..];
      Interfere();
      assert PathInterfered(s0[p].paths[k], peers[..][p].paths[k], ours(p, k));
      var path := peers[p].paths[k];
      if path.state == Retired || path.state == Released {
        return Ok, false;
      }
      if path.state != Active {
        return ENoDev, false;
      }
      TakeReferences(p, k, 1);
      assert OthersInterfered(s0, peers[..], old(ours), p, k);
      status := SwapRetired(s0, old(ours), p, k);
      return status, true;
    }

    /** The retire itself, under the cleanup reference just taken. */
    method SwapRetired(ghost s0: seq<Peer>, ghost before: (nat, nat) -> nat, p: nat, k: nat) returns (status: Status)
      requires p < peers.Length && k < |peers[p].paths| && Backed() && ours(p, k) > 0
      requires peers[p].paths[k].state == Active
      requires OthersInterfered(s0, peers[..], before, p, k)
      requires forall i, j :: i != p || j != k ==> ours(i, j) == before(i, j)
      modifies peers
      ensures Backed() && status == Ok
      ensures OthersInterfered(s0, peers[..], before, p, k) && k < |peers[p].paths|
      ensures peers[p].paths[k].link == old(peers[p].paths[k].link)
      ensures peers[p].paths[k].hop == old(peers[p].paths[k].hop)
      ensures Gone(peers[p].paths[k].state)
    {
      ghost var s1 := peers[..];
      Interfere();
      ghost var s2 := peers[..];
      ThenInterfered(s0, s1, s2, before, ours, p, k);
      InterferenceKeepsBacked(s1, s2, ours);
      assert PeerInterfered(s1[p], s2[p]) && PathInterfered(s1[p].paths[k], s2[p].paths[k], ours(p, k));
      StorePath(p, k, peers[p].paths[k].(state := Retired), peers[p].pathCount);
      ghost var s3 := peers[..];
      assert OthersInterfered(s0, s3, before, p, k);
      assert BackedBy(s3, ours);
      Interfere();
      ThenInterfered(s0, s3, peers[..], before, ours, p, k);
      InterferenceKeepsBacked(s3, peers[..], ours);
      assert PeerInterfered(s3[p], peers[..][p]) && PathInterfered(s3[p].paths[k], peers[..][p].paths[k], ours(p, k));
      if peers[p].paths[k].count == 0 {
        assert false;
      }
      return Ok;
    }

    /** linkg_path_acquire_batch on an active path. */
    method TakeReferences(p: nat, k: nat, n: nat)
      requires p < peers.Length && k < |peers[p].paths| && peers[p].paths[k].state == Active
      modifies this`ours, peers
      ensures peers[..] == SetPath(old(peers[..]), p, k,
                old(peers[p].paths[k]).(count := old(peers[p].paths[k].count) + n), old(peers[p].pathCount))
      ensures forall i, j :: ours(i, j) == old(ours)(i, j) + if i == p && j == k then n else 0
    {
      var path := peers[p].paths[k];
      StorePath(p, k, path.(count := path.count + n), peers[p].pathCount);
      ghost var was := ours;
      ours := (i: nat, j: nat) => was(i, j) + if i == p && j == k then n else 0;
    }

    method StorePath(p: nat, k: nat, path: Path, pathCount: nat)
      requires p < peers.Length && k < |peers[p].paths|
      modifies peers
      ensures peers[..] == SetPath(old(peers[..]), p, k, path, pathCount)
    {
      peers[p] := peers[p].(pathCount := pathCount, paths := peers[p].paths[k := path]);
    }

    // ---------------------------------------------------------------- reclaiming a slot

    /** A retiring slot becomes free exactly when its last path is empty. */
    method CompletePeerRelease(p: nat)
      requires p < peers.Length
      modifies peers
      ensures peers[..] == old(peers[..])[p := Reclaimed(old(peers[p]))]
    {
      var empty := PathsEmpty(p);
      if !peers[p].retiring || !empty {
        assert peers[..] == old(peers[..])[p := Reclaimed(old(peers[p]))];
        return;
      }
      peers[p] := FREE_PEER.(paths := peers[p].paths);
    }

    /** One turn of the retire loop. */
    method RetireOne(ghost s0: seq<Peer>, p: nat, k: nat) returns (status: Status, retired: bool)
      requires p < |s0| && p < peers.Length && k < |s0[p].paths| && k < |peers[p].paths| && Backed()
      requires RetiredUpTo(s0, peers[..], p, k)
      modifies this`ours, peers
      ensures Backed() && status == Ok && (retired <==> s0[p].paths[k].state == Active)
      ensures RetiredUpTo(s0, peers[..], p, k + 1)
      ensures forall i, j :: ours(i, j) == old(ours)(i, j) + if retired && i == p && j == k then 1 else 0
    {
      ghost var s := peers[..];
      ghost var held := ours;
      assert PathInterfered(s0[p].paths[k], s[p].paths[k], 0);
      if peers[p].paths[k].state == Empty {
        RetiredOneMore(s0, s, s, ours, p, k);
        return Ok, false;
      }
      status, retired := PrepareRetire(p, k);
      RetiredOneMore(s0, s, peers[..], held, p, k);
    }

    /** The retire loop of unregister_peer. */
    method RetirePaths(p: nat) returns (status: Status, retired: seq<nat>)
      requires p < peers.Length && |peers[p].paths| == PATH_MAX && Backed()
      modifies this`ours, peers
      ensures Backed() && status == Ok
      ensures RetiredUpTo(old(peers[..]), peers[..], p, PATH_MAX)
      ensures retired == ActiveIndices(old(peers[p].paths), PATH_MAX)
      ensures forall i, j :: ours(i, j) == old(ours)(i, j) + if i == p && j in retired then 1 else 0
    {
      ghost var s0 := peers[..];
      retired := [];
      status := Ok;
      for k := 0 to PATH_MAX
        invariant Backed() && status == Ok
        invariant RetiredUpTo(s0, peers[..], p, k) && PeerInterfered(s0[p], peers[..][p])
        invariant retired == ActiveIndices(s0[p].paths, k)
        invariant forall i, j :: ours(i, j) == old(ours)(i, j) + if i == p && j in retired then 1 else 0
      {
        var ret, done := RetireOne(s0, p, k);
        if ret != Ok && status == Ok {
          status := ret;
        }
        if done {
          retired := retired + [k];
        }
      }
    }

    method UnregisterPeer(id: nat) returns (status: Status, slot: int, retired: seq<nat>)
      requires Valid()
      modifies this`peerCount, this`ours, peers
      ensures Valid()
      ensures -1 <= slot < peers.Length
      ensures status == (if !IdValid(id) then EInval else if !Known(old(peers[..]), id) then ENoEnt else Ok)
      ensures slot < 0 ==> peers[..] == old(peers[..]) && peerCount == old(peerCount) && retired == []
      ensures slot < 0 && status == Ok ==> Retiring(old(peers[..]), id)
      ensures slot >= 0 ==>
                PeerUnregistered(old(peers[..]), peers[..], slot, id, retired) && peerCount == old(peerCount) - 1
      ensures forall i, j :: ours(i, j) == old(ours)(i, j) + if i == slot && j in retired then 1 else 0
      ensures HoldersKept(old(peers[..]), peers[..], old(ours))
      ensures StrandedKept(old(peers[..]), peers[..])
    {
      ghost var s0 := peers[..];
      InterferenceKeepsHolders(s0, s0, ours, peerCount, local);
      if !IdValid(id) {
        return EInval, -1, [];
      }
      var p := FindPeer(id);
      if p < 0 {
        return ENoEnt, -1, [];
      }
      assert PeerOk(s0[p], local) && s0[p].info.id == id;
      if peers[p].retiring {
        return Ok, -1, [];
      }
      slot := p;
      status, retired := UnregisterValid(p);
      OtherSlotsStranded(s0, peers[..], p);
    }

    /** The slot turns retiring, its paths are retired, and it is free at once when none is left. */
    method UnregisterValid(p: nat) returns (status: Status, retired: seq<nat>)
      requires Valid() && p < peers.Length && peers[p].valid
      modifies this`peerCount, this`ours, peers
      ensures Valid() && status == Ok
      ensures PeerUnregistered(old(peers[..]), peers[..], p, old(peers[p].info.id), retired)
      ensures peerCount == old(peerCount) - 1
      ensures forall i, j :: ours(i, j) == old(ours)(i, j) + if i == p && j in retired then 1 else 0
      ensures HoldersKept(old(peers[..]), peers[..], old(ours))
    {
      ghost var s0 := peers[..];
      assert PeerOk(s0[p], local);
      ValidPeersUpdate(s0, p, s0[p]);
      peers[p] := peers[p].(valid := false, retiring := true);
      peerCount := peerCount - 1;
      assert peers[..] == s0[p := s0[p].(valid := false, retiring := true)];
      status, retired := RetirePaths(p);
      ghost var s2 := peers[..];
      peers[p] := peers[p].(pathCount := 0);
      CompletePeerRelease(p);
      UnregisterKeepsTable(s0, s2, peers[..], old(peerCount), p, local);
      UnregisterKeepsHolders(s0, peers[..], p, retired, old(ours), old(peerCount), local);
    }

    // ---------------------------------------------------------------- paths

    method FindRegistered(id: nat) returns (p: int)
      requires Valid()
      ensures -1 <= p < peers.Length
      ensures p >= 0 ==> peers[p].valid && peers[p].info.id == id && PeerOk(peers[p], local)
      ensures p < 0 ==> !IdValid(id) || !Reachable(peers[..], id)
    {
      p := FindPeer(id);
      if p < 0 {
        return;
      }
      assert PeerOk(peers[..][p], local) && peers[..][p].info.id == id;
      if !peers[p].valid || peers[p].retiring {
        p := -1;
      }
    }

    /** Interference just before an access to one path. */
    method Observe(p: nat, k: nat)
      requires Valid() && p < peers.Length && k < |peers[p].paths|
      modifies peers
      ensures Valid() && Interfered(old(peers[..]), peers[..], ours)
      ensures PeerInterfered(old(peers[p]), peers[p])
      ensures PathInterfered(old(peers[p].paths[k]), peers[p].paths[k], ours(p, k))
      ensures PeerOk(peers[p], local)
    {
      ghost var s := peers[..];
      Interfere();
      InterferenceKeepsTable(s, peers[..], ours, peerCount, local);
      InterferenceKeepsBacked(s, peers[..], ours);
      assert PeerInterfered(s[p], peers[..][p]) && PathInterfered(s[p].paths[k], peers[..][p].paths[k], ours(p, k));
      assert PeerOk(peers[..][p], local);
    }

    method RegisterPath(id: nat, link: nat, hop: Endpoint) returns (status: Status)
      requires Valid()
      modifies peers
      ensures Valid()
      ensures status == EInval <==> !IdValid(id) || link == LINK_INVALID || !EndpointValid(hop)
      ensures status == ENoEnt <==>
                IdValid(id) && link != LINK_INVALID && EndpointValid(hop) && !Reachable(old(peers[..]), id)
      ensures status == Ok ==> PathRegistered(old(peers[..]), peers[..], id, link, hop)
      ensures IdValid(id) && link != LINK_INVALID && EndpointValid(hop) && Reachable(old(peers[..]), id) ==>
                && (status == EBusy <==> PathBusy(peers[..], id, link))
                && (status == ENoSpc <==> !HasPath(old(peers[..]), id, link) && PathsFull(old(peers[..]), id))
                && status in {Ok, EBusy, ENoSpc}
      ensures status != Ok ==> Interfered(old(peers[..]), peers[..], ours)
      ensures HoldersKept(old(peers[..]), peers[..], ours)
      ensures StrandedKept(old(peers[..]), peers[..])
    {
      InterferenceKeepsHolders(peers[..], peers[..], ours, peerCount, local);
      if !IdValid(id) || link == LINK_INVALID || !EndpointValid(hop) {
        return EInval;
      }
      var p := FindRegistered(id);
      if p < 0 {
        return ENoEnt;
      }
      assert peers[..][p].valid && peers[..][p].info.id == id;
      ghost var s0 := peers[..];
      status := RegisterOn(p, link, hop);
      RegisterKeepsStranded(s0, peers[..], status, id, link, hop, ours, peerCount, local);
    }

    /** register_path on the peer it found. */
    method RegisterOn(p: nat, link: nat, hop: Endpoint) returns (status: Status)
      requires Valid() && p < peers.Length && peers[p].valid && EndpointValid(hop) && link != LINK_INVALID
      modifies peers
      ensures Valid() && status in {Ok, EBusy, ENoSpc}
      ensures status == Ok ==> PathRegistered(old(peers[..]), peers[..], old(peers[p].info.id), link, hop)
      ensures status == EBusy <==> PathBusy(peers[..], old(peers[p].info.id), link)
      ensures status == ENoSpc <==>
                !HasPath(old(peers[..]), old(peers[p].info.id), link)
                  && PathsFull(old(peers[..]), old(peers[p].info.id))
      ensures status != Ok ==> Interfered(old(peers[..]), peers[..], ours)
      ensures HoldersKept(old(peers[..]), peers[..], ours)
    {
      ghost var s := peers[..];
      ghost var id := s[p].info.id;
      InterferenceKeepsHolders(s, s, ours, peerCount, local);
      assert s[p].valid;
      FullIfThisPeerIs(s, p, id);
      var k := FindPathIndex(p, link);
      if k >= 0 {
        assert HasPath(s, id, link) by { assert s[p].paths[k].link == link; }
        status := RefreshPath(p, k, link, hop);
        return;
      }
      NoSuchPath(s, p, id, link);
      NoneBusy(s, p, id, link);
      k := FindUnusedPath(p);
      if k < 0 {
        return ENoSpc;
      }
      ActivateEmpty(p, k, link, hop);
      return Ok;
    }

    /** linkg_path_activate on an empty slot. */
    method ActivateEmpty(p: nat, k: nat, link: nat, hop: Endpoint)
      requires Valid() && p < peers.Length && k < |peers[p].paths| && peers[p].valid && EndpointValid(hop)
      requires link != LINK_INVALID
      requires peers[p].paths[k].state == Empty
      requires forall q :: 0 <= q < |peers[p].paths| && peers[p].paths[q].state != Empty ==>
                 peers[p].paths[q].link != link
      modifies peers
      ensures Valid()
      ensures PathRegistered(old(peers[..]), peers[..], old(peers[p].info.id), link, hop)
      ensures !PathBusy(peers[..], old(peers[p].info.id), link)
      ensures HoldersKept(old(peers[..]), peers[..], ours)
    {
      ghost var s := peers[..];
      assert PeerOk(s[p], local);
      StorePath(p, k, Path(Active, 0, link, hop), peers[p].pathCount + 1);
      PathNowActive(s, s, p, k, Path(Active, 0, link, hop), peerCount, local, ours, hop);
      NotBusyNow(p, k, link);
    }

    lemma NotBusyNow(p: nat, k: nat, link: nat)
      requires Valid() && p < peers.Length && k < |peers[p].paths| && peers[p].valid
      requires peers[p].paths[k].state == Active && peers[p].paths[k].link == link
      ensures !PathBusy(peers[..], peers[p].info.id, link)
    {
      assert PeerOk(peers[..][p], local);
      BusyIfThisPathIs(peers[..], p, k, peers[p].info.id, link);
    }

    /** linkg_path_reset followed by linkg_path_activate. */
    method ResetAndActivate(p: nat, k: nat, path: Path)
      requires p < peers.Length && k < |peers[p].paths|
      modifies peers
      ensures peers[..] == SetPath(old(peers[..]), p, k, path, old(peers[p].pathCount) + 1)
    {
      ghost var s := peers[..];
      StorePath(p, k, EMPTY_PATH, peers[p].pathCount);
      StorePath(p, k, path, peers[p].pathCount + 1);
      SetPathTwice(s, p, k, EMPTY_PATH, s[p].pathCount, path, s[p].pathCount + 1);
    }

    /** register_path on a link the peer already has a path for. */
    method RefreshPath(p: nat, k: nat, link: nat, hop: Endpoint) returns (status: Status)
      requires Valid() && p < peers.Length && k < |peers[p].paths| && peers[p].valid && EndpointValid(hop)
      requires peers[p].paths[k].state != Empty && peers[p].paths[k].link == link && link != LINK_INVALID
      modifies peers
      ensures Valid()
      ensures status == Ok ==> PathRegistered(old(peers[..]), peers[..], old(peers[p].info.id), link, hop)
      ensures status == EBusy <==> PathBusy(peers[..], old(peers[p].info.id), link)
      ensures status == Ok || status == EBusy
      ensures status == EBusy ==> Interfered(old(peers[..]), peers[..], ours)
      ensures HoldersKept(old(peers[..]), peers[..], ours)
    {
      ghost var s0 := peers[..];
      assert PeerOk(s0[p], local);
      Observe(p, k);
      ghost var s1 := peers[..];
      InterferenceKeepsHolders(s0, s1, ours, peerCount, local);
      var path := peers[p].paths[k];
      if path.state == Retired || (path.state == Released && path.count != 0) {
        BusyIfThisPathIs(s1, p, k, s0[p].info.id, link);
        return EBusy;
      }
      ReplacePath(s0, p, k, link, hop);
      return Ok;
    }

    /** A new endpoint for an ACTIVE path, a new activation for a released one. */
    method ReplacePath(ghost s0: seq<Peer>, p: nat, k: nat, link: nat, hop: Endpoint)
      requires Valid() && p < |s0| && k < |s0[p].paths| && s0[p].valid && EndpointValid(hop) && link != LINK_INVALID
      requires TableOk(s0, peerCount, local) && BackedBy(s0, ours) && Interfered(s0, peers[..], ours)
      requires s0[p].paths[k].state != Empty && s0[p].paths[k].link == link
      requires p < peers.Length && k < |peers[p].paths| && peers[p].paths[k].link == link
      requires peers[p].paths[k].state == Active
               || (peers[p].paths[k].state == Released && peers[p].paths[k].count == 0)
      modifies peers
      ensures Valid() && PathRegistered(s0, peers[..], s0[p].info.id, link, hop) && HoldersKept(s0, peers[..], ours)
      ensures !PathBusy(peers[..], s0[p].info.id, link)
    {
      ReplacedNowActive(s0, peers[..], p, k, link, hop, peerCount, local, ours);
      StoreReplaced(p, k, link, hop);
      assert peers[p] == peers[..][p];
      NotBusyNow(p, k, link);
    }

    method StoreReplaced(p: nat, k: nat, link: nat, hop: Endpoint)
      requires p < peers.Length && k < |peers[p].paths|
      modifies peers
      ensures peers[..] == AfterReplace(old(peers[..]), p, k, link, hop)
    {
      var path := peers[p].paths[k];
      if path.state == Active {
        StorePath(p, k, path.(hop := if EndpointEqual(path.hop, hop) then path.hop else hop), peers[p].pathCount);
      } else {
        ResetAndActivate(p, k, Path(Active, 0, link, hop));
      }
    }

    /** The locked part of unregister_path; a retired path is handed to the caller with
        its cleanup reference. */
    method UnregisterPath(id: nat, link: nat) returns (status: Status, p: int, k: int)
      requires Valid()
      modifies this`ours, peers
      ensures Valid()
      ensures status == EInval <==> !IdValid(id) || link == LINK_INVALID
      ensures status == ENoEnt <==> IdValid(id) && link != LINK_INVALID && !HasPath(old(peers[..]), id, link)
      ensures IdValid(id) && link != LINK_INVALID && HasPath(old(peers[..]), id, link) ==>
                status in {Ok, EBusy} && (status == EBusy <==> k < 0 && PathHeld(peers[..], id, link))
      ensures k >= 0 ==> status == Ok && p >= 0 && PathRetiredByCall(old(peers[..]), peers[..], p, k, id, link)
      ensures k < 0 ==>
                Interfered(old(peers[..]), peers[..], old(ours))
                || (status == Ok && exists i, j :: PathReset(old(peers[..]), peers[..], i, j, id, link, old(ours)))
      ensures status == Ok ==> !PathActive(peers[..], id, link)
      ensures forall i, j :: ours(i, j) == old(ours)(i, j) + if i == p && j == k then 1 else 0
      ensures HoldersKept(old(peers[..]), peers[..], old(ours))
      ensures StrandedKept(old(peers[..]), peers[..])
    {
      InterferenceKeepsHolders(peers[..], peers[..], ours, peerCount, local);
      if !IdValid(id) || link == LINK_INVALID {
        return EInval, -1, -1;
      }
      p := FindRegistered(id);
      if p < 0 {
        return ENoEnt, -1, -1;
      }
      k := FindPathIndex(p, link);
      if k < 0 {
        NoSuchPath(peers[..], p, id, link);
        return ENoEnt, -1, -1;
      }
      assert peers[..][p].valid && peers[..][p].paths[k].link == link;
      ghost var s0 := peers[..];
      var done;
      status, done := RetireRegistered(p, k);
      UnregisterPathKeepsStranded(s0, peers[..], p, k, done, id, link, old(ours), peerCount, local);
      if !done {
        p, k := -1, -1;
      }
    }

    /** unregister_path on a path the peer has. */
    method RetireRegistered(p: nat, k: nat) returns (status: Status, retired: bool)
      requires Valid() && p < peers.Length && k < |peers[p].paths| && peers[p].valid && peers[p].paths[k].state != Empty
      modifies this`ours, peers
      ensures Valid()
      ensures status == Ok || status == EBusy
      ensures status == EBusy <==> !retired && PathHeld(peers[..], old(peers[p].info.id), old(peers[p].paths[k].link))
      ensures retired ==>
                status == Ok && PathRetiredByCall(old(peers[..]), peers[..], p, k, old(peers[p].info.id),
                                                  old(peers[p].paths[k].link))
      ensures !retired ==>
                Interfered(old(peers[..]), peers[..], old(ours))
                || (status == Ok && PathReset(old(peers[..]), peers[..], p, k, old(peers[p].info.id),
                                              old(peers[p].paths[k].link), old(ours)))
      ensures status == Ok ==> !PathActive(peers[..], old(peers[p].info.id), old(peers[p].paths[k].link))
      ensures forall i, j :: ours(i, j) == old(ours)(i, j) + if retired && i == p && j == k then 1 else 0
      ensures HoldersKept(old(peers[..]), peers[..], old(ours))
    {
      ghost var s0 := peers[..];
      Observe(p, k);
      var state := peers[p].paths[k].state;
      if state == Active {
        status := RetireActive(s0, p, k);
        OnePathKeepsHolders(s0, peers[..], p, k, old(ours), peerCount, local);
        return status, true;
      }
      retired := false;
      ghost var s1 := peers[..];
      InterferenceKeepsHolders(s0, s1, ours, peerCount, local);
      OnlyThisPath(s1, p, k, s0[p].info.id, s0[p].paths[k].link);
      BusyIfThisPathIs(s1, p, k, s0[p].info.id, s0[p].paths[k].link);
      if state == Retired {
        return Ok, false;
      }
      if peers[p].paths[k].count != 0 {
        return EBusy, false;
      }
      StorePath(p, k, EMPTY_PATH, peers[p].pathCount);
      PathResetIs(s0, s1, p, k, ours);
      ReleasedPathEmptied(s1, p, k, peerCount, local, ours);
      assert BackedBy(s1, ours) && ours(p, k) == 0;
      return Ok, false;
    }

    method RetireActive(ghost s0: seq<Peer>, p: nat, k: nat) returns (status: Status)
      requires Valid() && p < |s0| && k < |s0[p].paths| && s0[p].valid && p < peers.Length && k < |peers[p].paths|
      requires TableOk(s0, peerCount, local) && Interfered(s0, peers[..], ours) && peers[p].paths[k].state == Active
      modifies this`ours, peers
      ensures Valid() && status == Ok
      ensures PathRetiredByCall(s0, peers[..], p, k, s0[p].info.id, s0[p].paths[k].link)
      ensures !PathActive(peers[..], s0[p].info.id, s0[p].paths[k].link)
      ensures forall i, j :: ours(i, j) == old(ours)(i, j) + if i == p && j == k then 1 else 0
    {
      ghost var s1 := peers[..];
      assert PeerInterfered(s0[p], s1[p]) && PathInterfered(s0[p].paths[k], s1[p].paths[k], ours(p, k));
      assert PeerOk(s1[p], local);
      ActivePathsUpdate(s1[p].paths, k, s1[p].paths[k]);
      ghost var held := ours;
      var done;
      status, done := PrepareRetire(p, k);
      ghost var s2 := peers[..];
      assert PeerInterfered(s1[p], s2[p]);
      StorePath(p, k, peers[p].paths[k], peers[p].pathCount - 1);
      RetiredFrom(s0, s1, s2, peers[..], held, p, k);
      OnePathKeepsTable(s0, peers[..], peerCount, p, k, local);
      OnlyThisPathAfter(s0, peers[..], p, k, s0[p].info.id, s0[p].paths[k].link);
    }

    // ---------------------------------------------------------------- references

    /** acquire_path_batch. The caller's `n` references are the only change it makes. */
    method AcquirePathBatch(id: nat, link: nat, n: nat) returns (status: Status, p: int, k: int, hop: Endpoint)
      requires Valid()
      modifies this`ours, peers
      ensures Valid()
      ensures status == EInval <==> !IdValid(id) || link == LINK_INVALID || n == 0
      ensures status == ENoEnt <==> IdValid(id) && link != LINK_INVALID && n != 0 && !HasPath(old(peers[..]), id, link)
      ensures status == ENoDev <==> IdValid(id) && link != LINK_INVALID && n != 0 && HasPath(old(peers[..]), id, link)
                                    && !PathActive(old(peers[..]), id, link)
      ensures status in {Ok, EInval, ENoEnt, ENoDev}
      ensures status == Ok ==> 0 <= p < peers.Length && 0 <= k < |peers[p].paths|
                               && peers[p].info.id == id && peers[p].paths[k].link == link
                               && peers[p].paths[k].state == Active
                               && hop == peers[p].paths[k].hop
      ensures status != Ok ==> p == -1 && k == -1 && Interfered(old(peers[..]), peers[..], old(ours))
      ensures status == Ok ==> OnlyAcquired(old(peers[..]), peers[..], p, k, n, old(ours))
      ensures forall i, j :: ours(i, j) == old(ours)(i, j) + if i == p && j == k then n else 0
      ensures HoldersKept(old(peers[..]), peers[..], old(ours))
      ensures StrandedKept(old(peers[..]), peers[..])
    {
      ghost var s0 := peers[..];
      InterferenceKeepsHolders(s0, s0, ours, peerCount, local);
      if !IdValid(id) || link == LINK_INVALID || n == 0 {
        return EInval, -1, -1, NoEndpoint;
      }
      p := FindRegistered(id);
      if p < 0 {
        return ENoEnt, -1, -1, NoEndpoint;
      }
      k := FindPathIndex(p, link);
      if k < 0 {
        NoSuchPath(s0, p, id, link);
        return ENoEnt, -1, -1, NoEndpoint;
      }
      assert s0[p].valid && s0[p].paths[k].link == link;
      OnlyThisPath(s0, p, k, id, link);
      var active := AcquireFound(p, k, n);
      if !active {
        ReleasesKeepStranded(s0, peers[..], old(ours));
        return ENoDev, -1, -1, NoEndpoint;
      }
      AcquireKeepsStranded(s0, peers[..], p, k, n, old(ours));
      return Ok, p, k, peers[p].paths[k].hop;
    }

    /** acquire_path_batch once the path is found: ACTIVE does not change without the Node lock. */
    method AcquireFound(p: nat, k: nat, n: nat) returns (active: bool)
      requires Valid() && p < peers.Length && k < |peers[p].paths| && peers[p].valid
      modifies this`ours, peers
      ensures Valid() && k < |peers[p].paths| && active == (old(peers[p].paths[k].state) == Active)
      ensures peers[p].info == old(peers[p].info) && peers[p].paths[k].link == old(peers[p].paths[k].link)
      ensures active ==>
                peers[p].paths[k].state == Active && OnlyAcquired(old(peers[..]), peers[..], p, k, n, old(ours))
      ensures !active ==> Interfered(old(peers[..]), peers[..], old(ours))
      ensures forall i, j :: ours(i, j) == old(ours)(i, j) + if active && i == p && j == k then n else 0
      ensures HoldersKept(old(peers[..]), peers[..], old(ours))
    {
      ghost var s0 := peers[..];
      Observe(p, k);
      ghost var s1 := peers[..];
      InterferenceKeepsHolders(s0, s1, ours, peerCount, local);
      if peers[p].paths[k].state != Active {
        return false;
      }
      AcquireActive(p, k, n);
      AcquiredIs(s0, s1, peers[..], p, k, n, old(ours));
      HoldersChain(s0, s1, peers[..], old(ours));
      return true;
    }

    /** The part of acquire_path_batch that takes the references. */
    method AcquireActive(p: nat, k: nat, n: nat)
      requires Valid() && p < peers.Length && k < |peers[p].paths| && peers[p].valid
      requires peers[p].paths[k].state == Active
      modifies this`ours, peers
      ensures Valid() && k < |peers[p].paths|
      ensures peers[p] == old(peers[p]).(paths := peers[p].paths)
      ensures peers[p].paths[k] == old(peers[p].paths[k]).(count := old(peers[p].paths[k].count) + n)
      ensures peers[..] == SetPath(old(peers[..]), p, k, peers[p].paths[k], old(peers[p].pathCount))
      ensures forall i, j :: ours(i, j) == old(ours)(i, j) + if i == p && j == k then n else 0
      ensures HoldersKept(old(peers[..]), peers[..], old(ours))
    {
      ghost var s := peers[..];
      TakeReferences(p, k, n);
      AcquireKeepsTable(s, p, k, n, old(ours), peerCount, local);
      assert peers[p] == peers[..][p];
    }

    /** The release callback: it takes the Node lock again, empties the path unless
        someone else already did, and reclaims a retiring slot that has run empty. */
    method PathReleased(p: nat, k: nat, read: Move)
      requires Valid() && p < peers.Length && k < |peers[p].paths| && ReleasesOk(read, ours, local)
      modifies peers
      ensures Valid()
      ensures var seen := read(old(peers[..]));
              p < |seen| && k < |seen[p].paths| && peers[..] == AfterCallback(seen, p, k)
      ensures HoldersKept(old(peers[..]), peers[..], ours)
      ensures forall i, j :: i != p || j != k ==> StillStranded(old(peers[..]), peers[..], i, j)
    {
      ghost var s0 := peers[..];
      Releases(read);
      ghost var seen := peers[..];
      assert PeerInterfered(s0[p], seen[p]);
      CallbackKeepsTable(seen, p, k, ours, peerCount, local);
      HoldersChain(s0, seen, AfterCallback(seen, p, k), ours);
      CallbackKeepsOthers(s0, seen, p, k, ours);
      var path := peers[p].paths[k];
      if path.state == Released {
        if path.count != 0 {
          return;
        }
        StorePath(p, k, EMPTY_PATH, peers[p].pathCount);
      } else if path.state != Empty {
        return;
      }
      CompletePeerRelease(p);
      assert peers[..] == AfterCallback(seen, p, k);
    }

    method Store(t: seq<Peer>)
      requires |t| == peers.Length
      modifies peers
      ensures peers[..] == t
    {
      for i := 0 to peers.Length
        invariant forall j :: 0 <= j < i ==> peers[j] == t[j]
      {
        peers[i] := t[i];
      }
    }

    /** Other threads' lock-free releases. */
    method Releases(m: Move)
      requires Valid() && ReleasesOk(m, ours, local)
      modifies peers
      ensures Valid() && peers[..] == m(old(peers[..]))
      ensures Interfered(old(peers[..]), peers[..], ours) && HoldersKept(old(peers[..]), peers[..], ours)
    {
      ghost var s := peers[..];
      Store(m(peers[..]));
      InterferenceKeepsTable(s, peers[..], ours, peerCount, local);
      InterferenceKeepsBacked(s, peers[..], ours);
      InterferenceKeepsHolders(s, peers[..], ours, peerCount, local);
    }

    /** Anything other threads do while this one holds no lock. */
    method Others(m: Move)
      requires Valid() && MoveOk(m, ours, local)
      modifies this`peerCount, peers
      ensures Valid() && peers[..] == m(old(peers[..]))
      ensures HoldersKept(old(peers[..]), peers[..], ours)
    {
      Store(m(peers[..]));
      peerCount := ValidPeers(peers[..]);
    }

    /** The loop of tries whose swap is lost, each after a move of other threads. */
    method LoseTries(moves: seq<Move>)
      requires Valid() && forall n :: 0 <= n < |moves| ==> MoveOk(moves[n], ours, local)
      modifies this`peerCount, peers
      ensures Valid() && peers[..] == AfterMoves(old(peers[..]), moves)
      ensures HoldersKept(old(peers[..]), peers[..], ours)
    {
      ghost var s0 := peers[..];
      InterferenceKeepsHolders(s0, s0, ours, peerCount, local);
      for i := 0 to |moves|
        invariant Valid() && HoldersKept(s0, peers[..], ours) && peers[..] == AfterMoves(s0, moves[..i])
      {
        ghost var s := peers[..];
        assert moves[..i + 1][..i] == moves[..i];
        Others(moves[i]);
        HoldersChain(s0, s, peers[..], ours);
      }
      assert moves[..|moves|] == moves;
    }

    /** linkg_path_release without the Node lock. The swap that takes the count down is lost
        once for each of `e.tries` before it succeeds. The count a holder loads is never
        zero, so the reference is always given back: the count stored then is one less. */
    method ReleasePath(p: nat, k: nat, e: Env)
      requires Valid() && p < peers.Length && k < |peers[p].paths| && ours(p, k) > 0 && EnvOk(e, ours, p, k, local)
      modifies this`peerCount, this`ours, peers
      ensures Valid() && ours == Less(old(ours), p, k)
      ensures PathAt(AfterMoves(old(peers[..]), e.tries), p, k).count > 0
      ensures peers[..] == AfterRelease(old(peers[..]), e, p, k)
      ensures HoldersKept(old(peers[..]), peers[..], ours)
    {
      ghost var s0 := peers[..];
      LoseTries(e.tries);
      ghost var s1 := peers[..];
      assert PeerOk(s1[p], local) && ours(p, k) <= s1[p].paths[k].count;
      HoldersLess(s0, s1, ours, p, k);
      var references := peers[p].paths[k].count;
      if references == 0 {
        assert false;
      }
      GiveBack(p, k);
      ghost var s2 := peers[..];
      HoldersChain(s0, s1, s2, ours);
      if references == 1 {
        CompleteRelease(p, k, e);
        HoldersChain(s0, s2, peers[..], ours);
      }
    }

    /** The successful swap. */
    method GiveBack(p: nat, k: nat)
      requires Valid() && p < peers.Length && k < |peers[p].paths| && ours(p, k) > 0 && peers[p].paths[k].count > 0
      modifies this`ours, peers
      ensures Valid() && ours == Less(old(ours), p, k) && k < |peers[p].paths|
      ensures peers[..] == PutPath(old(peers[..]), p, k, OneLess(old(peers[p].paths[k])))
      ensures HoldersKept(old(peers[..]), peers[..], ours)
    {
      OneLessKeeps(peers[..], ours, p, k, peerCount, local);
      var path := peers[p].paths[k];
      StorePath(p, k, path.(count := path.count - 1), peers[p].pathCount);
      ours := Less(ours, p, k);
    }

    /** The RETIRED to RELEASED swap. */
    method SwapReleased(p: nat, k: nat)
      requires Valid() && p < peers.Length && k < |peers[p].paths| && peers[p].paths[k].state == Retired
      modifies peers
      ensures Valid() && k < |peers[p].paths|
      ensures peers[..] == PutPath(old(peers[..]), p, k, old(peers[p].paths[k]).(state := Released))
      ensures HoldersKept(old(peers[..]), peers[..], ours)
    {
      ghost var s := peers[..];
      StorePath(p, k, peers[p].paths[k].(state := Released), peers[p].pathCount);
      assert Interfered(s, peers[..], ours);
      InterferenceKeepsTable(s, peers[..], ours, peerCount, local);
      InterferenceKeepsHolders(s, peers[..], ours, peerCount, local);
    }

    /** complete_release with notification, for the thread that took the count to zero: a path
        found RETIRED becomes RELEASED, and the callback runs on what it finds then. */
    method CompleteRelease(p: nat, k: nat, e: Env)
      requires Valid() && p < peers.Length && k < |peers[p].paths|
      requires MoveOk(e.swap, ours, local) && MoveOk(e.call, ours, local) && ReleasesOk(e.read, ours, local)
      modifies this`peerCount, peers
      ensures Valid()
      ensures peers[..] == AfterCompletion(old(peers[..]), e, p, k)
      ensures HoldersKept(old(peers[..]), peers[..], ours)
    {
      ghost var s0 := peers[..];
      Others(e.swap);
      ghost var s1 := peers[..];
      assert PeerOk(s1[p], local);
      if peers[p].paths[k].state != Retired {
        return;
      }
      SwapReleased(p, k);
      HoldersChain(s0, s1, peers[..], ours);
      NotifyReleased(s0, p, k, e);
    }

    method NotifyReleased(ghost s0: seq<Peer>, p: nat, k: nat, e: Env)
      requires Valid() && p < peers.Length && k < |peers[p].paths| && HoldersKept(s0, peers[..], ours)
      requires MoveOk(e.call, ours, local) && ReleasesOk(e.read, ours, local)
      modifies this`peerCount, peers
      ensures Valid()
      ensures var seen := e.read(e.call(old(peers[..])));
              p < |seen| && k < |seen[p].paths| && peers[..] == AfterCallback(seen, p, k)
      ensures HoldersKept(s0, peers[..], ours)
    {
      ghost var s2 := peers[..];
      Others(e.call);
      ghost var s3 := peers[..];
      assert PeerOk(s3[p], local);
      HoldersChain(s0, s2, s3, ours);
      PathReleased(p, k, e.read);
      HoldersChain(s0, s3, peers[..], ours);
    }

    /** purge_retired_paths: every path is released once, in order, whatever the queue purges
        answer, and the first failure is reported. */
    method PurgeRetired(p: nat, retired: seq<nat>, purges: seq<Status>, envs: seq<Env>) returns (status: Status)
      requires Valid() && p < peers.Length && |purges| == |retired| && EnvsOk(envs, ours, p, retired, local)
      requires forall j :: 0 <= j < |retired| ==> retired[j] < PATH_MAX && ours(p, retired[j]) > 0
      requires forall i, j :: 0 <= i < j < |retired| ==> retired[i] != retired[j]
      modifies this`peerCount, this`ours, peers
      ensures Valid()
      ensures GivenBack(old(ours), ours, p, retired)
      ensures peers[..] == AfterPurge(old(peers[..]), p, retired, envs)
      ensures status == FirstFailure(purges)
    {
      status := Ok;
      ghost var t := peers[..];
      for n := 0 to |retired|
        invariant Valid()
        invariant GivenBack(old(ours), ours, p, retired[..n])
        invariant peers[..] == AfterPurge(t, p, retired[..n], envs)
        invariant status == FirstFailure(purges[..n])
      {
        assert ours(p, retired[n]) == old(ours)(p, retired[n]);
        ghost var held := ours;
        PurgeOne(p, retired[n], envs[n]);
        GivenBackNext(old(ours), held, ours, p, retired, n);
        PurgeNext(t, p, retired, envs, n);
        FirstFailureNext(purges, n);
        if purges[n] != Ok && status == Ok {
          status := purges[n];
        }
      }
      assert retired[..|retired|] == retired && purges[..|retired|] == purges;
    }

    /** The release of one cleanup reference. */
    method PurgeOne(p: nat, k: nat, e: Env)
      requires Valid() && p < peers.Length && k < PATH_MAX && ours(p, k) > 0 && EnvOk(e, ours, p, k, local)
      modifies this`peerCount, this`ours, peers
      ensures Valid()
      ensures peers[..] == AfterRelease(old(peers[..]), e, p, k)
      ensures forall i, j :: ours(i, j) == old(ours)(i, j) - if i == p && j == k then 1 else 0
    {
      assert PeerOk(peers[..][p], local);
      ReleasePath(p, k, e);
    }

    /** unregister_peer as its caller sees it: the locked part leaves `parted`, other threads
        move, and then each path it retired is released. No reference is left behind. */
    method RemovePeer(id: nat, purges: seq<Status>, first: Move, envs: seq<Env>)
      returns (status: Status, slot: int, retired: seq<nat>, ghost parted: seq<Peer>)
      requires Valid() && |purges| >= PATH_MAX
      requires forall p :: 0 <= p < peers.Length && peers[p].valid && peers[p].info.id == id ==>
                 RemovalOk(first, envs, ours, p, ActiveIndices(peers[p].paths, |peers[p].paths|), local)
      modifies this`peerCount, this`ours, peers
      ensures Valid()
      ensures forall i, j :: ours(i, j) == old(ours)(i, j)
      ensures !IdValid(id) ==> status == EInval
      ensures IdValid(id) && !Known(old(peers[..]), id) ==> status == ENoEnt
      ensures -1 <= slot < peers.Length
      ensures slot < 0 ==>
                peers[..] == old(peers[..])
                  && (IdValid(id) && Known(old(peers[..]), id) ==> status == Ok && Retiring(old(peers[..]), id))
      ensures slot >= 0 ==>
                && PeerUnregistered(old(peers[..]), parted, slot, id, retired) && |retired| <= |envs|
                && |retired| <= |purges|
                && peers[..] == AfterPurge(first(parted), slot, retired, envs)
                && status == FirstFailure(purges[..|retired|])
    {
      ghost var s := peers[..];
      status, slot, retired := UnregisterPeer(id);
      parted := peers[..];
      if slot < 0 {
        return;
      }
      assert s[slot].valid && s[slot].info.id == id && |s[slot].paths| == PATH_MAX;
      ActiveIndicesDistinct(s[slot].paths, PATH_MAX);
      status := PurgeAfter(slot, retired, purges, first, envs, old(ours));
    }

    /** Other threads run between the two parts. */
    method PurgeAfter(p: nat, retired: seq<nat>, purges: seq<Status>, first: Move, envs: seq<Env>,
                      ghost before: (nat, nat) -> nat)
      returns (status: Status)
      requires Valid() && p < peers.Length && |retired| <= |purges| && RemovalOk(first, envs, before, p, retired, local)
      requires forall j :: 0 <= j < |retired| ==> retired[j] < PATH_MAX
      requires forall i, j :: 0 <= i < j < |retired| ==> retired[i] != retired[j]
      requires forall i, j :: ours(i, j) == before(i, j) + if i == p && j in retired then 1 else 0
      modifies this`peerCount, this`ours, peers
      ensures Valid() && status == FirstFailure(purges[..|retired|])
      ensures |retired| <= |envs| && peers[..] == AfterPurge(first(old(peers[..])), p, retired, envs)
      ensures forall i, j :: ours(i, j) == before(i, j)
    {
      assert Taken(before, ours, p, retired);
      Others(first);
      forall j | 0 <= j < |retired| ensures ours(p, retired[j]) > 0 {
        assert retired[j] in retired;
      }
      status := PurgeRetired(p, retired, purges[..|retired|], envs);
    }
  }

  function FirstFailure(results: seq<Status>): Status {
    if results == [] then Ok
    else if FirstFailure(results[..|results| - 1]) != Ok then FirstFailure(results[..|results| - 1])
    else results[|results| - 1]
  }

  lemma FirstFailureNext(results: seq<Status>, n: nat)
    requires n < |results|
    ensures FirstFailure(results[..n + 1])
            == if FirstFailure(results[..n]) != Ok then FirstFailure(results[..n]) else results[n]
  {
    assert results[..n + 1][..n] == results[..n];
  }

  lemma {:induction false} ActiveIndicesDistinct(paths: seq<Path>, k: nat)
    requires k <= |paths|
    ensures var r := ActiveIndices(paths, k);
            && |r| <= k && (forall j :: 0 <= j < |r| ==> r[j] < k)
            && forall i, j :: 0 <= i < j < |r| ==> r[i] != r[j]
  {
    if k > 0 {
      ActiveIndicesDistinct(paths, k - 1);
    }
  }

  lemma {:induction false} SomeValidPeer(peers: seq<Peer>, i: nat)
    requires i < |peers| && peers[i].valid
    ensures ValidPeers(peers) > 0
  {
    var n := |peers| - 1;
    if i < n {
      SomeValidPeer(peers[..n], i);
    }
  }

  lemma {:induction false} NoValidPeers(peers: seq<Peer>)
    requires forall i :: 0 <= i < |peers| ==> !peers[i].valid
    ensures ValidPeers(peers) == 0
  {
    if peers != [] {
      NoValidPeers(peers[..|peers| - 1]);
    }
  }

  lemma {:induction false} AllEmptyHasNoActive(paths: seq<Path>)
    requires AllEmpty(paths)
    ensures ActivePaths(paths) == 0
  {
    if paths != [] {
      AllEmptyHasNoActive(paths[..|paths| - 1]);
    }
  }
}
