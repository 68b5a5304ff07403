/** The discovery core over whole runs of one session: reports, leaves, aging, accesses
    going down and topology snapshots in any order, with any answers from other modules. */
module DiscoveryRuns {
  import opened DiscoveryTypes
  import opened DiscoveryPeers
  import opened DiscoveryInvariant
  import opened DiscoveryTopology

  // ------------------------------------------------------------------ leaving and aging

  lemma HandleLeaveKeeps(t: Table, leave: Leave, now: nat, calls: Calls)
    requires Sound(t)
    ensures var (t', ret) := HandleLeave(t, leave, now, calls); Sound(t') && TableStep(t, t', now)
  {
    NothingHappened(t, now);
    if Accepted(t, leave) {
      var i := FindPeer(t.peers, leave.id, 0);
      var p := t.peers[i].(closed := true);
      if p.online {
        TakeOfflineKeeps(t, i, p, now, calls);
      } else {
        OneSlotKeeps(t, SetPeer(t, i, p), i, p, now);
      }
    }
  }

  /** Still heard of within the last 10 s, or stamped after `now`. */
  predicate HeardLately(p: Peer, now: nat) {
    (p.wifi.registered && p.wifi.active && Fresh(p.wifi, now))
      || (p.cellular.registered && p.cellular.active && Fresh(p.cellular, now))
  }

  lemma AgeSlotKeeps(t: Table, i: nat, now: nat, calls: Calls)
    requires Sound(t) && i < |t.peers|
    ensures var (t', ret) := AgeSlot(t, i, now, calls);
            && Sound(t') && TableStep(t, t', now) && t'.peers == t.peers[i := t'.peers[i]]
            && (t'.peers[i].online ==> HeardLately(t'.peers[i], now))
            && (t.peers[i].routePending && Freed(t.peers[i], t'.peers[i]) ==> calls.removeRoute == 0)
  {
    NothingHappened(t, now);
    var (t', ret) := AgeSlot(t, i, now, calls);
    if t.peers[i].online {
      var p := AgeLive(t.peers[i], now);
      if HasActive(p) {
        OneSlotKeeps(t, t', i, t'.peers[i], now);
      } else {
        TakeOfflineKeeps(t, i, p, now, calls);
      }
    } else if t.peers[i].used {
      OneSlotKeeps(t, t', i, t'.peers[i], now);
    }
  }

  /** Two operations one after the other, the second on a slot the first left alone. */
  lemma OneAfterAnother(a: Table, b: Table, c: Table, now: nat, k: nat)
    requires TableStep(a, b, now) && TableStep(b, c, now) && Sound(a) && Sound(b)
    requires forall j :: k <= j < |a.peers| ==> b.peers[j] == a.peers[j]
    requires k < |a.peers| && c.peers == b.peers[k := c.peers[k]]
    ensures TableStep(a, c, now)
  {
  }

  lemma {:induction false} AgeKeeps(t: Table, now: nat, calls: seq<Calls>, k: nat)
    requires Sound(t) && k <= |t.peers| && k <= |calls|
    ensures var (t', ret) := Age(t, now, calls, k);
            && Sound(t') && TableStep(t, t', now)
            && (forall j :: k <= j < |t.peers| ==> t'.peers[j] == t.peers[j])
            && (forall j :: 0 <= j < k ==> (t'.peers[j].online ==> HeardLately(t'.peers[j], now)))
            && (forall j :: 0 <= j < k && t.peers[j].routePending && Freed(t.peers[j], t'.peers[j]) ==>
                  calls[j].removeRoute == 0)
  {
    if k == 0 {
      NothingHappened(t, now);
    } else {
      AgeKeeps(t, now, calls, k - 1);
      var t1 := Age(t, now, calls, k - 1).0;
      AgeSlotKeeps(t1, k - 1, now, calls[k - 1]);
      var t2 := AgeSlot(t1, k - 1, now, calls[k - 1]).0;
      OneAfterAnother(t, t1, t2, now, k - 1);
    }
  }

  lemma DeactivateSlotKeeps(t: Table, i: nat, access: Access, now: nat, calls: Calls)
    requires Sound(t) && i < |t.peers|
    ensures var (t', ret) := DeactivateSlot(t, i, access, now, calls);
            && Sound(t') && TableStep(t, t', now) && t'.peers == t.peers[i := t'.peers[i]]
            && !LiveOf(t'.peers[i], access).active
  {
    NothingHappened(t, now);
    var p := t.peers[i];
    var (t', ret) := DeactivateSlot(t, i, access, now, calls);
    if p.used && p.online {
      var p1 := SetLive(p, access, LiveOf(p, access).(active := false));
      if HasActive(p1) {
        OneSlotKeeps(t, t', i, t'.peers[i], now);
      } else {
        TakeOfflineKeeps(t, i, p1, now, calls);
      }
    } else if p.used {
      OneSlotKeeps(t, t', i, t'.peers[i], now);
    }
  }

  lemma {:induction false} DeactivateKeeps(t: Table, access: Access, now: nat, calls: seq<Calls>, k: nat)
    requires Sound(t) && k <= |t.peers| && k <= |calls|
    ensures var (t', ret) := Deactivate(t, access, now, calls, k);
            && Sound(t') && TableStep(t, t', now)
            && (forall j :: k <= j < |t.peers| ==> t'.peers[j] == t.peers[j])
            && (forall j :: 0 <= j < k ==> !LiveOf(t'.peers[j], access).active)
  {
    if k == 0 {
      NothingHappened(t, now);
    } else {
      DeactivateKeeps(t, access, now, calls, k - 1);
      var t1 := Deactivate(t, access, now, calls, k - 1).0;
      DeactivateSlotKeeps(t1, k - 1, access, now, calls[k - 1]);
      OneAfterAnother(t, t1, DeactivateSlot(t1, k - 1, access, now, calls[k - 1]).0, now, k - 1);
    }
  }

  // ------------------------------------------------------------------ accepted and ignored reports

  predicate OnlineAs(p: Peer, access: Access, r: Report, now: nat) {
    && p.online && p.report.id == r.id && p.report.session == r.session && p.report.revision == r.revision
    && !p.closed && LiveOf(p, access) == Liveness(true, true, now)
  }

  lemma AcceptedNew(t: Table, i: nat, access: Access, r: Report, now: nat, calls: Calls)
    requires Sound(t) && ReportFits(t, i, r) && !t.peers[i].online && NewPeer(t, i, access, r, now, calls).1 == 0
    ensures var t' := NewPeer(t, i, access, r, now, calls).0; i < |t'.peers| && OnlineAs(t'.peers[i], access, r, now)
  {
  }

  lemma AcceptedKnownOnline(t: Table, i: nat, access: Access, r: Report, now: nat, calls: Calls)
    requires i < |t.peers| && t.peers[i].online && t.peers[i].report.id == r.id
    ensures Classify(t.peers[i], r) == Refresh && RefreshPeer(t, i, access, r, now, calls).1 == 0 ==>
              OnlineAs(RefreshPeer(t, i, access, r, now, calls).0.peers[i], access, r, now)
    ensures Classify(t.peers[i], r) == UpdateEvent && UpdatePeer(t, i, access, r, now, calls).1 == 0 ==>
              OnlineAs(UpdatePeer(t, i, access, r, now, calls).0.peers[i], access, r, now)
    ensures Classify(t.peers[i], r) == Restart && RestartPeer(t, i, access, r, now, calls).1 == 0 ==>
              OnlineAs(RestartPeer(t, i, access, r, now, calls).0.peers[i], access, r, now)
  {
  }

  lemma AcceptedFromKnown(t: Table, i: nat, access: Access, r: Report, now: nat, calls: Calls)
    requires Sound(t) && i < |t.peers| && i == FindPeer(t.peers, r.id, 0)
    requires HandleReport(t, access, r, now, calls).1 == 0
    ensures var t' := HandleReport(t, access, r, now, calls).0; i < |t'.peers| && OnlineAs(t'.peers[i], access, r, now)
  {
    if t.peers[i].online {
      AcceptedKnownOnline(t, i, access, r, now, calls);
    } else {
      AcceptedNew(t, i, access, r, now, calls);
    }
  }

  lemma AcceptedFromUnknown(t: Table, free: nat, access: Access, r: Report, now: nat, calls: Calls)
    requires Sound(t) && |t.peers| == FindPeer(t.peers, r.id, 0) && free == Acquire(t.peers, now)
    requires HandleReport(t, access, r, now, calls).1 == 0
    ensures var t' := HandleReport(t, access, r, now, calls).0;
            free < |t'.peers| && OnlineAs(t'.peers[free], access, r, now)
  {
    FreeSlotStep(t, free, now);
    var t1 := SetPeer(t, free, FREE_PEER);
    assert forall j :: 0 <= j < |t.peers| && t.peers[j].used ==> t.peers[j].report.id != r.id;
    NewPeerIs(t1, free, access, r, now, calls);
  }

  /** An accepted report leaves its sender online in that session and revision, heard on
      that access just now. */
  lemma AcceptedReport(t: Table, access: Access, r: Report, now: nat, calls: Calls)
    requires Sound(t) && HandleReport(t, access, r, now, calls).1 == 0
    ensures var t' := HandleReport(t, access, r, now, calls).0;
            exists i :: 0 <= i < |t'.peers| && OnlineAs(t'.peers[i], access, r, now)
  {
    var i := FindPeer(t.peers, r.id, 0);
    if i == |t.peers| {
      AcceptedFromUnknown(t, Acquire(t.peers, now), access, r, now, calls);
    } else {
      AcceptedFromKnown(t, i, access, r, now, calls);
    }
  }

  /** Error codes of the other modules are never positive; registerPath answers 1 for a path. */
  predicate Errnos(c: Calls) {
    && c.registerNode <= 0 && c.registerTransport <= 0 && c.registerPath <= 1 && c.setPlan <= 0 && c.addRoute <= 0
    && c.removePlan <= 0 && c.unregisterTransport <= 0 && c.unregisterNode <= 0 && c.removeRoute <= 0
    && c.dropWifi <= 0 && c.dropCellular <= 0 && c.resetTransport <= 0 && c.ensurePlan <= 0
  }

  /** Session `s` of this peer is closed or has just been replaced. */
  predicate Blocked(p: Peer, s: nat) {
    p.used && s != 0 && ((p.report.session == s && p.closed) || p.previous == s)
  }

  predicate Admitted(t: Table, access: Access, r: Report) {
    && ChannelUp(t, access) && ReportValid(r) && Related(t.local, r)
    && var i := FindPeer(t.peers, r.id, 0); MacCheck(t.local, i < |t.peers|, KnownPeer(t, i), access, r) == 0
  }

  predicate OutOfDate(t: Table, r: Report) {
    var i := FindPeer(t.peers, r.id, 0);
    i < |t.peers| && var p := t.peers[i];
    (p.previous == r.session && r.session != 0)
      || (p.report.session == r.session && (p.closed || r.revision < p.report.revision))
  }

  /** A report is ignored exactly when it belongs to the replaced session, to a closed one,
      or to an older revision of the current one; then the table is left as it was. */
  lemma IgnoredIffOutOfDate(t: Table, access: Access, r: Report, now: nat, calls: Calls)
    requires Sound(t) && Errnos(calls)
    ensures HandleReport(t, access, r, now, calls).1 == IGNORED <==> Admitted(t, access, r) && OutOfDate(t, r)
    ensures HandleReport(t, access, r, now, calls).1 == IGNORED ==> HandleReport(t, access, r, now, calls).0 == t
  {
  }

  // ------------------------------------------------------------------ sessions

  /** A blocked session stays blocked over an operation unless its slot is given up or, for
      a replaced session, a further session takes over. */
  lemma BlockedStaysBlocked(a: Peer, b: Peer, ap: bool, now: nat, s: nat)
    requires SlotStep(a, b, ap, now) && Blocked(a, s) && !Freed(a, b)
    ensures Blocked(b, s) || (a.previous == s && b.report.session != a.report.session && b.previous == a.report.session)
  {
  }

  // ------------------------------------------------------------------ runs

  datatype Step =
    | ReportArrives(access: Access, report: Report, now: nat, calls: Calls)
    | LeaveArrives(leave: Leave, now: nat, calls: Calls)
    | SyncArrives(access: Access, sync: Sync, now: nat, calls: Calls, adds: seq<int>, removes: seq<int>)
    | AgeAll(now: nat, perPeer: seq<Calls>)
    | AccessDown(access: Access, now: nat, perPeer: seq<Calls>)
    | ChannelChange(wifi: bool, cellular: bool)
    | LocalChange(local: Report)

  predicate Enabled(t: Table, step: Step) {
    match step
    case AgeAll(_, perPeer) => |perPeer| == |t.peers|
    case AccessDown(_, _, perPeer) => |perPeer| == |t.peers|
    case LocalChange(local) => local.id == t.local.id && local.role == t.local.role && local.session == t.local.session
    case _ => true
  }

  function Exec(t: Table, step: Step): Table
    requires Enabled(t, step)
  {
    match step
    case ReportArrives(access, report, now, calls) => HandleReport(t, access, report, now, calls).0
    case LeaveArrives(leave, now, calls) => HandleLeave(t, leave, now, calls).0
    case SyncArrives(access, sync, now, calls, adds, removes) =>
      HandleSync(t, access, sync, now, calls, adds, removes).0
    case AgeAll(now, perPeer) => Age(t, now, perPeer, |t.peers|).0
    case AccessDown(access, now, perPeer) => Deactivate(t, access, now, perPeer, |t.peers|).0
    case ChannelChange(wifi, cellular) => t.(channels := (wifi, cellular))
    case LocalChange(local) => t.(local := local)
  }

  function Clock(step: Step): nat {
    match step
    case ReportArrives(_, _, now, _) => now
    case LeaveArrives(_, now, _) => now
    case SyncArrives(_, _, now, _, _, _) => now
    case AgeAll(now, _) => now
    case AccessDown(_, now, _) => now
    case _ => 0
  }

  /** What one step of a run does: the table step, with the local report free to change its content. */
  predicate Moves(t: Table, t': Table, now: nat) {
    TableStep(t, t'.(local := t.local), now) && t'.local.id == t.local.id && t'.local.role == t.local.role
      && t'.local.session == t.local.session
  }

  lemma ApplyTouchesTopologyOnly(t: Table, s: Sync, adds: seq<int>, removes: seq<int>)
    ensures var t' := Apply(t, s, adds, removes).0; t' == t.(topology := t'.topology)
  {
  }

  lemma HandleSyncKeeps(t: Table, access: Access, s: Sync, now: nat, calls: Calls, adds: seq<int>, removes: seq<int>)
    requires Sound(t)
    ensures var t' := HandleSync(t, access, s, now, calls, adds, removes).0; Sound(t') && TableStep(t, t', now)
  {
    NothingHappened(t, now);
    HandleReportKeeps(t, access, s.ap, now, calls);
    ApplyTouchesTopologyOnly(HandleReport(t, access, s.ap, now, calls).0, s, adds, removes);
  }

  lemma StepKeepsSound(t: Table, step: Step)
    requires Sound(t) && Enabled(t, step)
    ensures Sound(Exec(t, step)) && Moves(t, Exec(t, step), Clock(step))
  {
    match step
    case ReportArrives(access, report, now, calls) => HandleReportKeeps(t, access, report, now, calls);
    case LeaveArrives(leave, now, calls) => HandleLeaveKeeps(t, leave, now, calls);
    case SyncArrives(access, sync, now, calls, adds, removes) =>
      HandleSyncKeeps(t, access, sync, now, calls, adds, removes);
    case AgeAll(now, perPeer) => AgeKeeps(t, now, perPeer, |t.peers|);
    case AccessDown(access, now, perPeer) => DeactivateKeeps(t, access, now, perPeer, |t.peers|);
    case ChannelChange(wifi, cellular) => NothingHappened(t, 0);
    case LocalChange(local) =>
      NothingHappened(t, 0);
      forall i | 0 <= i < |t.peers| ensures PeerOk(t.peers[i], local) {
        assert PeerOk(t.peers[i], t.local);
      }
  }

  predicate Run(t: Table, steps: seq<Step>)
    decreases |steps|
  {
    steps == [] || (Enabled(t, steps[0]) && Run(Exec(t, steps[0]), steps[1..]))
  }

  function Final(t: Table, steps: seq<Step>): Table
    requires Run(t, steps)
    decreases |steps|
  {
    if steps == [] then t else Final(Exec(t, steps[0]), steps[1..])
  }

  lemma {:induction false} RunKeepsSound(t: Table, steps: seq<Step>)
    requires Sound(t) && Run(t, steps)
    ensures Sound(Final(t, steps))
    decreases |steps|
  {
    if steps != [] {
      StepKeepsSound(t, steps[0]);
      RunKeepsSound(Exec(t, steps[0]), steps[1..]);
    }
  }

  /** A fresh session: start_core. */
  function Started(local: Report): Table {
    Table(local, seq(PEER_MAX, _ => FREE_PEER), (false, false), NO_TOPOLOGY, if local.role == Ap then 1 else 0, 0)
  }

  lemma StartedSound(local: Report)
    requires local.role != OtherRole
    ensures Sound(Started(local))
  {
    NobodyOnline(Started(local).peers);
  }

  /** In every reachable state: the counter is the number of online peers, node ids are
      distinct, and every online peer has a registered, active access. */
  lemma ReachableTable(local: Report, steps: seq<Step>)
    requires local.role != OtherRole && Run(Started(local), steps)
    ensures var t := Final(Started(local), steps);
            && t.peerCount == OnlineCount(t.peers) <= PEER_MAX
            && IdsDistinct(t.peers)
            && (forall i :: 0 <= i < |t.peers| && t.peers[i].online ==> t.peers[i].used && HasActive(t.peers[i]))
  {
    StartedSound(local);
    RunKeepsSound(Started(local), steps);
    var t := Final(Started(local), steps);
    OnlineCountBounded(t.peers);
    forall i | 0 <= i < |t.peers| && t.peers[i].online ensures t.peers[i].used && HasActive(t.peers[i]) {
      assert PeerOk(t.peers[i], t.local);
    }
  }

  /** After aging at `now`, whoever is still online was heard of less than 10 s ago or is
      stamped after `now`; whoever lost its slot was offline for at least 15 s, and a route
      still waiting for cleanup had just been removed. */
  lemma AgingGuarantee(t: Table, now: nat, perPeer: seq<Calls>, i: nat)
    requires Sound(t) && |perPeer| == |t.peers| && i < |t.peers|
    ensures var t' := Exec(t, AgeAll(now, perPeer));
            && |t'.peers| == |t.peers|
            && (t'.peers[i].online ==> HeardLately(t'.peers[i], now))
            && (t.peers[i].used && !t'.peers[i].used ==>
                  && !t.peers[i].online && t.peers[i].offlineSinceUs != 0
                  && now >= t.peers[i].offlineSinceUs + TOMBSTONE_US
                  && (t.peers[i].routePending ==> perPeer[i].removeRoute == 0))
  {
    AgeKeeps(t, now, perPeer, |t.peers|);
    var t' := Exec(t, AgeAll(now, perPeer));
    assert SlotStep(t.peers[i], t'.peers[i], t.local.role == Ap, now);
  }

  // ------------------------------------------------------------------ sessions over runs

  /** The record of slot `i` is kept throughout the run. */
  predicate KeptThroughout(t: Table, steps: seq<Step>, i: nat)
    requires Run(t, steps)
    decreases |steps|
  {
    && i < |t.peers| && t.peers[i].used
    && (steps != [] ==>
          && i < |Exec(t, steps[0]).peers|
          && !Freed(t.peers[i], Exec(t, steps[0]).peers[i])
          && KeptThroughout(Exec(t, steps[0]), steps[1..], i))
  }

  /** How often the session in slot `i` is replaced by another one. */
  function Replacements(t: Table, steps: seq<Step>, i: nat): nat
    requires Run(t, steps) && KeptThroughout(t, steps, i)
    decreases |steps|
  {
    if steps == [] then 0
    else
      var t1 := Exec(t, steps[0]);
      (if t1.peers[i].report.session != t.peers[i].report.session then 1 else 0) + Replacements(t1, steps[1..], i)
  }

  /** Revisions never go back while the session stays the same one. */
  lemma {:induction false} RevisionNeverBack(t: Table, steps: seq<Step>, i: nat)
    requires Sound(t) && Run(t, steps) && KeptThroughout(t, steps, i) && Replacements(t, steps, i) == 0
    ensures var t' := Final(t, steps);
            && i < |t'.peers| && t'.peers[i].used && t'.peers[i].report.id == t.peers[i].report.id
            && t'.peers[i].report.session == t.peers[i].report.session
            && t.peers[i].report.revision <= t'.peers[i].report.revision
            && (t.peers[i].closed ==> t'.peers[i].closed)
    decreases |steps|
  {
    if steps != [] {
      StepKeepsSound(t, steps[0]);
      var t1 := Exec(t, steps[0]);
      assert SlotStep(t.peers[i], t1.peers[i], t.local.role == Ap, Clock(steps[0]));
      RevisionNeverBack(t1, steps[1..], i);
    }
  }

  /** How many replacements a blocked session still survives. */
  function Lives(p: Peer, s: nat): nat { if p.previous == s then 0 else 1 }

  /** A session closed by a LEAVE stays shut out through the next session that replaces it;
      one that was replaced stays shut out until a further session replaces its successor. */
  lemma {:induction false} ShutOut(t: Table, steps: seq<Step>, i: nat, s: nat)
    requires Sound(t) && Run(t, steps) && KeptThroughout(t, steps, i) && Blocked(t.peers[i], s)
    requires Replacements(t, steps, i) <= Lives(t.peers[i], s)
    ensures i < |Final(t, steps).peers| && Blocked(Final(t, steps).peers[i], s)
    decreases |steps|
  {
    if steps != [] {
      StepKeepsSound(t, steps[0]);
      var t1 := Exec(t, steps[0]);
      assert SlotStep(t.peers[i], t1.peers[i], t.local.role == Ap, Clock(steps[0]));
      BlockedStaysBlocked(t.peers[i], t1.peers[i], t.local.role == Ap, Clock(steps[0]), s);
      ShutOut(t1, steps[1..], i, s);
    }
  }

  /** A report of a blocked session is never accepted. */
  lemma BlockedIsNotAccepted(t: Table, access: Access, r: Report, now: nat, calls: Calls, i: nat)
    requires Sound(t) && i < |t.peers| && t.peers[i].used && t.peers[i].report.id == r.id
    requires Blocked(t.peers[i], r.session)
    ensures HandleReport(t, access, r, now, calls).1 != 0 && HandleReport(t, access, r, now, calls).0 == t
  {
  }

  // ------------------------------------------------------------------ MAC ownership

  predicate OnlineThroughout(t: Table, steps: seq<Step>, i: nat)
    requires Run(t, steps)
    decreases |steps|
  {
    && i < |t.peers| && t.peers[i].online
    && (steps != [] ==> OnlineThroughout(Exec(t, steps[0]), steps[1..], i))
  }

  /** On an AP a MAC bound to an online peer stays the same until that peer goes offline,
      whatever sessions come and go. */
  lemma {:induction false} MacStaysBound(t: Table, steps: seq<Step>, i: nat)
    requires Sound(t) && t.local.role == Ap && Run(t, steps) && OnlineThroughout(t, steps, i) && t.peers[i].macBound
    ensures var t' := Final(t, steps); i < |t'.peers| && t'.peers[i].macBound && t'.peers[i].mac == t.peers[i].mac
                                       && t'.peers[i].report.id == t.peers[i].report.id
    decreases |steps|
  {
    if steps != [] {
      StepKeepsSound(t, steps[0]);
      var t1 := Exec(t, steps[0]);
      assert SlotStep(t.peers[i], t1.peers[i], t.local.role == Ap, Clock(steps[0]));
      MacStaysBound(t1, steps[1..], i);
    }
  }

  /** A session change accepted while the peer is online and bound carries the bound MAC. */
  lemma SessionChangeCarriesMac(t: Table, step: Step, i: nat)
    requires Sound(t) && Enabled(t, step) && t.local.role == Ap && i < |t.peers| && t.peers[i].online
    requires t.peers[i].macBound
    ensures var t' := Exec(t, step);
            && i < |t'.peers|
            && (t'.peers[i].online && t'.peers[i].report.session != t.peers[i].report.session ==>
                  t'.peers[i].report.mac == t.peers[i].mac && MacValid(t.peers[i].mac))
  {
    StepKeepsSound(t, step);
    assert SlotStep(t.peers[i], Exec(t, step).peers[i], true, Clock(step));
    assert PeerOk(t.peers[i], t.local);
  }

  // ------------------------------------------------------------------ topology

  /** On a running AP the online list is a function of the topology revision. */
  lemma {:induction false} ListFollowsRevision(t: Table, steps: seq<Step>)
    requires Sound(t) && t.local.role == Ap && Run(t, steps)
    ensures var t' := Final(t, steps);
            && t.revision <= t'.revision && t'.local.session == t.local.session && t'.local.role == Ap
            && (t'.revision == t.revision ==> OnlineIds(t'.peers) == OnlineIds(t.peers))
    decreases |steps|
  {
    if steps != [] {
      StepKeepsSound(t, steps[0]);
      var t1 := Exec(t, steps[0]);
      ListFollowsRevision(t1, steps[1..]);
      if t1.revision == t.revision {
        forall i | 0 <= i < |t.peers| ensures PeerOk(t1.peers[i], t.local) {
          assert PeerOk(t1.peers[i], t1.local);
        }
        SameOnlineSameIds(t.peers, t1.peers, t.local);
      }
    }
  }

  lemma NewLeavesTopology(t: Table, i: nat, access: Access, r: Report, now: nat, calls: Calls)
    requires i < |t.peers|
    ensures var t' := NewPeer(t, i, access, r, now, calls).0; t'.topology == t.topology && t'.local == t.local
  {
  }

  lemma ReportLeavesTopology(t: Table, access: Access, r: Report, now: nat, calls: Calls)
    ensures HandleReport(t, access, r, now, calls).0.topology == t.topology
    ensures HandleReport(t, access, r, now, calls).0.local == t.local
  {
    var i := FindPeer(t.peers, r.id, 0);
    var free := Acquire(t.peers, now);
    if i < |t.peers| {
      NewLeavesTopology(t, i, access, r, now, calls);
    } else if free < |t.peers| {
      NewLeavesTopology(SetPeer(t, free, FREE_PEER), free, access, r, now, calls);
    }
  }

  predicate KeptOrCleared(before: Topology, after: Topology) {
    after == before || (after.session == 0 && after.revision == 0 && (after.nodes == before.nodes || after.nodes == []))
  }

  lemma AgeSlotTopology(t: Table, i: nat, now: nat, calls: Calls)
    requires i < |t.peers|
    ensures var t' := AgeSlot(t, i, now, calls).0; KeptOrCleared(t.topology, t'.topology) && t'.local == t.local
  {
  }

  lemma DeactivateSlotTopology(t: Table, i: nat, access: Access, now: nat, calls: Calls)
    requires i < |t.peers|
    ensures var t' := DeactivateSlot(t, i, access, now, calls).0;
            KeptOrCleared(t.topology, t'.topology) && t'.local == t.local
  {
  }

  lemma {:induction false} AgeTopology(t: Table, now: nat, calls: seq<Calls>, k: nat)
    requires k <= |t.peers| && k <= |calls|
    ensures var t' := Age(t, now, calls, k).0; KeptOrCleared(t.topology, t'.topology) && t'.local == t.local
  {
    if k > 0 {
      AgeTopology(t, now, calls, k - 1);
      AgeSlotTopology(Age(t, now, calls, k - 1).0, k - 1, now, calls[k - 1]);
    }
  }

  lemma {:induction false} DeactivateTopology(t: Table, access: Access, now: nat, calls: seq<Calls>, k: nat)
    requires k <= |t.peers| && k <= |calls|
    ensures var t' := Deactivate(t, access, now, calls, k).0;
            KeptOrCleared(t.topology, t'.topology) && t'.local == t.local
  {
    if k > 0 {
      DeactivateTopology(t, access, now, calls, k - 1);
      DeactivateSlotTopology(Deactivate(t, access, now, calls, k - 1).0, k - 1, access, now, calls[k - 1]);
    }
  }

  // ------------------------------------------------------------------ the record while the AP is online

  /** The AP of session `s` is online in slot `i`, and nobody else is. */
  predicate SoleOnline(t: Table, i: nat, s: nat) {
    && i < |t.peers| && t.peers[i].online && t.peers[i].report.session == s
    && forall j :: 0 <= j < |t.peers| && j != i ==> !t.peers[j].online
  }

  /** The revision recorded of session `s`, 0 for none. */
  function RecordOf(t: Table, s: nat): nat { if t.topology.session == s then t.topology.revision else 0 }

  predicate OnlyMaybe(peers: seq<Peer>, i: nat) { forall j :: 0 <= j < |peers| && j != i ==> !peers[j].online }

  lemma {:induction false} AgeLeavesRecord(t: Table, now: nat, calls: seq<Calls>, k: nat, i: nat)
    requires k <= |t.peers| && k <= |calls| && i < |t.peers| && OnlyMaybe(t.peers, i)
    ensures var t' := Age(t, now, calls, k).0;
            && OnlyMaybe(t'.peers, i) && (i >= k ==> t'.peers[i] == t.peers[i])
            && (t'.peers[i].online ==> t.peers[i].online && t'.topology == t.topology)
  {
    if k > 0 {
      AgeLeavesRecord(t, now, calls, k - 1, i);
      AgeSlotRecord(Age(t, now, calls, k - 1).0, k - 1, now, calls[k - 1], i);
    }
  }

  lemma AgeSlotRecord(t: Table, k: nat, now: nat, calls: Calls, i: nat)
    requires k < |t.peers| && i < |t.peers| && OnlyMaybe(t.peers, i)
    ensures var t' := AgeSlot(t, k, now, calls).0;
            && |t'.peers| == |t.peers| && OnlyMaybe(t'.peers, i) && (i != k ==> t'.peers[i] == t.peers[i])
            && (t'.peers[i].online ==> t.peers[i].online && t'.topology == t.topology)
  {
  }

  lemma {:induction false} DeactivateLeavesRecord(t: Table, access: Access, now: nat, calls: seq<Calls>, k: nat, i: nat)
    requires k <= |t.peers| && k <= |calls| && i < |t.peers| && OnlyMaybe(t.peers, i)
    ensures var t' := Deactivate(t, access, now, calls, k).0;
            && OnlyMaybe(t'.peers, i) && (i >= k ==> t'.peers[i] == t.peers[i])
            && (t'.peers[i].online ==> t.peers[i].online && t'.topology == t.topology)
  {
    if k > 0 {
      DeactivateLeavesRecord(t, access, now, calls, k - 1, i);
      DeactivateSlotRecord(Deactivate(t, access, now, calls, k - 1).0, k - 1, access, now, calls[k - 1], i);
    }
  }

  lemma DeactivateSlotRecord(t: Table, k: nat, access: Access, now: nat, calls: Calls, i: nat)
    requires k < |t.peers| && i < |t.peers| && OnlyMaybe(t.peers, i)
    ensures var t' := DeactivateSlot(t, k, access, now, calls).0;
            && |t'.peers| == |t.peers| && OnlyMaybe(t'.peers, i) && (i != k ==> t'.peers[i] == t.peers[i])
            && (t'.peers[i].online ==> t.peers[i].online && t'.topology == t.topology)
  {
  }

  lemma LeaveLeavesRecord(t: Table, leave: Leave, now: nat, calls: Calls, i: nat)
    requires i < |t.peers| && OnlyMaybe(t.peers, i)
    ensures var t' := HandleLeave(t, leave, now, calls).0;
            i < |t'.peers| && (t'.peers[i].online ==> t'.topology == t.topology)
  {
  }

  /** A snapshot is applied only for the session of an online AP, and only with a newer list. */
  lemma SyncKeepsRecord(t: Table, access: Access, s: Sync, now: nat, calls: Calls, adds: seq<int>, removes: seq<int>,
                        i: nat, session: nat)
    requires var t' := HandleSync(t, access, s, now, calls, adds, removes).0; SoleOnline(t', i, session)
    ensures var t' := HandleSync(t, access, s, now, calls, adds, removes).0;
            t'.topology == t.topology || (t'.topology.session == session && RecordOf(t, session) < t'.topology.revision)
  {
    ReportLeavesTopology(t, access, s.ap, now, calls);
    ApplyTouchesTopologyOnly(HandleReport(t, access, s.ap, now, calls).0, s, adds, removes);
  }

  lemma RecordStep(t: Table, step: Step, i: nat, session: nat)
    requires Enabled(t, step) && SoleOnline(t, i, session) && SoleOnline(Exec(t, step), i, session)
    ensures var t' := Exec(t, step);
            t'.topology == t.topology || (t'.topology.session == session && RecordOf(t, session) < t'.topology.revision)
  {
    match step
    case ReportArrives(access, report, now, calls) => ReportLeavesTopology(t, access, report, now, calls);
    case SyncArrives(access, sync, now, calls, adds, removes) =>
      SyncKeepsRecord(t, access, sync, now, calls, adds, removes, i, session);
    case LeaveArrives(leave, now, calls) => LeaveLeavesRecord(t, leave, now, calls, i);
    case AgeAll(now, perPeer) => AgeLeavesRecord(t, now, perPeer, |t.peers|, i);
    case AccessDown(access, now, perPeer) => DeactivateLeavesRecord(t, access, now, perPeer, |t.peers|, i);
    case ChannelChange(wifi, cellular) =>
    case LocalChange(local) =>
  }

  /** Node gives a STA one peer: it registers no other node while one is online. */
  predicate NodeRefuses(t: Table, r: Report, calls: Calls) {
    (exists j :: 0 <= j < |t.peers| && t.peers[j].online && t.peers[j].report.id != r.id) ==> calls.registerNode != 0
  }

  predicate OnePeerRule(t: Table, step: Step) {
    match step
    case ReportArrives(_, report, _, calls) => NodeRefuses(t, report, calls)
    case SyncArrives(_, sync, _, calls, _, _) => NodeRefuses(t, sync.ap, calls)
    case _ => true
  }

  lemma RefusedStaysOffline(t: Table, q: nat, access: Access, r: Report, now: nat, calls: Calls, i: nat)
    requires q < |t.peers| && q != i && OnlyMaybe(t.peers, i) && calls.registerNode != 0
    ensures OnlyMaybe(NewPeer(t, q, access, r, now, calls).0.peers, i)
  {
  }

  lemma KnownStaysOffline(t: Table, q: nat, access: Access, r: Report, now: nat, calls: Calls, i: nat)
    requires q < |t.peers| && OnlyMaybe(t.peers, i) && (q != i ==> calls.registerNode != 0)
    ensures OnlyMaybe(HandleKnown(t, q, access, r, now, calls).0.peers, i)
  {
    if q != i {
      RefusedStaysOffline(t, q, access, r, now, calls, i);
    }
  }

  lemma ReportKeepsSole(t: Table, access: Access, r: Report, now: nat, calls: Calls, i: nat)
    requires Sound(t) && i < |t.peers| && t.peers[i].online && OnlyMaybe(t.peers, i) && NodeRefuses(t, r, calls)
    ensures OnlyMaybe(HandleReport(t, access, r, now, calls).0.peers, i)
  {
    var q, free := FindPeer(t.peers, r.id, 0), Acquire(t.peers, now);
    assert PeerOk(t.peers[i], t.local);
    if q < |t.peers| {
      KnownStaysOffline(t, q, access, r, now, calls, i);
    } else if free < |t.peers| {
      RefusedStaysOffline(SetPeer(t, free, FREE_PEER), free, access, r, now, calls, i);
    }
  }

  lemma StepKeepsSole(t: Table, step: Step, i: nat)
    requires Sound(t) && Enabled(t, step) && i < |t.peers| && t.peers[i].online && OnlyMaybe(t.peers, i)
    requires OnePeerRule(t, step)
    ensures OnlyMaybe(Exec(t, step).peers, i)
  {
    match step
    case ReportArrives(access, report, now, calls) => ReportKeepsSole(t, access, report, now, calls, i);
    case SyncArrives(access, sync, now, calls, adds, removes) =>
      ReportKeepsSole(t, access, sync.ap, now, calls, i);
      ApplyTouchesTopologyOnly(HandleReport(t, access, sync.ap, now, calls).0, sync, adds, removes);
    case LeaveArrives(leave, now, calls) =>
    case AgeAll(now, perPeer) => AgeLeavesRecord(t, now, perPeer, |t.peers|, i);
    case AccessDown(access, now, perPeer) => DeactivateLeavesRecord(t, access, now, perPeer, |t.peers|, i);
    case ChannelChange(wifi, cellular) =>
    case LocalChange(local) =>
  }

  /** Slot `i` stays online in session `s`, and Node keeps its rule. */
  predicate StaysOnline(t: Table, steps: seq<Step>, i: nat, s: nat)
    requires Run(t, steps)
    decreases |steps|
  {
    && i < |t.peers| && t.peers[i].online && t.peers[i].report.session == s
    && (steps == [] || (OnePeerRule(t, steps[0]) && StaysOnline(Exec(t, steps[0]), steps[1..], i, s)))
  }

  /** While an AP's session stays online its recorded revision never goes back, and once there is
      a record of it there always is: nothing clears it and no other list replaces it. */
  lemma {:induction false} RecordNeverBack(t: Table, steps: seq<Step>, i: nat, session: nat)
    requires Sound(t) && session != 0 && Run(t, steps) && StaysOnline(t, steps, i, session) && OnlyMaybe(t.peers, i)
    ensures RecordOf(t, session) <= RecordOf(Final(t, steps), session)
    ensures t.topology.session == session ==> Final(t, steps).topology.session == session
    decreases |steps|
  {
    if steps != [] {
      StepKeepsSound(t, steps[0]);
      StepKeepsSole(t, steps[0], i);
      RecordStep(t, steps[0], i, session);
      RecordNeverBack(Exec(t, steps[0]), steps[1..], i, session);
    }
  }

  // ------------------------------------------------------------------ agreement of AP and STA

  /** The state after the first `k` steps of a run. */
  function At(t: Table, steps: seq<Step>, k: nat): Table
    requires Run(t, steps) && k <= |steps|
    decreases k
  {
    if k == 0 then t else At(Exec(t, steps[0]), steps[1..], k - 1)
  }

  /** A message of this AP's session is what the AP built in some state of its run. */
  predicate Published(ap: Table, apSteps: seq<Step>, s: Sync)
    requires Run(ap, apSteps)
  {
    s.ap.session == ap.local.session ==> exists k :: 0 <= k <= |apSteps| && BuildSync(At(ap, apSteps, k)) == Built(s)
  }

  /** A record of this AP's session is the AP's list in some state, without the STA itself. */
  predicate RecordsAState(ap: Table, apSteps: seq<Step>, t: Table)
    requires Run(ap, apSteps)
  {
    t.topology.session == ap.local.session ==>
      exists k :: && 0 <= k <= |apSteps| && t.topology.revision == At(ap, apSteps, k).revision
                  && t.topology.nodes == Without(OnlineIds(At(ap, apSteps, k).peers), t.local.id)
  }

  lemma AppliedRecordsAState(ap: Table, apSteps: seq<Step>, t: Table, s: Sync, adds: seq<int>, removes: seq<int>)
    requires Run(ap, apSteps) && RecordsAState(ap, apSteps, t) && Published(ap, apSteps, s)
    ensures RecordsAState(ap, apSteps, Apply(t, s, adds, removes).0)
  {
    var t' := Apply(t, s, adds, removes).0;
    if t' != t && s.ap.session == ap.local.session {
      var k :| 0 <= k <= |apSteps| && BuildSync(At(ap, apSteps, k)) == Built(s);
      assert t'.topology.revision == At(ap, apSteps, k).revision;
    }
  }

  lemma SyncRecordsAState(ap: Table, apSteps: seq<Step>, t: Table, access: Access, s: Sync, now: nat, calls: Calls,
                          adds: seq<int>, removes: seq<int>)
    requires Run(ap, apSteps) && RecordsAState(ap, apSteps, t) && Published(ap, apSteps, s)
    ensures RecordsAState(ap, apSteps, HandleSync(t, access, s, now, calls, adds, removes).0)
  {
    var t1 := HandleReport(t, access, s.ap, now, calls).0;
    ReportLeavesTopology(t, access, s.ap, now, calls);
    assert RecordsAState(ap, apSteps, t1);
    AppliedRecordsAState(ap, apSteps, t1, s, adds, removes);
  }

  lemma StepTopology(t: Table, step: Step)
    requires Enabled(t, step) && !step.SyncArrives?
    ensures KeptOrCleared(t.topology, Exec(t, step).topology) && Exec(t, step).local.id == t.local.id
  {
    match step
    case ReportArrives(access, report, now, calls) => ReportLeavesTopology(t, access, report, now, calls);
    case LeaveArrives(leave, now, calls) =>
    case AgeAll(now, perPeer) => AgeTopology(t, now, perPeer, |t.peers|);
    case AccessDown(access, now, perPeer) => DeactivateTopology(t, access, now, perPeer, |t.peers|);
    case ChannelChange(wifi, cellular) =>
    case LocalChange(local) =>
  }

  lemma StepRecordsAState(ap: Table, apSteps: seq<Step>, t: Table, step: Step)
    requires Run(ap, apSteps) && RecordsAState(ap, apSteps, t) && Enabled(t, step) && ap.local.session != 0
    requires step.SyncArrives? ==> Published(ap, apSteps, step.sync)
    ensures RecordsAState(ap, apSteps, Exec(t, step))
  {
    match step
    case SyncArrives(access, sync, now, calls, adds, removes) =>
      SyncRecordsAState(ap, apSteps, t, access, sync, now, calls, adds, removes);
    case _ => StepTopology(t, step);
  }

  /** An AP and a STA run side by side. Lost, late, repeated and reordered messages and failing
      route calls never make the STA record anything but the AP's online list of some state. */
  lemma {:induction false} StaRecordsApStates(ap: Table, apSteps: seq<Step>, t: Table, steps: seq<Step>)
    requires Run(ap, apSteps) && ap.local.session != 0 && RecordsAState(ap, apSteps, t) && Run(t, steps)
    requires forall k :: 0 <= k < |steps| && steps[k].SyncArrives? ==> Published(ap, apSteps, steps[k].sync)
    ensures RecordsAState(ap, apSteps, Final(t, steps))
    decreases |steps|
  {
    if steps != [] {
      StepRecordsAState(ap, apSteps, t, steps[0]);
      forall k | 0 <= k < |steps[1..]| && steps[1..][k].SyncArrives?
        ensures Published(ap, apSteps, steps[1..][k].sync)
      {
        assert steps[1..][k] == steps[k + 1];
      }
      StaRecordsApStates(ap, apSteps, Exec(t, steps[0]), steps[1..]);
    }
  }

  lemma {:induction false} AtIsSound(t: Table, steps: seq<Step>, k: nat)
    requires Sound(t) && t.local.role == Ap && Run(t, steps) && k <= |steps|
    ensures Sound(At(t, steps, k)) && At(t, steps, k).local.role == Ap
    decreases k
  {
    if k > 0 {
      StepKeepsSound(t, steps[0]);
      AtIsSound(Exec(t, steps[0]), steps[1..], k - 1);
    }
  }

  lemma {:induction false} LaterIsFinal(t: Table, steps: seq<Step>, j: nat, k: nat)
    requires Run(t, steps) && j <= k <= |steps|
    ensures Run(At(t, steps, j), steps[j..k]) && At(t, steps, k) == Final(At(t, steps, j), steps[j..k])
    decreases k
  {
    if j > 0 {
      LaterIsFinal(Exec(t, steps[0]), steps[1..], j - 1, k - 1);
      assert steps[1..][j - 1..k - 1] == steps[j..k];
    } else if k > 0 {
      LaterIsFinal(Exec(t, steps[0]), steps[1..], 0, k - 1);
      assert steps[1..][0..k - 1] == steps[0..k][1..] && steps[0..k][0] == steps[0];
    } else {
      assert steps[0..0] == [];
    }
  }

  /** So the record of a revision is the AP's list, without the STA, in every state the AP has
      that revision in: AP and STA agree. */
  lemma TopologyAgreement(ap: Table, apSteps: seq<Step>, t: Table, steps: seq<Step>, k: nat)
    requires Sound(ap) && ap.local.role == Ap && ap.local.session != 0 && Run(ap, apSteps) && k <= |apSteps|
    requires RecordsAState(ap, apSteps, t) && Run(t, steps)
    requires forall j :: 0 <= j < |steps| && steps[j].SyncArrives? ==> Published(ap, apSteps, steps[j].sync)
    requires var t' := Final(t, steps);
             t'.topology.session == ap.local.session && t'.topology.revision == At(ap, apSteps, k).revision
    ensures var t' := Final(t, steps); t'.topology.nodes == Without(OnlineIds(At(ap, apSteps, k).peers), t'.local.id)
  {
    StaRecordsApStates(ap, apSteps, t, steps);
    var t' := Final(t, steps);
    var j :| && 0 <= j <= |apSteps| && t'.topology.revision == At(ap, apSteps, j).revision
             && t'.topology.nodes == Without(OnlineIds(At(ap, apSteps, j).peers), t'.local.id);
    var first, last := if j <= k then j else k, if j <= k then k else j;
    AtIsSound(ap, apSteps, first);
    LaterIsFinal(ap, apSteps, first, last);
    ListFollowsRevision(At(ap, apSteps, first), apSteps[first..last]);
  }

  /** Two snapshots an AP builds in one session with the same revision are the same list. */
  lemma SnapshotsOfOneRevision(t: Table, steps: seq<Step>)
    requires Sound(t) && t.local.role == Ap && Run(t, steps)
    ensures var a, b := BuildSync(t), BuildSync(Final(t, steps));
            && a.Built? && b.Built? && a.sync.ap.session == b.sync.ap.session
            && (a.sync.revision == b.sync.revision ==> a.sync.nodes == b.sync.nodes)
  {
    ListFollowsRevision(t, steps);
    RunKeepsSound(t, steps);
    OnlineIdsFit(t.peers);
    OnlineIdsFit(Final(t, steps).peers);
  }
}
