/** The local report and its revision (discovery_local.c), and what the other side's
    REFRESH and UPDATE rule makes of it. */
module DiscoveryLocal {
  import opened DiscoveryTypes
  import opened DiscoveryPeers
  import opened DiscoveryInvariant
  import opened DiscoveryRuns

  const REVISION_MAX: nat := 0xFFFF_FFFF_FFFF_FFFF

  /** What preparing an endpoint answers: an error, not ready, or the endpoint. */
  datatype Seen = Failed | NotReady | Ready(endpoint: Endpoint)

  /** The addressing comparison: padding, and the scope of an IPv4 address, do not count. */
  predicate SameEndpoint(a: Endpoint, b: Endpoint) {
    match (a, b)
    case (NoEndpoint, NoEndpoint) => true
    case (Endpoint(f, x, p, s, _), Endpoint(g, y, q, u, _)) => f == g && x == y && p == q && (f == V6 ==> s == u)
    case _ => false
  }

  predicate Changed(valid: bool, current: Endpoint, seen: Seen) {
    match seen
    case Failed => false
    case NotReady => valid || current.Endpoint?
    case Ready(e) => !valid || !SameEndpoint(current, e)
  }

  function Applied(current: Endpoint, seen: Seen): Endpoint {
    match seen
    case Failed => current
    case NotReady => NoEndpoint
    case Ready(e) => e
  }

  function Flag(current: bool, seen: Seen): bool { if seen == Failed then current else seen.Ready? }

  predicate AnyChange(local: Report, wifi: Seen, cellular: Seen) {
    Changed(local.flags.wifi, local.wifi, wifi) || Changed(local.flags.cellular, local.cellular, cellular)
  }

  /** refresh_local_endpoints: any change advances the revision once. */
  function RefreshLocal(local: Report, wifi: Seen, cellular: Seen): (Report, int) {
    if !AnyChange(local, wifi, cellular) then (local, 0)
    else if local.revision == REVISION_MAX then (local, EOVERFLOW)
    else (local.(revision := local.revision + 1,
                 wifi := Applied(local.wifi, wifi), cellular := Applied(local.cellular, cellular),
                 flags := local.flags.(wifi := Flag(local.flags.wifi, wifi),
                                       cellular := Flag(local.flags.cellular, cellular))), 0)
  }

  /** The same paths and equivalent endpoints; the Wi-Fi MAC is filled in by the channel and does not count. */
  predicate SameContent(a: Report, b: Report) {
    a.flags == b.flags && SameEndpoint(a.wifi, b.wifi) && SameEndpoint(a.cellular, b.cellular)
  }

  function AfterRefreshes(local: Report, seen: seq<(Seen, Seen)>): Report {
    if seen == [] then local
    else RefreshLocal(AfterRefreshes(local, seen[..|seen| - 1]), seen[|seen| - 1].0, seen[|seen| - 1].1).0
  }

  lemma {:induction false} RevisionTracksContent(local: Report, seen: seq<(Seen, Seen)>)
    ensures var later := AfterRefreshes(local, seen);
            && later.session == local.session && later.id == local.id && later.role == local.role
            && local.revision <= later.revision
            && (later.revision == local.revision ==> later == local)
  {
    if seen != [] {
      RevisionTracksContent(local, seen[..|seen| - 1]);
    }
  }

  lemma {:induction false} RefreshesCompose(local: Report, a: seq<(Seen, Seen)>, b: seq<(Seen, Seen)>)
    ensures AfterRefreshes(local, a + b) == AfterRefreshes(AfterRefreshes(local, a), b)
  {
    if b == [] {
      assert a + b == a;
    } else {
      RefreshesCompose(local, a, b[..|b| - 1]);
      assert (a + b)[..|a + b| - 1] == a + b[..|b| - 1];
    }
  }

  /** Two reports of one session with the same revision say the same, whatever happened to
      the interfaces in between. */
  lemma OneContentPerRevision(local: Report, seen: seq<(Seen, Seen)>, i: nat, j: nat)
    requires i <= j <= |seen|
    ensures var a, b := AfterRefreshes(local, seen[..i]), AfterRefreshes(local, seen[..j]);
            a.session == b.session && (a.revision == b.revision ==> SameContent(a, b))
  {
    assert seen[..j] == seen[..i] + seen[i..j];
    RefreshesCompose(local, seen[..i], seen[i..j]);
    RevisionTracksContent(AfterRefreshes(local, seen[..i]), seen[i..j]);
  }

  /** Seeing the same again settles: after a refresh that worked, neither the content nor the
      revision moves until something else is seen. */
  lemma RefreshSettles(local: Report, wifi: Seen, cellular: Seen)
    requires RefreshLocal(local, wifi, cellular).1 == 0
    ensures var next := RefreshLocal(local, wifi, cellular).0; RefreshLocal(next, wifi, cellular) == (next, 0)
  {
  }

  class LocalState {
    var report: Report

    constructor (report: Report)
      ensures this.report == report
    {
      this.report := report;
    }

    method Refresh(wifi: Seen, cellular: Seen) returns (ret: int)
      modifies this
      ensures (report, ret) == RefreshLocal(old(report), wifi, cellular)
    {
      var wifiChanged, cellularChanged := false, false;
      if !wifi.Failed? {
        if wifi.Ready? {
          wifiChanged := !report.flags.wifi || !SameEndpoint(report.wifi, wifi.endpoint);
        } else {
          wifiChanged := report.flags.wifi || report.wifi.Endpoint?;
        }
      }
      if !cellular.Failed? {
        if cellular.Ready? {
          cellularChanged := !report.flags.cellular || !SameEndpoint(report.cellular, cellular.endpoint);
        } else {
          cellularChanged := report.flags.cellular || report.cellular.Endpoint?;
        }
      }
      if !wifiChanged && !cellularChanged {
        return 0;
      }
      if report.revision == REVISION_MAX {
        return EOVERFLOW;
      }
      report := report.(revision := report.revision + 1);
      if wifi.Ready? {
        report := report.(wifi := wifi.endpoint, flags := report.flags.(wifi := true));
      } else if wifi.NotReady? {
        report := report.(wifi := NoEndpoint, flags := report.flags.(wifi := false));
      }
      if cellular.Ready? {
        report := report.(cellular := cellular.endpoint, flags := report.flags.(cellular := true));
      } else if cellular.NotReady? {
        report := report.(cellular := NoEndpoint, flags := report.flags.(cellular := false));
      }
      return 0;
    }
  }

  // ------------------------------------------------------------------ the receiving side

  /** A report of the session whose local report began as `local`. */
  predicate OfSender(local: Report, r: Report) { r.id == local.id && r.session == local.session }

  /** ... that was built after some of the refreshes in `seen`; the channel fills in the MAC. */
  predicate Sent(local: Report, seen: seq<(Seen, Seen)>, r: Report) {
    exists k :: 0 <= k <= |seen| && r.(mac := NO_MAC) == AfterRefreshes(local, seen[..k]).(mac := NO_MAC)
  }

  predicate HoldsSent(local: Report, seen: seq<(Seen, Seen)>, t: Table) {
    forall i :: 0 <= i < |t.peers| && t.peers[i].used && OfSender(local, t.peers[i].report) ==>
      Sent(local, seen, t.peers[i].report)
  }

  /** Whatever arrives in the sender's name, lost, late, repeated or reordered, it did send. */
  predicate FromSender(local: Report, seen: seq<(Seen, Seen)>, step: Step) {
    && (step.ReportArrives? && OfSender(local, step.report) ==> Sent(local, seen, step.report))
    && (step.SyncArrives? && OfSender(local, step.sync.ap) ==> Sent(local, seen, step.sync.ap))
  }

  /** What was sent under a revision is what the sender says at every moment of that revision. */
  lemma SentIsContent(local: Report, seen: seq<(Seen, Seen)>, r: Report, k: nat)
    requires Sent(local, seen, r) && k <= |seen| && AfterRefreshes(local, seen[..k]).revision == r.revision
    ensures SameContent(r, AfterRefreshes(local, seen[..k]))
  {
    var j :| 0 <= j <= |seen| && r.(mac := NO_MAC) == AfterRefreshes(local, seen[..j]).(mac := NO_MAC);
    assert r.revision == AfterRefreshes(local, seen[..j]).revision;
    if j <= k {
      OneContentPerRevision(local, seen, j, k);
    } else {
      OneContentPerRevision(local, seen, k, j);
    }
  }

  lemma SentAlike(local: Report, seen: seq<(Seen, Seen)>, a: Report, b: Report)
    requires Sent(local, seen, a) && Sent(local, seen, b) && a.revision == b.revision
    ensures SameContent(a, b)
  {
    var j :| 0 <= j <= |seen| && b.(mac := NO_MAC) == AfterRefreshes(local, seen[..j]).(mac := NO_MAC);
    assert b.revision == AfterRefreshes(local, seen[..j]).revision;
    SentIsContent(local, seen, a, j);
  }

  /** A stored report is one that arrived, or nothing. */
  predicate Stored(a: Peer, b: Peer) { b.report == a.report && b.used == a.used }

  /** Slot `i` after an operation that had report `r` at hand. */
  predicate StoresOnly(t: Table, t': Table, r: Report, i: nat)
    requires i < |t.peers|
  {
    |t'.peers| == |t.peers| && (Stored(t.peers[i], t'.peers[i]) || !t'.peers[i].used || t'.peers[i].report == r)
  }

  lemma RefreshStores(t: Table, k: nat, access: Access, r: Report, now: nat, calls: Calls, i: nat)
    requires k < |t.peers| && i < |t.peers|
    ensures StoresOnly(t, RefreshPeer(t, k, access, r, now, calls).0, r, i)
  {
  }

  lemma UpdateStores(t: Table, k: nat, access: Access, r: Report, now: nat, calls: Calls, i: nat)
    requires k < |t.peers| && i < |t.peers|
    ensures StoresOnly(t, UpdatePeer(t, k, access, r, now, calls).0, r, i)
  {
  }

  lemma RestartStores(t: Table, k: nat, access: Access, r: Report, now: nat, calls: Calls, i: nat)
    requires k < |t.peers| && i < |t.peers|
    ensures StoresOnly(t, RestartPeer(t, k, access, r, now, calls).0, r, i)
  {
  }

  lemma HandleKnownStores(t: Table, k: nat, access: Access, r: Report, now: nat, calls: Calls, i: nat)
    requires k < |t.peers| && i < |t.peers|
    ensures StoresOnly(t, HandleKnown(t, k, access, r, now, calls).0, r, i)
  {
    match Classify(t.peers[k], r)
    case New => NewStores(t, k, access, r, now, calls, i);
    case Refresh => RefreshStores(t, k, access, r, now, calls, i);
    case UpdateEvent => UpdateStores(t, k, access, r, now, calls, i);
    case Restart => RestartStores(t, k, access, r, now, calls, i);
    case Stale =>
  }

  lemma ReportStores(t: Table, access: Access, r: Report, now: nat, calls: Calls, i: nat)
    requires i < |t.peers|
    ensures StoresOnly(t, HandleReport(t, access, r, now, calls).0, r, i)
  {
    var k := FindPeer(t.peers, r.id, 0);
    var free := Acquire(t.peers, now);
    if k < |t.peers| {
      HandleKnownStores(t, k, access, r, now, calls, i);
    } else if free < |t.peers| {
      NewStores(SetPeer(t, free, FREE_PEER), free, access, r, now, calls, i);
    }
  }

  lemma NewStores(t: Table, k: nat, access: Access, r: Report, now: nat, calls: Calls, i: nat)
    requires k < |t.peers| && i < |t.peers|
    ensures StoresOnly(t, NewPeer(t, k, access, r, now, calls).0, r, i)
  {
  }

  lemma {:induction false} AgeStores(t: Table, now: nat, calls: seq<Calls>, k: nat, i: nat)
    requires k <= |t.peers| && k <= |calls| && i < |t.peers|
    ensures var t' := Age(t, now, calls, k).0; Stored(t.peers[i], t'.peers[i]) || !t'.peers[i].used
  {
    if k > 0 {
      AgeStores(t, now, calls, k - 1, i);
      AgeSlotStores(Age(t, now, calls, k - 1).0, k - 1, now, calls[k - 1], i);
    }
  }

  lemma AgeSlotStores(t: Table, k: nat, now: nat, calls: Calls, i: nat)
    requires k < |t.peers| && i < |t.peers|
    ensures var t' := AgeSlot(t, k, now, calls).0;
            |t'.peers| == |t.peers| && (Stored(t.peers[i], t'.peers[i]) || !t'.peers[i].used)
  {
  }

  lemma {:induction false} DeactivateStores(t: Table, access: Access, now: nat, calls: seq<Calls>, k: nat, i: nat)
    requires k <= |t.peers| && k <= |calls| && i < |t.peers|
    ensures var t' := Deactivate(t, access, now, calls, k).0; Stored(t.peers[i], t'.peers[i])
  {
    if k > 0 {
      DeactivateStores(t, access, now, calls, k - 1, i);
      var t1 := Deactivate(t, access, now, calls, k - 1).0;
      DeactivateSlotStores(t1, k - 1, access, now, calls[k - 1], i);
      assert Deactivate(t, access, now, calls, k).0 == DeactivateSlot(t1, k - 1, access, now, calls[k - 1]).0;
    }
  }

  lemma TakeOfflineStores(t: Table, k: nat, now: nat, calls: Calls)
    requires k < |t.peers|
    ensures var t' := TakeOffline(t, k, now, calls).0;
            t'.peers == t.peers[k := t'.peers[k]] && |t'.peers| == |t.peers| && Stored(t.peers[k], t'.peers[k])
  {
  }

  lemma DeactivateSlotStores(t: Table, k: nat, access: Access, now: nat, calls: Calls, i: nat)
    requires k < |t.peers| && i < |t.peers|
    ensures var t' := DeactivateSlot(t, k, access, now, calls).0;
            |t'.peers| == |t.peers| && Stored(t.peers[i], t'.peers[i])
  {
    var p1 := SetLive(t.peers[k], access, LiveOf(t.peers[k], access).(active := false));
    TakeOfflineStores(SetPeer(t, k, p1), k, now, calls);
  }

  lemma OtherStepStores(t: Table, step: Step, i: nat)
    requires Enabled(t, step) && i < |t.peers| && !step.ReportArrives? && !step.SyncArrives?
    ensures var t' := Exec(t, step); |t'.peers| == |t.peers| && (Stored(t.peers[i], t'.peers[i]) || !t'.peers[i].used)
  {
    match step
    case LeaveArrives(leave, now, calls) =>
    case AgeAll(now, perPeer) => AgeStores(t, now, perPeer, |t.peers|, i);
    case AccessDown(access, now, perPeer) => DeactivateStores(t, access, now, perPeer, |t.peers|, i);
    case ChannelChange(wifi, cellular) =>
    case LocalChange(local) =>
  }

  lemma SlotHoldsSent(local: Report, seen: seq<(Seen, Seen)>, t: Table, step: Step, i: nat)
    requires HoldsSent(local, seen, t) && Enabled(t, step) && FromSender(local, seen, step) && i < |t.peers|
    ensures var t' := Exec(t, step);
            && |t'.peers| == |t.peers|
            && (t'.peers[i].used && OfSender(local, t'.peers[i].report) ==> Sent(local, seen, t'.peers[i].report))
  {
    match step
    case ReportArrives(access, report, now, calls) => ReportStores(t, access, report, now, calls, i);
    case SyncArrives(access, sync, now, calls, adds, removes) => ReportStores(t, access, sync.ap, now, calls, i);
    case _ => OtherStepStores(t, step, i);
  }

  lemma {:induction false} RunHoldsSent(local: Report, seen: seq<(Seen, Seen)>, t: Table, steps: seq<Step>)
    requires Sound(t) && HoldsSent(local, seen, t) && Run(t, steps)
    requires forall k :: 0 <= k < |steps| ==> FromSender(local, seen, steps[k])
    ensures HoldsSent(local, seen, Final(t, steps))
    decreases |steps|
  {
    if steps != [] {
      var t' := Exec(t, steps[0]);
      StepKeepsSound(t, steps[0]);
      forall i | 0 <= i < |t'.peers| && t'.peers[i].used && OfSender(local, t'.peers[i].report)
        ensures Sent(local, seen, t'.peers[i].report)
      {
        SlotHoldsSent(local, seen, t, steps[0], i);
      }
      RunHoldsSent(local, seen, t', steps[1..]);
    }
  }

  /** Over any run, what a receiver stores of a session has the content the sender has at every
      moment at which its own report carries the stored revision. */
  lemma ReceiverHoldsSendersContent(local: Report, seen: seq<(Seen, Seen)>, t: Table, steps: seq<Step>, i: nat, k: nat)
    requires Sound(t) && HoldsSent(local, seen, t) && Run(t, steps)
    requires forall j :: 0 <= j < |steps| ==> FromSender(local, seen, steps[j])
    requires i < |Final(t, steps).peers| && Final(t, steps).peers[i].used
    requires OfSender(local, Final(t, steps).peers[i].report)
    requires k <= |seen| && AfterRefreshes(local, seen[..k]).revision == Final(t, steps).peers[i].report.revision
    ensures SameContent(Final(t, steps).peers[i].report, AfterRefreshes(local, seen[..k]))
  {
    RunHoldsSent(local, seen, t, steps);
    SentIsContent(local, seen, Final(t, steps).peers[i].report, k);
  }

  /** And after a report is accepted, the stored one says what that report said, although a
      REFRESH does not store it. */
  lemma AcceptedReportIsHeld(local: Report, seen: seq<(Seen, Seen)>, t: Table, steps: seq<Step>, access: Access,
                             r: Report, now: nat, calls: Calls)
    requires Sound(t) && HoldsSent(local, seen, t) && Run(t, steps)
    requires forall j :: 0 <= j < |steps| ==> FromSender(local, seen, steps[j])
    requires OfSender(local, r) && Sent(local, seen, r) && HandleReport(Final(t, steps), access, r, now, calls).1 == 0
    ensures var t' := HandleReport(Final(t, steps), access, r, now, calls).0;
            exists i :: 0 <= i < |t'.peers| && OnlineAs(t'.peers[i], access, r, now)
              && SameContent(t'.peers[i].report, r)
  {
    var t1, step := Final(t, steps), ReportArrives(access, r, now, calls);
    RunKeepsSound(t, steps);
    RunHoldsSent(local, seen, t, steps);
    AcceptedReport(t1, access, r, now, calls);
    var t' := HandleReport(t1, access, r, now, calls).0;
    var i :| 0 <= i < |t'.peers| && OnlineAs(t'.peers[i], access, r, now);
    HandleReportKeeps(t1, access, r, now, calls);
    SlotHoldsSent(local, seen, t1, step, i);
    SentAlike(local, seen, t'.peers[i].report, r);
  }
}
