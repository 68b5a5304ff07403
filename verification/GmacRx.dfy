/** Adaptive RX interrupt coalescing of sunxi-gmac.c as steps of three threads of control:
    the NAPI poll, the RX timer and the drain timer, each possibly on its own CPU. The
    coalescing lock makes its sections atomic, except that rx_dirty moves without it: a
    switch to LOW reads rx_dirty and decides about the drain timer in two steps.

    Positions count descriptors since the ring was set up; the driver keeps them modulo
    the ring size. The DMA completes descriptors in order and gives their slots back by
    clearing OWN, which is all geth_rx looks at. Timers are ready throughout. */
module GmacRx {
  import opened GmacRing

  const FRAMES_HIGH: nat := 8
  const PPS_HIGH: nat := 3200
  const PPS_LOW: nat := 2400

  /** One submitted descriptor. `episode` counts the mode switches before it. */
  datatype Sub = Sub(silent: bool, episode: nat)

  /** The DMA has completed the descriptors below `done`. */
  datatype Ring = Ring(size: nat, clean: nat, dirty: nat, done: nat, subs: seq<Sub>)

  datatype Coal = Coal(high: bool, count: nat, target: nat, packets: nat, episode: nat)

  datatype Timers = Timers(rxEnabled: bool, rxPending: bool, drainEnabled: bool, drainPending: bool)

  datatype Napi = Polling | Checking | Completing | NapiFrozen(dirtyRead: nat) | Active | Refilling
  datatype RxTimer = TimerIdle | Updating | TimerFrozen(dirtyRead: nat) | Deciding | Rearming
  datatype DrainTimer = DrainIdle | DrainFirst | DrainPeeked

  datatype Threads = Threads(napi: Napi, timer: RxTimer, drain: DrainTimer)

  /** `uncounted` descriptors were consumed by this poll, of at most `limit`, and are not in
      `packets` yet. The `low` positions are those of the last switch to LOW. */
  datatype Poll = Poll(limit: nat, uncounted: nat, received: bool, lowClean: nat, lowDirty: nat, lowUncounted: nat)

  datatype Rx = Rx(ring: Ring, coal: Coal, timers: Timers, threads: Threads, poll: Poll)

  predicate LockFree(t: Threads) { !t.napi.NapiFrozen? && !t.timer.TimerFrozen? }

  /** Two positions with the same ring index. */
  predicate Meets(r: Ring, a: nat, b: nat)
    requires r.size > 0
  {
    a % r.size == b % r.size
  }

  /** The OWN bit of the slot at a position: set for what is submitted and not completed. */
  predicate Owned(r: Ring, a: nat)
    requires r.size > 0
  {
    exists k :: r.done <= k < r.clean && Meets(r, a, k)
  }

  predicate RingFull(r: Ring)
    requires r.size > 0
  {
    CircInc(r.clean % r.size, r.size) == r.dirty % r.size
  }

  // ------------------------------------------------------------------ locked sections

  /** drain_complete_locked. */
  function Complete(s: Rx): Timers
    requires s.ring.size > 0
  {
    if s.coal.high || !s.timers.drainEnabled || !Meets(s.ring, s.ring.dirty, s.coal.target) then s.timers
    else s.timers.(drainEnabled := false)
  }

  predicate Rises(c: Coal, packets: nat, elapsed: bool) { elapsed && !c.high && c.packets + packets >= PPS_HIGH }

  predicate Freezes(c: Coal, packets: nat, elapsed: bool) { elapsed && c.high && c.packets + packets <= PPS_LOW }

  /** coal_update up to the read of rx_dirty. */
  function Update(c: Coal, r: Ring, packets: nat, elapsed: bool): Coal {
    if Rises(c, packets, elapsed) then Coal(true, 0, r.dirty, 0, c.episode + 1)
    else if Freezes(c, packets, elapsed) then Coal(false, 0, r.clean, 0, c.episode + 1)
    else c.(packets := if elapsed then 0 else c.packets + packets)
  }

  function UpdateTimers(t: Timers, c: Coal, packets: nat, elapsed: bool): Timers {
    if Rises(c, packets, elapsed) then
      t.(drainEnabled := false, rxPending := t.rxPending || !t.rxEnabled, rxEnabled := true)
    else if Freezes(c, packets, elapsed) then t.(rxEnabled := false)
    else t
  }

  /** The rest of coal_update after a switch to LOW that saw rx_dirty at `dirtyRead`. */
  function Thaw(s: Rx, dirtyRead: nat): Timers
    requires s.ring.size > 0
  {
    if Meets(s.ring, dirtyRead, s.coal.target) then s.timers.(drainEnabled := false)
    else if s.timers.drainEnabled then s.timers
    else s.timers.(drainEnabled := true, drainPending := true)
  }

  predicate Interrupts(c: Coal) { c.count + 1 >= (if c.high then FRAMES_HIGH else 1) }

  /** The submitting section of geth_rx_refill. */
  function Submit(r: Ring, c: Coal): Ring {
    r.(subs := r.subs + [Sub(!Interrupts(c), c.episode)], clean := r.clean + 1)
  }

  function SubmitCoal(c: Coal): Coal { c.(count := if Interrupts(c) then 0 else c.count + 1) }

  // ------------------------------------------------------------------ steps

  datatype Step =
    | DmaCompletes
    | Consume
    | CheckTarget
    | CompleteDrain
    | PollUpdate(elapsed: bool)
    | PollThaw
    | DrainActivity
    | Refill
    | PollDone
    | TimerFires
    | TimerUpdate(elapsed: bool)
    | TimerThaw
    | TimerDecides
    | TimerRearms
    | DrainFires
    | DrainChecks
    | DrainChecksAgain

  predicate Enabled(s: Rx, step: Step) {
    s.ring.size > 0 &&
    match step
    case DmaCompletes => s.ring.done < s.ring.clean
    case Consume => s.threads.napi == Polling && !Owned(s.ring, s.ring.dirty) && s.poll.uncounted < s.poll.limit
    case CheckTarget => s.threads.napi == Checking
    case CompleteDrain => s.threads.napi == Completing && LockFree(s.threads)
    case PollUpdate(_) => s.threads.napi == Polling && LockFree(s.threads)
    case PollThaw => s.threads.napi.NapiFrozen?
    case DrainActivity => s.threads.napi == Active && LockFree(s.threads)
    case Refill => s.threads.napi == Refilling && LockFree(s.threads) && !RingFull(s.ring)
    case PollDone => s.threads.napi == Refilling
    case TimerFires => s.threads.timer == TimerIdle && s.timers.rxPending
    case TimerUpdate(_) => s.threads.timer == Updating && LockFree(s.threads)
    case TimerThaw => s.threads.timer.TimerFrozen?
    case TimerDecides => s.threads.timer == Deciding
    case TimerRearms => s.threads.timer == Rearming && LockFree(s.threads)
    case DrainFires => s.threads.drain == DrainIdle && s.timers.drainPending
    case DrainChecks => s.threads.drain == DrainFirst && LockFree(s.threads)
    case DrainChecksAgain => s.threads.drain == DrainPeeked && LockFree(s.threads)
  }

  function ToNapi(t: Threads, napi: Napi): Threads { t.(napi := napi) }
  function ToTimer(t: Threads, timer: RxTimer): Threads { t.(timer := timer) }
  function ToDrain(t: Threads, drain: DrainTimer): Threads { t.(drain := drain) }

  function Lowered(p: Poll, r: Ring, frozen: bool, uncounted: nat): Poll {
    if frozen then p.(lowClean := r.clean, lowDirty := r.dirty, lowUncounted := uncounted) else p
  }

  function PollUpdated(s: Rx, elapsed: bool): Rx {
    var n := s.poll.uncounted;
    var frozen := Freezes(s.coal, n, elapsed);
    Rx(s.ring, Update(s.coal, s.ring, n, elapsed), UpdateTimers(s.timers, s.coal, n, elapsed),
       ToNapi(s.threads, if frozen then NapiFrozen(s.ring.dirty) else Active),
       Lowered(s.poll, s.ring, frozen, 0).(received := n > 0, uncounted := 0))
  }

  function TimerUpdated(s: Rx, elapsed: bool): Rx {
    var frozen := Freezes(s.coal, 0, elapsed);
    Rx(s.ring, Update(s.coal, s.ring, 0, elapsed), UpdateTimers(s.timers, s.coal, 0, elapsed),
       ToTimer(s.threads, if frozen then TimerFrozen(s.ring.dirty) else Deciding),
       Lowered(s.poll, s.ring, frozen, s.poll.uncounted))
  }

  /** The drain timer keeps going while the drain is on. */
  predicate Draining(t: Timers, c: Coal) { t.drainEnabled && !c.high }

  /** The steps that move only threads and timers. */
  function Timed(s: Rx, step: Step): (Timers, Threads)
    requires Enabled(s, step)
  {
    var t, p := s.timers, s.threads;
    match step
    case CheckTarget =>
      (t, ToNapi(p, if t.drainEnabled && Meets(s.ring, s.ring.dirty, s.coal.target) then Completing else Polling))
    case CompleteDrain => (Complete(s), ToNapi(p, Polling))
    case PollThaw => (Thaw(s, p.napi.dirtyRead), ToNapi(p, Active))
    case DrainActivity =>
      (t.(drainPending := t.drainPending || (s.poll.received && Draining(t, s.coal))), ToNapi(p, Refilling))
    case PollDone => (t, ToNapi(p, Polling))
    case TimerFires => (t.(rxPending := false), ToTimer(p, if t.rxEnabled then Updating else TimerIdle))
    case TimerThaw => (Thaw(s, p.timer.dirtyRead), ToTimer(p, Deciding))
    case TimerDecides => (t, ToTimer(p, if t.rxEnabled then Rearming else TimerIdle))
    case TimerRearms => (t.(rxPending := t.rxPending || t.rxEnabled), ToTimer(p, TimerIdle))
    case DrainFires => (t.(drainPending := false), ToDrain(p, DrainFirst))
    case DrainChecks => (Complete(s), ToDrain(p, if Draining(Complete(s), s.coal) then DrainPeeked else DrainIdle))
    case DrainChecksAgain =>
      (Complete(s).(drainPending := t.drainPending || Draining(Complete(s), s.coal)), ToDrain(p, DrainIdle))
    case _ => (t, p)
  }

  function Consumed(s: Rx): Rx {
    s.(ring := s.ring.(dirty := s.ring.dirty + 1), threads := ToNapi(s.threads, Checking),
       poll := s.poll.(uncounted := s.poll.uncounted + 1))
  }

  function Exec(s: Rx, step: Step): Rx
    requires Enabled(s, step)
  {
    match step
    case DmaCompletes => s.(ring := s.ring.(done := s.ring.done + 1))
    case Consume => Consumed(s)
    case PollUpdate(elapsed) => PollUpdated(s, elapsed)
    case TimerUpdate(elapsed) => TimerUpdated(s, elapsed)
    case Refill => s.(ring := Submit(s.ring, s.coal), coal := SubmitCoal(s.coal))
    case _ => s.(timers := Timed(s, step).0, threads := Timed(s, step).1)
  }

  /** geth_open: an empty ring in LOW mode, filled by the first refill. */
  function Opened(size: nat, limit: nat): Rx {
    Rx(Ring(size, 0, 0, 0, []), Coal(false, 0, 0, 0, 0), Timers(false, false, false, false),
       Threads(Refilling, TimerIdle, DrainIdle), Poll(limit, 0, false, 0, 0, 0))
  }

  predicate Run(s: Rx, steps: seq<Step>)
    decreases |steps|
  {
    steps == [] || (Enabled(s, steps[0]) && Run(Exec(s, steps[0]), steps[1..]))
  }

  function Final(s: Rx, steps: seq<Step>): Rx
    requires Run(s, steps)
    decreases |steps|
  {
    if steps == [] then s else Final(Exec(s, steps[0]), steps[1..])
  }

  // ------------------------------------------------------------------ invariants

  predicate RingOk(r: Ring, target: nat) {
    && r.size > 0 && r.dirty <= r.done <= r.clean <= r.dirty + r.size - 1
    && |r.subs| == r.clean && target <= r.clean
  }

  /** Submitted, not consumed, and without an interrupt of its own. */
  predicate SilentAt(r: Ring, k: nat) { r.dirty <= k < r.clean && k < |r.subs| && r.subs[k].silent }

  ghost predicate NoneSilent(r: Ring) { forall k: nat :: !SilentAt(r, k) }

  ghost predicate SilentBelow(r: Ring, target: nat) { forall k: nat :: SilentAt(r, k) ==> k < target }

  predicate FrozenOk(r: Ring, c: Coal, drainEnabled: bool, dirtyRead: nat) {
    !c.high && !drainEnabled && dirtyRead <= r.dirty && dirtyRead <= c.target <= dirtyRead + r.size - 1
  }

  ghost predicate WatchOk(r: Ring, c: Coal, drainEnabled: bool, t: Threads) {
    && (if c.high then !drainEnabled else SilentBelow(r, c.target))
    && (!c.high && LockFree(t) && !drainEnabled ==> NoneSilent(r))
    && (t.napi.NapiFrozen? ==> FrozenOk(r, c, drainEnabled, t.napi.dirtyRead) && !t.timer.TimerFrozen?)
    && (t.timer.TimerFrozen? ==> FrozenOk(r, c, drainEnabled, t.timer.dirtyRead))
  }

  predicate TimersOk(t: Timers, high: bool, p: Threads) {
    && (t.rxEnabled <==> high)
    && (t.rxEnabled ==> t.rxPending || p.timer != TimerIdle)
    && (t.drainEnabled ==> t.drainPending || p.drain != DrainIdle)
  }

  /** The silent descriptors submitted last in this mode episode. */
  function Trailing(subs: seq<Sub>, episode: nat): nat {
    if subs == [] || !subs[|subs| - 1].silent || subs[|subs| - 1].episode != episode then 0
    else 1 + Trailing(subs[..|subs| - 1], episode)
  }

  predicate SomeInterrupt(subs: seq<Sub>, i: nat) {
    exists j :: i <= j < i + FRAMES_HIGH && j < |subs| && !subs[j].silent
  }

  predicate EightOk(subs: seq<Sub>) {
    forall i :: 0 <= i && i + FRAMES_HIGH <= |subs| && subs[i].episode == subs[i + FRAMES_HIGH - 1].episode ==>
      SomeInterrupt(subs, i)
  }

  predicate EpisodesOk(subs: seq<Sub>, c: Coal) {
    && (forall i, j :: 0 <= i <= j < |subs| ==> subs[i].episode <= subs[j].episode)
    && (forall i :: 0 <= i < |subs| ==> subs[i].episode <= c.episode)
    && Trailing(subs, c.episode) == c.count
    && (if c.high then c.count < FRAMES_HIGH else c.count == 0)
    && EightOk(subs)
  }

  ghost predicate Inv(s: Rx) {
    && RingOk(s.ring, s.coal.target)
    && WatchOk(s.ring, s.coal, s.timers.drainEnabled, s.threads)
    && TimersOk(s.timers, s.coal.high, s.threads)
    && EpisodesOk(s.ring.subs, s.coal)
  }

  lemma OpenedInv(size: nat, limit: nat)
    requires size > 0
    ensures Inv(Opened(size, limit))
  {
  }

  // ------------------------------------------------------------------ draining

  lemma NothingSilentAtTarget(r: Ring, target: nat, a: nat)
    requires RingOk(r, target) && a <= r.dirty && a <= target <= a + r.size - 1 && Meets(r, a, target)
    requires SilentBelow(r, target)
    ensures NoneSilent(r)
  {
    IndexIsInjective(a, target, r.size);
  }

  /** The drain is only declared complete when nothing silent is left. */
  lemma CompleteIsRight(s: Rx)
    requires Inv(s) && Complete(s) != s.timers
    ensures NoneSilent(s.ring)
  {
    if s.ring.dirty <= s.coal.target {
      NothingSilentAtTarget(s.ring, s.coal.target, s.ring.dirty);
    } else {
      assert forall k: nat :: SilentAt(s.ring, k) ==> s.ring.dirty <= k < s.coal.target;
    }
  }

  lemma CompleteKeepsWatch(s: Rx, t: Threads)
    requires Inv(s) && LockFree(s.threads) && LockFree(t)
    ensures WatchOk(s.ring, s.coal, Complete(s).drainEnabled, t)
  {
    if Complete(s) != s.timers {
      CompleteIsRight(s);
    }
  }

  lemma ThawKeepsWatch(s: Rx, dirtyRead: nat, t: Threads)
    requires Inv(s) && LockFree(t)
    requires s.threads.napi == NapiFrozen(dirtyRead) || s.threads.timer == TimerFrozen(dirtyRead)
    ensures WatchOk(s.ring, s.coal, Thaw(s, dirtyRead).drainEnabled, t)
  {
    if Meets(s.ring, dirtyRead, s.coal.target) {
      NothingSilentAtTarget(s.ring, s.coal.target, dirtyRead);
    }
  }

  /** Nothing but threads and timers moves, and no thread stops or starts holding the lock. */
  lemma TimedKeepsWatch(s: Rx, step: Step)
    requires Inv(s) && Enabled(s, step) && !step.DmaCompletes? && !step.Consume? && !step.PollUpdate?
    requires !step.TimerUpdate? && !step.Refill?
    ensures WatchOk(s.ring, s.coal, Timed(s, step).0.drainEnabled, Timed(s, step).1)
  {
    match step
    case CompleteDrain => CompleteKeepsWatch(s, Timed(s, step).1);
    case DrainChecks => CompleteKeepsWatch(s, Timed(s, step).1);
    case DrainChecksAgain => CompleteKeepsWatch(s, Timed(s, step).1);
    case PollThaw => ThawKeepsWatch(s, s.threads.napi.dirtyRead, Timed(s, step).1);
    case TimerThaw => ThawKeepsWatch(s, s.threads.timer.dirtyRead, Timed(s, step).1);
    case _ =>
  }

  lemma TimedKeepsTimers(s: Rx, step: Step)
    requires Inv(s) && Enabled(s, step) && !step.DmaCompletes? && !step.Consume? && !step.PollUpdate?
    requires !step.TimerUpdate? && !step.Refill?
    ensures TimersOk(Timed(s, step).0, s.coal.high, Timed(s, step).1)
  {
  }

  // ------------------------------------------------------------------ consuming, submitting, switching

  lemma ConsumeKeepsInv(s: Rx)
    requires Inv(s) && Enabled(s, Consume) && s.ring.dirty < s.ring.clean
    ensures Inv(Consumed(s))
  {
    assert s.ring.dirty < s.ring.done by { assert Meets(s.ring, s.ring.dirty, s.ring.dirty); }
    var r := Consumed(s).ring;
    assert forall k: nat :: SilentAt(r, k) ==> SilentAt(s.ring, k);
  }

  lemma {:induction false} TrailingIs(subs: seq<Sub>, episode: nat, r: nat)
    requires r <= |subs|
    requires forall k :: |subs| - r <= k < |subs| ==> subs[k].silent && subs[k].episode == episode
    ensures Trailing(subs, episode) >= r
    decreases r
  {
    if r > 0 {
      TrailingIs(subs[..|subs| - 1], episode, r - 1);
    }
  }

  /** Appending one descriptor: either it has an interrupt, or one of the seven before it has. */
  lemma EightAfterSubmit(subs: seq<Sub>, x: Sub, i: nat)
    requires i + FRAMES_HIGH == |subs| + 1
    requires x.silent ==> exists j :: i <= j < |subs| && !subs[j].silent
    ensures SomeInterrupt(subs + [x], i)
  {
    if x.silent {
      var j :| i <= j < |subs| && !subs[j].silent;
      assert !(subs + [x])[j].silent;
    } else {
      assert !(subs + [x])[|subs|].silent;
    }
  }

  lemma EightBeforeSubmit(subs: seq<Sub>, x: Sub, i: nat)
    requires i + FRAMES_HIGH <= |subs| && SomeInterrupt(subs, i)
    ensures SomeInterrupt(subs + [x], i)
  {
    var j :| i <= j < i + FRAMES_HIGH && j < |subs| && !subs[j].silent;
    assert !(subs + [x])[j].silent;
  }

  lemma SubmitKeepsEight(subs: seq<Sub>, c: Coal, i: nat)
    requires EpisodesOk(subs, c) && i + FRAMES_HIGH <= |subs| + 1
    requires var s' := subs + [Sub(!Interrupts(c), c.episode)]; s'[i].episode == s'[i + FRAMES_HIGH - 1].episode
    ensures SomeInterrupt(subs + [Sub(!Interrupts(c), c.episode)], i)
  {
    var n := |subs|;
    var x := Sub(!Interrupts(c), c.episode);
    if i + FRAMES_HIGH <= n {
      EightBeforeSubmit(subs, x, i);
    } else {
      if x.silent && forall j :: i <= j < n ==> subs[j].silent {
        TrailingIs(subs, c.episode, FRAMES_HIGH - 1);
      }
      EightAfterSubmit(subs, x, i);
    }
  }

  lemma SubmitKeepsEpisodes(subs: seq<Sub>, c: Coal)
    requires EpisodesOk(subs, c)
    ensures EpisodesOk(subs + [Sub(!Interrupts(c), c.episode)], SubmitCoal(c))
  {
    var s' := subs + [Sub(!Interrupts(c), c.episode)];
    assert s'[..|subs|] == subs;
    forall i | 0 <= i && i + FRAMES_HIGH <= |s'| && s'[i].episode == s'[i + FRAMES_HIGH - 1].episode
      ensures SomeInterrupt(s', i)
    {
      SubmitKeepsEight(subs, c, i);
    }
  }

  lemma RefillKeepsInv(s: Rx)
    requires Inv(s) && Enabled(s, Refill)
    ensures Inv(Exec(s, Refill))
  {
    FullByIndex(s.ring.dirty, s.ring.clean, s.ring.size);
    SubmitKeepsEpisodes(s.ring.subs, s.coal);
    var r := Submit(s.ring, s.coal);
    assert forall k: nat :: SilentAt(r, k) ==> SilentAt(s.ring, k) || (s.coal.high && k == s.ring.clean);
  }

  lemma {:induction false} NoTrailing(subs: seq<Sub>, episode: nat)
    requires forall i :: 0 <= i < |subs| ==> subs[i].episode < episode
    ensures Trailing(subs, episode) == 0
  {
  }

  lemma UpdateKeepsEpisodes(s: Rx, packets: nat, elapsed: bool)
    requires Inv(s)
    ensures EpisodesOk(s.ring.subs, Update(s.coal, s.ring, packets, elapsed))
  {
    NoTrailing(s.ring.subs, s.coal.episode + 1);
  }

  lemma UpdateKeepsWatch(s: Rx, packets: nat, elapsed: bool, t: Threads)
    requires Inv(s) && LockFree(s.threads)
    requires if Freezes(s.coal, packets, elapsed) then
               (t.napi == NapiFrozen(s.ring.dirty) && !t.timer.TimerFrozen?)
                 || (t.timer == TimerFrozen(s.ring.dirty) && !t.napi.NapiFrozen?)
             else LockFree(t)
    ensures WatchOk(s.ring, Update(s.coal, s.ring, packets, elapsed),
                    UpdateTimers(s.timers, s.coal, packets, elapsed).drainEnabled, t)
    ensures RingOk(s.ring, Update(s.coal, s.ring, packets, elapsed).target)
  {
  }

  lemma DmaKeepsInv(s: Rx)
    requires Inv(s) && Enabled(s, DmaCompletes)
    ensures Inv(Exec(s, DmaCompletes))
  {
    var r := Exec(s, DmaCompletes).ring;
    assert forall k: nat :: SilentAt(r, k) ==> SilentAt(s.ring, k);
  }

  /** The step does not take a slot that holds no submitted descriptor. */
  predicate FedStep(s: Rx, step: Step) { step.Consume? ==> s.ring.dirty < s.ring.clean }

  /** No step of the run does. */
  predicate Fed(s: Rx, steps: seq<Step>)
    requires Run(s, steps)
    decreases |steps|
  {
    steps == [] || (FedStep(s, steps[0]) && Fed(Exec(s, steps[0]), steps[1..]))
  }

  lemma StepKeepsInv(s: Rx, step: Step)
    requires Inv(s) && Enabled(s, step) && FedStep(s, step)
    ensures Inv(Exec(s, step))
  {
    match step
    case DmaCompletes => DmaKeepsInv(s);
    case Consume => ConsumeKeepsInv(s);
    case Refill => RefillKeepsInv(s);
    case PollUpdate(elapsed) =>
      UpdateKeepsEpisodes(s, s.poll.uncounted, elapsed);
      UpdateKeepsWatch(s, s.poll.uncounted, elapsed, PollUpdated(s, elapsed).threads);
    case TimerUpdate(elapsed) =>
      UpdateKeepsEpisodes(s, 0, elapsed);
      UpdateKeepsWatch(s, 0, elapsed, TimerUpdated(s, elapsed).threads);
    case _ =>
      TimedKeepsWatch(s, step);
      TimedKeepsTimers(s, step);
  }

  lemma {:induction false} RunKeepsInv(s: Rx, steps: seq<Step>)
    requires Inv(s) && Run(s, steps) && Fed(s, steps)
    ensures Inv(Final(s, steps)) && Final(s, steps).ring.size == s.ring.size
    decreases |steps|
  {
    if steps != [] {
      StepKeepsInv(s, steps[0]);
      RunKeepsInv(Exec(s, steps[0]), steps[1..]);
    }
  }

  // ------------------------------------------------------------------ theorems

  /** Whenever the coalescing lock is free, every outstanding descriptor without an
      interrupt is watched: in LOW it lies between rx_dirty and the drain target and the
      drain timer will run; in HIGH the RX timer will run. */
  lemma SilentDescriptorsAreWatched(size: nat, limit: nat, steps: seq<Step>, k: nat)
    requires size > 0 && Run(Opened(size, limit), steps) && Fed(Opened(size, limit), steps)
    requires var s := Final(Opened(size, limit), steps); LockFree(s.threads) && SilentAt(s.ring, k)
    ensures var s := Final(Opened(size, limit), steps);
            && (!s.coal.high ==> s.ring.dirty <= k < s.coal.target && s.timers.drainEnabled
                                 && (s.timers.drainPending || s.threads.drain != DrainIdle))
            && (s.coal.high ==> s.timers.rxEnabled && (s.timers.rxPending || s.threads.timer != TimerIdle))
  {
    OpenedInv(size, limit);
    RunKeepsInv(Opened(size, limit), steps);
  }

  /** Of any eight descriptors submitted in a row within one mode, one has its interrupt on. */
  lemma OneInterruptInEight(size: nat, limit: nat, steps: seq<Step>, i: nat)
    requires size > 0 && Run(Opened(size, limit), steps) && Fed(Opened(size, limit), steps)
    requires var subs := Final(Opened(size, limit), steps).ring.subs;
             i + FRAMES_HIGH <= |subs| && subs[i].episode == subs[i + FRAMES_HIGH - 1].episode
    ensures SomeInterrupt(Final(Opened(size, limit), steps).ring.subs, i)
  {
    OpenedInv(size, limit);
    RunKeepsInv(Opened(size, limit), steps);
  }

  /** The ring never overruns: at most size - 1 descriptors are outstanding. */
  lemma RingNeverOverruns(size: nat, limit: nat, steps: seq<Step>)
    requires size > 0 && Run(Opened(size, limit), steps) && Fed(Opened(size, limit), steps)
    ensures var r := Final(Opened(size, limit), steps).ring; r.dirty <= r.done <= r.clean <= r.dirty + size - 1
  {
    OpenedInv(size, limit);
    RunKeepsInv(Opened(size, limit), steps);
  }

  /** A drain timer that fires while a silent descriptor is outstanding restarts itself. */
  lemma DrainTimerKeepsRunning(s: Rx, k: nat)
    requires Inv(s) && LockFree(s.threads) && !s.coal.high && SilentAt(s.ring, k)
    ensures s.threads.drain == DrainFirst ==> Exec(s, DrainChecks).threads.drain == DrainPeeked
    ensures s.threads.drain == DrainPeeked ==> Exec(s, DrainChecksAgain).timers.drainPending
  {
    if Complete(s) != s.timers {
      CompleteIsRight(s);
    }
  }

  // ------------------------------------------------------------------ an empty ring

  /** Every refill gets the buffers it needs: it ends with a full ring. */
  predicate FullRefills(s: Rx, steps: seq<Step>)
    requires Run(s, steps)
    decreases |steps|
  {
    steps == [] || ((steps[0].PollDone? ==> RingFull(s.ring)) && FullRefills(Exec(s, steps[0]), steps[1..]))
  }

  predicate BeforeUpdate(n: Napi) { n.Polling? || n.Checking? || n.Completing? }

  /** What a poll that began with a full ring has not taken yet is still there. */
  predicate Stocked(s: Rx) {
    if BeforeUpdate(s.threads.napi) then s.ring.clean + s.poll.uncounted >= s.ring.dirty + s.ring.size - 1
    else s.poll.uncounted == 0
  }

  lemma StockedStep(s: Rx, step: Step)
    requires Inv(s) && Stocked(s) && Enabled(s, step) && s.poll.limit < s.ring.size
    requires step.PollDone? ==> RingFull(s.ring)
    ensures FedStep(s, step) && Stocked(Exec(s, step))
    ensures Exec(s, step).poll.limit == s.poll.limit && Exec(s, step).ring.size == s.ring.size
  {
    if step.PollDone? {
      FullByIndex(s.ring.dirty, s.ring.clean, s.ring.size);
    }
  }

  lemma {:induction false} StockedRun(s: Rx, steps: seq<Step>)
    requires Inv(s) && Stocked(s) && s.poll.limit < s.ring.size && Run(s, steps) && FullRefills(s, steps)
    ensures Fed(s, steps)
    decreases |steps|
  {
    if steps != [] {
      StockedStep(s, steps[0]);
      StepKeepsInv(s, steps[0]);
      StockedRun(Exec(s, steps[0]), steps[1..]);
    }
  }

  /** LOW mode before any switch, in a poll that will run the ring dry. */
  ghost predicate Drying(s: Rx) {
    && Inv(s) && !s.coal.high && !s.timers.drainEnabled && s.ring.size <= s.poll.limit
    && (s.threads.napi.Refilling? ==> LockFree(s.threads) && s.poll.uncounted == 0)
    && (s.threads.napi.Polling? || s.threads.napi.Checking? ==>
          s.ring.clean + s.poll.uncounted == s.ring.dirty + s.ring.size - 1)
    && (s.threads.napi.Refilling? || s.threads.napi.Polling? || s.threads.napi.Checking?)
  }

  /** The next step towards the empty ring. */
  function DryingStep(s: Rx): Step
    requires s.ring.size > 0
  {
    if s.threads.napi.Refilling? then (if RingFull(s.ring) then PollDone else Refill)
    else if s.threads.napi.Checking? then CheckTarget
    else if s.ring.done < s.ring.clean then DmaCompletes
    else Consume
  }

  lemma DryingStepKeeps(s: Rx)
    requires Drying(s)
    ensures Enabled(s, DryingStep(s)) && (DryingStep(s).PollDone? ==> RingFull(s.ring))
    ensures FedStep(s, DryingStep(s)) ==> Drying(Exec(s, DryingStep(s)))
  {
    FullByIndex(s.ring.dirty, s.ring.clean, s.ring.size);
    if FedStep(s, DryingStep(s)) {
      StepKeepsInv(s, DryingStep(s));
    }
  }

  lemma {:induction false} RunsDry(s: Rx) returns (steps: seq<Step>)
    requires Drying(s)
    ensures Run(s, steps) && FullRefills(s, steps) && !Fed(s, steps)
    decreases if s.threads.napi.Refilling? then 1 + s.ring.dirty + s.ring.size - s.ring.clean else 0,
              s.ring.clean - s.ring.done, 2 * (s.ring.clean - s.ring.dirty) + if s.threads.napi.Checking? then 1 else 0
  {
    var step := DryingStep(s);
    DryingStepKeeps(s);
    if FedStep(s, step) {
      var rest := RunsDry(Exec(s, step));
      steps := [step] + rest;
      assert steps[1..] == rest;
    } else {
      steps := [step];
    }
  }

  /** With enough memory for every refill, geth_rx never takes a slot it did not submit, in
      any run, if and only if its budget is below the ring size. */
  lemma BudgetFitsIff(size: nat, limit: nat)
    requires size > 0
    ensures (forall steps :: Run(Opened(size, limit), steps) && FullRefills(Opened(size, limit), steps) ==>
               Fed(Opened(size, limit), steps))
            <==> limit < size
  {
    var s := Opened(size, limit);
    OpenedInv(size, limit);
    if limit < size {
      forall steps | Run(s, steps) && FullRefills(s, steps) ensures Fed(s, steps) {
        StockedRun(s, steps);
      }
    } else {
      var steps := RunsDry(s);
    }
  }

  /** Without the memory it does, whatever the sizes: the first refill fails, and the first
      poll takes a slot that was never given to the DMA. */
  lemma FailedRefillStarves(size: nat, limit: nat)
    requires size > 0 && limit > 0
    ensures var s := Opened(size, limit);
            && Run(s, [PollDone, Consume]) && !Fed(s, [PollDone, Consume])
            && Final(s, [PollDone, Consume]).ring == Ring(size, 0, 1, 0, [])
  {
    var s := Opened(size, limit);
    var s1 := Exec(s, PollDone);
    assert [PollDone, Consume][1..] == [Consume] && [Consume][1..] == [];
    assert Run(s1, [Consume]) && !Fed(s1, [Consume]) && Final(s1, [Consume]) == Consumed(s1);
  }

  /** rx_dirty is ahead of rx_clean by a slot taken at position p, and not once round yet. */
  predicate Lapping(r: Ring, p: nat) { r.size > 0 && p <= r.done <= r.clean < r.dirty <= p + r.size }

  lemma LappingRingFull(r: Ring, p: nat)
    requires Lapping(r, p)
    ensures RingFull(r) <==> r.dirty == r.clean + 1
  {
    IncIsNext(r.clean, r.size);
    if RingFull(r) {
      IndexIsInjective(r.clean + 1, r.dirty, r.size);
    }
  }

  /** Taking from an empty ring makes it look full. */
  lemma EmptyRingLooksFull(s: Rx)
    requires Inv(s) && s.ring.dirty == s.ring.clean && s.ring.size < Pow2(WORD)
    ensures Lapping(Consumed(s).ring, s.ring.dirty)
    ensures var r := Consumed(s).ring; RingFull(r) && CircSpace(r.clean % r.size, r.dirty % r.size, r.size) == 0
  {
    var r := Consumed(s).ring;
    LappingRingFull(r, s.ring.dirty);
    RefillGuard(r.clean % r.size, r.dirty % r.size, r.size);
  }

  lemma {:induction false} DirtyNeverBack(s: Rx, steps: seq<Step>)
    requires Run(s, steps)
    ensures s.ring.dirty <= Final(s, steps).ring.dirty && Final(s, steps).ring.size == s.ring.size
    decreases |steps|
  {
    if steps != [] {
      DirtyNeverBack(Exec(s, steps[0]), steps[1..]);
    }
  }

  lemma LappingStep(s: Rx, step: Step, p: nat)
    requires Lapping(s.ring, p) && Enabled(s, step) && Exec(s, step).ring.dirty <= p + s.ring.size
    ensures Lapping(Exec(s, step).ring, p)
  {
    LappingRingFull(s.ring, p);
  }

  lemma {:induction false} LappingRun(s: Rx, steps: seq<Step>, p: nat)
    requires Lapping(s.ring, p) && Run(s, steps) && Final(s, steps).ring.dirty <= p + s.ring.size
    ensures Lapping(Final(s, steps).ring, p)
    decreases |steps|
  {
    if steps != [] {
      DirtyNeverBack(Exec(s, steps[0]), steps[1..]);
      LappingStep(s, steps[0], p);
      LappingRun(Exec(s, steps[0]), steps[1..], p);
    }
  }

  lemma LapIndices(r: Ring, p: nat)
    requires Lapping(r, p)
    ensures r.dirty < p + r.size ==> forall k: nat :: p <= k < r.clean ==> !Meets(r, r.dirty, k)
    ensures r.dirty == p + r.size ==> Meets(r, r.dirty, p)
  {
    if r.dirty == p + r.size {
      assert p + r.size == (p / r.size + 1) * r.size + p % r.size;
      ModIs(p + r.size, r.size, p / r.size + 1, p % r.size);
    } else {
      forall k: nat | p <= k < r.clean ensures !Meets(r, r.dirty, k) {
        if Meets(r, r.dirty, k) {
          IndexIsInjective(k, r.dirty, r.size);
        }
      }
    }
  }

  /** After such a take, in every run: as long as rx_dirty has not gone once round the ring, the
      slot it looks at is not one that was submitted since, so nothing the DMA receives is seen;
      each further take makes room for one descriptor; and once round, the first one is seen. */
  lemma NothingNewForALap(s: Rx, steps: seq<Step>)
    requires Inv(s) && s.ring.dirty == s.ring.clean && Run(Consumed(s), steps)
    requires Final(Consumed(s), steps).ring.dirty <= s.ring.dirty + s.ring.size
    ensures var r, p := Final(Consumed(s), steps).ring, s.ring.dirty;
            && r.size == s.ring.size && p <= r.clean < r.dirty
            && (r.dirty < p + r.size ==> forall k: nat :: p <= k < r.clean ==> !Meets(r, r.dirty, k))
            && (r.dirty == p + r.size ==> Meets(r, r.dirty, p))
  {
    var r, p := Final(Consumed(s), steps).ring, s.ring.dirty;
    DirtyNeverBack(Consumed(s), steps);
    LappingRun(Consumed(s), steps, p);
    LapIndices(r, p);
  }

  // ------------------------------------------------------------------ across mode switches

  /** The silent descriptors submitted last, whatever the mode. */
  function SilentRun(subs: seq<Sub>): nat {
    if subs == [] || !subs[|subs| - 1].silent then 0 else 1 + SilentRun(subs[..|subs| - 1])
  }

  predicate LowSteady(r: Ring, packets: nat, p: Poll) {
    && p.lowDirty <= r.dirty && p.lowClean <= r.clean && p.lowClean <= p.lowDirty + r.size - 1
    && packets + p.uncounted <= r.dirty - p.lowDirty + p.lowUncounted
    && (if r.clean > p.lowClean then SilentRun(r.subs) == 0 else SilentRun(r.subs) < FRAMES_HIGH)
  }

  predicate Steady(r: Ring, c: Coal, p: Poll) {
    && p.uncounted <= p.limit && p.lowUncounted <= p.limit
    && (if c.high then SilentRun(r.subs) == c.count else LowSteady(r, c.packets, p))
    && (forall i :: 0 <= i && i + FRAMES_HIGH <= |r.subs| ==> SomeInterrupt(r.subs, i))
  }

  lemma {:induction false} SilentRunIs(subs: seq<Sub>, r: nat)
    requires r <= |subs| && forall k :: |subs| - r <= k < |subs| ==> subs[k].silent
    ensures SilentRun(subs) >= r
    decreases r
  {
    if r > 0 {
      SilentRunIs(subs[..|subs| - 1], r - 1);
    }
  }

  lemma SubmitKeepsSteady(s: Rx)
    requires Inv(s) && Steady(s.ring, s.coal, s.poll)
    ensures Steady(Submit(s.ring, s.coal), SubmitCoal(s.coal), s.poll)
  {
    var subs, subs' := s.ring.subs, Submit(s.ring, s.coal).subs;
    var n := |subs|;
    var x := subs'[n];
    assert subs'[..n] == subs;
    forall i | 0 <= i && i + FRAMES_HIGH <= |subs'| ensures SomeInterrupt(subs', i) {
      if i + FRAMES_HIGH <= n {
        EightBeforeSubmit(subs, x, i);
      } else {
        if x.silent && forall j :: i <= j < n ==> subs[j].silent {
          SilentRunIs(subs, FRAMES_HIGH - 1);
        }
        EightAfterSubmit(subs, x, i);
      }
    }
  }

  /** LOW mode lasts long enough to submit at least one descriptor: the 3200 packets it takes
      to leave it cannot all have been submitted before. */
  lemma UpdateKeepsSteady(s: Rx, packets: nat, elapsed: bool, p': Poll)
    requires Inv(s) && Steady(s.ring, s.coal, s.poll) && s.ring.size + s.poll.limit <= PPS_HIGH
    requires packets + p'.uncounted == s.poll.uncounted && p'.limit == s.poll.limit
    requires var p := Lowered(s.poll, s.ring, Freezes(s.coal, packets, elapsed), p'.uncounted);
             p'.lowClean == p.lowClean && p'.lowDirty == p.lowDirty && p'.lowUncounted == p.lowUncounted
    ensures Steady(s.ring, Update(s.coal, s.ring, packets, elapsed), p')
  {
  }

  lemma StepKeepsSteady(s: Rx, step: Step)
    requires Inv(s) && Steady(s.ring, s.coal, s.poll) && Enabled(s, step) && s.ring.size + s.poll.limit <= PPS_HIGH
    ensures var s' := Exec(s, step);
            Steady(s'.ring, s'.coal, s'.poll) && s'.ring.size == s.ring.size && s'.poll.limit == s.poll.limit
  {
    match step
    case Refill => SubmitKeepsSteady(s);
    case PollUpdate(elapsed) => UpdateKeepsSteady(s, s.poll.uncounted, elapsed, PollUpdated(s, elapsed).poll);
    case TimerUpdate(elapsed) => UpdateKeepsSteady(s, 0, elapsed, TimerUpdated(s, elapsed).poll);
    case _ =>
  }

  lemma {:induction false} RunKeepsSteady(s: Rx, steps: seq<Step>)
    requires Inv(s) && Steady(s.ring, s.coal, s.poll) && Run(s, steps) && Fed(s, steps)
    requires s.ring.size + s.poll.limit <= PPS_HIGH
    ensures var s' := Final(s, steps); Steady(s'.ring, s'.coal, s'.poll)
    decreases |steps|
  {
    if steps != [] {
      StepKeepsInv(s, steps[0]);
      StepKeepsSteady(s, steps[0]);
      RunKeepsSteady(Exec(s, steps[0]), steps[1..]);
    }
  }

  /** With a ring and poll budget of together at most 3200, the bound of eight holds across
      mode switches too. */
  lemma OneInterruptInAnyEight(size: nat, limit: nat, steps: seq<Step>, i: nat)
    requires size > 0 && size + limit <= PPS_HIGH && Run(Opened(size, limit), steps) && Fed(Opened(size, limit), steps)
    requires i + FRAMES_HIGH <= |Final(Opened(size, limit), steps).ring.subs|
    ensures SomeInterrupt(Final(Opened(size, limit), steps).ring.subs, i)
  {
    OpenedInv(size, limit);
    RunKeepsSteady(Opened(size, limit), steps);
  }
}
