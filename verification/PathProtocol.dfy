/** One path slot of linkg_path.c under the Node lock, with any number of threads.

    Every atomic access of the source is one step of one thread. Threads that hold
    the Node lock run acquire, activate, reset and retire; releases need no lock:
    a compare-and-swap loop takes the count down, and the thread that took it to
    zero then tries the RETIRED to RELEASED swap and runs the callback. */
module PathProtocol {
  import opened PathTypes

  // ------------------------------------------------------------------ state

  /** The slot. `epoch` numbers the activations of the slot. */
  datatype Slot = Slot(state: PathState, count: nat, link: nat, epoch: nat)

  /** What a holder remembers of the path it acquired. */
  datatype View = View(link: nat, epoch: nat)

  datatype Pc =
    | Idle
    | ReleaseLoaded(expected: nat)   // reference_count loaded, swap ahead
    | Completing                     // took the count to zero, completion swap ahead
    | Notifying                      // completion swap won, callback ahead
    | CallbackLocked                 // callback holds the Node lock
    | CallbackSawReleased            // ... reset has passed its state check
    | CallbackResetting              // ... and its count check
    | Locked                         // inside a Node operation
    | ResetSawReleased
    | Resetting
    | ActivateSawEmpty(link: nat)
    | Activating(link: nat)
    | AcquireSawActive(n: nat)
    | RetireSawActive
    | RetireHolding                  // cleanup reference taken, retire ahead
    | RetireSwapped                  // ACTIVE to RETIRED won, count check ahead
    | RetireSawZero                  // count check saw zero, synchronous release ahead
    | RetireSynchronous              // the -EFAULT branch

  datatype Thread = Thread(pc: Pc, held: nat, view: View)

  datatype Option<T> = None | Some(value: T)

  datatype State = State(slot: Slot, owner: Option<nat>, threads: seq<Thread>)

  predicate NeedsLock(pc: Pc) {
    !(pc.Idle? || pc.ReleaseLoaded? || pc.Completing? || pc.Notifying?)
  }

  // ------------------------------------------------------------------ steps

  datatype Action =
    | StartRelease
    | TryDecrement(spurious: bool)   // the weak swap may fail for no reason
    | TryComplete
    | EnterCallback
    | CallbackRead
    | CallbackCheck
    | CallbackReset
    | Lock
    | Unlock
    | BeginReset
    | CheckReset
    | DoReset
    | BeginActivate(link: nat)
    | CheckActivate
    | DoActivate
    | BeginAcquire(n: nat)
    | DoAcquire
    | BeginRetire
    | TakeCleanup
    | SwapRetired
    | LoadCount
    | SynchronousRelease

  datatype Step = Step(thread: nat, action: Action)

  predicate Enabled(s: State, step: Step) {
    step.thread < |s.threads| &&
    var t := s.threads[step.thread];
    match step.action
    case StartRelease => t.pc == Idle && t.held > 0
    case TryDecrement(_) => t.pc.ReleaseLoaded?
    case TryComplete => t.pc == Completing
    case EnterCallback => t.pc == Notifying && s.owner == None
    case CallbackRead => t.pc == CallbackLocked
    case CallbackCheck => t.pc == CallbackSawReleased
    case CallbackReset => t.pc == CallbackResetting
    case Lock => t.pc == Idle && s.owner == None
    case Unlock => t.pc == Locked
    case BeginReset => t.pc == Locked
    case CheckReset => t.pc == ResetSawReleased
    case DoReset => t.pc == Resetting
    case BeginActivate(link) => t.pc == Locked && link != 0
    case CheckActivate => t.pc.ActivateSawEmpty?
    case DoActivate => t.pc.Activating?
    case BeginAcquire(n) => t.pc == Locked && n > 0
    case DoAcquire => t.pc.AcquireSawActive?
    case BeginRetire => t.pc == Locked
    case TakeCleanup => t.pc == RetireSawActive
    case SwapRetired => t.pc == RetireHolding
    case LoadCount => t.pc == RetireSwapped
    case SynchronousRelease => t.pc == RetireSawZero
  }

  /** The slot and the running thread after one step. */
  function Move(slot: Slot, t: Thread, action: Action): (Slot, Thread) {
    match action
    case StartRelease =>
      (slot, t.(pc := if slot.count == 0 then Idle else ReleaseLoaded(slot.count)))
    case TryDecrement(spurious) =>
      if t.pc.ReleaseLoaded? && !spurious && slot.count == t.pc.expected && slot.count > 0 then
        (slot.(count := slot.count - 1),
         t.(held := if t.held > 0 then t.held - 1 else 0,
            pc := if slot.count == 1 then Completing else Idle))
      else
        (slot, t.(pc := if slot.count == 0 then Idle else ReleaseLoaded(slot.count)))
    case TryComplete =>
      if slot.state == Retired then (slot.(state := Released), t.(pc := Notifying))
      else (slot, t.(pc := Idle))
    case EnterCallback => (slot, t.(pc := CallbackLocked))
    case CallbackRead =>
      (slot, t.(pc := if slot.state == Released then CallbackSawReleased else Idle))
    case CallbackCheck =>
      (slot, t.(pc := if slot.count == 0 then CallbackResetting else Idle))
    case CallbackReset => (slot.(state := Empty, link := 0), t.(pc := Idle))
    case Lock => (slot, t.(pc := Locked))
    case Unlock => (slot, t.(pc := Idle))
    case BeginReset =>
      (slot, t.(pc := if slot.state == Released then ResetSawReleased else Locked))
    case CheckReset => (slot, t.(pc := if slot.count == 0 then Resetting else Locked))
    case DoReset => (slot.(state := Empty, link := 0), t.(pc := Locked))
    case BeginActivate(link) =>
      (slot, t.(pc := if slot.state == Empty then ActivateSawEmpty(link) else Locked))
    case CheckActivate =>
      (slot, t.(pc := if t.pc.ActivateSawEmpty? && slot.count == 0 then Activating(t.pc.link) else Locked))
    case DoActivate =>
      (Slot(Active, slot.count, if t.pc.Activating? then t.pc.link else 0, slot.epoch + 1), t.(pc := Locked))
    case BeginAcquire(n) =>
      (slot, t.(pc := if slot.state == Active then AcquireSawActive(n) else Locked))
    case DoAcquire =>
      var n := if t.pc.AcquireSawActive? then t.pc.n else 0;
      (slot.(count := slot.count + n), Thread(Locked, t.held + n, View(slot.link, slot.epoch)))
    case BeginRetire =>
      (slot, t.(pc := if slot.state == Active then RetireSawActive else Locked))
    case TakeCleanup =>
      (slot.(count := slot.count + 1), Thread(RetireHolding, t.held + 1, View(slot.link, slot.epoch)))
    case SwapRetired =>
      if slot.state == Active then (slot.(state := Retired), t.(pc := RetireSwapped))
      else (slot, t.(pc := Locked))
    case LoadCount => (slot, t.(pc := if slot.count == 0 then RetireSawZero else Locked))
    case SynchronousRelease =>
      if slot.state == Retired then (slot.(state := Released), t.(pc := RetireSynchronous))
      else (slot, t.(pc := Locked))
  }

  function Exec(s: State, step: Step): State
    requires Enabled(s, step)
  {
    var (slot, t) := Move(s.slot, s.threads[step.thread], step.action);
    var owner := if NeedsLock(t.pc) then Some(step.thread)
                 else if NeedsLock(s.threads[step.thread].pc) then None
                 else s.owner;
    State(slot, owner, s.threads[step.thread := t])
  }

  predicate Initial(s: State) {
    && s.slot == Slot(Empty, 0, 0, 0)
    && s.owner == None
    && forall i :: 0 <= i < |s.threads| ==> s.threads[i].pc == Idle && s.threads[i].held == 0
  }

  // ------------------------------------------------------------------ runs

  predicate Run(s: State, steps: seq<Step>)
    decreases |steps|
  {
    steps == [] || (Enabled(s, steps[0]) && Run(Exec(s, steps[0]), steps[1..]))
  }

  function Final(s: State, steps: seq<Step>): State
    requires Run(s, steps)
    decreases |steps|
  {
    if steps == [] then s else Final(Exec(s, steps[0]), steps[1..])
  }

  // ------------------------------------------------------------------ invariant

  function Outstanding(threads: seq<Thread>): nat {
    if threads == [] then 0 else Outstanding(threads[..|threads| - 1]) + threads[|threads| - 1].held
  }

  predicate ThreadOk(slot: Slot, t: Thread) {
    && (t.held > 0 ==> slot.state != Empty && t.view == View(slot.link, slot.epoch))
    && match t.pc
       case ReleaseLoaded(expected) => t.held > 0 && expected > 0
       case CallbackSawReleased => slot.state == Released
       case CallbackResetting => slot.state == Released && slot.count == 0
       case ResetSawReleased => slot.state == Released
       case Resetting => slot.state == Released && slot.count == 0
       case ActivateSawEmpty(link) => slot.state == Empty && link != 0
       case Activating(link) => slot.state == Empty && link != 0
       case AcquireSawActive(n) => slot.state == Active && n > 0
       case RetireSawActive => slot.state == Active
       case RetireHolding => slot.state == Active && t.held > 0
       case RetireSwapped => (slot.state == Retired || slot.state == Released) && t.held > 0
       case RetireSawZero => false
       case RetireSynchronous => false
       case _ => true
  }

  predicate CompletionPending(s: State) {
    exists i :: 0 <= i < |s.threads| && s.threads[i].pc == Completing
  }

  predicate Inv(s: State) {
    && s.slot.count == Outstanding(s.threads)
    && (s.slot.state == Empty ==> s.slot.count == 0)
    && (s.slot.state != Empty ==> s.slot.link != 0)
    && (s.slot.state == Retired && s.slot.count == 0 ==> CompletionPending(s))
    && (forall i :: 0 <= i < |s.threads| ==> ThreadOk(s.slot, s.threads[i]))
    && (forall i :: 0 <= i < |s.threads| ==> (NeedsLock(s.threads[i].pc) <==> s.owner == Some(i)))
  }

  // ------------------------------------------------------------------ counting lemmas

  lemma {:induction false} OutstandingUpdate(threads: seq<Thread>, i: nat, t: Thread)
    requires i < |threads|
    ensures Outstanding(threads[i := t]) == Outstanding(threads) - threads[i].held + t.held
    ensures Outstanding(threads) >= threads[i].held
  {
    var n := |threads| - 1;
    var u := threads[i := t];
    if i == n {
      assert u[..n] == threads[..n];
    } else {
      assert u[..n] == threads[..n][i := t];
      OutstandingUpdate(threads[..n], i, t);
    }
  }

  lemma {:induction false} OutstandingPair(threads: seq<Thread>, i: nat, j: nat)
    requires i < |threads| && j < |threads| && i != j
    ensures Outstanding(threads) >= threads[i].held + threads[j].held
  {
    var t := threads[i].(held := 0);
    OutstandingUpdate(threads, i, t);
    OutstandingUpdate(threads[i := t], j, t);
  }

  lemma {:induction false} NobodyHolds(threads: seq<Thread>)
    requires Outstanding(threads) == 0
    ensures forall i :: 0 <= i < |threads| ==> threads[i].held == 0
  {
    forall i | 0 <= i < |threads| ensures threads[i].held == 0 {
      OutstandingUpdate(threads, i, threads[i]);
    }
  }

  lemma {:induction false} NoneHeld(threads: seq<Thread>)
    requires forall i :: 0 <= i < |threads| ==> threads[i].held == 0
    ensures Outstanding(threads) == 0
  {
    if threads != [] {
      NoneHeld(threads[..|threads| - 1]);
    }
  }

  // ------------------------------------------------------------------ the invariant is kept

  lemma InitialInv(s: State)
    requires Initial(s)
    ensures Inv(s)
  {
    NoneHeld(s.threads);
  }

  /** The running thread is left in order. */
  lemma MoverOk(s: State, step: Step)
    requires Inv(s) && Enabled(s, step)
    ensures ThreadOk(Exec(s, step).slot, Exec(s, step).threads[step.thread])
  {
    var i := step.thread;
    assert ThreadOk(s.slot, s.threads[i]);
    OutstandingUpdate(s.threads, i, s.threads[i]);
  }

  lemma SlotOk(s: State, step: Step)
    requires Inv(s) && Enabled(s, step)
    ensures var s' := Exec(s, step);
            && s'.slot.count == Outstanding(s'.threads)
            && (s'.slot.state == Empty ==> s'.slot.count == 0)
            && (s'.slot.state != Empty ==> s'.slot.link != 0)
  {
    var i := step.thread;
    assert ThreadOk(s.slot, s.threads[i]);
    OutstandingUpdate(s.threads, i, Exec(s, step).threads[i]);
    if s.slot.count == 0 {
      NobodyHolds(s.threads);
    }
  }

  /** Every other thread stays in order: its references keep the path it acquired. */
  lemma OthersOk(s: State, step: Step, j: nat)
    requires Inv(s) && Enabled(s, step) && j < |s.threads| && j != step.thread
    ensures ThreadOk(Exec(s, step).slot, s.threads[j])
  {
    assert ThreadOk(s.slot, s.threads[step.thread]) && ThreadOk(s.slot, s.threads[j]);
    assert NeedsLock(s.threads[j].pc) <==> s.owner == Some(j);
    assert NeedsLock(s.threads[step.thread].pc) <==> s.owner == Some(step.thread);
    OutstandingPair(s.threads, step.thread, j);
  }

  lemma CompletionStaysPending(s: State, step: Step)
    requires Inv(s) && Enabled(s, step)
    requires Exec(s, step).slot.state == Retired && Exec(s, step).slot.count == 0
    ensures CompletionPending(Exec(s, step))
  {
    var s' := Exec(s, step);
    assert ThreadOk(s.slot, s.threads[step.thread]);
    OutstandingUpdate(s.threads, step.thread, s.threads[step.thread]);
    if s.slot.state == Retired && s.slot.count == 0 {
      var c :| 0 <= c < |s.threads| && s.threads[c].pc == Completing;
      assert s'.threads[c].pc == Completing;
    } else {
      assert s'.threads[step.thread].pc == Completing;
    }
  }

  lemma StepKeepsInv(s: State, step: Step)
    requires Inv(s) && Enabled(s, step)
    ensures Inv(Exec(s, step))
  {
    var s' := Exec(s, step);
    MoverOk(s, step);
    SlotOk(s, step);
    forall j | 0 <= j < |s.threads| ensures ThreadOk(s'.slot, s'.threads[j]) {
      if j != step.thread { OthersOk(s, step, j); }
    }
    forall j | 0 <= j < |s.threads|
      ensures NeedsLock(s'.threads[j].pc) <==> s'.owner == Some(j)
    {
      assert NeedsLock(s.threads[j].pc) <==> s.owner == Some(j);
      assert NeedsLock(s.threads[step.thread].pc) <==> s.owner == Some(step.thread);
    }
    if s'.slot.state == Retired && s'.slot.count == 0 {
      CompletionStaysPending(s, step);
    }
  }

  lemma {:induction false} RunKeepsInv(s: State, steps: seq<Step>)
    requires Inv(s) && Run(s, steps)
    ensures Inv(Final(s, steps))
    decreases |steps|
  {
    if steps != [] {
      StepKeepsInv(s, steps[0]);
      RunKeepsInv(Exec(s, steps[0]), steps[1..]);
    }
  }
}
