/** What the path protocol guarantees over whole runs, and the one guarantee it
    does not give: a retired path is not always reclaimed. */
module PathSafety {
  import opened PathTypes
  import opened PathProtocol

  // ------------------------------------------------------------------ references

  predicate HoldsThroughout(s: State, steps: seq<Step>, i: nat)
    requires Run(s, steps)
    decreases |steps|
  {
    && i < |s.threads|
    && s.threads[i].held > 0
    && (steps != [] ==> HoldsThroughout(Exec(s, steps[0]), steps[1..], i))
  }

  /** While a thread holds a reference the slot is not emptied and not activated
      again, so the link the thread acquired is the link it still sees. */
  lemma {:induction false} HolderKeepsPath(s: State, steps: seq<Step>, i: nat)
    requires Inv(s) && Run(s, steps) && HoldsThroughout(s, steps, i)
    ensures var s' := Final(s, steps);
            && s'.slot.state != Empty
            && s'.slot.link == s.slot.link
            && s'.slot.epoch == s.slot.epoch
    decreases |steps|
  {
    assert ThreadOk(s.slot, s.threads[i]);
    if steps != [] {
      var s1 := Exec(s, steps[0]);
      StepKeepsInv(s, steps[0]);
      assert ThreadOk(s.slot, s.threads[steps[0].thread]);
      assert s1.slot.epoch == s.slot.epoch && s1.slot.link == s.slot.link by {
        if steps[0].thread != i {
          OutstandingPair(s.threads, steps[0].thread, i);
        }
        assert ThreadOk(s1.slot, s1.threads[i]);
      }
      HolderKeepsPath(s1, steps[1..], i);
    }
  }

  /** In every reachable state the count is the number of outstanding references,
      an empty slot has none, a drained retired path still has a thread whose
      completion swap is ahead, and no thread is in the -EFAULT branch of Node's retire. */
  lemma ReachableSafety(s: State, steps: seq<Step>)
    requires Initial(s) && Run(s, steps)
    ensures var s' := Final(s, steps);
            && s'.slot.count == Outstanding(s'.threads)
            && (s'.slot.state == Empty ==> Outstanding(s'.threads) == 0)
            && (s'.slot.state == Retired && s'.slot.count == 0 ==> CompletionPending(s'))
            && (forall i :: 0 <= i < |s'.threads| ==>
                  s'.threads[i].pc != RetireSawZero && s'.threads[i].pc != RetireSynchronous)
  {
    InitialInv(s);
    RunKeepsInv(s, steps);
    var s' := Final(s, steps);
    forall i | 0 <= i < |s'.threads|
      ensures s'.threads[i].pc != RetireSawZero && s'.threads[i].pc != RetireSynchronous
    {
      assert ThreadOk(s'.slot, s'.threads[i]);
    }
  }

  /** A thread outside the Node lock changes the slot only as LockFreeChange allows. */
  lemma OutsideLockIsLockFree(s: State, step: Step)
    requires Inv(s) && Enabled(s, step) && s.owner != Some(step.thread) && !step.action.Lock?
    requires !step.action.EnterCallback?
    ensures var s' := Exec(s, step);
            && LockFreeChange(s.slot.state, s.slot.count, s'.slot.state, s'.slot.count)
            && s'.slot.link == s.slot.link && s'.slot.epoch == s.slot.epoch && s'.owner == s.owner
  {
  }

  // ------------------------------------------------------------------ one release per activation

  /** How many steps of the run turn activation `epoch` from RETIRED to RELEASED. */
  function ReleasesOf(s: State, steps: seq<Step>, epoch: nat): nat
    requires Run(s, steps)
    decreases |steps|
  {
    if steps == [] then 0 else
      var s1 := Exec(s, steps[0]);
      (if s.slot.epoch == epoch && s.slot.state == Retired && s1.slot.state == Released then 1 else 0)
      + ReleasesOf(s1, steps[1..], epoch)
  }

  function ReleasesLeft(slot: Slot, epoch: nat): nat {
    if slot.epoch < epoch then 1
    else if slot.epoch == epoch && (slot.state == Active || slot.state == Retired) then 1
    else 0
  }

  lemma {:induction false} ReleasesAreBounded(s: State, steps: seq<Step>, epoch: nat)
    requires Inv(s) && Run(s, steps)
    ensures ReleasesOf(s, steps, epoch) <= ReleasesLeft(s.slot, epoch)
    decreases |steps|
  {
    if steps != [] {
      StepKeepsInv(s, steps[0]);
      ReleasesAreBounded(Exec(s, steps[0]), steps[1..], epoch);
      assert ThreadOk(s.slot, s.threads[steps[0].thread]);
    }
  }

  lemma AtMostOneReleasePerActivation(s: State, steps: seq<Step>, epoch: nat)
    requires Initial(s) && Run(s, steps)
    ensures ReleasesOf(s, steps, epoch) <= 1
  {
    InitialInv(s);
    ReleasesAreBounded(s, steps, epoch);
  }

  // ------------------------------------------------------------------ lost notifications

  predicate Notifier(pc: Pc) {
    pc == Notifying || pc == CallbackLocked || pc == CallbackSawReleased || pc == CallbackResetting
  }

  predicate HasNotifier(s: State) {
    exists i :: 0 <= i < |s.threads| && Notifier(s.threads[i].pc)
  }

  /** Released, and nobody is left who would empty the slot on behalf of the release. */
  predicate Lost(s: State) {
    s.slot.state == Released && !HasNotifier(s)
  }

  /** Only an explicit reset inside a later Node operation ends a lost state. */
  lemma LostUntilReset(s: State, step: Step)
    requires Inv(s) && Lost(s) && Enabled(s, step)
    ensures Lost(Exec(s, step)) || step.action == DoReset
  {
  }

  /** Activation `epoch` was retired while no completion swap was pending. */
  predicate Clean(s: State, epoch: nat) {
    s.slot.epoch == epoch ==>
      match s.slot.state
      case Empty => true
      case Active => (exists i :: 0 <= i < |s.threads| && s.threads[i].pc == RetireHolding) && !CompletionPending(s)
      case Retired => s.slot.count > 0 ==> !CompletionPending(s)
      case Released => s.slot.count == 0 && HasNotifier(s)
  }

  lemma CleanActive(s: State, step: Step, epoch: nat, h: nat)
    requires Inv(s) && Clean(s, epoch) && Enabled(s, step) && s.slot.epoch == epoch && s.slot.state == Active
    requires h < |s.threads| && s.threads[h].pc == RetireHolding
    ensures Clean(Exec(s, step), epoch)
  {
    var s' := Exec(s, step);
    var i := step.thread;
    assert ThreadOk(s.slot, s.threads[i]) && ThreadOk(s.slot, s.threads[h]);
    assert NeedsLock(s.threads[h].pc) <==> s.owner == Some(h);
    assert NeedsLock(s.threads[i].pc) <==> s.owner == Some(i);
    assert s.threads[i].pc != Completing;
    if i != h {
      OutstandingPair(s.threads, i, h);
      assert s'.threads[h].pc == RetireHolding;
    }
    forall k | 0 <= k < |s'.threads| ensures s'.threads[k].pc != Completing {
      assert s.threads[k].pc != Completing;
    }
  }

  lemma CleanRetired(s: State, step: Step, epoch: nat)
    requires Inv(s) && Clean(s, epoch) && Enabled(s, step) && s.slot.epoch == epoch && s.slot.state == Retired
    ensures Clean(Exec(s, step), epoch)
  {
    var s' := Exec(s, step);
    assert ThreadOk(s.slot, s.threads[step.thread]);
    if s'.slot.state == Retired {
      if s'.slot.count > 0 {
        forall k | 0 <= k < |s'.threads| ensures s'.threads[k].pc != Completing {
          assert s.threads[k].pc != Completing;
        }
      }
    } else {
      assert s.threads[step.thread].pc == Completing;
      assert Notifier(s'.threads[step.thread].pc);
    }
  }

  lemma CleanReleased(s: State, step: Step, epoch: nat)
    requires Inv(s) && Clean(s, epoch) && Enabled(s, step) && s.slot.epoch == epoch && s.slot.state == Released
    ensures Clean(Exec(s, step), epoch)
  {
    var s' := Exec(s, step);
    assert ThreadOk(s.slot, s.threads[step.thread]);
    NobodyHolds(s.threads);
    var k :| 0 <= k < |s.threads| && Notifier(s.threads[k].pc);
    if s'.slot.state == Released {
      assert Notifier(s'.threads[k].pc);
    }
  }

  lemma CleanStep(s: State, step: Step, epoch: nat)
    requires Inv(s) && Clean(s, epoch) && epoch <= s.slot.epoch && Enabled(s, step)
    ensures Clean(Exec(s, step), epoch) && epoch <= Exec(s, step).slot.epoch
  {
    assert ThreadOk(s.slot, s.threads[step.thread]);
    if s.slot.epoch == epoch {
      match s.slot.state
      case Empty =>
      case Active =>
        var h :| 0 <= h < |s.threads| && s.threads[h].pc == RetireHolding;
        CleanActive(s, step, epoch, h);
      case Retired => CleanRetired(s, step, epoch);
      case Released => CleanReleased(s, step, epoch);
    }
  }

  lemma {:induction false} CleanRun(s: State, steps: seq<Step>, epoch: nat)
    requires Inv(s) && Clean(s, epoch) && epoch <= s.slot.epoch && Run(s, steps)
    ensures Clean(Final(s, steps), epoch)
    decreases |steps|
  {
    if steps != [] {
      CleanStep(s, steps[0], epoch);
      StepKeepsInv(s, steps[0]);
      CleanRun(Exec(s, steps[0]), steps[1..], epoch);
    }
  }

  // ------------------------------------------------------------------ losing the notification

  lemma {:induction false} RunAppend(s: State, a: seq<Step>, b: seq<Step>)
    requires Run(s, a) && Run(Final(s, a), b)
    ensures Run(s, a + b) && Final(s, a + b) == Final(Final(s, a), b)
    decreases |a|
  {
    if a == [] {
      assert a + b == b;
    } else {
      assert (a + b)[0] == a[0] && (a + b)[1..] == a[1..] + b;
      RunAppend(Exec(s, a[0]), a[1..], b);
    }
  }

  /** One waiting notifier runs its callback, finds the count nonzero and gives up. */
  function GiveUp(i: nat): seq<Step> {
    [Step(i, EnterCallback), Step(i, CallbackRead), Step(i, CallbackCheck)]
  }

  lemma NotifierGivesUp(s: State, i: nat)
    requires i < |s.threads| && s.threads[i].pc == Notifying
    requires s.owner == None && s.slot.state == Released && s.slot.count > 0
    ensures Run(s, GiveUp(i))
    ensures Final(s, GiveUp(i)) == s.(threads := s.threads[i := s.threads[i].(pc := Idle)])
  {
    var steps := GiveUp(i);
    var s1 := Exec(s, steps[0]);
    var s2 := Exec(s1, steps[1]);
    var s3 := Exec(s2, steps[2]);
    assert steps[1..][1..] == steps[2..] && steps[2..][1..] == [];
    assert Run(s2, steps[2..]);
    assert Run(s1, steps[1..]);
    assert Final(s1, steps[1..]) == Final(s2, steps[2..]) == s3;
    assert s3.threads == s.threads[i := s.threads[i].(pc := Idle)];
  }

  /** All notifiers from thread k on give up in turn. */
  lemma {:induction false} NotifiersGiveUp(s: State, k: nat) returns (steps: seq<Step>)
    requires Inv(s) && k <= |s.threads|
    requires s.owner == None && s.slot.state == Released && s.slot.count > 0
    requires forall j :: 0 <= j < k ==> !Notifier(s.threads[j].pc)
    ensures Run(s, steps)
    ensures Final(s, steps).slot == s.slot && Lost(Final(s, steps))
    decreases |s.threads| - k
  {
    if k == |s.threads| {
      steps := [];
    } else {
      assert NeedsLock(s.threads[k].pc) <==> s.owner == Some(k);
      if s.threads[k].pc == Notifying {
        NotifierGivesUp(s, k);
        RunKeepsInv(s, GiveUp(k));
        var rest := NotifiersGiveUp(Final(s, GiveUp(k)), k + 1);
        RunAppend(s, GiveUp(k), rest);
        steps := GiveUp(k) + rest;
      } else {
        steps := NotifiersGiveUp(s, k + 1);
      }
    }
  }

  /** Thread h retires the path while thread c, which drained it earlier, has its
      completion swap ahead: the swap wins although h still holds its reference. */
  lemma EarlyCompletion(s: State, h: nat, c: nat)
    requires Inv(s) && h < |s.threads| && c < |s.threads|
    requires s.threads[h].pc == RetireHolding && s.threads[c].pc == Completing
    ensures var steps := [Step(h, SwapRetired), Step(c, TryComplete), Step(h, LoadCount), Step(h, Unlock)];
            && Run(s, steps)
            && Final(s, steps).slot == s.slot.(state := Released)
            && Final(s, steps).owner == None
            && s.slot.count > 0
  {
    assert ThreadOk(s.slot, s.threads[h]);
    OutstandingUpdate(s.threads, h, s.threads[h]);
    assert NeedsLock(s.threads[h].pc) <==> s.owner == Some(h);
    var s1 := Exec(s, Step(h, SwapRetired));
    var s2 := Exec(s1, Step(c, TryComplete));
    var s3 := Exec(s2, Step(h, LoadCount));
    FourSteps(s, Step(h, SwapRetired), Step(c, TryComplete), Step(h, LoadCount), Step(h, Unlock));
  }

  lemma FourSteps(s: State, a: Step, b: Step, c: Step, d: Step)
    requires Enabled(s, a) && Enabled(Exec(s, a), b) && Enabled(Exec(Exec(s, a), b), c)
    requires Enabled(Exec(Exec(Exec(s, a), b), c), d)
    ensures Run(s, [a, b, c, d]) && Final(s, [a, b, c, d]) == Exec(Exec(Exec(Exec(s, a), b), c), d)
  {
    var s1, s2, s3 := Exec(s, a), Exec(Exec(s, a), b), Exec(Exec(Exec(s, a), b), c);
    assert [d][1..] == [] && [c, d][1..] == [d] && [b, c, d][1..] == [c, d] && [a, b, c, d][1..] == [b, c, d];
    assert Run(s3, [d]) && Final(s3, [d]) == Exec(s3, d);
    assert Run(s2, [c, d]) && Final(s2, [c, d]) == Exec(s3, d);
    assert Run(s1, [b, c, d]) && Final(s1, [b, c, d]) == Exec(s3, d);
  }

  lemma LosingRun(s: State, h: nat, c: nat) returns (steps: seq<Step>)
    requires Inv(s) && h < |s.threads| && c < |s.threads|
    requires s.threads[h].pc == RetireHolding && s.threads[c].pc == Completing
    ensures Run(s, steps) && Final(s, steps).slot.epoch == s.slot.epoch && Lost(Final(s, steps))
  {
    var first := [Step(h, SwapRetired), Step(c, TryComplete), Step(h, LoadCount), Step(h, Unlock)];
    EarlyCompletion(s, h, c);
    RunKeepsInv(s, first);
    var rest := NotifiersGiveUp(Final(s, first), 0);
    RunAppend(s, first, rest);
    steps := first + rest;
  }

  /** When Node retires a path under its cleanup reference, some continuation loses
      the release notification of that activation if and only if, at that moment, a
      thread that had drained the path still has its completion swap ahead. */
  lemma RetireLosesNotificationIff(s: State, h: nat)
    requires Inv(s) && h < |s.threads| && s.threads[h].pc == RetireHolding
    ensures (exists steps :: Run(s, steps) && Final(s, steps).slot.epoch == s.slot.epoch && Lost(Final(s, steps)))
            <==> CompletionPending(s)
  {
    assert ThreadOk(s.slot, s.threads[h]);
    if CompletionPending(s) {
      var c :| 0 <= c < |s.threads| && s.threads[c].pc == Completing;
      var steps := LosingRun(s, h, c);
    } else {
      forall steps | Run(s, steps) && Final(s, steps).slot.epoch == s.slot.epoch
        ensures !Lost(Final(s, steps))
      {
        CleanRun(s, steps, s.slot.epoch);
      }
    }
  }

  // ------------------------------------------------------------------ a run that strands the slot

  ghost predicate Reaches(s: State, s': State) {
    exists steps :: Run(s, steps) && Final(s, steps) == s'
  }

  lemma ReachesItself(s: State)
    ensures Reaches(s, s)
  {
    assert Run(s, []) && Final(s, []) == s;
  }

  function Pair(slot: Slot, owner: Option<nat>, first: Thread, second: Thread): State {
    State(slot, owner, [first, second])
  }

  /** One more step of a run of two threads, with the state it leads to. */
  lemma Then(s: State, now: State, step: Step, next: State)
    requires Reaches(s, now) && |now.threads| == 2 && Enabled(now, step)
    requires next
             == Pair(Exec(now, step).slot, Exec(now, step).owner, Exec(now, step).threads[0],
                     Exec(now, step).threads[1])
    ensures Reaches(s, next)
  {
    var steps :| Run(s, steps) && Final(s, steps) == now;
    assert [step][1..] == [] && Run(Exec(now, step), []);
    RunAppend(s, steps, [step]);
    assert next.threads == Exec(now, step).threads;
    assert Final(s, steps + [step]) == next;
  }

  /** Thread 1 drains an active path and stops short of its completion swap. */
  lemma DrainWhileActive(s: State)
    requires s == Pair(Slot(Empty, 0, 0, 0), None, Thread(Idle, 0, View(0, 0)), Thread(Idle, 0, View(0, 0)))
    ensures Reaches(s,
                    Pair(Slot(Active, 0, 7, 1), None, Thread(Idle, 0, View(0, 0)), Thread(Completing, 0, View(7, 1))))
  {
    var t := Thread(Idle, 0, View(0, 0));
    var empty := Slot(Empty, 0, 0, 0);
    var used := Slot(Active, 1, 7, 1);
    ReachesItself(s);
    var s1 := Pair(empty, Some(1), t, t.(pc := Locked));
    Then(s, s, Step(1, Lock), s1);
    var s2 := Pair(empty, Some(1), t, t.(pc := ActivateSawEmpty(7)));
    Then(s, s1, Step(1, BeginActivate(7)), s2);
    var s3 := Pair(empty, Some(1), t, t.(pc := Activating(7)));
    Then(s, s2, Step(1, CheckActivate), s3);
    var s4 := Pair(used.(count := 0), Some(1), t, t.(pc := Locked));
    Then(s, s3, Step(1, DoActivate), s4);
    var s5 := Pair(used.(count := 0), Some(1), t, t.(pc := AcquireSawActive(1)));
    Then(s, s4, Step(1, BeginAcquire(1)), s5);
    var s6 := Pair(used, Some(1), t, Thread(Locked, 1, View(7, 1)));
    Then(s, s5, Step(1, DoAcquire), s6);
    var s7 := Pair(used, None, t, Thread(Idle, 1, View(7, 1)));
    Then(s, s6, Step(1, Unlock), s7);
    var s8 := Pair(used, None, t, Thread(ReleaseLoaded(1), 1, View(7, 1)));
    Then(s, s7, Step(1, StartRelease), s8);
    Then(s, s8, Step(1, TryDecrement(false)), Pair(used.(count := 0), None, t, Thread(Completing, 0, View(7, 1))));
  }

  /** Thread 0 retires the path under its cleanup reference; thread 1's late swap wins. */
  lemma LateSwapWins(s: State)
    requires Reaches(s,
                     Pair(Slot(Active, 0, 7, 1), None, Thread(Idle, 0, View(0, 0)), Thread(Completing, 0, View(7, 1))))
    ensures Reaches(s,
                    Pair(Slot(Released, 1, 7, 1), None, Thread(Idle, 1, View(7, 1)), Thread(Notifying, 0, View(7, 1))))
  {
    var t := Thread(Idle, 0, View(0, 0));
    var u := Thread(Idle, 1, View(7, 1));
    var c := Thread(Completing, 0, View(7, 1));
    var used := Slot(Active, 0, 7, 1);
    var gone := Slot(Released, 1, 7, 1);
    var s1 := Pair(used, Some(0), t.(pc := Locked), c);
    Then(s, Pair(used, None, t, c), Step(0, Lock), s1);
    var s2 := Pair(used, Some(0), t.(pc := RetireSawActive), c);
    Then(s, s1, Step(0, BeginRetire), s2);
    var s3 := Pair(used.(count := 1), Some(0), u.(pc := RetireHolding), c);
    Then(s, s2, Step(0, TakeCleanup), s3);
    var s4 := Pair(Slot(Retired, 1, 7, 1), Some(0), u.(pc := RetireSwapped), c);
    Then(s, s3, Step(0, SwapRetired), s4);
    var s5 := Pair(gone, Some(0), u.(pc := RetireSwapped), c.(pc := Notifying));
    Then(s, s4, Step(1, TryComplete), s5);
    var s6 := Pair(gone, Some(0), u.(pc := Locked), c.(pc := Notifying));
    Then(s, s5, Step(0, LoadCount), s6);
    Then(s, s6, Step(0, Unlock), Pair(gone, None, u, c.(pc := Notifying)));
  }

  /** Thread 1's callback finds thread 0's cleanup reference and gives up. */
  lemma CallbackGivesUp(s: State)
    requires Reaches(s,
                     Pair(Slot(Released, 1, 7, 1), None, Thread(Idle, 1, View(7, 1)), Thread(Notifying, 0, View(7, 1))))
    ensures Reaches(s, Pair(Slot(Released, 1, 7, 1), None, Thread(Idle, 1, View(7, 1)), Thread(Idle, 0, View(7, 1))))
  {
    var u := Thread(Idle, 1, View(7, 1));
    var c := Thread(Notifying, 0, View(7, 1));
    var gone := Slot(Released, 1, 7, 1);
    var s1 := Pair(gone, Some(1), u, c.(pc := CallbackLocked));
    Then(s, Pair(gone, None, u, c), Step(1, EnterCallback), s1);
    var s2 := Pair(gone, Some(1), u, c.(pc := CallbackSawReleased));
    Then(s, s1, Step(1, CallbackRead), s2);
    Then(s, s2, Step(1, CallbackCheck), Pair(gone, None, u, c.(pc := Idle)));
  }

  /** Thread 0's last release finds the path already released. */
  lemma LastReleaseFindsReleased(s: State)
    requires Reaches(s, Pair(Slot(Released, 1, 7, 1), None, Thread(Idle, 1, View(7, 1)), Thread(Idle, 0, View(7, 1))))
    ensures Reaches(s, Pair(Slot(Released, 0, 7, 1), None, Thread(Idle, 0, View(7, 1)), Thread(Idle, 0, View(7, 1))))
  {
    var u := Thread(Idle, 1, View(7, 1));
    var idle := Thread(Idle, 0, View(7, 1));
    var gone := Slot(Released, 1, 7, 1);
    var s1 := Pair(gone, None, u.(pc := ReleaseLoaded(1)), idle);
    Then(s, Pair(gone, None, u, idle), Step(0, StartRelease), s1);
    var s2 := Pair(gone.(count := 0), None, idle.(pc := Completing), idle);
    Then(s, s1, Step(0, TryDecrement(false)), s2);
    Then(s, s2, Step(0, TryComplete), Pair(gone.(count := 0), None, idle, idle));
  }

  lemma ThenStrands(s: State)
    requires Reaches(s,
                     Pair(Slot(Active, 0, 7, 1), None, Thread(Idle, 0, View(0, 0)), Thread(Completing, 0, View(7, 1))))
    ensures Reaches(s, Pair(Slot(Released, 0, 7, 1), None, Thread(Idle, 0, View(7, 1)), Thread(Idle, 0, View(7, 1))))
  {
    LateSwapWins(s);
    CallbackGivesUp(s);
    LastReleaseFindsReleased(s);
  }

  lemma NobodyLeft()
    ensures Initial(Pair(Slot(Empty, 0, 0, 0), None, Thread(Idle, 0, View(0, 0)), Thread(Idle, 0, View(0, 0))))
    ensures Lost(Pair(Slot(Released, 0, 7, 1), None, Thread(Idle, 0, View(7, 1)), Thread(Idle, 0, View(7, 1))))
  {
  }

  /** From the start of the program: thread 0 retires the path, thread 1's late swap
      releases it, its callback finds thread 0's cleanup reference and gives up, and
      thread 0's last release finds the path already released. The slot ends RELEASED
      with no reference and every thread idle. While the peer is retiring no Node operation
      empties it: NodeTable.StrandedForEver. */
  lemma RetiredPathCanBeStranded()
    ensures var s := Pair(Slot(Empty, 0, 0, 0), None, Thread(Idle, 0, View(0, 0)), Thread(Idle, 0, View(0, 0)));
            var s' := Pair(Slot(Released, 0, 7, 1), None, Thread(Idle, 0, View(7, 1)), Thread(Idle, 0, View(7, 1)));
            Initial(s) && Reaches(s, s') && Lost(s')
  {
    var s := Pair(Slot(Empty, 0, 0, 0), None, Thread(Idle, 0, View(0, 0)), Thread(Idle, 0, View(0, 0)));
    NobodyLeft();
    DrainWhileActive(s);
    ThenStrands(s);
  }
}
