/** Start, stop, sending and purging on one link as interleaved steps (linkg_link.c and
    link_tx.c): the state machine under the control lock and the io_lock that stop uses to
    wait for senders. */
module LinkLifecycle {

  datatype LinkState = Stopped | Starting | Running | Stopping | Failed

  /** The one start or stop in progress; STARTING and STOPPING keep any other out. */
  datatype Control =
    | NoControl
    | Opening            // STARTING stored, open called
    | Opened             // open succeeded, RX thread start ahead
    | RollingBack        // RX thread failed, close called without io_lock
    | StoppingThread     // STOPPING stored, RX thread being stopped
    | WaitingForSenders  // RX thread stopped, write lock requested
    | Closing            // write lock held, close called
    | Released           // write lock given back, final state ahead

  /** A thread in submit_batch. */
  datatype Sender = Outside | SawRunning | Entered | Sending

  /** A thread in purge_tx_path. */
  datatype Purger = PurgeOutside | PurgeEntered | Purging

  datatype Link = Link(state: LinkState, isOpen: bool, didClose: bool, control: Control, senders: seq<Sender>,
                       purgers: seq<Purger>)

  predicate WriteLocked(s: Link) { s.control == Closing }

  predicate ReaderInside(s: Link) {
    || (exists i :: 0 <= i < |s.senders| && (s.senders[i] == Entered || s.senders[i] == Sending))
    || (exists i :: 0 <= i < |s.purgers| && (s.purgers[i] == PurgeEntered || s.purgers[i] == Purging))
  }

  /** The driver's close is running. */
  predicate CloseRunning(s: Link) { s.control == Closing || s.control == RollingBack }

  datatype Step =
    | StartBegins
    | OpenReturns(ok: bool)
    | ThreadStarts(ok: bool)
    | RollbackCloses(ok: bool)
    | StopBegins
    | ThreadStops(ok: bool)
    | WriteLock
    | CloseReturns(ok: bool)
    | StopEnds
    | SubmitChecks(i: nat)
    | SubmitEnters(i: nat)
    | SubmitChecksAgain(i: nat)
    | SendReturns(i: nat)
    | PurgeEnters(i: nat)
    | PurgeChecks(i: nat)
    | PurgeReturns(i: nat)

  predicate Enabled(s: Link, step: Step) {
    match step
    case StartBegins => s.state == Stopped
    case OpenReturns(_) => s.control == Opening
    case ThreadStarts(_) => s.control == Opened
    case RollbackCloses(_) => s.control == RollingBack
    case StopBegins => s.state == Running || s.state == Failed
    case ThreadStops(_) => s.control == StoppingThread
    case WriteLock => s.control == WaitingForSenders && !ReaderInside(s)
    case CloseReturns(_) => s.control == Closing
    case StopEnds => s.control == Released
    case SubmitChecks(i) => i < |s.senders| && s.senders[i] == Outside
    case SubmitEnters(i) => i < |s.senders| && s.senders[i] == SawRunning && !WriteLocked(s)
    case SubmitChecksAgain(i) => i < |s.senders| && s.senders[i] == Entered
    case SendReturns(i) => i < |s.senders| && s.senders[i] == Sending
    case PurgeEnters(i) => i < |s.purgers| && s.purgers[i] == PurgeOutside && !WriteLocked(s)
    case PurgeChecks(i) => i < |s.purgers| && s.purgers[i] == PurgeEntered
    case PurgeReturns(i) => i < |s.purgers| && s.purgers[i] == Purging
  }

  function Exec(s: Link, step: Step): Link
    requires Enabled(s, step)
  {
    match step
    case StartBegins => s.(state := Starting, control := Opening)
    case OpenReturns(ok) =>
      if ok then s.(isOpen := true, control := Opened) else s.(state := Stopped, control := NoControl)
    case ThreadStarts(ok) =>
      if ok then s.(state := Running, control := NoControl) else s.(control := RollingBack)
    case RollbackCloses(ok) =>
      if ok then s.(isOpen := false, state := Stopped, control := NoControl)
      else s.(state := Failed, control := NoControl)
    case StopBegins => s.(state := Stopping, control := StoppingThread)
    case ThreadStops(ok) =>
      if ok then s.(control := WaitingForSenders) else s.(control := Released, didClose := false)
    case WriteLock => if s.isOpen then s.(control := Closing) else s.(control := Released, didClose := true)
    case CloseReturns(ok) => s.(isOpen := !ok, didClose := ok, control := Released)
    case StopEnds => s.(state := if s.didClose then Stopped else Failed, control := NoControl)
    case SubmitChecks(i) => s.(senders := s.senders[i := if s.state == Running then SawRunning else Outside])
    case SubmitEnters(i) => s.(senders := s.senders[i := Entered])
    case SubmitChecksAgain(i) =>
      s.(senders := s.senders[i := if s.state == Running && s.isOpen then Sending else Outside])
    case SendReturns(i) => s.(senders := s.senders[i := Outside])
    case PurgeEnters(i) => s.(purgers := s.purgers[i := PurgeEntered])
    case PurgeChecks(i) => s.(purgers := s.purgers[i := if s.isOpen then Purging else PurgeOutside])
    case PurgeReturns(i) => s.(purgers := s.purgers[i := PurgeOutside])
  }

  function Created(senders: nat, purgers: nat): Link {
    Link(Stopped, false, false, NoControl, seq(senders, _ => Outside), seq(purgers, _ => PurgeOutside))
  }

  predicate Run(s: Link, steps: seq<Step>)
    decreases |steps|
  {
    steps == [] || (Enabled(s, steps[0]) && Run(Exec(s, steps[0]), steps[1..]))
  }

  function Final(s: Link, steps: seq<Step>): Link
    requires Run(s, steps)
    decreases |steps|
  {
    if steps == [] then s else Final(Exec(s, steps[0]), steps[1..])
  }

  // ------------------------------------------------------------------ invariant

  predicate SomebodySends(s: Link) { exists i :: 0 <= i < |s.senders| && s.senders[i] == Sending }

  predicate ControlOk(s: Link) {
    && (s.state == Starting <==> s.control == Opening || s.control == Opened || s.control == RollingBack)
    && (s.state == Stopping <==>
          s.control == StoppingThread || s.control == WaitingForSenders || s.control == Closing
            || s.control == Released)
    && (s.control == Opened || s.control == RollingBack || s.control == Closing ==> s.isOpen)
    && (s.state == Running ==> s.isOpen)
    && (s.state == Stopped || s.control == Opening ==> !s.isOpen)
    && (s.control == Released && s.didClose ==> !s.isOpen)
  }

  /** A running send keeps the link open, and outlives neither a stop nor the state in which
      it started. */
  predicate Inv(s: Link) {
    && ControlOk(s)
    && (SomebodySends(s) ==> s.isOpen && (s.state == Running || s.state == Failed || s.state == Stopping))
    && (WriteLocked(s) ==> !ReaderInside(s))
  }

  lemma StepKeepsInv(s: Link, step: Step)
    requires Inv(s) && Enabled(s, step)
    ensures Inv(Exec(s, step))
  {
  }

  lemma {:induction false} RunKeepsInv(s: Link, steps: seq<Step>)
    requires Inv(s) && Run(s, steps)
    ensures Inv(Final(s, steps))
    decreases |steps|
  {
    if steps != [] {
      StepKeepsInv(s, steps[0]);
      RunKeepsInv(Exec(s, steps[0]), steps[1..]);
    }
  }

  // ------------------------------------------------------------------ theorems

  /** The driver's send_batch never overlaps its close, in any interleaving. */
  lemma SendNeverOverlapsClose(senders: nat, purgers: nat, steps: seq<Step>)
    requires Run(Created(senders, purgers), steps)
    ensures var s := Final(Created(senders, purgers), steps); CloseRunning(s) ==> !SomebodySends(s)
  {
    RunKeepsInv(Created(senders, purgers), steps);
    var s := Final(Created(senders, purgers), steps);
    assert SomebodySends(s) ==> ReaderInside(s);
  }

  predicate SomebodyPurges(s: Link) { exists i :: 0 <= i < |s.purgers| && s.purgers[i] == Purging }

  /** A purge overlaps a close only when that close is start's rollback: stop's close holds
      the write lock, the rollback's does not. */
  lemma PurgeOverlapsOnlyRollback(senders: nat, purgers: nat, steps: seq<Step>)
    requires Run(Created(senders, purgers), steps)
    ensures var s := Final(Created(senders, purgers), steps);
            CloseRunning(s) && SomebodyPurges(s) ==> s.control == RollingBack
  {
    RunKeepsInv(Created(senders, purgers), steps);
    var s := Final(Created(senders, purgers), steps);
    assert SomebodyPurges(s) ==> ReaderInside(s);
  }

  /** The driver's close runs while a purge or a send is in the driver. */
  predicate Overlap(s: Link) { CloseRunning(s) && (SomebodyPurges(s) || SomebodySends(s)) }

  /** Where an overlap begins: a start that has opened the driver fails while a purge is inside,
      or a purge passes its check while such a start is closing the driver again. Nothing else
      begins one. */
  lemma OverlapBeginsIff(senders: nat, purgers: nat, steps: seq<Step>, step: Step)
    requires Run(Created(senders, purgers), steps)
    requires var s := Final(Created(senders, purgers), steps); !Overlap(s) && Enabled(s, step)
    ensures var s := Final(Created(senders, purgers), steps);
            Overlap(Exec(s, step)) <==>
              (step == ThreadStarts(false) && SomebodyPurges(s)) || (step.PurgeChecks? && s.control == RollingBack)
  {
    RunKeepsInv(Created(senders, purgers), steps);
    var s := Final(Created(senders, purgers), steps);
    var s' := Exec(s, step);
    StepKeepsInv(s, step);
    assert SomebodyPurges(s') ==> ReaderInside(s');
    assert SomebodySends(s') ==> ReaderInside(s');
    if step.PurgeChecks? {
      assert s.isOpen ==> s'.purgers[step.i] == Purging;
    } else {
      assert forall i :: 0 <= i < |s.purgers| ==> s'.purgers[i] == Purging ==> s.purgers[i] == Purging;
      assert step == ThreadStarts(false) ==> s'.purgers == s.purgers;
    }
  }

  lemma {:induction false} PurgersStay(s: Link, steps: seq<Step>)
    requires Run(s, steps)
    ensures |Final(s, steps).purgers| == |s.purgers|
    decreases |steps|
  {
    if steps != [] {
      PurgersStay(Exec(s, steps[0]), steps[1..]);
    }
  }

  function OverlapSteps(): seq<Step> {
    [StartBegins, OpenReturns(true), PurgeEnters(0), PurgeChecks(0), ThreadStarts(false)]
  }

  lemma StepThenRun(s: Link, step: Step, rest: seq<Step>, steps: seq<Step>)
    requires Enabled(s, step) && Run(Exec(s, step), rest) && steps == [step] + rest
    ensures Run(s, steps) && Final(s, steps) == Final(Exec(s, step), rest)
  {
    assert steps[1..] == rest;
  }

  /** It does happen on every link that is purged: open succeeds, a purge of an old path gets in,
      the RX thread does not start, and the rollback closes the driver under the purge. */
  lemma PurgeCanOverlapRollback(senders: nat, purgers: nat)
    requires purgers > 0
    ensures Run(Created(senders, purgers), OverlapSteps())
    ensures var s := Final(Created(senders, purgers), OverlapSteps()); s.control == RollingBack && SomebodyPurges(s)
  {
    var s0 := Created(senders, purgers);
    var s1 := Exec(s0, StartBegins);
    var s2 := Exec(s1, OpenReturns(true));
    var s3 := Exec(s2, PurgeEnters(0));
    var s4 := Exec(s3, PurgeChecks(0));
    StepThenRun(s4, ThreadStarts(false), [], [ThreadStarts(false)]);
    StepThenRun(s3, PurgeChecks(0), [ThreadStarts(false)], OverlapSteps()[3..]);
    StepThenRun(s2, PurgeEnters(0), OverlapSteps()[3..], OverlapSteps()[2..]);
    StepThenRun(s1, OpenReturns(true), OverlapSteps()[2..], OverlapSteps()[1..]);
    StepThenRun(s0, StartBegins, OverlapSteps()[1..], OverlapSteps());
    assert Final(s0, OverlapSteps()).purgers[0] == Purging;
  }

  /** Some interleaving overlaps if and only if the link has a thread that purges it at all. */
  lemma OverlapPossibleIff(senders: nat, purgers: nat)
    ensures purgers > 0 <==>
              exists steps :: Run(Created(senders, purgers), steps) && Overlap(Final(Created(senders, purgers), steps))
  {
    var s := Created(senders, purgers);
    if purgers > 0 {
      PurgeCanOverlapRollback(senders, purgers);
      assert Overlap(Final(s, OverlapSteps()));
    } else {
      forall steps | Run(s, steps) ensures !Overlap(Final(s, steps)) {
        PurgersStay(s, steps);
        SendNeverOverlapsClose(senders, purgers, steps);
      }
    }
  }

  /** A stopped link is closed: STOPPED is only stored when nothing is left open. */
  lemma StoppedIsClosed(senders: nat, purgers: nat, steps: seq<Step>)
    requires Run(Created(senders, purgers), steps)
    ensures var s := Final(Created(senders, purgers), steps);
            (s.state == Stopped ==> !s.isOpen && !SomebodySends(s)) && (s.state == Running ==> s.isOpen)
  {
    RunKeepsInv(Created(senders, purgers), steps);
  }
}
