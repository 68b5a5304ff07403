/** The probe engine over whole runs: any order of worker steps, replies, timeouts, path
    changes, diagnostics, single-packet requests, stops and restarts. */
module ProbeRuns {
  import opened ProbeTable
  import opened ProbeEngine
  import opened ProbeInvariant
  import opened ProbeSteps
  import opened ProbeRequests
  import S = ProbeSummary

  datatype Step =
    | SendPeriodic(key: Key, cls: nat, now: nat)
    | SendVerify(cls: nat, now: nat)
    | SendSample(now: nat)
    | MarkSending(now: nat)
    | FinishSend(status: int, now: nat)
    | ReplyArrives(key: Key, cls: nat, sequence: nat, now: nat)
    | TimeScan(now: nat)
    | PathLeaves(key: Key, now: nat)
    | PathAppears(key: Key, phases: seq<nat>, now: nat)
    | NewRhythm(key: Key, cls: nat, intervalUs: nat, nextUs: nat)
    | Diagnose(request: Request, now: nat)
    | AbortDiagnose(status: int, now: nat)
    | TakeResult
    | SubmitVerify(cls: nat, key: Key, timeoutUs: nat, now: nat)
    | PollVerify(handle: nat, now: nat)
    | CancelVerify(handle: nat)
    | StopAll(status: int, now: nat)
    | Restart

  /** When the source takes the step: the worker has one send at a time and reads a
      monotonic clock; the other callers' clock values are arbitrary. */
  predicate Enabled(e: Engine, step: Step) {
    match step
    case SendPeriodic(key, cls, now) =>
      e.running && e.task == NoTask && e.clock <= now && key in e.paths && cls < CLASSES && cls < |e.paths[key].classes|
      && e.paths[key].classes[cls].nextUs <= now
    case SendVerify(cls, now) =>
      e.running && e.task == NoTask && e.clock <= now && cls < CLASSES && cls < |e.async|
      && Outstanding(e.async[cls]) && !e.async[cls].dispatched && e.async[cls].queuedUs <= now
    case SendSample(now) =>
      e.running && e.task == NoTask && e.clock <= now && Running(e.diag) && e.diag.next < e.diag.request.packets
      && e.diag.next < |e.diag.samples|
      && e.diag.nextSendUs <= now
    case MarkSending(now) => e.task.Task? && !e.task.marked && e.clock <= now
    case FinishSend(status, now) => e.task.Task? && (status == 0 ==> e.task.marked)
    case ReplyArrives(_, _, _, _) => e.running
    case TimeScan(now) => true
    case PathLeaves(key, _) => e.running && key in e.paths
    case PathAppears(key, phases, _) => e.running && key !in e.paths && |phases| == CLASSES
    case NewRhythm(_, _, _, _) => e.running
    case Diagnose(request, _) => e.running && !e.diag.active && RequestValid(request) && request.key in e.paths
    case AbortDiagnose(status, _) => status != 0
    case TakeResult => e.diag.active && e.diag.completed
    case SubmitVerify(cls, key, timeoutUs, _) =>
      e.running && cls < CLASSES && cls < |e.async| && !e.async[cls].active && key in e.paths
        && 1 <= timeoutUs <= TIMEOUT_MAX_US
    case PollVerify(handle, _) => e.running && handle != 0
    case CancelVerify(handle) => handle != 0
    case StopAll(status, _) => status != 0
    case Restart => !e.running && !e.diag.active && e.task == NoTask
  }

  function Exec(e: Engine, step: Step): (r: Engine)
    requires Shape(e) && Enabled(e, step)
    ensures Shape(r)
  {
    match step
    case SendPeriodic(key, cls, now) => PickPeriodic(e, key, cls, now)
    case SendVerify(cls, now) => PickAsync(e, cls, now)
    case SendSample(now) => PickDiag(e, now)
    case MarkSending(now) => Mark(e, now)
    case FinishSend(status, now) => Finish(e, status, now)
    case ReplyArrives(key, cls, sequence, now) => Reply(e, key, cls, sequence, now)
    case TimeScan(now) => Expire(e, now)
    case PathLeaves(key, now) => RemovePath(e, key, now)
    case PathAppears(key, phases, now) => AddPath(e, key, phases, now)
    case NewRhythm(key, cls, intervalUs, nextUs) => Repace(e, key, cls, intervalUs, nextUs)
    case Diagnose(request, now) => StartDiag(e, request, now)
    case AbortDiagnose(status, now) => CancelDiag(e, status, now)
    case TakeResult => TakeDiag(e)
    case SubmitVerify(cls, key, timeoutUs, now) => Submit(e, cls, key, timeoutUs, now)
    case PollVerify(handle, now) => Poll(e, handle, now)
    case CancelVerify(handle) => CancelAsync(e, handle)
    case StopAll(status, now) => Stop(e, status, now)
    case Restart => Start(e)
  }

  lemma StepKeepsInv(e: Engine, step: Step)
    requires Inv(e) && Enabled(e, step)
    ensures Inv(Exec(e, step)) && Advances(e, Exec(e, step))
  {
    match step
    case SendPeriodic(key, cls, now) => PickPeriodicKeepsInv(e, key, cls, now);
    case SendVerify(cls, now) => PickAsyncKeepsInv(e, cls, now);
    case SendSample(now) => PickDiagKeepsInv(e, now);
    case MarkSending(now) => MarkKeepsInv(e, now);
    case FinishSend(status, now) => FinishKeepsInv(e, status, now);
    case ReplyArrives(key, cls, sequence, now) => ReplyKeepsInv(e, key, cls, sequence, now);
    case TimeScan(now) => ExpireKeepsInv(e, now);
    case PathLeaves(key, now) => RemovePathKeepsInv(e, key, now);
    case PathAppears(key, phases, now) => AddPathKeepsInv(e, key, phases, now);
    case NewRhythm(key, cls, intervalUs, nextUs) => RepaceKeepsInv(e, key, cls, intervalUs, nextUs);
    case Diagnose(request, now) => StartDiagKeepsInv(e, request, now);
    case AbortDiagnose(status, now) => CancelDiagKeepsInv(e, status, now);
    case TakeResult => TakeDiagKeepsInv(e);
    case SubmitVerify(cls, key, timeoutUs, now) => SubmitKeepsInv(e, cls, key, timeoutUs, now);
    case PollVerify(handle, now) => PollKeepsInv(e, handle, now);
    case CancelVerify(handle) => CancelAsyncKeepsInv(e, handle);
    case StopAll(status, now) => StopKeepsInv(e, status, now);
    case Restart => StartKeepsInv(e);
  }

  predicate Run(e: Engine, steps: seq<Step>)
    requires Shape(e)
    decreases |steps|
  {
    steps == [] || (Enabled(e, steps[0]) && Run(Exec(e, steps[0]), steps[1..]))
  }

  function Final(e: Engine, steps: seq<Step>): (r: Engine)
    requires Shape(e) && Run(e, steps)
    ensures Shape(r)
    decreases |steps|
  {
    if steps == [] then e else Final(Exec(e, steps[0]), steps[1..])
  }

  lemma {:induction false} RunKeepsInv(e: Engine, steps: seq<Step>)
    requires Inv(e) && Run(e, steps)
    ensures Inv(Final(e, steps)) && Advances(e, Final(e, steps))
    decreases |steps|
  {
    if steps == [] {
      AdvancesWithSamePaths(e, e);
    } else {
      StepKeepsInv(e, steps[0]);
      RunKeepsInv(Exec(e, steps[0]), steps[1..]);
      AdvancesTransitive(e, Exec(e, steps[0]), Final(e, steps));
    }
  }

  predicate Reachable(e: Engine, steps: seq<Step>) {
    exists seed :: 0 <= seed <= SEQUENCE_MAX && ReachableFrom(InitialEngine(seed), e, steps)
  }

  predicate ReachableFrom(first: Engine, e: Engine, steps: seq<Step>)
    requires Shape(first)
  {
    Run(first, steps) && e == Final(first, steps)
  }

  lemma ReachableInv(e: Engine, steps: seq<Step>)
    requires Reachable(e, steps)
    ensures Inv(e)
  {
    var seed :| 0 <= seed <= SEQUENCE_MAX && ReachableFrom(InitialEngine(seed), e, steps);
    InitialInv(seed);
    RunKeepsInv(InitialEngine(seed), steps);
  }

  // ------------------------------------------------------------------ diagnostics

  /** Every finished diagnostic publishes figures in range; one that finished with status
      0 has accounted for each packet, and then requested = sent + send failures. */
  lemma FinishedDiagnosticAddsUp(e: Engine, steps: seq<Step>)
    requires Reachable(e, steps) && e.diag.active && e.diag.completed
    ensures var r := e.diag.result;
            && r.requested == e.diag.request.packets
            && r.sent == r.received + r.lost
            && r.lossPermille <= 1000
            && (r.received > 0 ==>
                  r.minRtt <= r.averageRtt <= r.maxRtt <= e.diag.request.timeoutUs && r.jitter <= r.maxRtt - r.minRtt)
            && (e.diag.status == 0 ==> r.requested == r.sent + r.failed)
  {
    ReachableInv(e, steps);
    S.SummaryInRange(e.diag.samples);
    S.AddsUpIff(e.diag.samples);
    S.RttsBounded(e.diag.samples, e.diag.request.timeoutUs);
    S.SmallestAndLargest(S.Rtts(e.diag.samples));
  }

  /** A running diagnostic always has a sample to send or a request in flight, so it is
      never left waiting for nothing. */
  lemma RunningDiagnosticHasWork(e: Engine, steps: seq<Step>)
    requires Reachable(e, steps) && Running(e.diag)
    ensures e.running
    ensures e.diag.next < e.diag.request.packets
            || exists i :: PERIODIC_END <= i < DIAGNOSTIC_END && IsDiagnostic(e.table.pending[i])
  {
    ReachableInv(e, steps);
    if e.diag.next == e.diag.request.packets {
      NoDiagnostics(e.table.pending);
      var i :| 0 <= i < PENDING_MAX && IsDiagnostic(e.table.pending[i]);
      assert RecOk(e.table.pending[i], i, e.paths, e.task, e.diag, e.async, e.clock);
    }
  }

  // ------------------------------------------------------------------ the in-flight table

  predicate InPartition(p: Pending, i: nat) {
    p.Rec? ==>
      match p.kind
      case Periodic => i < PERIODIC_END
      case Diagnostic(_, _) => PERIODIC_END <= i < DIAGNOSTIC_END
      case Async(_) => i == ASYNC_BEGIN + p.cls && p.cls < CLASSES
  }

  lemma InFlightTable(e: Engine, steps: seq<Step>)
    requires Reachable(e, steps)
    ensures |e.table.pending| == PENDING_MAX && |e.async| == CLASSES
    ensures forall i :: 0 <= i < PENDING_MAX ==> InPartition(e.table.pending[i], i)
    ensures forall i :: 0 <= i < PENDING_MAX && e.table.pending[i].Rec? ==>
              1 <= e.table.pending[i].sequence <= SEQUENCE_MAX
    ensures Distinct(e.table.pending)
    ensures Diagnostics(e.table.pending) == if Running(e.diag) then e.diag.pendingCount else 0
    ensures forall c :: 0 <= c < CLASSES ==>
              (e.table.pending[ASYNC_BEGIN + c].Rec? <==>
                 e.async[c].active && e.async[c].dispatched && e.async[c].state == Queued)
  {
    ReachableInv(e, steps);
    forall i | 0 <= i < PENDING_MAX ensures InPartition(e.table.pending[i], i) {
      assert RecOk(e.table.pending[i], i, e.paths, e.task, e.diag, e.async, e.clock);
    }
    if !Running(e.diag) {
      forall i | 0 <= i < PENDING_MAX ensures !IsDiagnostic(e.table.pending[i]) {
        assert RecOk(e.table.pending[i], i, e.paths, e.task, e.diag, e.async, e.clock);
      }
      NoDiagnostics(e.table.pending);
    }
    forall c | 0 <= c < CLASSES
      ensures e.table.pending[ASYNC_BEGIN + c].Rec? <==>
                e.async[c].active && e.async[c].dispatched && e.async[c].state == Queued
    {
      assert RecOk(e.table.pending[ASYNC_BEGIN + c], ASYNC_BEGIN + c, e.paths, e.task, e.diag, e.async, e.clock);
      assert AsyncOk(c, e.async, e.table.pending, e.paths, e.nextHandle);
    }
  }

  // ------------------------------------------------------------------ outcomes

  /** Every reservation is in flight or has ended, never both; once ended it stays ended
      the same way, whatever happens later. */
  lemma OneOutcomeEach(e: Engine, steps: seq<Step>, ticket: nat)
    requires Inv(e) && Run(e, steps) && ticket < e.table.tickets
    ensures ticket in e.table.ended <==> !Live(e.table.pending, ticket)
    ensures var later := Final(e, steps);
            && ticket < later.table.tickets
            && (ticket in e.table.ended ==>
                  ticket in later.table.ended && later.table.ended[ticket] == e.table.ended[ticket]
                                            && !Live(later.table.pending, ticket))
            && (Live(later.table.pending, ticket) ==> Live(e.table.pending, ticket))
  {
    RunKeepsInv(e, steps);
  }

  lemma FinishLeavesOthers(e: Engine, status: int, now: nat, j: nat)
    requires Inv(e) && Enabled(e, FinishSend(status, now)) && j < PENDING_MAX && TaskOwns(e) && j != e.task.index
    requires !(IsDiagnostic(e.table.pending[e.task.index]) && PathLost(status))
    ensures Finish(e, status, now).table.pending[j] == e.table.pending[j]
  {
    var i := e.task.index;
    if status != 0 {
      CompleteKeepsInv(e, i, SendFailed, now);
    } else {
      AcceptSendKeepsInv(e);
      var r := e.table.pending[i];
      if r.early.ReplyAt? {
        assert RecOk(r, i, e.paths, e.task, e.diag, e.async, e.clock);
        CompleteKeepsInv(AcceptSend(e), i, Received, r.early.us);
      } else if now >= r.deadlineUs {
        CompleteKeepsInv(AcceptSend(e), i, TimedOut, now);
      }
    }
  }

  /** Outside its own diagnostic, the worker's finished send acts on the request it
      reserved or on nothing at all. */
  lemma FinishTouchesOwnRequestOnly(e: Engine, steps: seq<Step>, status: int, now: nat, j: nat)
    requires Reachable(e, steps) && Enabled(e, FinishSend(status, now)) && j < PENDING_MAX
    ensures e.task.index < PENDING_MAX
    ensures e.table.pending[e.task.index].Rec? <==> TaskOwns(e)
    ensures TaskOwns(e) ==> e.table.pending[e.task.index].ticket == e.task.ticket
    ensures !TaskOwns(e) ==> Finish(e, status, now) == e.(task := NoTask)
    ensures j != e.task.index && !(TaskOwns(e) && IsDiagnostic(e.table.pending[e.task.index]) && PathLost(status)) ==>
              Finish(e, status, now).table.pending[j] == e.table.pending[j]
  {
    ReachableInv(e, steps);
    TaskIsAlone(e);
    if TaskOwns(e) && j != e.task.index && !(IsDiagnostic(e.table.pending[e.task.index]) && PathLost(status)) {
      FinishLeavesOthers(e, status, now, j);
    }
  }

  // ------------------------------------------------------------------ generations and send times

  /** Nothing of an old path generation is in flight, so nothing of it can be published. */
  lemma OnlyCurrentGenerations(e: Engine, steps: seq<Step>, i: nat)
    requires Reachable(e, steps) && i < PENDING_MAX && e.table.pending[i].Rec?
    ensures var r := e.table.pending[i]; r.key in e.paths && e.paths[r.key].gen == r.gen
    ensures e.task.Task? && e.task.index == i ==> MarkStatus(e) != ESTALE
  {
    ReachableInv(e, steps);
    assert RecOk(e.table.pending[i], i, e.paths, e.task, e.diag, e.async, e.clock);
  }

  /** When a path goes away nothing of it stays in flight, and when it comes back its
      generation is one no earlier request carries. */
  lemma PathComesBackClean(e: Engine, key: Key, now: nat, phases: seq<nat>, later: nat)
    requires Inv(e) && e.running && key in e.paths && |phases| == CLASSES
    ensures var gone := RemovePath(e, key, now);
            && (forall i :: 0 <= i < PENDING_MAX ==> !(gone.table.pending[i].Rec? && gone.table.pending[i].key == key))
            && (forall c :: 0 <= c < CLASSES && Outstanding(gone.async[c]) ==> gone.async[c].key != key)
            && !(Running(gone.diag) && gone.diag.request.key == key)
            && AddPath(gone, key, phases, later).paths[key].gen > e.nextGen
  {
    RemovePathKeepsInv(e, key, now);
    var gone := RemovePath(e, key, now);
    forall i | 0 <= i < PENDING_MAX ensures !(gone.table.pending[i].Rec? && gone.table.pending[i].key == key) {
      assert RecOk(gone.table.pending[i], i, gone.paths, gone.task, gone.diag, gone.async, gone.clock);
    }
    forall c | 0 <= c < CLASSES && Outstanding(gone.async[c]) ensures gone.async[c].key != key {
      assert AsyncOk(c, gone.async, gone.table.pending, gone.paths, gone.nextHandle);
    }
  }

  /** While a path keeps its generation, the send time behind its published result never
      goes back. */
  lemma PublishedSendTimeNeverBack(e: Engine, steps: seq<Step>, key: Key, cls: nat)
    requires Inv(e) && Run(e, steps) && key in e.paths && key in Final(e, steps).paths && cls < CLASSES
    requires e.paths[key].gen == Final(e, steps).paths[key].gen
    ensures |e.paths[key].classes| == |Final(e, steps).paths[key].classes| == CLASSES
    ensures e.paths[key].classes[cls].latestSentUs <= Final(e, steps).paths[key].classes[cls].latestSentUs
  {
    RunKeepsInv(e, steps);
    assert PathOk(e.paths[key], e.nextGen, e.clock);
    assert PathAdvances(e, Final(e, steps), key);
  }

  /** A generation number is never given out twice. */
  lemma GenerationsAreNotReused(e: Engine, steps: seq<Step>, key: Key)
    requires Inv(e) && Run(e, steps) && key in Final(e, steps).paths
    ensures Final(e, steps).paths[key].gen <= e.nextGen ==>
              key in e.paths && e.paths[key].gen == Final(e, steps).paths[key].gen
  {
    RunKeepsInv(e, steps);
    assert PathAdvances(e, Final(e, steps), key);
  }
}
