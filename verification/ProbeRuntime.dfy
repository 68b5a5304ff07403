/** g_path_probe and the loops over it. Each method runs under the Probe lock and is
    proved equal to the function of ProbeEngine that the whole-run theorems are about. */
module ProbeRuntime {
  import opened ProbeTable
  import opened ProbeEngine
  import S = ProbeSummary

  class Probe {
    const pending: array<Pending>
    const async: array<AsyncSlot>
    var running: bool
    var diag: Diag
    var paths: map<Key, PathRt>
    var task: Task
    var clock: nat
    var nextSequence: nat
    var nextGen: nat
    var nextDiag: nat
    var nextHandle: nat
    var tickets: nat
    ghost var ended: map<nat, Outcome>

    ghost predicate Shaped() { pending.Length == PENDING_MAX && async.Length == CLASSES }

    ghost function Abs(): (e: Engine)
      reads this, pending, async
      ensures Shaped() ==> Shape(e)
    {
      Engine(running, Table(pending[..], tickets, ended), diag, async[..], paths, task, clock, nextSequence, nextGen,
             nextDiag, nextHandle)
    }

    constructor (seed: nat)
      ensures Shaped() && fresh(pending) && fresh(async)
      ensures Abs() == InitialEngine(seed)
    {
      pending := new Pending[PENDING_MAX](_ => Free);
      async := new AsyncSlot[CLASSES](_ => NO_ASYNC);
      running, diag, paths, task, clock := false, NO_DIAG, map[], NoTask, 0;
      nextSequence, nextGen, nextDiag, nextHandle, tickets, ended := seed, 0, 0, 0, 0, map[];
      new;
      assert pending[..] == seq(PENDING_MAX, _ => Free);
      assert async[..] == seq(CLASSES, _ => NO_ASYNC);
    }

    /** memset of one record; the ledger notes how the reservation ended. */
    method Forget(i: nat, outcome: Outcome)
      requires Shaped() && i < pending.Length && pending[i].Rec?
      modifies pending, this`ended
      ensures Abs() == old(Abs()).(table := End(old(Abs()).table, i, outcome))
    {
      ended := ended[pending[i].ticket := outcome];
      pending[i] := Free;
    }

    // ---------------------------------------------------------------- finishing

    method FinishDiagnostic(status: int, now: nat)
      requires Shaped()
      modifies this`diag
      ensures Abs() == FinishDiag(old(Abs()), status, now)
    {
      if !diag.active || diag.completed {
        return;
      }
      var result := S.ComputeSummary(diag.samples);
      diag := diag.(completed := true, status := status, result := result, completedUs := now);
    }

    method TryFinishDiagnostic(now: nat)
      requires Shaped()
      modifies this`diag
      ensures Abs() == TryFinish(old(Abs()), now)
    {
      if diag.active && !diag.completed && diag.next == diag.request.packets && diag.pendingCount == 0 {
        FinishDiagnostic(0, now);
      }
    }

    method CancelDiagnostic(status: int, now: nat)
      requires Shaped()
      modifies this`diag, this`ended, pending
      ensures Abs() == CancelDiag(old(Abs()), status, now)
    {
      if !diag.active || diag.completed {
        return;
      }
      ghost var e := Abs();
      for i := 0 to PENDING_MAX
        invariant Abs().table == EndMatching(e.table, DiagnosticOf(e.diag.id), 0, i)
        invariant diag == e.diag.(samples := CancelSamples(e.diag.samples, e.table.pending, e.diag.id, i))
      {
        EndMatchingIs(e.table, DiagnosticOf(e.diag.id), 0, i);
        assert pending[i] == Abs().table.pending[i] == e.table.pending[i];
        var p := pending[i];
        if p.Rec? && p.kind.Diagnostic? && p.kind.id == diag.id {
          if p.kind.index < |diag.samples| {
            diag := diag.(samples := diag.samples[p.kind.index := diag.samples[p.kind.index].(state := S.Canceled)]);
          }
          Forget(i, Canceled);
        }
      }
      diag := diag.(pendingCount := 0);
      FinishDiagnostic(status, now);
    }

    /** async_cancel_pending_locked. */
    method CancelPending(handle: nat)
      requires Shaped()
      modifies this`ended, pending
      ensures Abs() == old(Abs()).(table := EndMatching(old(Abs()).table, AsyncOf(handle), ASYNC_BEGIN, PENDING_MAX))
    {
      ghost var e := Abs();
      for i := ASYNC_BEGIN to PENDING_MAX
        invariant Abs() == e.(table := EndMatching(e.table, AsyncOf(handle), ASYNC_BEGIN, i))
      {
        assert pending[i] == Abs().table.pending[i];
        var p := pending[i];
        if p.Rec? && p.kind.Async? && p.kind.handle == handle {
          Forget(i, Canceled);
        }
      }
    }

    /** async_cancel_path_locked. */
    method CancelOnPath(key: Key, gen: nat, now: nat)
      requires Shaped()
      modifies this`ended, pending, async
      ensures Abs() == CancelAsyncPath(old(Abs()), key, gen, now, CLASSES)
    {
      ghost var e := Abs();
      for c := 0 to CLASSES
        invariant Abs() == CancelAsyncPath(e, key, gen, now, c)
      {
        var slot := async[c];
        assert slot == Abs().async[c];
        if !slot.active || slot.key != key || slot.gen != gen {
          continue;
        }
        CancelPending(slot.handle);
        async[c] := slot.(state := Withdrawn, completedUs := now, rttUs := 0);
      }
    }

    // ---------------------------------------------------------------- completing a record

    method PublishResult(r: Pending, outcome: Outcome, now: nat)
      requires Shaped() && r.Rec?
      modifies this`diag, this`paths, async
      ensures Abs() == Publish(old(Abs()), r, outcome, now)
    {
      match r.kind
      case Periodic =>
        if r.key in paths && paths[r.key].gen == r.gen && r.cls < |paths[r.key].classes| {
          var rt := paths[r.key].classes[r.cls];
          if r.sentUs >= rt.latestSentUs {
            rt := rt.(latestSentUs := r.sentUs, valid := outcome == Received || outcome == TimedOut,
                      reachable := outcome == Received, updatedUs := now);
            if outcome == Received {
              rt := rt.(rttUs := Rtt(now, r.sentUs));
            }
            paths := SetClass(paths, r.key, r.cls, rt);
          }
        }
      case Diagnostic(id, index) =>
        if diag.active && !diag.completed && diag.id == id && index < |diag.samples| {
          var rtt := if outcome == Received then Rtt(now, r.sentUs) else 0;
          var sample := diag.samples[index].(state := SampleOf(outcome), sentUs := r.sentUs, rttUs := rtt);
          diag := diag.(samples := diag.samples[index := sample]);
          if diag.pendingCount != 0 {
            diag := diag.(pendingCount := diag.pendingCount - 1);
          }
        }
      case Async(handle) =>
        if r.cls < CLASSES {
          var slot := async[r.cls];
          if slot.active && slot.handle == handle && slot.gen == r.gen && slot.state == Queued {
            slot := slot.(sentUs := if r.phase == ProbeTable.Reserved then 0 else r.sentUs, completedUs := now,
                          sequence := r.sequence);
            slot := slot.(rttUs := if outcome == Received then Rtt(now, r.sentUs) else 0);
            async[r.cls] := slot.(state := if outcome == Received then Ack else if outcome == TimedOut then Timeout
                                  else NotSent);
          }
        }
    }

    /** complete_pending_locked. */
    method CompletePending(i: nat, outcome: Outcome, now: nat)
      requires Shaped() && i < PENDING_MAX && pending[i].Rec?
      modifies this`diag, this`paths, this`ended, pending, async
      ensures Abs() == Complete(old(Abs()), i, outcome, now)
    {
      var r := pending[i];
      assert r == Abs().table.pending[i];
      PublishResult(r, outcome, now);
      assert pending[i] == Abs().table.pending[i];
      Forget(i, outcome);
      TryFinishDiagnostic(now);
    }

    // ---------------------------------------------------------------- the worker's send

    method MarkSending(now: nat) returns (status: int)
      requires Shaped() && task.Task?
      modifies this`task, this`clock, pending
      ensures status == MarkStatus(old(Abs())) && Abs() == Mark(old(Abs()), now)
    {
      ghost var e := Abs();
      status := CheckSending();
      clock := now;
      if status != 0 {
        return;
      }
      var r := pending[task.index];
      assert r == e.table.pending[e.task.index];
      var timeoutUs := match r.kind
        case Periodic => PROBE_TIMEOUT_US
        case Diagnostic(_, _) => diag.request.timeoutUs
        case Async(_) => if r.cls < CLASSES then async[r.cls].timeoutUs else 0;
      pending[task.index] := r.(phase := Submitting, sentUs := now, deadlineUs := now + timeoutUs);
      task := task.(marked := true);
    }

    method CheckSending() returns (status: int)
      requires Shaped() && task.Task?
      ensures status == MarkStatus(Abs())
      ensures status == 0 ==> TaskOwns(Abs())
    {
      if !running || task.index >= PENDING_MAX {
        return ECANCELED;
      }
      var r := pending[task.index];
      assert r == Abs().table.pending[task.index];
      if r.Free? || r.sequence != task.sequence || r.gen != task.gen || r.key != task.key || r.cls != task.cls {
        return ECANCELED;
      }
      if task.key !in paths || paths[task.key].gen != task.gen {
        return ESTALE;
      }
      match r.kind
      case Periodic => return 0;
      case Diagnostic(id, _) =>
        if !diag.active || diag.completed || diag.id != id {
          return ECANCELED;
        }
        return 0;
      case Async(handle) =>
        if r.cls >= CLASSES {
          return ECANCELED;
        }
        assert Abs().async[r.cls] == async[r.cls];
        if !async[r.cls].active || async[r.cls].handle != handle || async[r.cls].state != Queued {
          return ECANCELED;
        }
        return 0;
    }

    method FinishSend(status: int, now: nat)
      requires Shaped() && task.Task?
      modifies this`task, this`diag, this`paths, this`ended, pending, async
      ensures Abs() == Finish(old(Abs()), status, now)
    {
      ghost var e := Abs();
      var t := task;
      if t.index >= PENDING_MAX {
        task := NoTask;
        return;
      }
      var r := pending[t.index];
      assert r == e.table.pending[t.index];
      if r.Free? || r.sequence != t.sequence || r.gen != t.gen || r.key != t.key || r.cls != t.cls {
        task := NoTask;
        return;
      }
      if status != 0 {
        SendFails(status, now);
        task := NoTask;
        return;
      }
      SendAccepted();
      assert pending[t.index] == Abs().table.pending[t.index];
      if r.early.ReplyAt? {
        CompletePending(t.index, Received, r.early.us);
      } else if now >= r.deadlineUs {
        CompletePending(t.index, TimedOut, now);
      }
    }

    method SendFails(status: int, now: nat)
      requires Shaped() && TaskOwns(Abs())
      modifies this`diag, this`paths, this`ended, pending, async
      ensures Abs() == FailSend(old(Abs()), status, now)
    {
      ghost var e := Abs();
      var r := pending[task.index];
      assert r == e.table.pending[task.index];
      if r.kind.Diagnostic? && (status == ENOENT || status == ENODEV || status == ENETDOWN || status == ESTALE) {
        if r.kind.index < |diag.samples| {
          diag := diag.(samples := diag.samples[r.kind.index := diag.samples[r.kind.index].(state := S.SendFailed)]);
        }
        if diag.pendingCount != 0 {
          diag := diag.(pendingCount := diag.pendingCount - 1);
        }
        Forget(task.index, SendFailed);
        CancelDiagnostic(status, now);
        return;
      }
      CompletePending(task.index, SendFailed, now);
    }

    method SendAccepted()
      requires Shaped() && TaskOwns(Abs())
      modifies this`task, this`diag, pending
      ensures Abs() == AcceptSend(old(Abs()))
    {
      ghost var e := Abs();
      var r := pending[task.index];
      assert r == e.table.pending[task.index];
      pending[task.index] := r.(phase := Waiting);
      if r.kind.Diagnostic? && r.kind.index < |diag.samples| {
        diag := diag.(samples := diag.samples[r.kind.index := diag.samples[r.kind.index].(state := S.Pending,
                                                                                          sentUs := r.sentUs)]);
      }
      task := NoTask;
    }

    // ---------------------------------------------------------------- replies and time

    method FindReply(key: Key, cls: nat, sequence: nat) returns (i: nat)
      requires Shaped()
      ensures i == FindAnswered(Abs().table.pending, key, cls, sequence, 0)
    {
      i := 0;
      while i < PENDING_MAX
        && !(pending[i].Rec? && pending[i].sequence == sequence && pending[i].key == key && pending[i].cls == cls)
        invariant i <= PENDING_MAX
        invariant FindAnswered(Abs().table.pending, key, cls, sequence, i)
                  == FindAnswered(Abs().table.pending, key, cls, sequence, 0)
      {
        assert pending[i] == Abs().table.pending[i];
        i := i + 1;
      }
      assert i < PENDING_MAX ==> pending[i] == Abs().table.pending[i];
    }

    method AcceptReply(key: Key, cls: nat, sequence: nat, now: nat)
      requires Shaped()
      modifies this`diag, this`paths, this`ended, pending, async
      ensures Abs() == Reply(old(Abs()), key, cls, sequence, now)
    {
      var i := FindReply(key, cls, sequence);
      if i == PENDING_MAX {
        return;
      }
      assert pending[i] == Abs().table.pending[i];
      var r := pending[i];
      if r.phase != Submitting && r.phase != Waiting {
        return;
      }
      if key !in paths || paths[key].gen != r.gen || now < r.sentUs || now > r.deadlineUs {
        return;
      }
      if r.phase == Submitting {
        if r.early.NoReply? {
          pending[i] := r.(early := ReplyAt(now));
        }
        return;
      }
      CompletePending(i, Received, now);
    }

    method ExpirePending(now: nat)
      requires Shaped()
      modifies this`diag, this`paths, this`ended, pending, async
      ensures Abs() == Expire(old(Abs()), now)
    {
      ghost var e := Abs();
      for i := 0 to PENDING_MAX
        invariant Abs() == ExpireUpTo(e, now, i)
      {
        assert pending[i] == Abs().table.pending[i];
        if pending[i].Rec? && pending[i].phase == Waiting && now >= pending[i].deadlineUs {
          CompletePending(i, TimedOut, now);
        }
      }
      if diag.active && !diag.completed && now >= diag.finalUs {
        CancelDiagnostic(ETIMEDOUT, now);
      }
    }

    // ---------------------------------------------------------------- paths

    /** remove_path_locked. */
    method DropPath(key: Key, now: nat)
      requires Shaped() && key in paths
      modifies this`diag, this`paths, this`ended, pending, async
      ensures Abs() == RemovePath(old(Abs()), key, now)
    {
      if diag.active && !diag.completed && diag.request.key == key {
        CancelDiagnostic(ESTALE, now);
      }
      CancelOnPath(key, paths[key].gen, now);
      ghost var e := Abs();
      for i := 0 to PENDING_MAX
        invariant Abs() == e.(table := EndMatching(e.table, OnPath(key), 0, i))
      {
        assert pending[i] == Abs().table.pending[i];
        if pending[i].Rec? && pending[i].key == key {
          Forget(i, Canceled);
        }
      }
      paths := paths - {key};
    }

    // ---------------------------------------------------------------- picking work

    /** The part of reserve_locked and reserve_async_locked that fills a free slot. */
    method ReserveSlot(i: nat, kind: Kind, key: Key, cls: nat, gen: nat, now: nat)
      requires Shaped() && i < PENDING_MAX && nextSequence <= SEQUENCE_MAX
      modifies this`task, this`clock, this`nextSequence, this`tickets, pending
      ensures Abs() == Reserve(old(Abs()), i, kind, key, cls, gen, now)
      ensures nextSequence <= SEQUENCE_MAX
    {
      nextSequence := AllocateSequence(pending, nextSequence);
      task := Task(i, nextSequence, gen, key, cls, tickets, false);
      clock := now;
      pending[i] := Rec(ProbeTable.Reserved, kind, key, cls, gen, nextSequence, now, 0, NoReply, tickets);
      tickets := tickets + 1;
    }

    /** A slot that was missed counts as a send failure. */
    method MissSample(index: nat, now: nat)
      requires Shaped() && index < |diag.samples|
      modifies this`clock, this`diag
      ensures Abs()
              == TryFinish(old(Abs()).(clock := now,
                                       diag := old(diag).(samples := SampleState(old(diag).samples, index,
                                                                                 S.SendFailed))), now)
    {
      diag := diag.(samples := diag.samples[index := diag.samples[index].(state := S.SendFailed)]);
      clock := now;
      TryFinishDiagnostic(now);
    }

    method ReserveSample(i: nat, index: nat, now: nat)
      requires Shaped() && i < PENDING_MAX && nextSequence <= SEQUENCE_MAX && index < |diag.samples|
      modifies this`task, this`clock, this`nextSequence, this`tickets, this`diag, pending
      ensures var d := old(diag);
              var e := Reserve(old(Abs()), i, Diagnostic(d.id, index), d.request.key, d.request.cls, d.gen, now);
              Abs() == e.(diag := d.(pendingCount := d.pendingCount + 1,
                                     samples := d.samples[index := d.samples[index].(sequence := e.task.sequence,
                                                                                     state := S.Reserved)]))
    {
      ReserveSlot(i, Diagnostic(diag.id, index), diag.request.key, diag.request.cls, diag.gen, now);
      var sample := diag.samples[index].(sequence := task.sequence, state := S.Reserved);
      diag := diag.(pendingCount := diag.pendingCount + 1, samples := diag.samples[index := sample]);
    }

    method SendSample(now: nat) returns (picked: bool)
      requires Shaped() && nextSequence <= SEQUENCE_MAX && diag.request.packets > 0 && diag.next < |diag.samples|
      modifies this`task, this`clock, this`nextSequence, this`tickets, this`diag, this`ended, pending
      ensures Abs() == PickDiag(old(Abs()), now)
    {
      if diag.request.key !in paths || paths[diag.request.key].gen != diag.gen {
        CancelDiagnostic(ESTALE, now);
        clock := now;
        return false;
      }
      var index := diag.next;
      var slotEnd := SlotEnd(diag, index);
      diag := diag.(next := index + 1, nextSendUs := slotEnd);
      var i := FindFree(pending, PERIODIC_END, DIAGNOSTIC_END);
      if (diag.request.packets > 1 && now >= slotEnd) || i == DIAGNOSTIC_END {
        MissSample(index, now);
        return false;
      }
      ReserveSample(i, index, now);
      return true;
    }

    method SendPeriodic(key: Key, cls: nat, now: nat) returns (picked: bool)
      requires Shaped() && nextSequence <= SEQUENCE_MAX && key in paths && cls < |paths[key].classes|
      modifies this`task, this`clock, this`nextSequence, this`tickets, this`paths, pending
      ensures Abs() == PickPeriodic(old(Abs()), key, cls, now)
    {
      var gen := paths[key].gen;
      var rt := paths[key].classes[cls];
      rt := rt.(nextUs := now + rt.intervalUs);
      var i := FindFree(pending, 0, PERIODIC_END);
      if i == PERIODIC_END {
        paths := SetClass(paths, key, cls,
                          rt.(latestSentUs := now, valid := false, reachable := false, updatedUs := now));
        clock := now;
        return false;
      }
      paths := SetClass(paths, key, cls, rt);
      ReserveSlot(i, Periodic, key, cls, gen, now);
      return true;
    }

    method SendVerify(cls: nat, now: nat) returns (picked: bool)
      requires Shaped() && nextSequence <= SEQUENCE_MAX && cls < CLASSES
      modifies this`task, this`clock, this`nextSequence, this`tickets, pending, async
      ensures Abs() == PickAsync(old(Abs()), cls, now)
    {
      var slot := async[cls];
      assert slot == Abs().async[cls];
      if slot.key !in paths || paths[slot.key].gen != slot.gen {
        async[cls] := slot.(state := Withdrawn, completedUs := now, dispatched := true);
        clock := now;
        return false;
      }
      assert pending[ASYNC_BEGIN + cls] == Abs().table.pending[ASYNC_BEGIN + cls];
      if pending[ASYNC_BEGIN + cls].Rec? {
        async[cls] := slot.(state := NotSent, completedUs := now, dispatched := true);
        clock := now;
        return false;
      }
      ReserveSlot(ASYNC_BEGIN + cls, Async(slot.handle), slot.key, cls, slot.gen, now);
      async[cls] := slot.(sequence := task.sequence, dispatched := true);
      return true;
    }
  }
}
