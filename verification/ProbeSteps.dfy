/** Every locked operation keeps the invariant of the probe engine, never changes an
    outcome already given and never moves a published send time backwards. */
module ProbeSteps {
  import opened ProbeTable
  import opened ProbeEngine
  import opened ProbeInvariant
  import S = ProbeSummary

  // ------------------------------------------------------------------ what moves forward

  /** A path seen afterwards is the same activation as before, or a newer one. */
  predicate PathAdvances(before: Engine, after: Engine, key: Key)
    requires key in after.paths
  {
    || after.paths[key].gen > before.nextGen
    || (&& key in before.paths && before.paths[key].gen == after.paths[key].gen
        && |before.paths[key].classes| == |after.paths[key].classes|
        && forall c :: 0 <= c < |after.paths[key].classes| ==>
             before.paths[key].classes[c].latestSentUs <= after.paths[key].classes[c].latestSentUs)
  }

  predicate Advances(before: Engine, after: Engine) {
    && Extends(before.table, after.table)
    && before.clock <= after.clock && before.nextGen <= after.nextGen
    && forall key :: key in after.paths ==> PathAdvances(before, after, key)
  }

  lemma AdvancesTransitive(a: Engine, b: Engine, c: Engine)
    requires Advances(a, b) && Advances(b, c) && PathsOk(b.paths, b.nextGen, b.clock)
    ensures Advances(a, c)
  {
  }

  /** An operation that leaves the paths alone. */
  lemma AdvancesWithSamePaths(before: Engine, after: Engine)
    requires after.paths == before.paths && before.clock <= after.clock && before.nextGen <= after.nextGen
    requires Extends(before.table, after.table)
    ensures Advances(before, after)
  {
  }

  /** One class of one path changed, its send time not downwards. */
  lemma AdvancesOneClass(before: Engine, after: Engine, key: Key, cls: nat, rt: ClassRt)
    requires key in before.paths && cls < |before.paths[key].classes|
    requires before.paths[key].classes[cls].latestSentUs <= rt.latestSentUs
    requires after.paths == SetClass(before.paths, key, cls, rt)
    requires before.clock <= after.clock && before.nextGen <= after.nextGen && Extends(before.table, after.table)
    ensures Advances(before, after)
  {
  }

  // ------------------------------------------------------------------ completion

  lemma PublishAdvances(e: Engine, r: Pending, outcome: Outcome, now: nat, after: Engine)
    requires r.Rec? && Extends(e.table, after.table) && e.clock == after.clock && e.nextGen == after.nextGen
    requires after.paths == PublishPeriodic(e, r, outcome, now).paths
    ensures Advances(e, after)
  {
  }

  lemma CompleteFrame(e: Engine, i: nat, outcome: Outcome, now: nat)
    requires Shape(e) && i < PENDING_MAX && e.table.pending[i].Rec?
    ensures var e' := Complete(e, i, outcome, now);
            && e'.table == End(e.table, i, outcome) && e'.clock == e.clock && e'.nextGen == e.nextGen
            && e'.paths == if e.table.pending[i].kind.Periodic? then
                 PublishPeriodic(e, e.table.pending[i], outcome, now).paths else e.paths
  {
  }

  lemma CompleteAdvances(e: Engine, i: nat, outcome: Outcome, now: nat)
    requires Inv(e) && i < PENDING_MAX && e.table.pending[i].Rec?
    ensures Advances(e, Complete(e, i, outcome, now))
  {
    var r := e.table.pending[i];
    EndKeeps(e.table, i, outcome);
    CompleteFrame(e, i, outcome, now);
    if r.kind.Periodic? {
      PublishAdvances(e, r, outcome, now, Complete(e, i, outcome, now));
    } else {
      AdvancesWithSamePaths(e, Complete(e, i, outcome, now));
    }
  }

  // ------------------------------------------------------------------ cancelling a diagnostic

  lemma {:induction false} CancelSamplesKeepsRtt(samples: seq<S.Sample>, pending: seq<Pending>, id: nat, k: nat)
    requires k <= |pending|
    ensures forall j :: 0 <= j < |samples| ==> CancelSamples(samples, pending, id, k)[j].rttUs == samples[j].rttUs
  {
    if k > 0 {
      CancelSamplesKeepsRtt(samples, pending, id, k - 1);
    }
  }

  lemma CancelledRecordsOk(e: Engine, status: int, now: nat, i: nat)
    requires InvBeforeFinish(e) && Running(e.diag) && status != 0 && i < PENDING_MAX
    ensures var e' := CancelDiag(e, status, now);
            && !IsDiagnostic(e'.table.pending[i])
            && (e'.table.pending[i].Rec? ==> e'.table.pending[i] == e.table.pending[i])
            && (e.table.pending[i].Free? ==> e'.table.pending[i].Free?)
            && (!IsDiagnostic(e.table.pending[i]) ==> e'.table.pending[i] == e.table.pending[i])
            && RecOk(e'.table.pending[i], i, e'.paths, e'.task, e'.diag, e'.async, e'.clock)
  {
    EndMatchingIs(e.table, DiagnosticOf(e.diag.id), 0, PENDING_MAX);
    assert RecOk(e.table.pending[i], i, e.paths, e.task, e.diag, e.async, e.clock);
  }

  lemma CancelledAsyncOk(e: Engine, status: int, now: nat, c: nat)
    requires InvBeforeFinish(e) && Running(e.diag) && status != 0 && c < CLASSES
    ensures var e' := CancelDiag(e, status, now); AsyncOk(c, e'.async, e'.table.pending, e'.paths, e'.nextHandle)
  {
    assert AsyncOk(c, e.async, e.table.pending, e.paths, e.nextHandle);
    assert RecOk(e.table.pending[ASYNC_BEGIN + c], ASYNC_BEGIN + c, e.paths, e.task, e.diag, e.async, e.clock);
    CancelledRecordsOk(e, status, now, ASYNC_BEGIN + c);
  }

  lemma CancelDiagKeepsInv(e: Engine, status: int, now: nat)
    requires InvBeforeFinish(e) && (Running(e.diag) || NotStuck(e.diag)) && status != 0
    ensures var e' := CancelDiag(e, status, now);
            Inv(e') && Advances(e, e') && !Running(e'.diag) && e'.task == e.task && e'.paths == e.paths
    ensures forall i :: 0 <= i < PENDING_MAX && e.table.pending[i].Free? ==>
              CancelDiag(e, status, now).table.pending[i].Free?
  {
    var e' := CancelDiag(e, status, now);
    if Running(e.diag) {
      var m := DiagnosticOf(e.diag.id);
      EndMatchingKeeps(e.table, m, 0, PENDING_MAX);
      CancelSamplesKeepsRtt(e.diag.samples, e.table.pending, e.diag.id, PENDING_MAX);
      forall i | 0 <= i < PENDING_MAX
        ensures !IsDiagnostic(e'.table.pending[i])
        ensures e'.table.pending[i].Rec? ==> e'.table.pending[i] == e.table.pending[i]
        ensures e.table.pending[i].Free? ==> e'.table.pending[i].Free?
        ensures RecOk(e'.table.pending[i], i, e'.paths, e'.task, e'.diag, e'.async, e'.clock)
      {
        CancelledRecordsOk(e, status, now, i);
      }
      forall c | 0 <= c < |e'.async| ensures AsyncOk(c, e'.async, e'.table.pending, e'.paths, e'.nextHandle) {
        CancelledAsyncOk(e, status, now, c);
      }
    } else {
      assert Inv(e);
    }
    AdvancesWithSamePaths(e, e');
  }

  // ------------------------------------------------------------------ sending

  lemma DropTaskKeepsInv(e: Engine)
    requires Inv(e) && (e.task.Task? ==> e.table.pending[e.task.index].Free?)
    ensures Inv(e.(task := NoTask))
  {
  }

  /** Nobody but the worker's own request can be at the index its task remembers. */
  lemma TaskIsAlone(e: Engine)
    requires Inv(e) && e.task.Task?
    ensures TaskOwns(e) <==> e.table.pending[e.task.index].Rec?
    ensures TaskOwns(e) ==> e.table.pending[e.task.index].ticket == e.task.ticket
  {
  }

  /** A record changes phase or keeps an early reply. */
  lemma RewriteKeepsDiag(e: Engine, i: nat, r: Pending)
    requires Inv(e) && i < PENDING_MAX && e.table.pending[i].Rec? && r.Rec? && r.kind == e.table.pending[i].kind
    ensures var pending := e.table.pending[i := r];
            && Diagnostics(pending) == Diagnostics(e.table.pending)
            && (Running(e.diag) ==> forall j :: 0 <= j < |e.diag.samples| ==> SampleOk(e.diag, pending, j))
  {
    var pending := e.table.pending[i := r];
    DiagnosticsUpdate(e.table.pending, i, r);
    if Running(e.diag) {
      forall j | 0 <= j < |e.diag.samples| ensures SampleOk(e.diag, pending, j) {
        assert SampleOk(e.diag, e.table.pending, j);
        if j < e.diag.next && !S.Ended(e.diag.samples[j].state) {
          var k :| 0 <= k < PENDING_MAX && IsDiagnostic(e.table.pending[k])
            && e.table.pending[k].kind == Diagnostic(e.diag.id, j);
          assert IsDiagnostic(pending[k]) && pending[k].kind == Diagnostic(e.diag.id, j);
        }
      }
    }
  }

  /** A record of the same request, with the engine otherwise unchanged but for task and clock. */
  lemma RewriteKeepsInv(e: Engine, e': Engine, i: nat, r: Pending)
    requires Inv(e) && i < PENDING_MAX && e.table.pending[i].Rec? && r.Rec?
    requires var p := e.table.pending[i];
             r == p.(phase := r.phase, sentUs := r.sentUs, deadlineUs := r.deadlineUs, early := r.early)
    requires e' == e.(table := Rewrite(e.table, i, r), task := e'.task, clock := e'.clock) && e.clock <= e'.clock
    requires RecOk(r, i, e'.paths, e'.task, e'.diag, e'.async, e'.clock) && TaskOk(e')
    requires e.task == e'.task || (e.task.Task? && e'.task.Task? && e'.task.index == e.task.index)
    ensures Inv(e') && Advances(e, e')
  {
    RewriteKeeps(e.table, i, r);
    RewriteKeepsDiag(e, i, r);
    forall j | 0 <= j < PENDING_MAX
      ensures RecOk(e'.table.pending[j], j, e'.paths, e'.task, e'.diag, e'.async, e'.clock)
    {
      assert RecOk(e.table.pending[j], j, e.paths, e.task, e.diag, e.async, e.clock);
    }
    forall c | 0 <= c < |e'.async| ensures AsyncOk(c, e'.async, e'.table.pending, e'.paths, e'.nextHandle) {
      assert AsyncOk(c, e.async, e.table.pending, e.paths, e.nextHandle);
    }
    forall key | key in e'.paths ensures PathOk(e'.paths[key], e'.nextGen, e'.clock) {
      assert PathOk(e.paths[key], e.nextGen, e.clock);
    }
    AdvancesWithSamePaths(e, e');
  }

  lemma ClockKeepsInv(e: Engine, clock: nat)
    requires Inv(e) && e.clock <= clock
    ensures Inv(e.(clock := clock)) && Advances(e, e.(clock := clock))
  {
  }

  /** Marking never answers -ESTALE: a request does not outlive its path generation. A
      request that is still in the table is always allowed to go out. */
  lemma MarkKeepsInv(e: Engine, now: nat)
    requires Inv(e) && e.task.Task? && !e.task.marked && e.clock <= now
    ensures Inv(Mark(e, now)) && Advances(e, Mark(e, now))
    ensures MarkStatus(e) == if e.table.pending[e.task.index].Rec? then 0 else ECANCELED
  {
    var i := e.task.index;
    var r := e.table.pending[i];
    assert RecOk(r, i, e.paths, e.task, e.diag, e.async, e.clock);
    if r.Rec? {
      var e' := Mark(e, now);
      var r' := r.(phase := Submitting, sentUs := now, deadlineUs := now + SendTimeout(e, r));
      assert RecOk(r', i, e'.paths, e'.task, e'.diag, e'.async, e'.clock);
      RewriteKeepsInv(e, e', i, r');
    } else {
      ClockKeepsInv(e, now);
    }
  }

  lemma FailDiagnosticBeforeFinish(e: Engine)
    requires Inv(e) && TaskOwns(e) && IsDiagnostic(e.table.pending[e.task.index])
    ensures var r := e.table.pending[e.task.index];
            InvBeforeFinish(e.(table := End(e.table, e.task.index, SendFailed),
              diag := e.diag.(samples := SampleState(e.diag.samples, r.kind.index, S.SendFailed),
                              pendingCount := Decrement(e.diag.pendingCount))))
    ensures Running(e.diag)
  {
    var i := e.task.index;
    var r := e.table.pending[i];
    assert RecOk(r, i, e.paths, e.task, e.diag, e.async, e.clock);
    var e' := e.(table := End(e.table, i, SendFailed),
      diag := e.diag.(samples := SampleState(e.diag.samples, r.kind.index, S.SendFailed),
                      pendingCount := Decrement(e.diag.pendingCount)));
    EndKeeps(e.table, i, SendFailed);
    DiagnosticsUpdate(e.table.pending, i, Free);
    forall j | 0 <= j < PENDING_MAX
      ensures RecOk(e'.table.pending[j], j, e'.paths, e'.task, e'.diag, e'.async, e'.clock)
    {
      assert RecOk(e.table.pending[j], j, e.paths, e.task, e.diag, e.async, e.clock);
      if j != i && IsDiagnostic(e.table.pending[j]) {
        OtherSamples(e, i, j);
      }
    }
    SamplesSurvive(e, e'.table.pending, i);
    forall j | 0 <= j < |e'.diag.samples| ensures SampleOk(e'.diag, e'.table.pending, j) {
      assert j != r.kind.index ==> SampleOk(e.diag, e'.table.pending, j);
    }
    forall c | 0 <= c < |e'.async| ensures AsyncOk(c, e'.async, e'.table.pending, e'.paths, e'.nextHandle) {
      assert AsyncOk(c, e.async, e.table.pending, e.paths, e.nextHandle);
    }
  }

  lemma FailSendKeepsInv(e: Engine, status: int, now: nat)
    requires Inv(e) && TaskOwns(e) && status != 0
    ensures var e' := FailSend(e, status, now).(task := NoTask); Inv(e') && Advances(e, e')
  {
    var i := e.task.index;
    var r := e.table.pending[i];
    if r.kind.Diagnostic? && PathLost(status) {
      FailDiagnosticBeforeFinish(e);
      var e1 := e.(table := End(e.table, i, SendFailed),
        diag := e.diag.(samples := SampleState(e.diag.samples, r.kind.index, S.SendFailed),
                        pendingCount := Decrement(e.diag.pendingCount)));
      CancelDiagKeepsInv(e1, status, now);
      EndKeeps(e.table, i, SendFailed);
      AdvancesWithSamePaths(e, e1);
      AdvancesTransitive(e, e1, FailSend(e, status, now));
    } else {
      CompleteKeepsInv(e, i, SendFailed, now);
      CompleteAdvances(e, i, SendFailed, now);
    }
    DropTaskKeepsInv(FailSend(e, status, now));
    AdvancesWithSamePaths(FailSend(e, status, now), FailSend(e, status, now).(task := NoTask));
    AdvancesTransitive(e, FailSend(e, status, now), FailSend(e, status, now).(task := NoTask));
  }

  lemma AcceptedRecordsOk(e: Engine, j: nat)
    requires Inv(e) && TaskOwns(e) && e.task.marked && j < PENDING_MAX
    ensures var e' := AcceptSend(e); RecOk(e'.table.pending[j], j, e'.paths, e'.task, e'.diag, e'.async, e'.clock)
  {
    var i := e.task.index;
    assert RecOk(e.table.pending[i], i, e.paths, e.task, e.diag, e.async, e.clock);
    assert RecOk(e.table.pending[j], j, e.paths, e.task, e.diag, e.async, e.clock);
    if j != i && IsDiagnostic(e.table.pending[j]) && e.table.pending[i].kind.Diagnostic? {
      OtherSamples(e, i, j);
    }
  }

  lemma AcceptSendKeepsInv(e: Engine)
    requires Inv(e) && TaskOwns(e) && e.task.marked
    ensures Inv(AcceptSend(e)) && Advances(e, AcceptSend(e))
  {
    var i := e.task.index;
    var r := e.table.pending[i];
    var e' := AcceptSend(e);
    assert RecOk(r, i, e.paths, e.task, e.diag, e.async, e.clock);
    RewriteKeeps(e.table, i, r.(phase := Waiting));
    RewriteKeepsDiag(e, i, r.(phase := Waiting));
    forall j | 0 <= j < PENDING_MAX
      ensures RecOk(e'.table.pending[j], j, e'.paths, e'.task, e'.diag, e'.async, e'.clock)
    {
      AcceptedRecordsOk(e, j);
    }
    if Running(e'.diag) {
      forall j | 0 <= j < |e'.diag.samples| ensures SampleOk(e'.diag, e'.table.pending, j) {
        assert SampleOk(e.diag, e'.table.pending, j);
        if r.kind.Diagnostic? && j == r.kind.index {
          assert e'.table.pending[i].kind == Diagnostic(e'.diag.id, j);
        }
      }
    }
    forall c | 0 <= c < |e'.async| ensures AsyncOk(c, e'.async, e'.table.pending, e'.paths, e'.nextHandle) {
      assert AsyncOk(c, e.async, e.table.pending, e.paths, e.nextHandle);
    }
    AdvancesWithSamePaths(e, e');
  }

  lemma FinishKeepsInv(e: Engine, status: int, now: nat)
    requires Inv(e) && e.task.Task? && (status == 0 ==> e.task.marked)
    ensures Inv(Finish(e, status, now)) && Advances(e, Finish(e, status, now))
  {
    TaskIsAlone(e);
    if !TaskOwns(e) {
      DropTaskKeepsInv(e);
      AdvancesWithSamePaths(e, e.(task := NoTask));
    } else if status != 0 {
      FailSendKeepsInv(e, status, now);
    } else {
      var r := e.table.pending[e.task.index];
      AcceptSendKeepsInv(e);
      var e1 := AcceptSend(e);
      assert RecOk(r, e.task.index, e.paths, e.task, e.diag, e.async, e.clock);
      if r.early.ReplyAt? {
        CompleteStep(e, e1, e.task.index, Received, r.early.us);
      } else if now >= r.deadlineUs {
        CompleteStep(e, e1, e.task.index, TimedOut, now);
      }
    }
  }

  lemma CompleteStep(e: Engine, e1: Engine, i: nat, outcome: Outcome, now: nat)
    requires Inv(e1) && Advances(e, e1) && i < PENDING_MAX && e1.table.pending[i].Rec? && outcome != Canceled
    requires InTime(e1.table.pending[i], outcome, now)
    ensures Inv(Complete(e1, i, outcome, now)) && Advances(e, Complete(e1, i, outcome, now))
  {
    CompleteKeepsInv(e1, i, outcome, now);
    CompleteAdvances(e1, i, outcome, now);
    AdvancesTransitive(e, e1, Complete(e1, i, outcome, now));
  }

  // ------------------------------------------------------------------ replies and time

  lemma ReplyKeepsInv(e: Engine, key: Key, cls: nat, sequence: nat, now: nat)
    requires Inv(e)
    ensures Inv(Reply(e, key, cls, sequence, now)) && Advances(e, Reply(e, key, cls, sequence, now))
  {
    AdvancesWithSamePaths(e, e);
    var i := FindAnswered(e.table.pending, key, cls, sequence, 0);
    if i < PENDING_MAX {
      var r := e.table.pending[i];
      assert RecOk(r, i, e.paths, e.task, e.diag, e.async, e.clock);
      var e' := Reply(e, key, cls, sequence, now);
      if e' != e {
        if r.phase == Waiting {
          CompleteStep(e, e, i, Received, now);
        } else {
          RewriteKeepsInv(e, e', i, r.(early := ReplyAt(now)));
        }
      }
    }
  }

  lemma {:induction false} ExpireUpToKeepsInv(e: Engine, now: nat, k: nat)
    requires Inv(e) && k <= PENDING_MAX
    ensures Inv(ExpireUpTo(e, now, k)) && Advances(e, ExpireUpTo(e, now, k))
  {
    if k == 0 {
      AdvancesWithSamePaths(e, e);
    } else {
      ExpireUpToKeepsInv(e, now, k - 1);
      var e1 := ExpireUpTo(e, now, k - 1);
      var p := e1.table.pending[k - 1];
      if p.Rec? && p.phase == Waiting && now >= p.deadlineUs {
        CompleteStep(e, e1, k - 1, TimedOut, now);
      }
    }
  }

  lemma ExpireKeepsInv(e: Engine, now: nat)
    requires Inv(e)
    ensures Inv(Expire(e, now)) && Advances(e, Expire(e, now))
  {
    ExpireUpToKeepsInv(e, now, PENDING_MAX);
    var e1 := ExpireUpTo(e, now, PENDING_MAX);
    if Running(e1.diag) && now >= e1.diag.finalUs {
      CancelDiagKeepsInv(e1, ETIMEDOUT, now);
      AdvancesTransitive(e, e1, Expire(e, now));
    }
  }
}
