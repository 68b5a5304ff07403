/** What every locked operation of the probe engine keeps. */
module ProbeInvariant {
  import opened ProbeTable
  import opened ProbeEngine
  import S = ProbeSummary

  // ------------------------------------------------------------------ the invariant

  /** A live record sits in its partition, on the current generation of its path, and
      corresponds to a sample of the running diagnostic or to a dispatched async slot. */
  predicate RecOk(r: Pending, i: nat, paths: map<Key, PathRt>, task: Task, diag: Diag, async: seq<AsyncSlot>,
                  clock: nat) {
    r.Rec? ==>
      && r.cls < CLASSES == |async|
      && r.key in paths && paths[r.key].gen == r.gen
      && r.sentUs <= clock
      && (r.phase != Waiting ==> task.Task? && task.index == i)
      && (r.early.ReplyAt? ==> r.phase != ProbeTable.Reserved && r.early.us <= r.deadlineUs)
      && match r.kind
         case Periodic => i < PERIODIC_END
         case Diagnostic(id, index) =>
           && PERIODIC_END <= i < DIAGNOSTIC_END
           && Running(diag) && id == diag.id && index < diag.next <= |diag.samples|
           && r.key == diag.request.key && r.gen == diag.gen && r.cls == diag.request.cls
           && diag.samples[index].sequence == r.sequence
           && diag.samples[index].state == (if r.phase == Waiting then S.Pending else S.Reserved)
           && (r.phase != ProbeTable.Reserved ==> r.deadlineUs == r.sentUs + diag.request.timeoutUs)
         case Async(handle) =>
           && i == ASYNC_BEGIN + r.cls
           && Dispatched(async[r.cls]) && async[r.cls].handle == handle && async[r.cls].gen == r.gen
           && async[r.cls].key == r.key
  }

  predicate Dispatched(a: AsyncSlot) { Outstanding(a) && a.dispatched }

  predicate RecsOk(e: Engine) {
    forall i :: 0 <= i < |e.table.pending| ==> RecOk(e.table.pending[i], i, e.paths, e.task, e.diag, e.async, e.clock)
  }

  /** The worker's record is untouched or gone, never somebody else's. */
  predicate TaskOk(e: Engine) {
    e.task.Task? ==>
      && e.task.index < |e.table.pending|
      && var r := e.table.pending[e.task.index];
         r.Rec? ==> r.ticket == e.task.ticket && r.sequence == e.task.sequence && r.gen == e.task.gen
                    && r.key == e.task.key && r.cls == e.task.cls
                    && r.phase == (if e.task.marked then Submitting else ProbeTable.Reserved)
  }

  predicate HasRecord(pending: seq<Pending>, id: nat, index: nat) {
    exists i :: 0 <= i < |pending| && IsDiagnostic(pending[i]) && pending[i].kind == Diagnostic(id, index)
  }

  predicate SampleOk(d: Diag, pending: seq<Pending>, j: nat)
    requires j < |d.samples|
  {
    && (j >= d.next ==> d.samples[j].state == S.Unused)
    && (j < d.next ==> S.Ended(d.samples[j].state) || HasRecord(pending, d.id, j))
  }

  predicate RunningOk(d: Diag, pending: seq<Pending>, paths: map<Key, PathRt>) {
    && 1 <= d.request.packets == |d.samples| <= PACKETS_MAX
    && d.request.cls < CLASSES
    && d.request.key in paths && paths[d.request.key].gen == d.gen
    && d.next <= |d.samples|
    && d.pendingCount == Diagnostics(pending)
    && (forall j :: 0 <= j < |d.samples| ==> SampleOk(d, pending, j))
  }

  /** Something is still to happen: the diagnostic cannot hang without being complete. */
  predicate NotStuck(d: Diag) { Running(d) ==> d.next < d.request.packets || d.pendingCount > 0 }

  predicate ResultOk(d: Diag) {
    d.active && d.completed ==>
      && |d.samples| == d.request.packets
      && d.result == S.Summarise(d.samples)
      && (d.status == 0 ==> forall j :: 0 <= j < |d.samples| ==> S.Ended(d.samples[j].state))
  }

  predicate DiagOk(d: Diag, pending: seq<Pending>, paths: map<Key, PathRt>) {
    && (Running(d) ==> RunningOk(d, pending, paths))
    && ResultOk(d)
    && (forall j :: 0 <= j < |d.samples| ==> d.samples[j].rttUs <= d.request.timeoutUs)
  }

  /** An async slot has a record exactly while it is active, dispatched and undecided. */
  predicate AsyncOk(c: nat, async: seq<AsyncSlot>, pending: seq<Pending>, paths: map<Key, PathRt>, nextHandle: nat)
    requires c < |async| == CLASSES && |pending| == PENDING_MAX
  {
    var a := async[c];
    && (Dispatched(a) ==> pending[ASYNC_BEGIN + c].Rec? && pending[ASYNC_BEGIN + c].kind == Async(a.handle))
    && (Outstanding(a) ==> a.key in paths && paths[a.key].gen == a.gen)
    && (a.active ==> 1 <= a.handle <= nextHandle)
    && (forall b :: 0 <= b < |async| && b != c && a.active && async[b].active ==> async[b].handle != a.handle)
  }

  predicate AsyncsOk(e: Engine)
    requires Shape(e)
  {
    forall c :: 0 <= c < |e.async| ==> AsyncOk(c, e.async, e.table.pending, e.paths, e.nextHandle)
  }

  predicate PathOk(p: PathRt, nextGen: nat, clock: nat) {
    && 1 <= p.gen <= nextGen
    && |p.classes| == CLASSES
    && (forall c :: 0 <= c < |p.classes| ==> p.classes[c].latestSentUs <= clock)
  }

  predicate PathsOk(paths: map<Key, PathRt>, nextGen: nat, clock: nat) {
    forall key :: key in paths ==> PathOk(paths[key], nextGen, clock)
  }

  predicate StoppedOk(e: Engine) {
    !e.running ==>
      && (forall i :: 0 <= i < |e.table.pending| ==> e.table.pending[i].Free?)
      && (forall c :: 0 <= c < |e.async| ==> !e.async[c].active)
      && !Running(e.diag)
  }

  predicate Inv(e: Engine) {
    && Shape(e) && TableOk(e.table)
    && RecsOk(e) && TaskOk(e)
    && DiagOk(e.diag, e.table.pending, e.paths) && NotStuck(e.diag)
    && AsyncsOk(e)
    && PathsOk(e.paths, e.nextGen, e.clock)
    && StoppedOk(e)
    && e.nextSequence <= SEQUENCE_MAX
  }

  lemma InitialInv(seed: nat)
    requires seed <= SEQUENCE_MAX
    ensures Inv(InitialEngine(seed))
  {
  }

  // ------------------------------------------------------------------ finishing diagnostics

  /** With no record left and nothing more to send, every sample has ended. */
  lemma AllSamplesEnded(d: Diag, pending: seq<Pending>, paths: map<Key, PathRt>)
    requires RunningOk(d, pending, paths) && d.next == |d.samples| && d.pendingCount == 0
    ensures forall j :: 0 <= j < |d.samples| ==> S.Ended(d.samples[j].state)
  {
    NoDiagnostics(pending);
    forall j | 0 <= j < |d.samples| ensures S.Ended(d.samples[j].state) {
      assert SampleOk(d, pending, j);
    }
  }

  /** Like Inv, with the completion check of the diagnostic still ahead. */
  predicate InvBeforeFinish(e: Engine) {
    && Shape(e) && TableOk(e.table)
    && RecsOk(e) && TaskOk(e)
    && DiagOk(e.diag, e.table.pending, e.paths)
    && AsyncsOk(e)
    && PathsOk(e.paths, e.nextGen, e.clock)
    && StoppedOk(e)
    && e.nextSequence <= SEQUENCE_MAX
  }

  lemma TryFinishKeepsInv(e: Engine, now: nat)
    requires InvBeforeFinish(e)
    ensures Inv(TryFinish(e, now))
  {
    if Running(e.diag) && e.diag.next == e.diag.request.packets && e.diag.pendingCount == 0 {
      AllSamplesEnded(e.diag, e.table.pending, e.paths);
      NoDiagnostics(e.table.pending);
      var e' := TryFinish(e, now);
      forall i | 0 <= i < |e'.table.pending|
        ensures RecOk(e'.table.pending[i], i, e'.paths, e'.task, e'.diag, e'.async, e'.clock)
      {
        assert RecOk(e.table.pending[i], i, e.paths, e.task, e.diag, e.async, e.clock);
        assert !IsDiagnostic(e.table.pending[i]);
      }
    }
  }

  // ------------------------------------------------------------------ completing a record

  /** The other records keep their samples: two live records never share one. */
  lemma OtherSamples(e: Engine, i: nat, j: nat)
    requires Inv(e) && i < PENDING_MAX && j < PENDING_MAX && i != j
    requires IsDiagnostic(e.table.pending[i]) && IsDiagnostic(e.table.pending[j])
    ensures e.table.pending[i].kind.index != e.table.pending[j].kind.index
  {
  }

  /** The same paths with the same generations. */
  predicate SameGens(a: map<Key, PathRt>, b: map<Key, PathRt>) {
    && a.Keys == b.Keys
    && (forall key :: key in a.Keys ==> a[key].gen == b[key].gen)
  }

  lemma PublishPeriodicKeeps(e: Engine, r: Pending, outcome: Outcome, now: nat)
    requires PathsOk(e.paths, e.nextGen, e.clock) && r.Rec? && r.sentUs <= e.clock
    ensures var e' := PublishPeriodic(e, r, outcome, now);
            e' == e.(paths := e'.paths) && SameGens(e.paths, e'.paths) && PathsOk(e'.paths, e.nextGen, e.clock)
  {
  }

  lemma SameGensKeepRecs(e: Engine, e': Engine)
    requires RecsOk(e) && SameGens(e.paths, e'.paths) && e' == e.(paths := e'.paths)
    ensures RecsOk(e')
  {
  }

  lemma SameGensKeepInv(e: Engine, e': Engine)
    requires Inv(e) && SameGens(e.paths, e'.paths) && e' == e.(paths := e'.paths)
    requires PathsOk(e'.paths, e.nextGen, e.clock)
    ensures Inv(e')
  {
    SameGensKeepRecs(e, e');
    if Running(e.diag) {
      forall j | 0 <= j < |e.diag.samples| ensures SampleOk(e'.diag, e'.table.pending, j) {
        assert SampleOk(e.diag, e.table.pending, j);
      }
    }
    forall c | 0 <= c < |e'.async| ensures AsyncOk(c, e'.async, e'.table.pending, e'.paths, e'.nextHandle) {
      assert AsyncOk(c, e.async, e.table.pending, e.paths, e.nextHandle);
    }
  }

  /** Freeing a periodic record touches nothing else. */
  lemma EndPeriodic(e: Engine, i: nat, outcome: Outcome)
    requires Inv(e) && i < PENDING_MAX && e.table.pending[i].Rec? && e.table.pending[i].kind.Periodic?
    ensures Inv(e.(table := End(e.table, i, outcome)))
  {
    var e' := e.(table := End(e.table, i, outcome));
    assert RecOk(e.table.pending[i], i, e.paths, e.task, e.diag, e.async, e.clock);
    EndKeeps(e.table, i, outcome);
    DiagnosticsUpdate(e.table.pending, i, Free);
    forall j | 0 <= j < |e'.table.pending|
      ensures RecOk(e'.table.pending[j], j, e'.paths, e'.task, e'.diag, e'.async, e'.clock)
    {
      assert RecOk(e.table.pending[j], j, e.paths, e.task, e.diag, e.async, e.clock);
    }
    SamplesSurvive(e, e'.table.pending, i);
    forall c | 0 <= c < |e'.async| ensures AsyncOk(c, e'.async, e'.table.pending, e'.paths, e'.nextHandle) {
      assert AsyncOk(c, e.async, e.table.pending, e.paths, e.nextHandle);
    }
  }

  lemma CompletePeriodic(e: Engine, i: nat, outcome: Outcome, now: nat)
    requires Inv(e) && i < PENDING_MAX && e.table.pending[i].Rec? && e.table.pending[i].kind.Periodic?
    ensures var p := Publish(e, e.table.pending[i], outcome, now);
            InvBeforeFinish(p.(table := End(p.table, i, outcome)))
  {
    var r := e.table.pending[i];
    assert RecOk(r, i, e.paths, e.task, e.diag, e.async, e.clock);
    PublishPeriodicKeeps(e, r, outcome, now);
    SameGensKeepInv(e, PublishPeriodic(e, r, outcome, now));
    EndPeriodic(PublishPeriodic(e, r, outcome, now), i, outcome);
  }

  predicate RecordFor(p: Pending, id: nat, j: nat) { IsDiagnostic(p) && p.kind == Diagnostic(id, j) }

  /** Freeing a record leaves every sample but its own accounted for. */
  lemma SamplesSurvive(e: Engine, pending: seq<Pending>, i: nat)
    requires Inv(e) && i < PENDING_MAX && |pending| == PENDING_MAX
    requires forall k :: 0 <= k < PENDING_MAX && k != i ==> pending[k] == e.table.pending[k]
    ensures Running(e.diag) ==>
              (forall j :: 0 <= j < |e.diag.samples| && !RecordFor(e.table.pending[i], e.diag.id, j) ==>
                SampleOk(e.diag, pending, j))
  {
    if Running(e.diag) {
      forall j | 0 <= j < |e.diag.samples| && !RecordFor(e.table.pending[i], e.diag.id, j)
        ensures SampleOk(e.diag, pending, j)
      {
        assert SampleOk(e.diag, e.table.pending, j);
        if j < e.diag.next && !S.Ended(e.diag.samples[j].state) {
          var k :| 0 <= k < PENDING_MAX && IsDiagnostic(e.table.pending[k])
            && e.table.pending[k].kind == Diagnostic(e.diag.id, j);
          assert pending[k] == e.table.pending[k];
        }
      }
    }
  }

  /** A reply is only accepted up to the deadline of its request. */
  predicate InTime(r: Pending, outcome: Outcome, now: nat) {
    r.Rec? && outcome == Received ==> r.phase != ProbeTable.Reserved && now <= r.deadlineUs
  }

  predicate DiagnosticCompleted(e: Engine, e': Engine, i: nat, outcome: Outcome, now: nat) {
    && Inv(e) && i < PENDING_MAX && IsDiagnostic(e.table.pending[i]) && outcome != Canceled
    && InTime(e.table.pending[i], outcome, now)
    && e' == Publish(e, e.table.pending[i], outcome, now).(table := End(e.table, i, outcome))
  }

  lemma CompleteDiagnosticRecs(e: Engine, e': Engine, i: nat, outcome: Outcome, now: nat)
    requires DiagnosticCompleted(e, e', i, outcome, now)
    ensures RecsOk(e')
  {
  }

  lemma CompleteDiagnostic(e: Engine, e': Engine, i: nat, outcome: Outcome, now: nat)
    requires DiagnosticCompleted(e, e', i, outcome, now)
    ensures InvBeforeFinish(e')
  {
    var r := e.table.pending[i];
    CompleteDiagnosticRecs(e, e', i, outcome, now);
    assert RecOk(r, i, e.paths, e.task, e.diag, e.async, e.clock);
    EndKeeps(e.table, i, outcome);
    DiagnosticsUpdate(e.table.pending, i, Free);
    SamplesSurvive(e, e'.table.pending, i);
    forall j | 0 <= j < |e'.diag.samples| ensures SampleOk(e'.diag, e'.table.pending, j) {
      assert j != r.kind.index ==> SampleOk(e.diag, e'.table.pending, j);
      if j != r.kind.index && HasRecord(e'.table.pending, e.diag.id, j) {
        assert HasRecord(e'.table.pending, e'.diag.id, j);
      }
    }
    forall c | 0 <= c < |e'.async| ensures AsyncOk(c, e'.async, e'.table.pending, e'.paths, e'.nextHandle) {
      assert AsyncOk(c, e.async, e.table.pending, e.paths, e.nextHandle);
    }
  }

  /** Deciding an async slot together with the end of its record. */
  lemma DecideKeepsAsyncs(e: Engine, cls: nat, async: seq<AsyncSlot>, pending: seq<Pending>)
    requires Shape(e) && AsyncsOk(e) && cls < CLASSES && |pending| == PENDING_MAX && |async| == CLASSES
    requires forall c :: 0 <= c < CLASSES && c != cls ==> async[c] == e.async[c]
    requires async[cls].active == e.async[cls].active && async[cls].handle == e.async[cls].handle
    requires !Outstanding(async[cls])
    requires pending == e.table.pending[ASYNC_BEGIN + cls := Free]
    ensures forall c :: 0 <= c < CLASSES ==> AsyncOk(c, async, pending, e.paths, e.nextHandle)
  {
    forall c | 0 <= c < CLASSES ensures AsyncOk(c, async, pending, e.paths, e.nextHandle) {
      assert AsyncOk(c, e.async, e.table.pending, e.paths, e.nextHandle);
    }
  }

  lemma AsyncPublished(e: Engine, i: nat, outcome: Outcome, now: nat)
    requires Inv(e) && i < PENDING_MAX && e.table.pending[i].Rec? && e.table.pending[i].kind.Async?
    ensures var r := e.table.pending[i];
            var p := Publish(e, r, outcome, now);
            && i == ASYNC_BEGIN + r.cls && r.cls < CLASSES && p == e.(async := p.async)
            && (forall c :: 0 <= c < CLASSES && c != r.cls ==> p.async[c] == e.async[c])
            && p.async[r.cls].active == e.async[r.cls].active && p.async[r.cls].handle == e.async[r.cls].handle
            && !Outstanding(p.async[r.cls])
  {
  }

  lemma CompleteAsync(e: Engine, i: nat, outcome: Outcome, now: nat)
    requires Inv(e) && i < PENDING_MAX && e.table.pending[i].Rec? && e.table.pending[i].kind.Async?
    ensures var p := Publish(e, e.table.pending[i], outcome, now);
            InvBeforeFinish(p.(table := End(p.table, i, outcome)))
  {
    var r := e.table.pending[i];
    AsyncPublished(e, i, outcome, now);
    var p := Publish(e, r, outcome, now);
    var e' := p.(table := End(p.table, i, outcome));
    EndKeeps(e.table, i, outcome);
    DiagnosticsUpdate(e.table.pending, i, Free);
    forall j | 0 <= j < |e'.table.pending|
      ensures RecOk(e'.table.pending[j], j, e'.paths, e'.task, e'.diag, e'.async, e'.clock)
    {
      assert RecOk(e.table.pending[j], j, e.paths, e.task, e.diag, e.async, e.clock);
    }
    SamplesSurvive(e, e'.table.pending, i);
    DecideKeepsAsyncs(e, r.cls, e'.async, e'.table.pending);
  }

  lemma CompleteBeforeFinish(e: Engine, i: nat, outcome: Outcome, now: nat)
    requires Inv(e) && i < PENDING_MAX && e.table.pending[i].Rec? && outcome != Canceled
    requires InTime(e.table.pending[i], outcome, now)
    ensures var p := Publish(e, e.table.pending[i], outcome, now);
            InvBeforeFinish(p.(table := End(p.table, i, outcome)))
  {
    match e.table.pending[i].kind
    case Periodic => CompletePeriodic(e, i, outcome, now);
    case Diagnostic(_, _) =>
      CompleteDiagnostic(e, Publish(e, e.table.pending[i], outcome, now).(table := End(e.table, i, outcome)), i,
                         outcome, now);
    case Async(_) => CompleteAsync(e, i, outcome, now);
  }

  lemma CompleteKeepsInv(e: Engine, i: nat, outcome: Outcome, now: nat)
    requires Inv(e) && i < PENDING_MAX && e.table.pending[i].Rec? && outcome != Canceled
    requires InTime(e.table.pending[i], outcome, now)
    ensures Inv(Complete(e, i, outcome, now))
    ensures Complete(e, i, outcome, now).table == End(e.table, i, outcome)
    ensures Complete(e, i, outcome, now).task == e.task
  {
    CompleteBeforeFinish(e, i, outcome, now);
    var p := Publish(e, e.table.pending[i], outcome, now);
    TryFinishKeepsInv(p.(table := End(p.table, i, outcome)), now);
  }
}
