/** Paths coming and going, and the three ways a request enters the probe engine. */
module ProbeRequests {
  import opened ProbeTable
  import opened ProbeEngine
  import opened ProbeInvariant
  import opened ProbeSteps
  import S = ProbeSummary

  // ------------------------------------------------------------------ removing a path

  lemma {:induction false} DiagnosticsSame(a: seq<Pending>, b: seq<Pending>)
    requires |a| == |b| && forall i :: 0 <= i < |a| ==> (IsDiagnostic(a[i]) <==> IsDiagnostic(b[i]))
    ensures Diagnostics(a) == Diagnostics(b)
  {
    if a != [] {
      DiagnosticsSame(a[..|a| - 1], b[..|a| - 1]);
    }
  }

  /** Records other than the diagnostic's may be freed without touching it. */
  lemma DiagUntouched(e: Engine, pending: seq<Pending>)
    requires Inv(e) && |pending| == PENDING_MAX
    requires forall i :: 0 <= i < PENDING_MAX ==>
               pending[i] == e.table.pending[i] || (pending[i].Free? && !IsDiagnostic(e.table.pending[i]))
    ensures Diagnostics(pending) == Diagnostics(e.table.pending)
    ensures Running(e.diag) ==> forall j :: 0 <= j < |e.diag.samples| ==> SampleOk(e.diag, pending, j)
  {
    DiagnosticsSame(pending, e.table.pending);
    if Running(e.diag) {
      forall j | 0 <= j < |e.diag.samples| ensures SampleOk(e.diag, pending, j) {
        assert SampleOk(e.diag, e.table.pending, j);
        if j < e.diag.next && !S.Ended(e.diag.samples[j].state) {
          var k :| 0 <= k < PENDING_MAX && IsDiagnostic(e.table.pending[k])
            && e.table.pending[k].kind == Diagnostic(e.diag.id, j);
          assert pending[k] == e.table.pending[k];
        }
      }
    }
  }

  /** One async slot decided and its record freed. */
  function Decided(e: Engine, c: nat, slot: AsyncSlot): Engine
    requires Shape(e) && c < CLASSES
  {
    e.(table := EndMatching(e.table, AsyncOf(e.async[c].handle), ASYNC_BEGIN, PENDING_MAX), async := e.async[c := slot])
  }

  lemma DecideAsync(e: Engine, c: nat, slot: AsyncSlot)
    requires Inv(e) && c < CLASSES && e.async[c].active
    requires !Outstanding(slot) && (slot.active ==> slot.handle == e.async[c].handle)
    ensures var e' := Decided(e, c, slot);
            && Inv(e') && Advances(e, e')
            && (forall i :: 0 <= i < PENDING_MAX && e.table.pending[i].Free? ==> e'.table.pending[i].Free?)
  {
    var handle, e' := e.async[c].handle, Decided(e, c, slot);
    EndMatchingIs(e.table, AsyncOf(handle), ASYNC_BEGIN, PENDING_MAX);
    EndMatchingKeeps(e.table, AsyncOf(handle), ASYNC_BEGIN, PENDING_MAX);
    assert AsyncOk(c, e.async, e.table.pending, e.paths, e.nextHandle);
    DecidedRecordsOk(e, e', c, slot);
    DiagUntouched(e, e'.table.pending);
    DecidedAsyncsOk(e, e', c, slot);
    AdvancesWithSamePaths(e, e');
  }

  lemma DecidedRecordsOk(e: Engine, e': Engine, c: nat, slot: AsyncSlot)
    requires Inv(e) && Shape(e') && c < CLASSES && e.async[c].active
    requires e' == e.(table := e'.table, async := e.async[c := slot])
    requires forall i :: 0 <= i < PENDING_MAX ==>
               e'.table.pending[i]
                 == (if i >= ASYNC_BEGIN && e.table.pending[i].Rec? && AsyncOf(e.async[c].handle)(e.table.pending[i])
                     then Free else e.table.pending[i])
    ensures forall i :: 0 <= i < PENDING_MAX ==>
              RecOk(e'.table.pending[i], i, e'.paths, e'.task, e'.diag, e'.async, e'.clock)
    ensures forall i :: 0 <= i < PENDING_MAX && i != ASYNC_BEGIN + c ==> e'.table.pending[i] == e.table.pending[i]
  {
    forall i | 0 <= i < PENDING_MAX
      ensures RecOk(e'.table.pending[i], i, e'.paths, e'.task, e'.diag, e'.async, e'.clock)
      ensures i != ASYNC_BEGIN + c ==> e'.table.pending[i] == e.table.pending[i]
    {
      var r := e.table.pending[i];
      assert RecOk(r, i, e.paths, e.task, e.diag, e.async, e.clock);
      if r.Rec? && r.kind.Async? && r.cls != c {
        assert AsyncOk(c, e.async, e.table.pending, e.paths, e.nextHandle);
        assert e.async[r.cls].handle != e.async[c].handle;
      }
    }
  }

  lemma DecidedAsyncsOk(e: Engine, e': Engine, c: nat, slot: AsyncSlot)
    requires Shape(e) && Shape(e') && AsyncsOk(e) && c < CLASSES && e.async[c].active
    requires !Outstanding(slot) && (slot.active ==> slot.handle == e.async[c].handle)
    requires e'.async == e.async[c := slot] && e'.paths == e.paths && e'.nextHandle == e.nextHandle
    requires forall i :: 0 <= i < PENDING_MAX && i != ASYNC_BEGIN + c ==> e'.table.pending[i] == e.table.pending[i]
    ensures forall b :: 0 <= b < CLASSES ==> AsyncOk(b, e'.async, e'.table.pending, e'.paths, e'.nextHandle)
  {
    forall b | 0 <= b < CLASSES ensures AsyncOk(b, e'.async, e'.table.pending, e'.paths, e'.nextHandle) {
      assert AsyncOk(b, e.async, e.table.pending, e.paths, e.nextHandle);
      assert AsyncOk(c, e.async, e.table.pending, e.paths, e.nextHandle);
    }
  }

  predicate NoneOutstanding(async: seq<AsyncSlot>, key: Key, gen: nat, k: nat) {
    forall c :: 0 <= c < k && c < |async| ==> !(Outstanding(async[c]) && async[c].key == key && async[c].gen == gen)
  }

  lemma CancelAsyncPathStep(e: Engine, key: Key, gen: nat, now: nat, k: nat)
    requires 0 < k <= CLASSES && Shape(e) && Inv(CancelAsyncPath(e, key, gen, now, k - 1))
    requires NoneOutstanding(CancelAsyncPath(e, key, gen, now, k - 1).async, key, gen, k - 1)
    ensures var e1 := CancelAsyncPath(e, key, gen, now, k - 1);
            var e' := CancelAsyncPath(e, key, gen, now, k);
            Inv(e') && Advances(e1, e') && e'.diag == e1.diag && e'.paths == e1.paths
              && NoneOutstanding(e'.async, key, gen, k)
  {
    var e1 := CancelAsyncPath(e, key, gen, now, k - 1);
    var slot := e1.async[k - 1];
    if slot.active && slot.key == key && slot.gen == gen {
      DecideAsync(e1, k - 1, slot.(state := Withdrawn, completedUs := now, rttUs := 0));
    } else {
      AdvancesWithSamePaths(e1, e1);
    }
  }

  lemma {:induction false} CancelAsyncPathKeepsInv(e: Engine, key: Key, gen: nat, now: nat, k: nat)
    requires Inv(e) && k <= CLASSES
    ensures var e' := CancelAsyncPath(e, key, gen, now, k);
            Inv(e') && Advances(e, e') && e'.diag == e.diag && e'.paths == e.paths
              && NoneOutstanding(e'.async, key, gen, k)
  {
    if k == 0 {
      AdvancesWithSamePaths(e, e);
    } else {
      CancelAsyncPathKeepsInv(e, key, gen, now, k - 1);
      CancelAsyncPathStep(e, key, gen, now, k);
      AdvancesTransitive(e, CancelAsyncPath(e, key, gen, now, k - 1), CancelAsyncPath(e, key, gen, now, k));
    }
  }

  /** What is left on the path is periodic. */
  lemma DroppedRecordOk(e: Engine, key: Key, i: nat)
    requires Inv(e) && key in e.paths && i < PENDING_MAX
    requires !(Running(e.diag) && e.diag.request.key == key)
    requires forall c :: 0 <= c < CLASSES ==> !(Outstanding(e.async[c]) && e.async[c].key == key)
    ensures var e' := e.(table := EndMatching(e.table, OnPath(key), 0, PENDING_MAX), paths := e.paths - {key});
            RecOk(e'.table.pending[i], i, e'.paths, e'.task, e'.diag, e'.async, e'.clock)
    ensures e.table.pending[i].Rec? && e.table.pending[i].key == key ==> e.table.pending[i].kind.Periodic?
  {
    EndMatchingIs(e.table, OnPath(key), 0, PENDING_MAX);
    assert RecOk(e.table.pending[i], i, e.paths, e.task, e.diag, e.async, e.clock);
  }

  lemma DroppedAsyncOk(e: Engine, key: Key, c: nat)
    requires Inv(e) && key in e.paths && c < CLASSES
    requires !(Running(e.diag) && e.diag.request.key == key)
    requires forall c :: 0 <= c < CLASSES ==> !(Outstanding(e.async[c]) && e.async[c].key == key)
    ensures var e' := e.(table := EndMatching(e.table, OnPath(key), 0, PENDING_MAX), paths := e.paths - {key});
            AsyncOk(c, e'.async, e'.table.pending, e'.paths, e'.nextHandle)
  {
    EndMatchingIs(e.table, OnPath(key), 0, PENDING_MAX);
    DroppedRecordOk(e, key, ASYNC_BEGIN + c);
    assert AsyncOk(c, e.async, e.table.pending, e.paths, e.nextHandle);
  }

  lemma DropPathKeepsInv(e: Engine, key: Key)
    requires Inv(e) && key in e.paths
    requires !(Running(e.diag) && e.diag.request.key == key)
    requires forall c :: 0 <= c < CLASSES ==> !(Outstanding(e.async[c]) && e.async[c].key == key)
    ensures var e' := e.(table := EndMatching(e.table, OnPath(key), 0, PENDING_MAX), paths := e.paths - {key});
            Inv(e') && Advances(e, e')
  {
    var e' := e.(table := EndMatching(e.table, OnPath(key), 0, PENDING_MAX), paths := e.paths - {key});
    EndMatchingIs(e.table, OnPath(key), 0, PENDING_MAX);
    EndMatchingKeeps(e.table, OnPath(key), 0, PENDING_MAX);
    forall i | 0 <= i < PENDING_MAX
      ensures RecOk(e'.table.pending[i], i, e'.paths, e'.task, e'.diag, e'.async, e'.clock)
      ensures e.table.pending[i].Rec? && e.table.pending[i].key == key ==> e.table.pending[i].kind.Periodic?
    {
      DroppedRecordOk(e, key, i);
    }
    DiagUntouched(e, e'.table.pending);
    forall c | 0 <= c < CLASSES ensures AsyncOk(c, e'.async, e'.table.pending, e'.paths, e'.nextHandle) {
      DroppedAsyncOk(e, key, c);
    }
    forall k | k in e'.paths ensures PathAdvances(e, e', k) {
    }
  }

  lemma RemovePathKeepsInv(e: Engine, key: Key, now: nat)
    requires Inv(e) && key in e.paths
    ensures Inv(RemovePath(e, key, now)) && Advances(e, RemovePath(e, key, now))
  {
    AdvancesWithSamePaths(e, e);
    var e1 := if Running(e.diag) && e.diag.request.key == key then CancelDiag(e, ESTALE, now) else e;
    if Running(e.diag) && e.diag.request.key == key {
      CancelDiagKeepsInv(e, ESTALE, now);
    }
    var gen := e.paths[key].gen;
    CancelAsyncPathKeepsInv(e1, key, gen, now, CLASSES);
    var e2 := CancelAsyncPath(e1, key, gen, now, CLASSES);
    forall c | 0 <= c < CLASSES ensures !(Outstanding(e2.async[c]) && e2.async[c].key == key) {
      assert AsyncOk(c, e2.async, e2.table.pending, e2.paths, e2.nextHandle);
    }
    DropPathKeepsInv(e2, key);
    AdvancesTransitive(e, e1, e2);
    AdvancesTransitive(e, e2, RemovePath(e, key, now));
  }

  lemma AddPathKeepsInv(e: Engine, key: Key, phases: seq<nat>, now: nat)
    requires Inv(e) && key !in e.paths && |phases| == CLASSES
    ensures Inv(AddPath(e, key, phases, now)) && Advances(e, AddPath(e, key, phases, now))
  {
    var e' := AddPath(e, key, phases, now);
    forall i | 0 <= i < PENDING_MAX
      ensures RecOk(e'.table.pending[i], i, e'.paths, e'.task, e'.diag, e'.async, e'.clock)
    {
      assert RecOk(e.table.pending[i], i, e.paths, e.task, e.diag, e.async, e.clock);
    }
    DiagUntouched(e, e.table.pending);
    forall c | 0 <= c < CLASSES ensures AsyncOk(c, e'.async, e'.table.pending, e'.paths, e'.nextHandle) {
      assert AsyncOk(c, e.async, e.table.pending, e.paths, e.nextHandle);
    }
    forall k | k in e'.paths ensures PathOk(e'.paths[k], e'.nextGen, e'.clock) && PathAdvances(e, e', k) {
      if k != key {
        assert PathOk(e.paths[k], e.nextGen, e.clock);
      }
    }
  }

  /** Any change to one class of one path that does not move its send time back. */
  lemma SetClassKeepsInv(e: Engine, key: Key, cls: nat, rt: ClassRt)
    requires Inv(e) && key in e.paths && cls < |e.paths[key].classes|
    requires e.paths[key].classes[cls].latestSentUs <= rt.latestSentUs <= e.clock
    ensures var e' := e.(paths := SetClass(e.paths, key, cls, rt)); Inv(e') && Advances(e, e')
  {
    var e' := e.(paths := SetClass(e.paths, key, cls, rt));
    forall k | k in e'.paths ensures PathOk(e'.paths[k], e'.nextGen, e'.clock) {
      assert PathOk(e.paths[k], e.nextGen, e.clock);
    }
    SameGensKeepInv(e, e');
    AdvancesOneClass(e, e', key, cls, rt);
  }

  lemma RepaceKeepsInv(e: Engine, key: Key, cls: nat, intervalUs: nat, nextUs: nat)
    requires Inv(e)
    ensures Inv(Repace(e, key, cls, intervalUs, nextUs)) && Advances(e, Repace(e, key, cls, intervalUs, nextUs))
  {
    AdvancesWithSamePaths(e, e);
    if key in e.paths && cls < |e.paths[key].classes| {
      assert PathOk(e.paths[key], e.nextGen, e.clock);
      SetClassKeepsInv(e, key, cls, e.paths[key].classes[cls].(intervalUs := intervalUs, nextUs := nextUs));
    }
  }

  // ------------------------------------------------------------------ reserving

  /** Everything but the new record's own bookkeeping: its sample or async slot. */
  lemma ReserveRest(e: Engine, i: nat, kind: Kind, key: Key, cls: nat, gen: nat, now: nat)
    requires Inv(e) && e.task == NoTask && e.running && i < PENDING_MAX && e.table.pending[i].Free? && e.clock <= now
    ensures var e' := Reserve(e, i, kind, key, cls, gen, now);
            && Shape(e') && TableOk(e'.table) && Extends(e.table, e'.table) && TaskOk(e')
            && PathsOk(e'.paths, e'.nextGen, e'.clock) && Advances(e, e') && e'.nextSequence <= SEQUENCE_MAX
            && Diagnostics(e'.table.pending) == Diagnostics(e.table.pending) + (if kind.Diagnostic? then 1 else 0)
    ensures var e' := Reserve(e, i, kind, key, cls, gen, now);
            && (forall j :: 0 <= j < PENDING_MAX && j != i ==>
                 e'.table.pending[j] == e.table.pending[j]
                 && RecOk(e'.table.pending[j], j, e'.paths, e'.task, e'.diag, e'.async, e'.clock)
                 && (e'.table.pending[j].Rec? ==>
                       e'.table.pending[j].phase == Waiting && e'.table.pending[j].sequence != e'.task.sequence))
            && (Running(e.diag) ==> forall j :: 0 <= j < |e.diag.samples| ==> SampleOk(e.diag, e'.table.pending, j))
  {
    var e' := Reserve(e, i, kind, key, cls, gen, now);
    AllocateIsFresh(e.table.pending, e.nextSequence);
    AddKeeps(e.table, i, e'.table.pending[i]);
    DiagnosticsUpdate(e.table.pending, i, e'.table.pending[i]);
    forall j | 0 <= j < PENDING_MAX && j != i
      ensures e'.table.pending[j] == e.table.pending[j]
      ensures RecOk(e'.table.pending[j], j, e'.paths, e'.task, e'.diag, e'.async, e'.clock)
      ensures e'.table.pending[j].Rec? ==>
                e'.table.pending[j].phase == Waiting && e'.table.pending[j].sequence != e'.task.sequence
    {
      assert RecOk(e.table.pending[j], j, e.paths, e.task, e.diag, e.async, e.clock);
    }
    forall k | k in e'.paths ensures PathOk(e'.paths[k], e'.nextGen, e'.clock) {
      assert PathOk(e.paths[k], e.nextGen, e.clock);
    }
    if Running(e.diag) {
      forall j | 0 <= j < |e.diag.samples| ensures SampleOk(e.diag, e'.table.pending, j) {
        assert SampleOk(e.diag, e.table.pending, j);
        if j < e.diag.next && !S.Ended(e.diag.samples[j].state) {
          var k :| 0 <= k < PENDING_MAX && IsDiagnostic(e.table.pending[k])
            && e.table.pending[k].kind == Diagnostic(e.diag.id, j);
          assert e'.table.pending[k] == e.table.pending[k];
        }
      }
    }
    AdvancesWithSamePaths(e, e');
  }

  lemma ReservePeriodic(e: Engine, e': Engine, i: nat, key: Key, cls: nat, now: nat)
    requires Inv(e) && e.task == NoTask && e.running && i < PERIODIC_END && e.table.pending[i].Free? && e.clock <= now
    requires key in e.paths && cls < CLASSES
    requires e' == Reserve(e, i, Periodic, key, cls, e.paths[key].gen, now)
    ensures Inv(e') && Advances(e, e')
  {
    ReserveRest(e, i, Periodic, key, cls, e.paths[key].gen, now);
    forall c | 0 <= c < CLASSES ensures AsyncOk(c, e'.async, e'.table.pending, e'.paths, e'.nextHandle) {
      assert AsyncOk(c, e.async, e.table.pending, e.paths, e.nextHandle);
    }
  }

  lemma PickPeriodicFull(e: Engine, key: Key, cls: nat, now: nat)
    requires Inv(e) && key in e.paths && cls < CLASSES && e.clock <= now && cls < |e.paths[key].classes|
    requires FirstFree(e.table.pending, 0, PERIODIC_END) == PERIODIC_END
    ensures Inv(PickPeriodic(e, key, cls, now)) && Advances(e, PickPeriodic(e, key, cls, now))
  {
    assert PathOk(e.paths[key], e.nextGen, e.clock);
    var rt := e.paths[key].classes[cls];
    var rt' := rt.(nextUs := now + rt.intervalUs, latestSentUs := now, valid := false, reachable := false,
                   updatedUs := now);
    ClockKeepsInv(e, now);
    var e1 := e.(clock := now);
    SetClassKeepsInv(e1, key, cls, rt');
    var e2 := e1.(paths := SetClass(e1.paths, key, cls, rt'));
    assert PickPeriodic(e, key, cls, now) == e2;
    AdvancesTransitive(e, e1, e2);
  }

  lemma ThenReservePeriodic(e: Engine, e1: Engine, e2: Engine, i: nat, key: Key, cls: nat, now: nat)
    requires Inv(e1) && Advances(e, e1) && e1.task == NoTask && e1.running && key in e1.paths && cls < CLASSES
    requires i < PERIODIC_END && e1.table.pending[i].Free? && e1.clock <= now
    requires e2 == Reserve(e1, i, Periodic, key, cls, e1.paths[key].gen, now)
    ensures Inv(e2) && Advances(e, e2)
  {
    ReservePeriodic(e1, e2, i, key, cls, now);
    AdvancesTransitive(e, e1, e2);
  }

  /** The path's next probe put one interval ahead. */
  function Rescheduled(e: Engine, key: Key, cls: nat, now: nat): Engine
    requires key in e.paths && cls < |e.paths[key].classes|
  {
    var rt := e.paths[key].classes[cls];
    e.(paths := SetClass(e.paths, key, cls, rt.(nextUs := now + rt.intervalUs)))
  }

  lemma PickPeriodicReserved(e: Engine, key: Key, cls: nat, now: nat)
    requires Inv(e) && e.task == NoTask && e.running && key in e.paths && cls < CLASSES && e.clock <= now
    requires cls < |e.paths[key].classes| && FirstFree(e.table.pending, 0, PERIODIC_END) < PERIODIC_END
    ensures Inv(PickPeriodic(e, key, cls, now)) && Advances(e, PickPeriodic(e, key, cls, now))
  {
    var i := FirstFree(e.table.pending, 0, PERIODIC_END);
    RescheduleKeepsInv(e, key, cls, now);
    PickPeriodicIs(e, key, cls, now, i);
    ThenReservePeriodic(e, Rescheduled(e, key, cls, now), PickPeriodic(e, key, cls, now), i, key, cls, now);
  }

  lemma RescheduleKeepsInv(e: Engine, key: Key, cls: nat, now: nat)
    requires Inv(e) && key in e.paths && cls < |e.paths[key].classes|
    ensures var e1 := Rescheduled(e, key, cls, now);
            && Inv(e1) && Advances(e, e1) && e1.task == e.task && e1.running == e.running && key in e1.paths
            && e1.table == e.table && e1.clock == e.clock
  {
    assert PathOk(e.paths[key], e.nextGen, e.clock);
    var rt := e.paths[key].classes[cls];
    SetClassKeepsInv(e, key, cls, rt.(nextUs := now + rt.intervalUs));
  }

  lemma PickPeriodicIs(e: Engine, key: Key, cls: nat, now: nat, i: nat)
    requires Shape(e) && key in e.paths && cls < |e.paths[key].classes|
    requires i == FirstFree(e.table.pending, 0, PERIODIC_END) < PERIODIC_END
    ensures var e1 := Rescheduled(e, key, cls, now);
            PickPeriodic(e, key, cls, now) == Reserve(e1, i, Periodic, key, cls, e1.paths[key].gen, now)
  {
  }

  lemma PickPeriodicKeepsInv(e: Engine, key: Key, cls: nat, now: nat)
    requires Inv(e) && e.task == NoTask && e.running && key in e.paths && cls < CLASSES && e.clock <= now
    requires cls < |e.paths[key].classes|
    ensures Inv(PickPeriodic(e, key, cls, now)) && Advances(e, PickPeriodic(e, key, cls, now))
  {
    if FirstFree(e.table.pending, 0, PERIODIC_END) == PERIODIC_END {
      PickPeriodicFull(e, key, cls, now);
    } else {
      PickPeriodicReserved(e, key, cls, now);
    }
  }

  lemma AsyncSlotApart(r: Pending, j: nat, e: Engine, async: seq<AsyncSlot>, cls: nat)
    requires RecOk(r, j, e.paths, e.task, e.diag, e.async, e.clock) && cls < CLASSES == |e.async|
    requires j != ASYNC_BEGIN + cls
    requires |async| == CLASSES && forall c :: 0 <= c < CLASSES && c != cls ==> async[c] == e.async[c]
    ensures RecOk(r, j, e.paths, e.task, e.diag, async, e.clock)
  {
  }

  /** Dispatching an async slot together with its new record. */
  lemma DispatchKeepsAsyncs(e: Engine, cls: nat, async: seq<AsyncSlot>, pending: seq<Pending>)
    requires Shape(e) && AsyncsOk(e) && cls < CLASSES && Outstanding(e.async[cls]) && |pending| == PENDING_MAX
    requires |async| == CLASSES
    requires async == e.async[cls := e.async[cls].(sequence := async[cls].sequence, dispatched := true)]
    requires pending == e.table.pending[ASYNC_BEGIN + cls := pending[ASYNC_BEGIN + cls]]
    requires pending[ASYNC_BEGIN + cls].Rec? && pending[ASYNC_BEGIN + cls].kind == Async(e.async[cls].handle)
    ensures forall c :: 0 <= c < CLASSES ==> AsyncOk(c, async, pending, e.paths, e.nextHandle)
  {
    forall c | 0 <= c < CLASSES ensures AsyncOk(c, async, pending, e.paths, e.nextHandle) {
      assert AsyncOk(c, e.async, e.table.pending, e.paths, e.nextHandle);
    }
  }

  predicate AsyncReserved(e: Engine, e1: Engine, e': Engine, cls: nat, now: nat) {
    && Inv(e) && e.task == NoTask && e.running && cls < CLASSES && e.clock <= now
    && Outstanding(e.async[cls]) && e.table.pending[ASYNC_BEGIN + cls].Free?
    && e1 == Reserve(e, ASYNC_BEGIN + cls, Async(e.async[cls].handle), e.async[cls].key, cls, e.async[cls].gen, now)
    && e' == e1.(async := e1.async[cls := e.async[cls].(sequence := e1.task.sequence, dispatched := true)])
  }

  lemma ReserveAsyncRecs(e: Engine, e1: Engine, e': Engine, cls: nat, now: nat)
    requires AsyncReserved(e, e1, e', cls, now)
    ensures RecsOk(e')
  {
    var slot := e.async[cls];
    ReserveRest(e, ASYNC_BEGIN + cls, Async(slot.handle), slot.key, cls, slot.gen, now);
    assert AsyncOk(cls, e.async, e.table.pending, e.paths, e.nextHandle);
    forall j | 0 <= j < PENDING_MAX
      ensures RecOk(e'.table.pending[j], j, e'.paths, e'.task, e'.diag, e'.async, e'.clock)
    {
      if j != ASYNC_BEGIN + cls {
        AsyncSlotApart(e1.table.pending[j], j, e1, e'.async, cls);
      }
    }
  }

  lemma ReserveAsync(e: Engine, e1: Engine, e': Engine, cls: nat, now: nat)
    requires AsyncReserved(e, e1, e', cls, now)
    ensures Inv(e') && Advances(e, e')
  {
    var slot := e.async[cls];
    ReserveAsyncRecs(e, e1, e', cls, now);
    ReserveRest(e, ASYNC_BEGIN + cls, Async(slot.handle), slot.key, cls, slot.gen, now);
    DispatchKeepsAsyncs(e, cls, e'.async, e'.table.pending);
    AdvancesWithSamePaths(e, e');
  }

  /** A queued single-packet request always goes out: its path is current and its slot is
      free, so neither error branch of the reservation is ever taken. */
  lemma PickAsyncKeepsInv(e: Engine, cls: nat, now: nat)
    requires Inv(e) && e.task == NoTask && e.running && cls < CLASSES && e.clock <= now
    requires Outstanding(e.async[cls]) && !e.async[cls].dispatched
    ensures var e' := PickAsync(e, cls, now);
            && Inv(e') && Advances(e, e')
            && e'.task.Task? && e'.async[cls].dispatched && e'.async[cls].state == Queued
  {
    assert AsyncOk(cls, e.async, e.table.pending, e.paths, e.nextHandle);
    assert RecOk(e.table.pending[ASYNC_BEGIN + cls], ASYNC_BEGIN + cls, e.paths, e.task, e.diag, e.async, e.clock);
    var slot := e.async[cls];
    ReserveAsync(e, Reserve(e, ASYNC_BEGIN + cls, Async(slot.handle), slot.key, cls, slot.gen, now),
                 PickAsync(e, cls, now), cls, now);
  }

  lemma SkipSampleBeforeFinish(e: Engine, now: nat)
    requires Inv(e) && Running(e.diag) && e.diag.next < |e.diag.samples| && e.clock <= now
    ensures var d1 := e.diag.(next := e.diag.next + 1, nextSendUs := SlotEnd(e.diag, e.diag.next));
            var e' := e.(clock := now, diag := d1.(samples := SampleState(d1.samples, e.diag.next, S.SendFailed)));
            InvBeforeFinish(e') && Advances(e, e')
  {
    var index := e.diag.next;
    var d1 := e.diag.(next := index + 1, nextSendUs := SlotEnd(e.diag, index));
    var e' := e.(clock := now, diag := d1.(samples := SampleState(d1.samples, index, S.SendFailed)));
    forall j | 0 <= j < PENDING_MAX
      ensures RecOk(e'.table.pending[j], j, e'.paths, e'.task, e'.diag, e'.async, e'.clock)
    {
      assert RecOk(e.table.pending[j], j, e.paths, e.task, e.diag, e.async, e.clock);
    }
    forall j | 0 <= j < |e'.diag.samples| ensures SampleOk(e'.diag, e'.table.pending, j) {
      assert SampleOk(e.diag, e.table.pending, j);
      if j < index && !S.Ended(e.diag.samples[j].state) {
        assert HasRecord(e'.table.pending, e'.diag.id, j);
      }
    }
    forall c | 0 <= c < CLASSES ensures AsyncOk(c, e'.async, e'.table.pending, e'.paths, e'.nextHandle) {
      assert AsyncOk(c, e.async, e.table.pending, e.paths, e.nextHandle);
    }
    forall k | k in e'.paths ensures PathOk(e'.paths[k], e'.nextGen, e'.clock) {
      assert PathOk(e.paths[k], e.nextGen, e.clock);
    }
    AdvancesWithSamePaths(e, e');
  }

  predicate SampleReserved(e: Engine, e1: Engine, e': Engine, i: nat, now: nat) {
    && Inv(e) && e.task == NoTask && e.running && Running(e.diag) && e.diag.next < |e.diag.samples| && e.clock <= now
    && PERIODIC_END <= i < DIAGNOSTIC_END && e.table.pending[i].Free?
    && var d := e.diag;
       && e1 == Reserve(e, i, Diagnostic(d.id, d.next), d.request.key, d.request.cls, d.gen, now)
       && e' == e1.(diag := d.(next := d.next + 1, nextSendUs := SlotEnd(d, d.next), pendingCount := d.pendingCount + 1,
                samples := d.samples[d.next := d.samples[d.next].(sequence := e1.task.sequence, state := S.Reserved)]))
  }

  lemma ReserveSampleRecs(e: Engine, e1: Engine, e': Engine, i: nat, now: nat)
    requires SampleReserved(e, e1, e', i, now)
    ensures RecsOk(e')
  {
  }

  lemma ReserveSample(e: Engine, e1: Engine, e': Engine, i: nat, now: nat)
    requires SampleReserved(e, e1, e', i, now)
    ensures Inv(e') && Advances(e, e')
  {
    var d := e.diag;
    ReserveSampleRecs(e, e1, e', i, now);
    ReserveRest(e, i, Diagnostic(d.id, d.next), d.request.key, d.request.cls, d.gen, now);
    forall j | 0 <= j < |e'.diag.samples| ensures SampleOk(e'.diag, e'.table.pending, j) {
      assert SampleOk(d, e'.table.pending, j);
      if j == d.next {
        assert IsDiagnostic(e'.table.pending[i]) && e'.table.pending[i].kind == Diagnostic(e'.diag.id, j);
      } else if j < d.next && !S.Ended(d.samples[j].state) {
        assert HasRecord(e'.table.pending, e'.diag.id, j);
      }
    }
    forall c | 0 <= c < CLASSES ensures AsyncOk(c, e'.async, e'.table.pending, e'.paths, e'.nextHandle) {
      assert AsyncOk(c, e.async, e.table.pending, e.paths, e.nextHandle);
    }
    AdvancesWithSamePaths(e, e');
  }

  lemma SkipSample(e: Engine, now: nat)
    requires Inv(e) && Running(e.diag) && e.diag.next < |e.diag.samples| && e.clock <= now
    ensures var d1 := e.diag.(next := e.diag.next + 1, nextSendUs := SlotEnd(e.diag, e.diag.next));
            var e' := TryFinish(e.(clock := now,
                                   diag := d1.(samples := SampleState(d1.samples, e.diag.next, S.SendFailed))), now);
            Inv(e') && Advances(e, e')
  {
    SkipSampleBeforeFinish(e, now);
    var d1 := e.diag.(next := e.diag.next + 1, nextSendUs := SlotEnd(e.diag, e.diag.next));
    var e1 := e.(clock := now, diag := d1.(samples := SampleState(d1.samples, e.diag.next, S.SendFailed)));
    TryFinishKeepsInv(e1, now);
    AdvancesWithSamePaths(e, TryFinish(e1, now));
  }

  predicate SlotMissed(e: Engine, now: nat)
    requires Shape(e) && e.diag.request.packets > 0
  {
    || (e.diag.request.packets > 1 && now >= SlotEnd(e.diag, e.diag.next))
    || FirstFree(e.table.pending, PERIODIC_END, DIAGNOSTIC_END) == DIAGNOSTIC_END
  }

  lemma PickDiagIs(e: Engine, now: nat)
    requires Shape(e) && e.diag.request.packets > 0 && e.diag.next < |e.diag.samples|
    requires e.diag.request.key in e.paths && e.paths[e.diag.request.key].gen == e.diag.gen
    ensures var d := e.diag;
            var d1 := d.(next := d.next + 1, nextSendUs := SlotEnd(d, d.next));
            var e1 := Reserve(e, FirstFree(e.table.pending, PERIODIC_END, DIAGNOSTIC_END), Diagnostic(d.id, d.next),
                              d.request.key, d.request.cls, d.gen, now);
            PickDiag(e, now) ==
              if SlotMissed(e, now) then
                TryFinish(e.(clock := now, diag := d1.(samples := SampleState(d1.samples, d.next, S.SendFailed))), now)
              else
                e1.(diag := d1.(pendingCount := d.pendingCount + 1,
                    samples := d.samples[d.next := d.samples[d.next].(sequence := e1.task.sequence,
                                                                      state := S.Reserved)]))
  {
  }

  /** The path of a running diagnostic is always current: picking never cancels it. */
  lemma PickDiagKeepsInv(e: Engine, now: nat)
    requires Inv(e) && e.task == NoTask && e.running && Running(e.diag) && e.diag.next < e.diag.request.packets
    requires e.clock <= now
    ensures e.diag.request.packets > 0 && e.diag.next < |e.diag.samples|
    ensures var e' := PickDiag(e, now);
            && Inv(e') && Advances(e, e') && e'.diag.next == e.diag.next + 1 && e'.diag.id == e.diag.id
            && (e'.diag.completed ==> e'.diag.status == 0)
            && e'.task.Task? == !SlotMissed(e, now)
  {
    PickDiagIs(e, now);
    if SlotMissed(e, now) {
      SkipSample(e, now);
    } else {
      var i, d := FirstFree(e.table.pending, PERIODIC_END, DIAGNOSTIC_END), e.diag;
      ReserveSample(e, Reserve(e, i, Diagnostic(d.id, d.next), d.request.key, d.request.cls, d.gen, now),
                    PickDiag(e, now), i, now);
    }
  }

  // ------------------------------------------------------------------ callers

  lemma StartDiagKeepsInv(e: Engine, request: Request, now: nat)
    requires Inv(e) && e.running && !e.diag.active && request.key in e.paths && RequestValid(request)
    ensures Inv(StartDiag(e, request, now)) && Advances(e, StartDiag(e, request, now))
  {
    var e' := StartDiag(e, request, now);
    forall j | 0 <= j < PENDING_MAX
      ensures RecOk(e'.table.pending[j], j, e'.paths, e'.task, e'.diag, e'.async, e'.clock)
      ensures !IsDiagnostic(e.table.pending[j])
    {
      assert RecOk(e.table.pending[j], j, e.paths, e.task, e.diag, e.async, e.clock);
    }
    NoDiagnostics(e.table.pending);
    forall c | 0 <= c < CLASSES ensures AsyncOk(c, e'.async, e'.table.pending, e'.paths, e'.nextHandle) {
      assert AsyncOk(c, e.async, e.table.pending, e.paths, e.nextHandle);
    }
    AdvancesWithSamePaths(e, e');
  }

  lemma TakeDiagKeepsInv(e: Engine)
    requires Inv(e) && e.diag.completed
    ensures Inv(TakeDiag(e)) && Advances(e, TakeDiag(e))
  {
  }

  lemma SubmitKeepsInv(e: Engine, cls: nat, key: Key, timeoutUs: nat, now: nat)
    requires Inv(e) && e.running && cls < CLASSES && key in e.paths && !e.async[cls].active
    ensures Inv(Submit(e, cls, key, timeoutUs, now)) && Advances(e, Submit(e, cls, key, timeoutUs, now))
  {
    var e' := Submit(e, cls, key, timeoutUs, now);
    forall j | 0 <= j < PENDING_MAX
      ensures RecOk(e'.table.pending[j], j, e'.paths, e'.task, e'.diag, e'.async, e'.clock)
    {
      assert RecOk(e.table.pending[j], j, e.paths, e.task, e.diag, e.async, e.clock);
    }
    forall c | 0 <= c < CLASSES ensures AsyncOk(c, e'.async, e'.table.pending, e'.paths, e'.nextHandle) {
      assert AsyncOk(c, e.async, e.table.pending, e.paths, e.nextHandle);
      forall b | 0 <= b < CLASSES && e.async[b].active ensures e.async[b].handle <= e.nextHandle {
        assert AsyncOk(b, e.async, e.table.pending, e.paths, e.nextHandle);
      }
    }
    AdvancesWithSamePaths(e, e');
  }

  /** A decided slot can be cleared. */
  lemma ClearAsync(e: Engine, c: nat)
    requires Inv(e) && c < CLASSES && !Outstanding(e.async[c])
    ensures Inv(e.(async := e.async[c := NO_ASYNC])) && Advances(e, e.(async := e.async[c := NO_ASYNC]))
  {
    var e' := e.(async := e.async[c := NO_ASYNC]);
    forall j | 0 <= j < PENDING_MAX
      ensures RecOk(e'.table.pending[j], j, e'.paths, e'.task, e'.diag, e'.async, e'.clock)
    {
      assert RecOk(e.table.pending[j], j, e.paths, e.task, e.diag, e.async, e.clock);
    }
    forall b | 0 <= b < CLASSES ensures AsyncOk(b, e'.async, e'.table.pending, e'.paths, e'.nextHandle) {
      assert AsyncOk(b, e.async, e.table.pending, e.paths, e.nextHandle);
    }
    AdvancesWithSamePaths(e, e');
  }

  lemma PollKeepsInv(e: Engine, handle: nat, now: nat)
    requires Inv(e)
    ensures Inv(Poll(e, handle, now)) && Advances(e, Poll(e, handle, now))
  {
    ExpireKeepsInv(e, now);
    var e1 := Expire(e, now);
    var c := FindHandle(e1.async, handle, 0);
    if c < CLASSES && e1.async[c].state != Queued {
      ClearAsync(e1, c);
      AdvancesTransitive(e, e1, Poll(e, handle, now));
    }
  }

  lemma CancelAsyncKeepsInv(e: Engine, handle: nat)
    requires Inv(e)
    ensures Inv(CancelAsync(e, handle)) && Advances(e, CancelAsync(e, handle))
  {
    AdvancesWithSamePaths(e, e);
    var c := FindHandle(e.async, handle, 0);
    if c < CLASSES {
      DecideAsync(e, c, NO_ASYNC);
    }
  }

  // ------------------------------------------------------------------ stopping and starting

  /** Clearing the whole table while nothing can wait for it. */
  lemma ClearAll(e: Engine, e': Engine)
    requires Shape(e) && TableOk(e.table) && PathsOk(e.paths, e.nextGen, e.clock) && !Running(e.diag)
    requires ResultOk(e.diag)
    requires forall j :: 0 <= j < |e.diag.samples| ==> e.diag.samples[j].rttUs <= e.diag.request.timeoutUs
    requires e.task.Task? ==> e.task.index < PENDING_MAX
    requires e.nextSequence <= SEQUENCE_MAX
    requires e' == e.(running := e'.running, paths := e'.paths, diag := e'.diag,
                      async := seq(CLASSES, _ => NO_ASYNC), table := EndMatching(e.table, Anything(), 0, PENDING_MAX))
    requires (e'.paths == e.paths || e'.paths == map[]) && (e'.diag == e.diag || e'.diag == NO_DIAG)
    ensures Inv(e') && Advances(e, e')
  {
    EndMatchingIs(e.table, Anything(), 0, PENDING_MAX);
    EndMatchingKeeps(e.table, Anything(), 0, PENDING_MAX);
    forall k | k in e'.paths ensures PathAdvances(e, e', k) {
    }
  }

  lemma StopKeepsInv(e: Engine, status: int, now: nat)
    requires Inv(e) && status != 0
    ensures Inv(Stop(e, status, now)) && Advances(e, Stop(e, status, now))
  {
    var e0 := e.(running := true);
    CancelDiagKeepsInv(e0, status, now);
    var e1 := CancelDiag(e0, status, now);
    assert CancelDiag(e.(running := false), status, now) == e1.(running := false);
    AdvancesWithSamePaths(e, e1);
    AdvancesWithSamePaths(e1, e1.(running := false));
    ClearAll(e1.(running := false), Stop(e, status, now));
    AdvancesTransitive(e, e1, e1.(running := false));
    AdvancesTransitive(e, e1.(running := false), Stop(e, status, now));
  }

  lemma StartKeepsInv(e: Engine)
    requires Inv(e) && !e.running && !e.diag.active && e.task == NoTask
    ensures Inv(Start(e)) && Advances(e, Start(e))
  {
    ClearAll(e, Start(e));
  }
}
