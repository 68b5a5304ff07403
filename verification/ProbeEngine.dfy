/** The locked operations of the Path Probe engine as functions on its state
    (path_probe_runtime.c and linkg_path_probe.c). Each one is a section the source
    runs under the Probe lock; `now` is the clock value it was given.

    Paths are keyed by peer and link: the two accesses of a peer have different links. */
module ProbeEngine {
  import opened ProbeTable
  import S = ProbeSummary

  const CLASSES: nat := 3
  const PACKETS_MAX: nat := 128
  const RTT_MAX: nat := 0xFFFF_FFFF
  const PROBE_TIMEOUT_US: nat := 300_000
  const TIMEOUT_MAX_US: nat := 10_000_000
  const WINDOW_MAX_US: nat := 60_000_000
  const MIN_GAP_US: nat := 1_000
  const GRACE_US: nat := 100_000

  const ENOENT: int := -2
  const ENODEV: int := -19
  const ENETDOWN: int := -100
  const ETIMEDOUT: int := -110
  const ESTALE: int := -116
  const ECANCELED: int := -125

  datatype Request = Request(key: Key, cls: nat, packets: nat, windowUs: nat, timeoutUs: nat)

  datatype Diag = Diag(active: bool, completed: bool, id: nat, request: Request, gen: nat, startedUs: nat,
                       nextSendUs: nat, finalUs: nat, next: nat, pendingCount: nat, samples: seq<S.Sample>,
                       status: int, result: S.Summary, completedUs: nat)

  datatype AsyncState = NoResult | Queued | Ack | Timeout | NotSent | Withdrawn

  /** `Queued` is LINKG_PATH_PROBE_ASYNC_PENDING. */
  datatype AsyncSlot = AsyncSlot(active: bool, dispatched: bool, handle: nat, key: Key, gen: nat, timeoutUs: nat,
                                 queuedUs: nat, state: AsyncState, sequence: nat, sentUs: nat, completedUs: nat,
                                   rttUs: nat)

  datatype ClassRt = ClassRt(valid: bool, reachable: bool, rttUs: nat, updatedUs: nat, latestSentUs: nat, nextUs: nat,
                             intervalUs: nat)

  datatype PathRt = PathRt(gen: nat, classes: seq<ClassRt>)

  /** The worker's send in progress. `ticket` is the reservation it was picked for. */
  datatype Task = NoTask | Task(index: nat, sequence: nat, gen: nat, key: Key, cls: nat, ticket: nat, marked: bool)

  /** `clock` is the last time the worker thread has read. */
  datatype Engine = Engine(running: bool, table: Table, diag: Diag, async: seq<AsyncSlot>, paths: map<Key, PathRt>,
                           task: Task, clock: nat, nextSequence: nat, nextGen: nat, nextDiag: nat, nextHandle: nat)

  const NO_KEY := Key(0, 0)
  const NO_ASYNC := AsyncSlot(false, false, 0, NO_KEY, 0, 0, 0, NoResult, 0, 0, 0, 0)
  const NO_DIAG := Diag(false, false, 0, Request(NO_KEY, 0, 0, 0, 0), 0, 0, 0, 0, 0, 0, [], 0, S.NO_SUMMARY, 0)

  predicate Shape(e: Engine) { |e.table.pending| == PENDING_MAX && |e.async| == CLASSES }

  predicate Running(d: Diag) { d.active && !d.completed }

  predicate Outstanding(a: AsyncSlot) { a.active && a.state == Queued }

  // ------------------------------------------------------------------ finishing a diagnostic

  function FinishDiag(e: Engine, status: int, now: nat): Engine {
    if !Running(e.diag) then e
    else e.(diag := e.diag.(completed := true, status := status, result := S.Summarise(e.diag.samples),
                            completedUs := now))
  }

  function TryFinish(e: Engine, now: nat): Engine {
    if Running(e.diag) && e.diag.next == e.diag.request.packets && e.diag.pendingCount == 0 then FinishDiag(e, 0, now)
    else e
  }

  function DiagnosticOf(id: nat): Pending -> bool {
    (p: Pending) => p.Rec? && p.kind.Diagnostic? && p.kind.id == id
  }

  function AsyncOf(handle: nat): Pending -> bool {
    (p: Pending) => p.Rec? && p.kind.Async? && p.kind.handle == handle
  }

  function OnPath(key: Key): Pending -> bool {
    (p: Pending) => p.Rec? && p.key == key
  }

  function Anything(): Pending -> bool { (p: Pending) => true }

  function SampleState(samples: seq<S.Sample>, index: nat, state: S.SampleState): seq<S.Sample> {
    if index < |samples| then samples[index := samples[index].(state := state)] else samples
  }

  /** The samples whose records in the first `k` slots are being cancelled. */
  function CancelSamples(samples: seq<S.Sample>, pending: seq<Pending>, id: nat, k: nat): (r: seq<S.Sample>)
    requires k <= |pending|
    ensures |r| == |samples|
  {
    if k == 0 then samples else
      var s := CancelSamples(samples, pending, id, k - 1);
      if DiagnosticOf(id)(pending[k - 1]) then SampleState(s, pending[k - 1].kind.index, S.Canceled) else s
  }

  function CancelDiag(e: Engine, status: int, now: nat): (r: Engine)
    requires Shape(e)
    ensures Shape(r)
  {
    if !Running(e.diag) then e else
      var samples := CancelSamples(e.diag.samples, e.table.pending, e.diag.id, PENDING_MAX);
      FinishDiag(e.(table := EndMatching(e.table, DiagnosticOf(e.diag.id), 0, PENDING_MAX),
                    diag := e.diag.(samples := samples, pendingCount := 0)), status, now)
  }

  // ------------------------------------------------------------------ completing a record

  function Rtt(now: nat, sentUs: nat): nat {
    var elapsed := if now >= sentUs then now - sentUs else 0;
    if elapsed > RTT_MAX then RTT_MAX else elapsed
  }

  function Decrement(n: nat): nat { if n != 0 then n - 1 else n }

  function SetClass(paths: map<Key, PathRt>, key: Key, cls: nat, rt: ClassRt): map<Key, PathRt>
    requires key in paths && cls < |paths[key].classes|
  {
    paths[key := paths[key].(classes := paths[key].classes[cls := rt])]
  }

  function PublishPeriodic(e: Engine, r: Pending, outcome: Outcome, now: nat): Engine
    requires r.Rec?
  {
    if r.key !in e.paths || e.paths[r.key].gen != r.gen || r.cls >= |e.paths[r.key].classes| then e else
      var rt := e.paths[r.key].classes[r.cls];
      if r.sentUs < rt.latestSentUs then e else
        e.(paths := SetClass(e.paths, r.key, r.cls,
             rt.(latestSentUs := r.sentUs, valid := outcome == Received || outcome == TimedOut,
                 reachable := outcome == Received,
                 updatedUs := now, rttUs := if outcome == Received then Rtt(now, r.sentUs) else rt.rttUs)))
  }

  function SampleOf(outcome: Outcome): S.SampleState {
    match outcome
    case Received => S.Received
    case TimedOut => S.TimedOut
    case SendFailed => S.SendFailed
    case Canceled => S.Canceled
  }

  function PublishSample(e: Engine, r: Pending, outcome: Outcome, now: nat): Engine
    requires r.Rec? && r.kind.Diagnostic?
  {
    var index := r.kind.index;
    if !Running(e.diag) || e.diag.id != r.kind.id || index >= |e.diag.samples| then e else
      var sample := e.diag.samples[index].(state := SampleOf(outcome), sentUs := r.sentUs,
                                           rttUs := if outcome == Received then Rtt(now, r.sentUs) else 0);
      e.(diag := e.diag.(samples := e.diag.samples[index := sample], pendingCount := Decrement(e.diag.pendingCount)))
  }

  function PublishAsync(e: Engine, r: Pending, outcome: Outcome, now: nat): Engine
    requires r.Rec? && r.kind.Async?
  {
    if r.cls >= |e.async| then e else
      var slot := e.async[r.cls];
      if !slot.active || slot.handle != r.kind.handle || slot.gen != r.gen || slot.state != Queued then e else
        e.(async := e.async[r.cls :=
             slot.(sentUs := if r.phase == Reserved then 0 else r.sentUs, completedUs := now, sequence := r.sequence,
                   rttUs := if outcome == Received then Rtt(now, r.sentUs) else 0,
                   state := if outcome == Received then Ack else if outcome == TimedOut then Timeout else NotSent)])
  }

  function Publish(e: Engine, r: Pending, outcome: Outcome, now: nat): (e': Engine)
    requires r.Rec?
    ensures e'.table == e.table && e'.task == e.task && |e'.async| == |e.async|
  {
    match r.kind
    case Periodic => PublishPeriodic(e, r, outcome, now)
    case Diagnostic(_, _) => PublishSample(e, r, outcome, now)
    case Async(_) => PublishAsync(e, r, outcome, now)
  }

  function Complete(e: Engine, i: nat, outcome: Outcome, now: nat): (r: Engine)
    requires Shape(e) && i < PENDING_MAX && e.table.pending[i].Rec?
    ensures Shape(r)
  {
    var published := Publish(e, e.table.pending[i], outcome, now);
    TryFinish(published.(table := End(published.table, i, outcome)), now)
  }

  // ------------------------------------------------------------------ the worker's send

  /** The record at the worker's index is still the one it reserved, as far as the code can tell. */
  predicate TaskOwns(e: Engine) {
    e.task.Task? && e.task.index < |e.table.pending| &&
    var p := e.table.pending[e.task.index];
    p.Rec? && p.sequence == e.task.sequence && p.gen == e.task.gen && p.key == e.task.key && p.cls == e.task.cls
  }

  /** mark_sending_locked: what it returns. */
  function MarkStatus(e: Engine): int
    requires Shape(e)
  {
    if !e.running || !TaskOwns(e) then ECANCELED
    else if e.task.key !in e.paths || e.paths[e.task.key].gen != e.task.gen then ESTALE
    else
      var r := e.table.pending[e.task.index];
      match r.kind
      case Periodic => 0
      case Diagnostic(id, _) => if !Running(e.diag) || e.diag.id != id then ECANCELED else 0
      case Async(handle) =>
        if r.cls >= CLASSES then ECANCELED
        else if !e.async[r.cls].active || e.async[r.cls].handle != handle || e.async[r.cls].state != Queued then
          ECANCELED
        else 0
  }

  function SendTimeout(e: Engine, r: Pending): nat
    requires Shape(e) && r.Rec?
  {
    match r.kind
    case Periodic => PROBE_TIMEOUT_US
    case Diagnostic(_, _) => e.diag.request.timeoutUs
    case Async(_) => if r.cls < CLASSES then e.async[r.cls].timeoutUs else 0
  }

  function Mark(e: Engine, now: nat): (r: Engine)
    requires Shape(e)
    ensures Shape(r)
  {
    if MarkStatus(e) != 0 then e.(clock := now) else
      var r := e.table.pending[e.task.index];
      e.(table := Rewrite(e.table, e.task.index,
                          r.(phase := Submitting, sentUs := now, deadlineUs := now + SendTimeout(e, r))),
         task := e.task.(marked := true), clock := now)
  }

  /** Send errors that end a whole diagnostic: the path is gone. */
  predicate PathLost(status: int) { status == ENOENT || status == ENODEV || status == ENETDOWN || status == ESTALE }

  function FailSend(e: Engine, status: int, now: nat): (r: Engine)
    requires Shape(e) && TaskOwns(e)
    ensures Shape(r)
  {
    var r := e.table.pending[e.task.index];
    if r.kind.Diagnostic? && PathLost(status) then
      CancelDiag(e.(table := End(e.table, e.task.index, SendFailed),
                    diag := e.diag.(samples := SampleState(e.diag.samples, r.kind.index, S.SendFailed),
                                    pendingCount := Decrement(e.diag.pendingCount))), status, now)
    else Complete(e, e.task.index, SendFailed, now)
  }

  function AcceptSend(e: Engine): (r: Engine)
    requires Shape(e) && TaskOwns(e)
    ensures Shape(r)
  {
    var r := e.table.pending[e.task.index];
    var diag := if !r.kind.Diagnostic? || r.kind.index >= |e.diag.samples| then e.diag else
                  e.diag.(samples := e.diag.samples[r.kind.index := e.diag.samples[r.kind.index].(state := S.Pending,
                                                                                                  sentUs := r.sentUs)]);
    e.(table := Rewrite(e.table, e.task.index, r.(phase := Waiting)), diag := diag, task := NoTask)
  }

  /** finish_send_locked. */
  function Finish(e: Engine, status: int, now: nat): (r: Engine)
    requires Shape(e)
    ensures Shape(r)
  {
    if !TaskOwns(e) then e.(task := NoTask)
    else if status != 0 then FailSend(e, status, now).(task := NoTask)
    else
      var i := e.task.index;
      var r := e.table.pending[i];
      var e1 := AcceptSend(e);
      if r.early.ReplyAt? then Complete(e1, i, Received, r.early.us)
      else if now >= r.deadlineUs then Complete(e1, i, TimedOut, now)
      else e1
  }

  // ------------------------------------------------------------------ replies and time

  predicate Answers(p: Pending, key: Key, cls: nat, sequence: nat) {
    p.Rec? && p.sequence == sequence && p.key == key && p.cls == cls
  }

  function FindAnswered(pending: seq<Pending>, key: Key, cls: nat, sequence: nat, from: nat): (i: nat)
    requires from <= |pending|
    ensures from <= i <= |pending|
    ensures i < |pending| ==> Answers(pending[i], key, cls, sequence)
    ensures forall j :: from <= j < i ==> !Answers(pending[j], key, cls, sequence)
    decreases |pending| - from
  {
    if from == |pending| || Answers(pending[from], key, cls, sequence) then from
    else FindAnswered(pending, key, cls, sequence, from + 1)
  }

  /** accept_reply_locked. */
  function Reply(e: Engine, key: Key, cls: nat, sequence: nat, now: nat): (r: Engine)
    requires Shape(e)
    ensures Shape(r)
  {
    var i := FindAnswered(e.table.pending, key, cls, sequence, 0);
    if i == PENDING_MAX then e else
      var r := e.table.pending[i];
      if r.phase == Reserved then e
      else if key !in e.paths || e.paths[key].gen != r.gen || now < r.sentUs || now > r.deadlineUs then e
      else if r.phase == Waiting then Complete(e, i, Received, now)
      else if r.early.NoReply? then e.(table := Rewrite(e.table, i, r.(early := ReplyAt(now))))
      else e
  }

  function ExpireUpTo(e: Engine, now: nat, k: nat): (r: Engine)
    requires Shape(e) && k <= PENDING_MAX
    ensures Shape(r)
  {
    if k == 0 then e else
      var e1 := ExpireUpTo(e, now, k - 1);
      var p := e1.table.pending[k - 1];
      if p.Rec? && p.phase == Waiting && now >= p.deadlineUs then Complete(e1, k - 1, TimedOut, now) else e1
  }

  /** expire_locked. */
  function Expire(e: Engine, now: nat): (r: Engine)
    requires Shape(e)
    ensures Shape(r)
  {
    var e1 := ExpireUpTo(e, now, PENDING_MAX);
    if Running(e1.diag) && now >= e1.diag.finalUs then CancelDiag(e1, ETIMEDOUT, now) else e1
  }

  // ------------------------------------------------------------------ paths

  function CancelAsyncPath(e: Engine, key: Key, gen: nat, now: nat, k: nat): (r: Engine)
    requires Shape(e) && k <= CLASSES
    ensures Shape(r)
  {
    if k == 0 then e else
      var e1 := CancelAsyncPath(e, key, gen, now, k - 1);
      var slot := e1.async[k - 1];
      if !slot.active || slot.key != key || slot.gen != gen then e1
      else e1.(table := EndMatching(e1.table, AsyncOf(slot.handle), ASYNC_BEGIN, PENDING_MAX),
               async := e1.async[k - 1 := slot.(state := Withdrawn, completedUs := now, rttUs := 0)])
  }

  /** remove_path_locked on an observed path. */
  function RemovePath(e: Engine, key: Key, now: nat): (r: Engine)
    requires Shape(e) && key in e.paths
    ensures Shape(r)
  {
    var e1 := if Running(e.diag) && e.diag.request.key == key then CancelDiag(e, ESTALE, now) else e;
    var e2 := CancelAsyncPath(e1, key, e.paths[key].gen, now, CLASSES);
    e2.(table := EndMatching(e2.table, OnPath(key), 0, PENDING_MAX), paths := e.paths - {key})
  }

  /** sync_path_locked on a path newly observed as active; `phases` spread the first probes. */
  function AddPath(e: Engine, key: Key, phases: seq<nat>, now: nat): Engine
    requires |phases| == CLASSES
  {
    e.(nextGen := e.nextGen + 1,
       paths := e.paths[key := PathRt(e.nextGen + 1, seq(CLASSES, c requires 0 <= c < CLASSES =>
                                      ClassRt(false, false, 0, 0, 0, now + phases[c], 1_000_000)))])
  }

  /** The policy refresh gives one class of a path a new rhythm. */
  function Repace(e: Engine, key: Key, cls: nat, intervalUs: nat, nextUs: nat): Engine {
    if key !in e.paths || cls >= |e.paths[key].classes| then e
    else e.(paths := SetClass(e.paths, key, cls,
                              e.paths[key].classes[cls].(intervalUs := intervalUs, nextUs := nextUs)))
  }

  // ------------------------------------------------------------------ picking work

  function Reserve(e: Engine, i: nat, kind: Kind, key: Key, cls: nat, gen: nat, now: nat): (r: Engine)
    requires Shape(e) && i < PENDING_MAX
    ensures Shape(r)
  {
    var sequence := Allocate(e.table.pending, e.nextSequence);
    e.(table := Add(e.table, i,
                    Rec(ProbeTable.Reserved, kind, key, cls, gen, sequence, now, 0, NoReply, e.table.tickets)),
       task := Task(i, sequence, gen, key, cls, e.table.tickets, false),
       nextSequence := sequence, clock := now)
  }

  /** A periodic probe that is due. */
  function PickPeriodic(e: Engine, key: Key, cls: nat, now: nat): (r: Engine)
    requires Shape(e) && key in e.paths && cls < |e.paths[key].classes|
    ensures Shape(r)
  {
    var rt := e.paths[key].classes[cls];
    var i := FirstFree(e.table.pending, 0, PERIODIC_END);
    if i == PERIODIC_END then
      e.(clock := now, paths := SetClass(e.paths, key, cls,
           rt.(nextUs := now + rt.intervalUs, latestSentUs := now, valid := false, reachable := false,
               updatedUs := now)))
    else
      Reserve(e.(paths := SetClass(e.paths, key, cls, rt.(nextUs := now + rt.intervalUs))), i, Periodic, key, cls,
              e.paths[key].gen, now)
  }

  /** The queued single-packet request of one class. */
  function PickAsync(e: Engine, cls: nat, now: nat): (r: Engine)
    requires Shape(e) && cls < CLASSES
    ensures Shape(r)
  {
    var slot := e.async[cls];
    if slot.key !in e.paths || e.paths[slot.key].gen != slot.gen then
      e.(clock := now, async := e.async[cls := slot.(state := Withdrawn, completedUs := now, dispatched := true)])
    else if e.table.pending[ASYNC_BEGIN + cls].Rec? then
      e.(clock := now, async := e.async[cls := slot.(state := NotSent, completedUs := now, dispatched := true)])
    else
      var e1 := Reserve(e, ASYNC_BEGIN + cls, Async(slot.handle), slot.key, cls, slot.gen, now);
      e1.(async := e1.async[cls := slot.(sequence := e1.task.sequence, dispatched := true)])
  }

  function SlotEnd(d: Diag, index: nat): nat
    requires d.request.packets > 0
  {
    d.startedUs + (index + 1) * (if d.request.packets == 1 then 0 else d.request.windowUs) / d.request.packets
  }

  /** The next sample of the diagnostic: missed slots are not caught up. */
  function PickDiag(e: Engine, now: nat): (r: Engine)
    requires Shape(e) && e.diag.request.packets > 0 && e.diag.next < |e.diag.samples|
    ensures Shape(r)
  {
    var d := e.diag;
    if d.request.key !in e.paths || e.paths[d.request.key].gen != d.gen then CancelDiag(e, ESTALE, now).(clock := now)
    else
      var index := d.next;
      var slotEnd := SlotEnd(d, index);
      var d1 := d.(next := index + 1, nextSendUs := slotEnd);
      var i := FirstFree(e.table.pending, PERIODIC_END, DIAGNOSTIC_END);
      if (d.request.packets > 1 && now >= slotEnd) || i == DIAGNOSTIC_END then
        TryFinish(e.(clock := now, diag := d1.(samples := SampleState(d1.samples, index, S.SendFailed))), now)
      else
        var e1 := Reserve(e, i, Diagnostic(d.id, index), d.request.key, d.request.cls, d.gen, now);
        e1.(diag := d1.(pendingCount := d1.pendingCount + 1,
                        samples := d1.samples[index := d1.samples[index].(sequence := e1.task.sequence,
                                                                          state := S.Reserved)]))
  }

  // ------------------------------------------------------------------ callers

  predicate RequestValid(r: Request) {
    && r.cls < CLASSES && 1 <= r.packets <= PACKETS_MAX
    && 1 <= r.timeoutUs <= TIMEOUT_MAX_US && r.windowUs <= WINDOW_MAX_US
    && (r.packets > 1 ==> r.windowUs / r.packets >= MIN_GAP_US)
  }

  /** The first locked part of linkg_path_probe_diagnose. */
  function StartDiag(e: Engine, request: Request, now: nat): Engine
    requires request.key in e.paths
  {
    var window := if request.packets == 1 then 0 else request.windowUs;
    e.(nextDiag := e.nextDiag + 1,
       diag := NO_DIAG.(active := true, request := request, id := e.nextDiag + 1, gen := e.paths[request.key].gen,
                        startedUs := now, nextSendUs := now, finalUs := now + window + request.timeoutUs + GRACE_US,
                        samples := seq(request.packets, _ => S.UNUSED_SAMPLE)))
  }

  /** Its last: the caller takes the result. */
  function TakeDiag(e: Engine): Engine { e.(diag := e.diag.(active := false)) }

  function Submit(e: Engine, cls: nat, key: Key, timeoutUs: nat, now: nat): (r: Engine)
    requires Shape(e) && cls < CLASSES && key in e.paths
    ensures Shape(r)
  {
    e.(nextHandle := e.nextHandle + 1,
       async := e.async[cls := NO_ASYNC.(active := true, handle := e.nextHandle + 1, key := key,
                                         gen := e.paths[key].gen,
                                         timeoutUs := timeoutUs, queuedUs := now, state := Queued)])
  }

  predicate Holds(slot: AsyncSlot, handle: nat) { slot.active && slot.handle == handle }

  function FindHandle(async: seq<AsyncSlot>, handle: nat, from: nat): (c: nat)
    requires from <= |async|
    ensures from <= c <= |async|
    ensures c < |async| ==> Holds(async[c], handle)
    ensures forall j :: from <= j < c ==> !Holds(async[j], handle)
    decreases |async| - from
  {
    if from == |async| || Holds(async[from], handle) then from else FindHandle(async, handle, from + 1)
  }

  /** linkg_path_probe_async_poll: a final result is handed out once. */
  function Poll(e: Engine, handle: nat, now: nat): (r: Engine)
    requires Shape(e)
    ensures Shape(r)
  {
    var e1 := Expire(e, now);
    var c := FindHandle(e1.async, handle, 0);
    if c == CLASSES || e1.async[c].state == Queued then e1 else e1.(async := e1.async[c := NO_ASYNC])
  }

  function CancelAsync(e: Engine, handle: nat): (r: Engine)
    requires Shape(e)
    ensures Shape(r)
  {
    var c := FindHandle(e.async, handle, 0);
    if c == CLASSES then e
    else e.(table := EndMatching(e.table, AsyncOf(handle), ASYNC_BEGIN, PENDING_MAX), async := e.async[c := NO_ASYNC])
  }

  /** cancel_all_locked, with `running` taken down first. */
  function Stop(e: Engine, status: int, now: nat): (r: Engine)
    requires Shape(e)
    ensures Shape(r)
  {
    var e1 := CancelDiag(e.(running := false), status, now);
    e1.(async := seq(CLASSES, _ => NO_ASYNC), table := EndMatching(e1.table, Anything(), 0, PENDING_MAX))
  }

  /** runtime_reset_locked, then running again. */
  function Start(e: Engine): (r: Engine)
    requires Shape(e)
    ensures Shape(r)
  {
    e.(running := true, paths := map[], diag := NO_DIAG, async := seq(CLASSES, _ => NO_ASYNC),
       table := EndMatching(e.table, Anything(), 0, PENDING_MAX))
  }

  /** init seeds the sequence numbers from the clock and the process id. */
  function InitialEngine(seed: nat): Engine {
    Engine(false, Table(seq(PENDING_MAX, _ => Free), 0, map[]), NO_DIAG, seq(CLASSES, _ => NO_ASYNC), map[], NoTask, 0,
           seed, 0, 0, 0)
  }
}
