/** Starting, stopping and deinitialising Path Probe while Transport callbacks and a diagnosing
    caller are inside (linkg_path_probe.c): the run token and the drain, as interleaved steps. */
module ProbeLifecycle {

  /** The one init, start, stop or deinit in progress; the lifecycle lock keeps any other out. */
  datatype Control =
    | Idle
    | Registering                     // start: running set, handler being registered
    | StartingThread                  // start: handler registered
    | RollingBack                     // start: thread failed, handler being unregistered
    | RollbackDrain                   // start: waiting for rx_users and the diagnosis
    | Unregistering                   // stop: running cleared, handler being unregistered
    | Joining                         // stop: worker being joined
    | StopDrain                       // stop: waiting for rx_users and the diagnosis

  /** A Transport thread: called with the cookie of some registration, and then perhaps admitted. */
  datatype Receiver = Away | Called(token: nat) | Inside(token: nat)

  /** The one caller that may own the diagnosis. */
  datatype Diagnosis = NoDiagnosis | Running | Completed

  datatype Probe = Probe(initialized: bool, running: bool, registered: bool, thread: bool, token: nat, rxUsers: nat,
                         diagnosis: Diagnosis, resets: nat, control: Control, receivers: seq<Receiver>)

  /** `resets` counts runtime_reset_locked, which clears every table. */
  function Reset(s: Probe): Probe {
    s.(resets := s.resets + 1)
  }

  /** cancel_all_locked completes a running diagnosis. */
  function CancelAll(s: Probe): Probe {
    s.(diagnosis := if s.diagnosis == Running then Completed else s.diagnosis)
  }

  predicate Drained(s: Probe) { s.rxUsers == 0 && s.diagnosis == NoDiagnosis }

  datatype Step =
    | InitDone
    | StartBegins
    | Registered(ok: bool)
    | ThreadStarted(ok: bool)
    | RollbackUnregistered(ok: bool)
    | RollbackDrained
    | StopBegins
    | StopUnregistered(ok: bool)
    | Joined(ok: bool)
    | StopDrained
    | Deinit
    | WorkerExits
    | CallbackBegins(i: nat, cookie: nat)
    | CallbackEnters(i: nat)
    | CallbackLeaves(i: nat)
    | DiagnoseBegins
    | DiagnoseFinishes
    | DiagnoseReturns

  predicate StartAllowed(s: Probe) {
    s.initialized && !s.running && !s.registered && !s.thread && Drained(s)
  }

  predicate DeinitAllowed(s: Probe) {
    s.initialized && !s.running && !s.registered && !s.thread && Drained(s)
  }

  predicate Enabled(s: Probe, step: Step) {
    match step
    case InitDone => s.control == Idle && !s.initialized
    case StartBegins => s.control == Idle && StartAllowed(s)
    case Registered(_) => s.control == Registering
    case ThreadStarted(_) => s.control == StartingThread
    case RollbackUnregistered(_) => s.control == RollingBack
    case RollbackDrained => s.control == RollbackDrain && Drained(s)
    case StopBegins => s.control == Idle && s.initialized
    case StopUnregistered(_) => s.control == Unregistering
    case Joined(_) => s.control == Joining
    case StopDrained => s.control == StopDrain && Drained(s)
    case Deinit => s.control == Idle && DeinitAllowed(s)
    case WorkerExits => s.thread
    // A callback may begin late, with the cookie of any registration so far.
    case CallbackBegins(i, cookie) => i < |s.receivers| && s.receivers[i].Away? && 0 < cookie <= s.token
    case CallbackEnters(i) => i < |s.receivers| && s.receivers[i].Called?
    case CallbackLeaves(i) => i < |s.receivers| && s.receivers[i].Inside?
    case DiagnoseBegins => s.initialized && s.running && s.diagnosis == NoDiagnosis
    case DiagnoseFinishes => s.diagnosis == Running
    case DiagnoseReturns => s.diagnosis == Completed
  }

  function Exec(s: Probe, step: Step): Probe
    requires Enabled(s, step)
  {
    match step
    case InitDone => Reset(s).(initialized := true, running := false)
    case StartBegins => Reset(s).(token := s.token + 1, running := true, control := Registering)
    case Registered(ok) =>
      if ok then s.(registered := true, control := StartingThread) else CancelAll(s).(running := false, control := Idle)
    case ThreadStarted(ok) =>
      if ok then s.(thread := true, control := Idle) else CancelAll(s).(running := false, control := RollingBack)
    case RollbackUnregistered(ok) => s.(registered := s.registered && !ok, control := RollbackDrain)
    case RollbackDrained => s.(control := Idle)
    case StopBegins => CancelAll(s).(running := false, control := if s.registered then Unregistering else Joining)
    case StopUnregistered(ok) => s.(registered := s.registered && !ok, control := Joining)
    case Joined(ok) => if ok then s.(thread := false, control := StopDrain) else s.(control := Idle)
    case StopDrained => Reset(s).(control := Idle)
    case Deinit => Reset(s).(initialized := false)
    case WorkerExits => CancelAll(s).(running := false)
    case CallbackBegins(i, cookie) => s.(receivers := s.receivers[i := Called(cookie)])
    case CallbackEnters(i) =>
      if s.initialized && s.running && s.receivers[i].token == s.token then
        s.(rxUsers := s.rxUsers + 1, receivers := s.receivers[i := Inside(s.token)])
      else s.(receivers := s.receivers[i := Away])
    case CallbackLeaves(i) =>
      s.(rxUsers := if s.rxUsers != 0 then s.rxUsers - 1 else 0, receivers := s.receivers[i := Away])
    case DiagnoseBegins => s.(diagnosis := Running)
    case DiagnoseFinishes => s.(diagnosis := Completed)
    case DiagnoseReturns => s.(diagnosis := NoDiagnosis)
  }

  function Booted(receivers: nat): Probe {
    Probe(false, false, false, false, 0, 0, NoDiagnosis, 0, Idle, seq(receivers, _ => Away))
  }

  predicate Run(s: Probe, steps: seq<Step>)
    decreases |steps|
  {
    steps == [] || (Enabled(s, steps[0]) && Run(Exec(s, steps[0]), steps[1..]))
  }

  function Final(s: Probe, steps: seq<Step>): Probe
    requires Run(s, steps)
    decreases |steps|
  {
    if steps == [] then s else Final(Exec(s, steps[0]), steps[1..])
  }

  // ------------------------------------------------------------------ invariant

  /** How many callbacks are inside. */
  function InsideCount(receivers: seq<Receiver>): nat {
    if receivers == [] then 0 else InsideCount(receivers[1..]) + (if receivers[0].Inside? then 1 else 0)
  }

  lemma {:induction false} CountUpdate(receivers: seq<Receiver>, i: nat, r: Receiver)
    requires i < |receivers|
    ensures InsideCount(receivers[i := r])
         == InsideCount(receivers) + (if r.Inside? then 1 else 0) - (if receivers[i].Inside? then 1 else 0)
  {
    if i == 0 {
      assert receivers[i := r][1..] == receivers[1..];
    } else {
      CountUpdate(receivers[1..], i - 1, r);
      assert receivers[i := r][1..] == receivers[1..][i - 1 := r];
    }
  }

  lemma {:induction false} CountZeroIff(receivers: seq<Receiver>)
    ensures InsideCount(receivers) == 0 <==> forall i :: 0 <= i < |receivers| ==> !receivers[i].Inside?
  {
    if receivers != [] {
      CountZeroIff(receivers[1..]);
      assert forall i :: 0 < i < |receivers| ==> receivers[i] == receivers[1..][i - 1];
    }
  }

  lemma {:induction false} CountOfNobody(n: nat)
    ensures InsideCount(seq(n, _ => Away)) == 0
  {
    CountZeroIff(seq(n, _ => Away));
  }

  /** Whoever is inside belongs to the present run and keeps the module initialised. */
  predicate CallbacksOk(s: Probe) {
    && s.rxUsers == InsideCount(s.receivers)
    && (forall i :: 0 <= i < |s.receivers| && s.receivers[i].Inside? ==>
          s.receivers[i].token == s.token && s.initialized)
  }

  predicate ControlOk(s: Probe) {
    && (s.diagnosis != NoDiagnosis || s.running || s.registered || s.thread || s.control != Idle ==> s.initialized)
    && (s.diagnosis == Running ==> s.running)
    && (s.control == Registering || s.control == StartingThread ==> !s.thread)
    && (s.control == RollingBack || s.control == RollbackDrain || s.control == StopDrain ==> !s.running && !s.thread)
    && (s.control == Unregistering || s.control == Joining ==> !s.running)
  }

  predicate Inv(s: Probe) { CallbacksOk(s) && ControlOk(s) }

  /** One receiver changes, and rx_users with it. */
  lemma ReceiverChanges(s: Probe, s': Probe, i: nat, r: Receiver)
    requires CallbacksOk(s) && i < |s.receivers| && (r.Inside? ==> r.token == s.token && s.initialized)
    requires s'.token == s.token && s'.initialized == s.initialized && s'.receivers == s.receivers[i := r]
    requires s'.rxUsers == s.rxUsers + (if r.Inside? then 1 else 0) - (if s.receivers[i].Inside? then 1 else 0)
    ensures CallbacksOk(s')
  {
    CountUpdate(s.receivers, i, r);
  }

  lemma OtherStepKeeps(s: Probe, step: Step)
    requires Inv(s) && Enabled(s, step) && !step.CallbackBegins? && !step.CallbackEnters? && !step.CallbackLeaves?
    ensures CallbacksOk(Exec(s, step))
  {
    CountZeroIff(s.receivers);
    var s' := Exec(s, step);
    assert s'.receivers == s.receivers && s'.rxUsers == s.rxUsers;
    assert (s'.token == s.token && (s.initialized ==> s'.initialized)) || s.rxUsers == 0;
  }

  lemma StepKeepsCallbacks(s: Probe, step: Step)
    requires Inv(s) && Enabled(s, step)
    ensures CallbacksOk(Exec(s, step))
  {
    CountZeroIff(s.receivers);
    match step
    case CallbackBegins(i, cookie) => ReceiverChanges(s, Exec(s, step), i, Called(cookie));
    case CallbackEnters(i) =>
      ReceiverChanges(s, Exec(s, step), i, Exec(s, step).receivers[i]);
    case CallbackLeaves(i) => ReceiverChanges(s, Exec(s, step), i, Away);
    case _ => OtherStepKeeps(s, step);
  }

  lemma StepKeepsInv(s: Probe, step: Step)
    requires Inv(s) && Enabled(s, step)
    ensures Inv(Exec(s, step))
  {
    StepKeepsCallbacks(s, step);
  }

  lemma {:induction false} RunKeepsInv(s: Probe, steps: seq<Step>)
    requires Inv(s) && Run(s, steps)
    ensures Inv(Final(s, steps))
    decreases |steps|
  {
    if steps != [] {
      StepKeepsInv(s, steps[0]);
      RunKeepsInv(Exec(s, steps[0]), steps[1..]);
    }
  }

  // ------------------------------------------------------------------ theorems

  /** In every interleaving: rx_users is exactly the callbacks inside, each of them was called
      with the token of the present run, and the packet pool they borrowed is still there. */
  lemma CallbacksAreOfThisRun(receivers: nat, steps: seq<Step>)
    requires Run(Booted(receivers), steps)
    ensures var s := Final(Booted(receivers), steps);
            && s.rxUsers == InsideCount(s.receivers)
            && forall i :: 0 <= i < |s.receivers| && s.receivers[i].Inside? ==>
                 s.receivers[i].token == s.token && s.initialized
  {
    CountOfNobody(receivers);
    CountZeroIff(Booted(receivers).receivers);
    RunKeepsInv(Booted(receivers), steps);
  }

  /** So leaving never finds rx_users at zero, and only an empty house is reset: no table is
      cleared and no new run begins while a callback or a diagnosing caller is inside. */
  lemma ResetsFindNobody(receivers: nat, steps: seq<Step>, step: Step)
    requires Run(Booted(receivers), steps) && Enabled(Final(Booted(receivers), steps), step)
    ensures var s := Final(Booted(receivers), steps); var s' := Exec(s, step);
            && (step.CallbackLeaves? ==> s.rxUsers > 0)
            && (s'.resets != s.resets || s'.token != s.token || s'.initialized != s.initialized ==>
                  s.diagnosis == NoDiagnosis && forall i :: 0 <= i < |s.receivers| ==> !s.receivers[i].Inside?)
  {
    CountOfNobody(receivers);
    CountZeroIff(Booted(receivers).receivers);
    RunKeepsInv(Booted(receivers), steps);
    CountZeroIff(Final(Booted(receivers), steps).receivers);
  }

  predicate Outdated(s: Probe, i: nat) {
    i < |s.receivers| && (s.receivers[i].Away? || (s.receivers[i].Called? && s.receivers[i].token < s.token))
  }

  lemma OutdatedStep(s: Probe, step: Step, i: nat)
    requires Outdated(s, i) && Enabled(s, step) && (step.CallbackBegins? ==> step.i != i)
    ensures Outdated(Exec(s, step), i) && !Exec(s, step).receivers[i].Inside?
  {
  }

  /** A callback that was called for an earlier registration is never inside, in no further run,
      however late it enters: it would have to be called again. */
  lemma {:induction false} OldCookieStaysOut(s: Probe, steps: seq<Step>, i: nat)
    requires Outdated(s, i) && Run(s, steps)
    requires forall k :: 0 <= k < |steps| && steps[k].CallbackBegins? ==> steps[k].i != i
    ensures i < |Final(s, steps).receivers| && !Final(s, steps).receivers[i].Inside?
    decreases |steps|
  {
    if steps != [] {
      OutdatedStep(s, steps[0], i);
      OldCookieStaysOut(Exec(s, steps[0]), steps[1..], i);
    }
  }

  /** A drain ends: once running is cleared nobody new gets in, so every further step inside
      brings the house closer to empty. */
  function Occupancy(s: Probe): nat {
    s.rxUsers + (match s.diagnosis case NoDiagnosis => 0 case Running => 2 case Completed => 1)
  }

  lemma DrainGoesDown(receivers: nat, steps: seq<Step>, step: Step)
    requires Run(Booted(receivers), steps) && Enabled(Final(Booted(receivers), steps), step)
    requires var s := Final(Booted(receivers), steps); s.control == StopDrain || s.control == RollbackDrain
    ensures var s := Final(Booted(receivers), steps);
            && Occupancy(Exec(s, step)) <= Occupancy(s)
            && (step.CallbackLeaves? || step.DiagnoseFinishes? || step.DiagnoseReturns? ==>
                  Occupancy(Exec(s, step)) < Occupancy(s))
            && (Occupancy(s) > 0 ==>
                  s.diagnosis == Completed || exists i :: 0 <= i < |s.receivers| && s.receivers[i].Inside?)
  {
    CountOfNobody(receivers);
    CountZeroIff(Booted(receivers).receivers);
    RunKeepsInv(Booted(receivers), steps);
    CountZeroIff(Final(Booted(receivers), steps).receivers);
  }
}
