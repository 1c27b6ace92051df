/** What makes the worker resume the main thread, and that a client who asks for nothing hears of
    every stop. */
module PauseCauses {
  import opened Options
  import opened PauseProtocol

  /** Messages of which one is a stop. */
  predicate HasStop(q: seq<Message>) {
    exists m :: m in q && m.Paused?
  }

  /** All that ever lets the thread go: a resume command, a client that leaves or disables the
      debugger, the timer for a client that does not enable it, a stop taken in without a client. */
  predicate Cause(s: State, a: Step) {
    match a
    case ResumeCommand(_, _) => true
    case Detach(_) => true
    case DisableCommand => true
    case Grace(_) => true
    case Poll(_) => !s.connected && HasStop(s.toWorker)
    case _ => false
  }

  /** No resume is on its way, and no handler that will issue one is suspended. */
  predicate NoneIssued(s: State) {
    s.flights == [] && !HasResume(s.toMain)
  }

  lemma {:induction false} DrainAsksNothing(s: State, settled: set<nat>)
    requires s.connected || !HasStop(s.toWorker)
    ensures DrainInbox(s, settled).toMain == s.toMain
    decreases |s.toWorker|
  {
    if !s.closed && s.toWorker != [] {
      var rest := s.(toWorker := s.toWorker[1..]);
      assert s.toWorker == [s.toWorker[0]] + rest.toWorker && s.toWorker[0] in s.toWorker;
      match s.toWorker[0]
      case Reply(id) => DrainAsksNothing(rest.(pending := rest.pending - {id}), settled);
      case Paused(serial) =>
        HeldAsksNothing(rest, serial, settled);
        DrainAsksNothing(OnPaused(rest, serial, settled), settled);
    }
  }

  /** With a client a stop is held or told. */
  lemma HeldAsksNothing(s: State, serial: nat, settled: set<nat>)
    requires s.connected
    ensures var r := OnPaused(s, serial, settled); r.toMain == s.toMain && r.toWorker == s.toWorker && r.connected
  {
    var flagged := s.(paused := true, endpointPaused := true);
    assert SetActive(flagged, true, settled) == if s.closed || s.active then flagged else flagged.(active := true);
    var on := SetPaused(s.(paused := true), true, settled);
    assert on == s.(paused := true, endpointPaused := on.endpointPaused, active := on.active);
    assert OnPaused(s, serial, settled) == Hold(on, serial, settled);
  }

  lemma InspectIsNoResume(q: seq<Request>, id: nat)
    ensures HasResume(q + [Inspect(id)]) <==> HasResume(q)
  {
    forall r | r in q ensures r in q + [Inspect(id)] {
    }
  }

  /** A step that is no cause issues no resume and suspends no handler. */
  lemma UncausedStep(s: State, a: Step)
    requires Base(s) && NoneIssued(s) && Possible(s, a) && !Cause(s, a)
    ensures NoneIssued(Do(s, a))
  {
    match a
    case Poll(settled) => DrainAsksNothing(s, settled);
    case Serve =>
      if !s.closed {
        assert s.toMain == [s.toMain[0]] + s.toMain[1..];
        forall r | r in s.toMain[1..] ensures r in s.toMain {
        }
      }
    case OtherCommand(sent) => InspectIsNoResume(s.toMain, s.nextId);
    case Stop(_) =>
    case Settle =>
    case Attach =>
    case Enabling(_) =>
    case Close =>
  }

  /** Over every run: when a resume is on its way, or a handler that will issue one is suspended,
      some step of the run was a cause. */
  lemma {:induction false} ResumeHasCause(s: State, steps: seq<Step>) returns (k: nat)
    requires Inv(s) && NoneIssued(s) && !NoneIssued(Run(s, steps))
    ensures k < |steps| && Possible(Run(s, steps[..k]), steps[k]) && Cause(Run(s, steps[..k]), steps[k])
    decreases |steps|
  {
    var a := steps[0];
    assert steps[..0] == [];
    if Possible(s, a) && Cause(s, a) { return 0; }
    var next := if Possible(s, a) then Do(s, a) else s;
    if Possible(s, a) {
      StepInv(s, a);
      UncausedStep(s, a);
    }
    var j := ResumeHasCause(next, steps[1..]);
    assert steps[..j + 1][0] == a && steps[..j + 1][1..] == steps[1..][..j];
    k := j + 1;
  }

  // ───────────── a client that asks for nothing ─────────────

  /** A client is attached and has enabled the debugger; nothing it asked for earlier is under way. */
  predicate Watched(s: State) {
    s.connected && s.enabled && NoneIssued(s)
  }

  /** It neither resumes nor leaves nor disables. */
  predicate AsksNothing(a: Step) { !a.ResumeCommand? && !a.Detach? && !a.DisableCommand? }

  lemma WatchedStep(s: State, a: Step)
    requires Inv(s) && Watched(s) && Possible(s, a) && AsksNothing(a)
    ensures Watched(Do(s, a))
    ensures s.blocked && !s.closed ==> Do(s, a).blocked && Do(s, a).serial == s.serial
  {
    UncausedStep(s, a);
    if a.Serve? && !s.closed { assert s.toMain[0] in s.toMain; }
  }

  /** While such a client stays, the stopped thread is not let go. */
  lemma {:induction false} StaysStopped(s: State, steps: seq<Step>)
    requires Inv(s) && Watched(s) && !s.closed
    requires forall i :: 0 <= i < |steps| ==> AsksNothing(steps[i]) && !steps[i].Close?
    ensures var end := Run(s, steps);
      Inv(end) && Watched(end) && !end.closed && (s.blocked ==> end.blocked && end.serial == s.serial)
    decreases |steps|
  {
    if steps != [] {
      var next := if Possible(s, steps[0]) then Do(s, steps[0]) else s;
      if Possible(s, steps[0]) {
        WatchedStep(s, steps[0]);
        StepInv(s, steps[0]);
        ClosedKept(s, steps[0]);
      }
      StaysStopped(next, steps[1..]);
    }
  }

  /** The callbacks that are due end with this client told of the present stop. */
  lemma {:induction false} ClientHears(s: State, steps: seq<Step>)
    requires Inv(s) && Watched(s) && !s.closed && s.blocked && AllDue(s, steps)
    ensures |steps| <= Weight(s)
    ensures var end := Run(s, steps);
      (forall a :: !Due(end, a)) ==> Informed(end) && end.blocked && end.serial == s.serial
  {
    NoStopIsHeldForEver(s, steps);
    DueStays(s, steps);
  }

  lemma {:induction false} DueStays(s: State, steps: seq<Step>)
    requires Inv(s) && Watched(s) && !s.closed && s.blocked && AllDue(s, steps)
    ensures Run(s, steps).blocked && Run(s, steps).serial == s.serial
    decreases |steps|
  {
    if steps != [] {
      WatchedStep(s, steps[0]);
      StepInv(s, steps[0]);
      ClosedKept(s, steps[0]);
      DueStays(Do(s, steps[0]), steps[1..]);
    }
  }

  // ───────────── the step a client asked for ─────────────

  /** A resume with this step is on its way, or a handler that will issue it is suspended. */
  predicate Stepping(s: State, step: nat) {
    Resume(step) in s.toMain || exists f :: f in s.flights && f.Resuming? && f.step == step
  }

  lemma {:induction false} DrainNoStep(s: State, step: nat, settled: set<nat>)
    requires step != StepNone
    ensures Resume(step) in DrainInbox(s, settled).toMain <==> Resume(step) in s.toMain
    decreases |s.toWorker|, 0
  {
    if !s.closed && s.toWorker != [] {
      var rest := s.(toWorker := s.toWorker[1..]);
      match s.toWorker[0]
      case Reply(id) => DrainNoStep(rest.(pending := rest.pending - {id}), step, settled);
      case Paused(serial) =>
        PausedNoStep(rest, serial, step, settled);
        DrainNoStep(OnPaused(rest, serial, settled), step, settled);
    }
  }

  lemma {:induction false} PausedNoStep(s: State, serial: nat, step: nat, settled: set<nat>)
    requires step != StepNone
    ensures Resume(step) in OnPaused(s, serial, settled).toMain <==> Resume(step) in s.toMain
    decreases |s.toWorker|, 2
  {
    SetPausedNoStep(s.(paused := s.connected), s.connected, step, settled);
  }

  lemma {:induction false} SetPausedNoStep(s: State, v: bool, step: nat, settled: set<nat>)
    requires step != StepNone
    ensures Resume(step) in SetPaused(s, v, settled).toMain <==> Resume(step) in s.toMain
    decreases |s.toWorker|, 1
  {
    DrainNoStep(s.(endpointPaused := v, active := false), step, settled);
  }

  lemma FlightsGained(s: State, step: nat, sent: bool, wanted: nat)
    requires wanted != step
    ensures Stepping(DoResume(s, step, sent), wanted) ==> Stepping(s, wanted)
    ensures Stepping(Call(s, sent).0, wanted) ==> Stepping(s, wanted)
  {
  }

  lemma FlightsLost(s: State, i: nat, wanted: nat)
    requires i < |s.flights|
    ensures Stepping(Without(s, i), wanted) ==> Stepping(s, wanted)
  {
  }

  lemma FinishedNoStep(s: State, i: nat, settled: set<nat>, step: nat)
    requires i < |s.flights| && s.flights[i].Resuming? && step != StepNone && !Stepping(s, step)
    ensures !Stepping(FinishResume(s, i, settled), step)
  {
    FlightsLost(s, i, step);
    SetPausedNoStep(Without(s, i).(paused := false), false, step, settled);
  }

  lemma DisabledNoStep(s: State, i: nat, sent: bool, failed: bool, step: nat)
    requires i < |s.flights| && s.flights[i].Disabling? && step != StepNone && !Stepping(s, step)
    ensures !Stepping(FinishDisable(s, i, sent, failed), step)
  {
    FlightsLost(s, i, step);
    FlightsGained(Without(s, i), StepNone, sent, step);
  }

  lemma ServeNoStep(s: State, step: nat)
    requires s.blocked && (s.closed || s.toMain != []) && !Stepping(s, step)
    ensures !Stepping(Service(s), step)
  {
    assert !s.closed ==> s.toMain == [s.toMain[0]] + s.toMain[1..];
  }

  /** Steps that neither resume nor wait. */
  lemma PlainNoStep(s: State, a: Step, step: nat)
    requires a.Stop? || a.Settle? || a.Attach? || a.Enabling? || a.DisableCommand? || a.Close?
    requires Possible(s, a) && !Stepping(s, step)
    ensures !Stepping(Do(s, a), step)
  {
    match a
    case DisableCommand =>
    case Stop(_) =>
    case Settle =>
    case Attach =>
    case Enabling(_) =>
    case Close =>
  }

  lemma TimerNoStep(s: State, settled: set<nat>, step: nat)
    requires step != StepNone && !Stepping(s, step)
    ensures !Stepping(DrainInbox(s, settled), step) && !Stepping(GraceExpired(s, settled), step)
  {
    DrainNoStep(s, step, settled);
    SetPausedNoStep(s.(graceTimer := false, held := None, paused := false), false, step, settled);
  }

  lemma DetachNoStep(s: State, sent: bool, step: nat)
    requires step != StepNone && !Stepping(s, step)
    ensures !Stepping(SetConnected(s, false, sent), step)
  {
    FlightsGained(s.(connected := false), StepNone, sent, step);
  }

  lemma SteppingStep(s: State, a: Step, step: nat)
    requires step != StepNone && Possible(s, a) && !Stepping(s, step) && !(a.ResumeCommand? && a.step == step)
    ensures !Stepping(Do(s, a), step)
  {
    match a
    case Serve => ServeNoStep(s, step);
    case Poll(settled) => TimerNoStep(s, settled, step);
    case Grace(settled) => TimerNoStep(s, settled, step);
    case Finished(i, settled) => FinishedNoStep(s, i, settled, step);
    case Disabled(i, sent, failed) => DisabledNoStep(s, i, sent, failed, step);
    case Detach(sent) => DetachNoStep(s, sent, step);
    case ResumeCommand(other, sent) => FlightsGained(s, other, sent, step);
    case OtherCommand(sent) => FlightsGained(s, StepNone, sent, step);
    case _ => PlainNoStep(s, a, step);
  }

  /** Over every run: a step other than none is one that a command of the run has asked for. */
  lemma {:induction false} StepWasAsked(s: State, steps: seq<Step>, step: nat) returns (k: nat)
    requires step != StepNone && !Stepping(s, step) && Stepping(Run(s, steps), step)
    ensures k < |steps| && steps[k].ResumeCommand? && steps[k].step == step
    decreases |steps|
  {
    var a := steps[0];
    if a.ResumeCommand? && a.step == step { return 0; }
    if Possible(s, a) { SteppingStep(s, a, step); }
    var j := StepWasAsked(if Possible(s, a) then Do(s, a) else s, steps[1..], step);
    k := j + 1;
  }

  /** And the command of a paused client is carried out: its handler sends the step it asked for. */
  lemma StepIsSent(s: State, step: nat, sent: bool, settled: set<nat>)
    requires s.paused
    ensures var r := DoResume(s, step, sent);
      var end := FinishResume(r, |r.flights| - 1, settled);
      |r.flights| == |s.flights| + 1 && end.toMain != [] && end.toMain[|end.toMain| - 1] == Resume(step)
  {
  }
}
