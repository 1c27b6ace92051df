/** The pause protocol as the objects run it: the fields of the debugger domain, its endpoint
    and its channel client on the worker's side, and the main thread's stop and service loop. */
module PauseSession {
  import opened Options
  import opened PauseProtocol

  class Session {
    var enabled: bool
    var connected: bool
    var paused: bool
    /** The stop to announce, and the timers that will do it or let it go. */
    var held: Option<nat>
    var settleTimer: bool
    var graceTimer: bool

    var endpointPaused: bool
    var active: bool
    var closed: bool
    var nextId: nat
    var pending: set<nat>
    var flights: seq<Flight>
    /** The stop the present client was last told of and not told to forget. */
    var told: Option<nat>

    var toMain: seq<Request>
    var toWorker: seq<Message>
    var serial: nat
    var blocked: bool

    ghost function Snapshot(): State
      reads this
    {
      State(enabled, connected, paused, held, settleTimer, graceTimer, endpointPaused, active, closed,
            nextId, pending, flights, told, toMain, toWorker, serial, blocked)
    }

    constructor ()
      ensures Snapshot() == Start && Inv(Snapshot())
    {
      enabled, connected, paused := false, false, false;
      held, settleTimer, graceTimer := None, false, false;
      endpointPaused, active, closed := false, false, false;
      nextId, pending, flights, told := 1, {}, [], None;
      toMain, toWorker, serial, blocked := [], [], 0, false;
    }

    method BeginResume(step: nat)
      modifies `toMain
      ensures Snapshot() == PauseProtocol.BeginResume(old(Snapshot()), step)
    {
      toMain := toMain + [Resume(step)];
    }

    method FlushPendingPausedSoon(settled: set<nat>)
      modifies `held, `told, `settleTimer
      ensures Snapshot() == PauseProtocol.FlushPendingPausedSoon(old(Snapshot()), settled)
      ensures told != old(told) ==> connected && enabled && told == old(held) && told.value in settled
      ensures held != old(held) ==> held.None? && told == old(held)
      ensures held.Some? && connected && enabled ==> settleTimer
    {
      if held.None? || !connected || !enabled || settleTimer { return; }
      if held.value in settled {
        var announced := held;
        held := None;
        told := announced;
        return;
      }
      settleTimer := true;
    }

    method ClearPendingPaused()
      modifies `held, `graceTimer, `settleTimer
      ensures Snapshot() == PauseProtocol.ClearPendingPaused(old(Snapshot()))
    {
      held := None;
      graceTimer := false;
      settleTimer := false;
    }

    /** The three statements that end a pause, wherever the source ends one. */
    method LetGo(step: nat, settled: set<nat>)
      modifies this
      ensures Snapshot() == PauseProtocol.BeginResume(PauseProtocol.SetPaused(old(Snapshot()).(paused := false), false, settled), step)
      decreases |toWorker|, 5
    {
      paused := false;
      SetPaused(false, settled);
      BeginResume(step);
    }

    method OnPaused(stop: nat, settled: set<nat>)
      modifies this
      ensures Snapshot() == PauseProtocol.OnPaused(old(Snapshot()), stop, settled)
      ensures !connected ==> toMain != [] && toMain[|toMain| - 1] == Resume(StepNone)
      ensures connected ==> paused && (told == Some(stop) || (held == Some(stop) && (settleTimer || graceTimer)))
      decreases |toWorker|, 6
    {
      if !connected {
        LetGo(StepNone, settled);
        return;
      }
      StartPause(settled);
      Hold(stop, settled);
    }

    method StartPause(settled: set<nat>)
      modifies this
      ensures Snapshot() == PauseProtocol.SetPaused(old(Snapshot()).(paused := true), true, settled)
      ensures paused && connected == old(connected)
      decreases |toWorker|, 5
    {
      paused := true;
      SetPaused(true, settled);
    }

    method Hold(stop: nat, settled: set<nat>)
      modifies `held, `graceTimer, `told, `settleTimer
      ensures Snapshot() == PauseProtocol.Hold(old(Snapshot()), stop, settled)
      ensures connected ==> told == Some(stop) || (held == Some(stop) && (settleTimer || graceTimer))
    {
      held := Some(stop);
      if !enabled {
        graceTimer := true;
        return;
      }
      FlushPendingPausedSoon(settled);
    }

    method SetPaused(v: bool, settled: set<nat>)
      modifies this
      ensures Snapshot() == PauseProtocol.SetPaused(old(Snapshot()), v, settled)
      decreases |toWorker|, 4
    {
      if endpointPaused == v { return; }
      endpointPaused := v;
      SetActive(v, settled);
    }

    method SetActive(v: bool, settled: set<nat>)
      modifies this
      ensures Snapshot() == PauseProtocol.SetActive(old(Snapshot()), v, settled)
      decreases |toWorker|, 3
    {
      if closed || active == v { return; }
      active := v;
      if !v { DrainAndFail(settled); }
    }

    /** Takes in what has arrived and fails every other call. */
    method DrainAndFail(settled: set<nat>)
      modifies this
      ensures Snapshot() == PauseProtocol.DrainInbox(old(Snapshot()), settled).(pending := {})
      decreases |toWorker|, 2
    {
      DrainInbox(settled);
      pending := {};
    }

    method DrainInbox(settled: set<nat>)
      modifies this
      ensures Snapshot() == PauseProtocol.DrainInbox(old(Snapshot()), settled)
      decreases |toWorker|, 1
    {
      while !closed && toWorker != []
        invariant PauseProtocol.DrainInbox(Snapshot(), settled) == PauseProtocol.DrainInbox(old(Snapshot()), settled)
        invariant |toWorker| <= |old(toWorker)|
        decreases |toWorker|
      {
        TakeMessage(settled);
      }
    }

    method TakeMessage(settled: set<nat>)
      requires !closed && toWorker != []
      modifies this
      ensures PauseProtocol.DrainInbox(Snapshot(), settled) == PauseProtocol.DrainInbox(old(Snapshot()), settled)
      ensures |toWorker| < |old(toWorker)|
      decreases |toWorker|, 0
    {
      var m := toWorker[0];
      toWorker := toWorker[1..];
      match m
      case Reply(id) => pending := pending - {id};
      case Paused(stop) => OnPaused(stop, settled);
    }

    method Call(sent: bool) returns (wait: Wait)
      modifies `nextId, `pending, `toMain
      ensures (Snapshot(), wait) == PauseProtocol.Call(old(Snapshot()), sent)
    {
      if !endpointPaused { return OnPipe; }
      if closed { return Failed; }
      var id := nextId;
      nextId := nextId + 1;
      pending := pending + {id};
      if !sent {
        assert pending - {id} == old(pending) - {id};
        pending := pending - {id};
        return Failed;
      }
      toMain := toMain + [Inspect(id)];
      wait := OnChannel(id);
    }

    method DoResume(step: nat, sent: bool)
      modifies this
      ensures Snapshot() == PauseProtocol.DoResume(old(Snapshot()), step, sent)
      ensures paused ==> flights != [] && flights[|flights| - 1].Resuming? && flights[|flights| - 1].step == step
    {
      if !paused { return; }
      ClearPendingPaused();
      var wait := Call(sent);
      flights := flights + [Resuming(step, wait)];
    }

    method TakeFlight(i: nat) returns (f: Flight)
      requires i < |flights|
      modifies `flights
      ensures f == old(flights)[i] && Snapshot() == Without(old(Snapshot()), i)
    {
      f := flights[i];
      flights := flights[..i] + flights[i + 1..];
    }

    method FinishResume(i: nat, settled: set<nat>)
      requires i < |flights| && flights[i].Resuming?
      modifies this
      ensures Snapshot() == PauseProtocol.FinishResume(old(Snapshot()), i, settled)
      ensures toMain != [] && toMain[|toMain| - 1] == Resume(old(flights)[i].step)
      ensures connected ==> told.None?
    {
      var f := TakeFlight(i);
      LetGo(f.step, settled);
      if connected { told := None; }
    }

    method Enable(settled: set<nat>)
      modifies this
      ensures Snapshot() == PauseProtocol.Enable(old(Snapshot()), settled)
    {
      graceTimer := false;
      if !enabled { enabled := true; }
      FlushPendingPausedSoon(settled);
    }

    method Disable()
      modifies this
      ensures Snapshot() == PauseProtocol.Disable(old(Snapshot()))
    {
      enabled := false;
      ClearPendingPaused();
      flights := flights + [Disabling];
    }

    method FinishDisable(i: nat, sent: bool, failed: bool)
      requires i < |flights| && flights[i].Disabling?
      modifies this
      ensures Snapshot() == PauseProtocol.FinishDisable(old(Snapshot()), i, sent, failed)
      ensures old(paused) && !(closed && failed) ==> flights != [] && flights[|flights| - 1].Resuming?
    {
      var _ := TakeFlight(i);
      if closed && failed { return; }
      if paused {
        DoResume(StepNone, sent);
      } else {
        var _ := Call(sent);
      }
    }

    method SetConnected(v: bool, sent: bool)
      modifies this
      ensures Snapshot() == PauseProtocol.SetConnected(old(Snapshot()), v, sent)
      ensures !v ==> told.None? && held.None? && !settleTimer && !graceTimer && (paused ==> flights != [])
    {
      connected := v;
      if !v { Detach(sent); }
    }

    method Detach(sent: bool)
      modifies this
      ensures Snapshot() == PauseProtocol.ClearPendingPaused(PauseProtocol.DoResume(old(Snapshot()), StepNone, sent)).(enabled := false, told := None)
    {
      if paused { DoResume(StepNone, sent); }
      ClearPendingPaused();
      enabled := false;
      told := None;
    }

    method GraceExpired(settled: set<nat>)
      modifies this
      ensures Snapshot() == PauseProtocol.GraceExpired(old(Snapshot()), settled)
      ensures old(paused && !enabled && held.Some?) ==> toMain != [] && toMain[|toMain| - 1] == Resume(StepNone)
    {
      graceTimer := false;
      if !paused || enabled || held.None? { return; }
      held := None;
      LetGo(StepNone, settled);
    }

    method SettleExpired()
      modifies this
      ensures Snapshot() == PauseProtocol.SettleExpired(old(Snapshot()))
      ensures toMain == old(toMain) && paused == old(paused)
      ensures told == if old(held.Some? && connected && enabled && paused) then old(held) else old(told)
    {
      settleTimer := false;
      var announced := held;
      held := None;
      if announced.None? || !connected || !enabled || !paused { return; }
      told := announced;
    }

    method Dispose()
      modifies this
      ensures Snapshot() == PauseProtocol.Dispose(old(Snapshot()))
    {
      if closed { return; }
      closed := true;
      pending := {};
    }

    /** `onBreak`: announce the stop, then block unless the announcement was dropped. */
    method Break(delivered: bool)
      requires !blocked
      modifies this
      ensures Snapshot() == PauseProtocol.Break(old(Snapshot()), delivered)
      ensures !delivered ==> !blocked && Snapshot() == old(Snapshot())
      ensures delivered ==> blocked && serial == old(serial) + 1 && toWorker == old(toWorker) + [Paused(serial)]
    {
      if !delivered { return; }
      serial := serial + 1;
      toWorker := toWorker + [Paused(serial)];
      blocked := true;
    }

    method Service()
      requires blocked && (closed || toMain != [])
      modifies this
      ensures Snapshot() == PauseProtocol.Service(old(Snapshot()))
      ensures !blocked <==> closed || old(toMain)[0].Resume?
      ensures blocked ==> toMain == old(toMain)[1..] && toWorker == old(toWorker) + [Reply(old(toMain)[0].id)]
    {
      if closed {
        blocked := false;
        return;
      }
      var r := toMain[0];
      toMain := toMain[1..];
      match r
      case Resume(_) => blocked := false;
      case Inspect(id) => toWorker := toWorker + [Reply(id)];
    }

    method Perform(a: Step)
      requires Possible(Snapshot(), a)
      modifies this
      ensures Snapshot() == Do(old(Snapshot()), a)
      ensures Inv(old(Snapshot())) ==> Inv(Snapshot())
    {
      KeepsInv(Snapshot(), a);
      match a
      case Stop(delivered) => Break(delivered);
      case Serve => Service();
      case Poll(settled) => DrainInbox(settled);
      case Settle => SettleExpired();
      case Grace(settled) => GraceExpired(settled);
      case Finished(i, settled) => FinishResume(i, settled);
      case Disabled(i, sent, failed) => FinishDisable(i, sent, failed);
      case Attach => SetConnected(true, true);
      case Detach(sent) => SetConnected(false, sent);
      case Enabling(settled) => Enable(settled);
      case DisableCommand => Disable();
      case ResumeCommand(step, sent) => DoResume(step, sent);
      case OtherCommand(sent) => var _ := Call(sent);
      case Close => Dispose();
    }

    function Current(): State
      reads this
      ensures Current() == Snapshot()
    {
      State(enabled, connected, paused, held, settleTimer, graceTimer, endpointPaused, active, closed,
            nextId, pending, flights, told, toMain, toWorker, serial, blocked)
    }

    /** Any schedule of callbacks, commands and stops keeps every stop in somebody's hands. */
    method Play(steps: seq<Step>)
      requires Inv(Snapshot())
      modifies this
      ensures Snapshot() == Run(old(Snapshot()), steps)
      ensures Inv(Snapshot())
    {
      for k := 0 to |steps|
        invariant Run(Snapshot(), steps[k..]) == Run(old(Snapshot()), steps)
      {
        assert steps[k..][0] == steps[k] && steps[k..][1..] == steps[k + 1..];
        if Possible(Current(), steps[k]) { Perform(steps[k]); }
      }
      NeverStranded(old(Snapshot()), steps);
    }
  }

  /** No handler, whenever it may run, breaks the invariant. */
  lemma KeepsInv(s: State, a: Step)
    requires Possible(s, a)
    ensures Inv(s) ==> Inv(Do(s, a))
  {
    if Inv(s) { StepInv(s, a); }
  }
}
