/** The pause protocol between the debugged main thread, which blocks in its service loop,
    and the inspector worker, which holds the pause for a client. One step is one callback
    of the worker or one iteration of the main thread. */
module PauseProtocol {
  import opened Options

  /** From the main thread, in order: a stop, numbered, or the answer to an inspect call. */
  datatype Message = Paused(serial: nat) | Reply(id: nat)

  /** To the main thread, in order. */
  datatype Request = Inspect(id: nat) | Resume(step: nat)

  /** What an unfinished handler awaits: a channel call, a pipe call, or nothing any more. */
  datatype Wait = OnChannel(id: nat) | OnPipe | Failed

  /** Handlers suspended at an `await`. */
  datatype Flight = Resuming(step: nat, wait: Wait) | Disabling

  datatype State = State(
    enabled: bool, connected: bool, paused: bool,
    held: Option<nat>, settleTimer: bool, graceTimer: bool,
    endpointPaused: bool, active: bool, closed: bool,
    nextId: nat, pending: set<nat>, flights: seq<Flight>,
    told: Option<nat>,
    toMain: seq<Request>, toWorker: seq<Message>,
    serial: nat, blocked: bool)

  const Start := State(false, false, false, None, false, false, false, false, false, 1, {}, [], None, [], [], 0, false)

  const StepNone: nat := 0

  // ───────────── the worker's handlers ─────────────

  function BeginResume(s: State, step: nat): State {
    s.(toMain := s.toMain + [Resume(step)])
  }

  /** `settled`: the stops for which the settle period is already over. */
  function FlushPendingPausedSoon(s: State, settled: set<nat>): (r: State)
    ensures r == s.(held := r.held, settleTimer := r.settleTimer, told := r.told)
  {
    if s.held.None? || !s.connected || !s.enabled || s.settleTimer then s
    else if s.held.value in settled then s.(held := None, told := s.held)
    else s.(settleTimer := true)
  }

  function ClearPendingPaused(s: State): State {
    s.(held := None, graceTimer := false, settleTimer := false)
  }

  /** Keeps a stop for the client: until it enables the domain, or for a short while. */
  function Hold(s: State, serial: nat, settled: set<nat>): (r: State)
    ensures r == s.(held := r.held, settleTimer := r.settleTimer, graceTimer := r.graceTimer, told := r.told)
  {
    var held := s.(held := Some(serial));
    if !held.enabled then held.(graceTimer := true) else FlushPendingPausedSoon(held, settled)
  }

  /** A handler may run inside `DrainInbox`, and `DrainInbox` inside a handler. */
  function OnPaused(s: State, serial: nat, settled: set<nat>): (r: State)
    ensures Framed(s, r)
    decreases |s.toWorker|, 3
  {
    if !s.connected then
      BeginResume(SetPaused(s.(paused := false), false, settled), StepNone)
    else
      Hold(SetPaused(s.(paused := true), true, settled), serial, settled)
  }

  function SetPaused(s: State, v: bool, settled: set<nat>): (r: State)
    ensures Framed(s, r)
    decreases |s.toWorker|, 2
  {
    if s.endpointPaused == v then s else SetActive(s.(endpointPaused := v), v, settled)
  }

  function SetActive(s: State, v: bool, settled: set<nat>): (r: State)
    ensures Framed(s, r)
    decreases |s.toWorker|, 1
  {
    if s.closed || s.active == v then s
    else if v then s.(active := true)
    else DrainInbox(s.(active := false), settled).(pending := {})
  }

  function DrainInbox(s: State, settled: set<nat>): (r: State)
    ensures Framed(s, r)
    decreases |s.toWorker|, 0
  {
    if s.closed || s.toWorker == [] then s
    else
      var rest := s.(toWorker := s.toWorker[1..]);
      match s.toWorker[0]
      case Reply(id) => DrainInbox(rest.(pending := rest.pending - {id}), settled)
      case Paused(serial) => DrainInbox(OnPaused(rest, serial, settled), settled)
  }

  /** What delivering messages never touches. */
  predicate Framed(s: State, r: State) {
    && r.enabled == s.enabled && r.connected == s.connected && r.closed == s.closed
    && r.nextId == s.nextId && r.flights == s.flights && r.serial == s.serial && r.blocked == s.blocked
    && |r.toWorker| <= |s.toWorker| && r.pending <= s.pending && s.toMain <= r.toMain
  }

  /** An inspect call: over the channel while the endpoint is paused, else over the pipe. */
  function Call(s: State, sent: bool): (r: (State, Wait))
    ensures r.0 == s.(nextId := r.0.nextId, pending := r.0.pending, toMain := r.0.toMain)
  {
    if !s.endpointPaused then (s, OnPipe)
    else if s.closed then (s, Failed)
    else if sent then
      (s.(nextId := s.nextId + 1, pending := s.pending + {s.nextId}, toMain := s.toMain + [Inspect(s.nextId)]), OnChannel(s.nextId))
    else (s.(nextId := s.nextId + 1, pending := s.pending - {s.nextId}), Failed)
  }

  /** `doResume` up to its `await`. */
  function DoResume(s: State, step: nat, sent: bool): (r: State)
    ensures r.closed == s.closed && r.paused == s.paused && r.blocked == s.blocked && r.toWorker == s.toWorker
  {
    if !s.paused then s
    else
      var (called, wait) := Call(ClearPendingPaused(s), sent);
      called.(flights := called.flights + [Resuming(step, wait)])
  }

  function Without(s: State, i: nat): State
    requires i < |s.flights|
  {
    s.(flights := s.flights[..i] + s.flights[i + 1..])
  }

  /** The `finally` block of `doResume`. */
  function FinishResume(s: State, i: nat, settled: set<nat>): State
    requires i < |s.flights| && s.flights[i].Resuming?
  {
    var off := SetPaused(Without(s, i).(paused := false), false, settled);
    var on := BeginResume(off, s.flights[i].step);
    if on.connected then on.(told := None) else on
  }

  function Disable(s: State): State {
    var cleared := ClearPendingPaused(s.(enabled := false));
    cleared.(flights := cleared.flights + [Disabling])
  }

  /** `Debugger.disable` after its control calls, which fail only on a closed channel. */
  function FinishDisable(s: State, i: nat, sent: bool, failed: bool): State
    requires i < |s.flights| && s.flights[i].Disabling?
  {
    if s.closed && failed then Without(s, i)
    else if s.paused then DoResume(Without(s, i), StepNone, sent)
    else Call(Without(s, i), sent).0
  }

  function Enable(s: State, settled: set<nat>): State {
    FlushPendingPausedSoon(s.(graceTimer := false, enabled := true), settled)
  }

  function SetConnected(s: State, connected: bool, sent: bool): State {
    var set_ := s.(connected := connected);
    if connected then set_
    else ClearPendingPaused(DoResume(set_, StepNone, sent)).(enabled := false, told := None)
  }

  function GraceExpired(s: State, settled: set<nat>): State {
    var fired := s.(graceTimer := false);
    if !s.paused || s.enabled || s.held.None? then fired
    else BeginResume(SetPaused(fired.(held := None, paused := false), false, settled), StepNone)
  }

  function SettleExpired(s: State): State {
    var fired := s.(settleTimer := false, held := None);
    if s.held.None? || !s.connected || !s.enabled || !s.paused then fired else fired.(told := s.held)
  }

  function Dispose(s: State): State {
    if s.closed then s else s.(closed := true, pending := {})
  }

  // ───────────── the main thread ─────────────

  /** A stop is announced first; a dropped announcement must not block. */
  function Break(s: State, delivered: bool): State
    requires !s.blocked
  {
    if !delivered then s
    else s.(serial := s.serial + 1, toWorker := s.toWorker + [Paused(s.serial + 1)], blocked := true)
  }

  /** One iteration of the service loop; a closed channel ends it. */
  function Service(s: State): (r: State)
    requires s.blocked && (s.closed || s.toMain != [])
    ensures r == s.(toMain := r.toMain, toWorker := r.toWorker, blocked := r.blocked)
  {
    if s.closed then s.(blocked := false)
    else match s.toMain[0]
      case Resume(_) => s.(toMain := s.toMain[1..], blocked := false)
      case Inspect(id) => s.(toMain := s.toMain[1..], toWorker := s.toWorker + [Reply(id)])
  }

  // ───────────── runs ─────────────

  datatype Step =
    | Stop(delivered: bool) | Serve
    | Poll(settled: set<nat>) | Settle | Grace(settled: set<nat>)
    | Finished(i: nat, settled: set<nat>) | Disabled(i: nat, sent: bool, failed: bool)
    | Attach | Detach(sent: bool) | Enabling(settled: set<nat>) | DisableCommand
    | ResumeCommand(step: nat, sent: bool) | OtherCommand(sent: bool) | Close

  /** Whether the awaited call of a suspended `doResume` has settled. */
  predicate Ready(s: State, f: Flight) {
    f.Resuming? && match f.wait
      case Failed => true
      case OnChannel(id) => id !in s.pending
      case OnPipe => !s.blocked
  }

  predicate Possible(s: State, a: Step) {
    match a
    case Stop(_) => !s.blocked
    case Serve => s.blocked && (s.closed || s.toMain != [])
    case Poll(_) => true
    case Settle => s.settleTimer
    case Grace(_) => s.graceTimer
    case Finished(i, _) => i < |s.flights| && Ready(s, s.flights[i])
    case Disabled(i, _, _) => i < |s.flights| && s.flights[i].Disabling?
    case _ => true
  }

  function Do(s: State, a: Step): State
    requires Possible(s, a)
  {
    match a
    case Stop(delivered) => Break(s, delivered)
    case Serve => Service(s)
    case Poll(settled) => DrainInbox(s, settled)
    case Settle => SettleExpired(s)
    case Grace(settled) => GraceExpired(s, settled)
    case Finished(i, settled) => FinishResume(s, i, settled)
    case Disabled(i, sent, failed) => FinishDisable(s, i, sent, failed)
    case Attach => SetConnected(s, true, true)
    case Detach(sent) => SetConnected(s, false, sent)
    case Enabling(settled) => Enable(s, settled)
    case DisableCommand => Disable(s)
    case ResumeCommand(step, sent) => DoResume(s, step, sent)
    case OtherCommand(sent) => Call(s, sent).0
    case Close => Dispose(s)
  }

  /** Any interleaving: impossible steps of the list are skipped. */
  function Run(s: State, steps: seq<Step>): State
    decreases |steps|
  {
    if steps == [] then s
    else Run(if Possible(s, steps[0]) then Do(s, steps[0]) else s, steps[1..])
  }

  // ───────────── what every run keeps ─────────────

  /** Stops reach the worker in order, each once: what is held or told is older than what
      is still queued. */
  predicate Ordered(s: State) {
    && (s.told.Some? ==> s.told.value <= s.serial)
    && (s.held.Some? ==> s.held.value <= s.serial && (s.told.Some? ==> s.told.value < s.held.value))
    && (forall i :: 0 <= i < |s.toWorker| && s.toWorker[i].Paused? ==> Later(s, s.toWorker[i].serial))
    && (forall i, j :: 0 <= i < j < |s.toWorker| && s.toWorker[i].Paused? && s.toWorker[j].Paused? ==>
          s.toWorker[i].serial < s.toWorker[j].serial)
  }

  predicate Later(s: State, k: nat) {
    k <= s.serial && (s.told.Some? ==> s.told.value < k) && (s.held.Some? ==> s.held.value < k)
  }

  predicate HasResume(q: seq<Request>) {
    exists r :: r in q && r.Resume?
  }

  /** A call is outstanding only while its request or its reply is on the way. */
  predicate Tracked(s: State, id: nat) {
    id < s.nextId && (Inspect(id) in s.toMain || Reply(id) in s.toWorker)
  }

  predicate Base(s: State) {
    && s.endpointPaused == s.paused
    && (!s.closed ==> s.active == s.paused)
    && (s.settleTimer ==> s.connected && s.enabled && s.held.Some?)
    && (s.graceTimer ==> s.connected && !s.enabled && s.held.Some?)
    && Ordered(s)
    && (forall id :: id in s.pending ==> Tracked(s, id))
    && (forall f :: f in s.flights ==> !(f.Resuming? && f.wait.OnPipe?))
  }

  /** The client knows of the present stop and can end it. */
  predicate Informed(s: State) {
    s.paused && s.connected && s.enabled && s.told == Some(s.serial)
  }

  /** Somebody on the worker's side will let the stopped thread go, or tell the client. */
  predicate InCustody(s: State) {
    s.paused && (
      || (s.connected && s.enabled && s.told == Some(s.serial))
      || (s.held == Some(s.serial) && (s.settleTimer || s.graceTimer))
      || s.flights != [])
  }

  predicate NotStranded(s: State) {
    s.blocked && !s.closed ==>
      Paused(s.serial) in s.toWorker || HasResume(s.toMain) || InCustody(s)
  }

  predicate Inv(s: State) {
    Base(s) && NotStranded(s)
  }

  lemma Resumed(s: State, step: nat)
    requires Base(s)
    ensures Inv(BeginResume(s, step))
  {
    var r := BeginResume(s, step);
    assert Resume(step) in r.toMain;
    forall id | id in r.pending ensures Tracked(r, id) {
      assert Tracked(s, id);
    }
  }

  /** The state a handler works on once the message before it is off the queue. */
  lemma Taken(s: State)
    requires Base(s) && s.toWorker != []
    ensures var m := s.toWorker[0]; var rest := s.(toWorker := s.toWorker[1..]);
      && (m.Paused? ==> Base(rest) && Next(rest, m.serial))
      && (m.Reply? ==> Base(rest.(pending := rest.pending - {m.id})))
      && forall k :: Paused(k) in s.toWorker ==> m == Paused(k) || Paused(k) in rest.toWorker
  {
    forall k | Paused(k) in s.toWorker ensures s.toWorker[0] == Paused(k) || Paused(k) in s.toWorker[1..] {
      assert s.toWorker == [s.toWorker[0]] + s.toWorker[1..];
    }
    var m, rest := s.toWorker[0], s.(toWorker := s.toWorker[1..]);
    forall id | id in rest.pending && (m.Paused? || id != m.id) ensures Tracked(rest, id) {
      assert Tracked(s, id);
      assert s.toWorker == [m] + rest.toWorker;
    }
  }

  /** Stop `k` came before every stop still queued and after the ones held or told. */
  predicate Next(s: State, k: nat) {
    Later(s, k) && forall i :: 0 <= i < |s.toWorker| && s.toWorker[i].Paused? ==> k < s.toWorker[i].serial
  }

  lemma {:induction false} DrainBase(s: State, settled: set<nat>)
    requires Base(s)
    ensures Base(DrainInbox(s, settled))
    decreases |s.toWorker|, 0
  {
    if !s.closed && s.toWorker != [] {
      Taken(s);
      var rest := s.(toWorker := s.toWorker[1..]);
      match s.toWorker[0]
      case Reply(id) => DrainBase(rest.(pending := rest.pending - {id}), settled);
      case Paused(serial) =>
        OnPausedBase(rest, serial, settled);
        DrainBase(OnPaused(rest, serial, settled), settled);
    }
  }

  /** Turning the flag off, with the domain's own flag already off. */
  lemma {:induction false} SetPausedBase(s: State, v: bool, settled: set<nat>)
    requires Base(s.(endpointPaused := v, active := if s.closed then s.active else v)) && s.paused == v
    requires !s.closed ==> s.active == s.endpointPaused
    ensures Base(SetPaused(s, v, settled))
    ensures v ==> SetPaused(s, v, settled).paused
    decreases |s.toWorker|, 1
  {
    if s.endpointPaused != v && !s.closed && s.active != v && !v {
      DrainBase(s.(endpointPaused := v, active := false), settled);
    }
  }

  lemma HoldBase(s: State, serial: nat, settled: set<nat>)
    requires Base(s) && s.paused && s.connected && Next(s, serial)
    ensures Base(Hold(s, serial, settled))
    ensures serial == s.serial ==> InCustody(Hold(s, serial, settled))
  {
    var r := Hold(s, serial, settled);
    forall id | id in r.pending ensures Tracked(r, id) {
      assert Tracked(s, id);
    }
  }

  lemma {:induction false} OnPausedBase(s: State, serial: nat, settled: set<nat>)
    requires Base(s) && Next(s, serial)
    ensures Base(OnPaused(s, serial, settled))
    ensures !s.connected ==> HasResume(OnPaused(s, serial, settled).toMain)
    ensures s.connected ==> OnPaused(s, serial, settled).toMain == s.toMain
    ensures s.connected && serial == s.serial ==> InCustody(OnPaused(s, serial, settled))
    ensures s.connected ==> OnPaused(s, serial, settled).toWorker == s.toWorker
    decreases |s.toWorker|, 2
  {
    SetPausedBase(s.(paused := s.connected), s.connected, settled);
    if s.connected {
      HoldBase(SetPaused(s.(paused := true), true, settled), serial, settled);
    } else {
      Resumed(SetPaused(s.(paused := false), false, settled), StepNone);
      assert Resume(StepNone) in OnPaused(s, serial, settled).toMain;
    }
  }

  lemma {:induction false} DrainInv(s: State, settled: set<nat>)
    requires Inv(s)
    ensures Inv(DrainInbox(s, settled))
    decreases |s.toWorker|
  {
    if !s.closed && s.toWorker != [] {
      Taken(s);
      var rest := s.(toWorker := s.toWorker[1..]);
      match s.toWorker[0]
      case Reply(id) => DrainInv(rest.(pending := rest.pending - {id}), settled);
      case Paused(serial) =>
        OnPausedBase(rest, serial, settled);
        DrainInv(OnPaused(rest, serial, settled), settled);
    }
  }

  /** Turning the pause off on the way to a resume. */
  lemma LetGo(s: State, step: nat, settled: set<nat>)
    requires Base(s)
    ensures Inv(BeginResume(SetPaused(s.(paused := false), false, settled), step))
  {
    SetPausedBase(s.(paused := false), false, settled);
    Resumed(SetPaused(s.(paused := false), false, settled), step);
  }

  lemma WithoutBase(s: State, i: nat)
    requires Base(s) && i < |s.flights|
    ensures Base(Without(s, i))
  {
    var r := Without(s, i);
    forall f | f in r.flights ensures f in s.flights {
    }
    forall id | id in r.pending ensures Tracked(r, id) {
      assert Tracked(s, id);
    }
  }

  lemma FinishResumeInv(s: State, i: nat, settled: set<nat>)
    requires Inv(s) && i < |s.flights| && s.flights[i].Resuming?
    ensures Inv(FinishResume(s, i, settled))
  {
    WithoutBase(s, i);
    LetGo(Without(s, i), s.flights[i].step, settled);
    var off := SetPaused(Without(s, i).(paused := false), false, settled);
    Untold(BeginResume(off, s.flights[i].step), s.flights[i].step);
  }

  lemma Untold(s: State, step: nat)
    requires Base(s) && s.toMain != [] && s.toMain[|s.toMain| - 1] == Resume(step)
    ensures Inv(s.(told := None))
  {
    var r := s.(told := None);
    assert Resume(step) in r.toMain;
    forall id | id in r.pending ensures Tracked(r, id) {
      assert Tracked(s, id);
    }
  }

  lemma CallBase(s: State, sent: bool)
    requires Base(s)
    ensures Base(Call(s, sent).0)
    ensures s.paused ==> !Call(s, sent).1.OnPipe?
    ensures HasResume(s.toMain) ==> HasResume(Call(s, sent).0.toMain)
  {
    var r := Call(s, sent).0;
    forall id | id in r.pending ensures Tracked(r, id) {
      if id in s.pending { assert Tracked(s, id); }
    }
  }

  lemma ClearedBase(s: State)
    requires Base(s)
    ensures Base(ClearPendingPaused(s)) && Base(ClearPendingPaused(s.(enabled := false)))
    ensures Base(ClearPendingPaused(s.(connected := false, enabled := false, told := None)))
  {
    forall r: State, id | r.toMain == s.toMain && r.toWorker == s.toWorker && r.nextId == s.nextId && Tracked(s, id)
      ensures Tracked(r, id)
    {
    }
  }

  lemma DoResumeInv(s: State, step: nat, sent: bool)
    requires Base(ClearPendingPaused(s)) && (!s.paused ==> Inv(s))
    ensures Inv(DoResume(s, step, sent))
    ensures s.paused ==> DoResume(s, step, sent).flights != []
  {
    if s.paused {
      CallBase(ClearPendingPaused(s), sent);
      var (called, wait) := Call(ClearPendingPaused(s), sent);
      var r := DoResume(s, step, sent);
      forall id | id in r.pending ensures Tracked(r, id) {
        assert Tracked(called, id);
      }
    }
  }

  lemma DisableInv(s: State)
    requires Inv(s)
    ensures Inv(Disable(s))
  {
    ClearedBase(s);
    var cleared := ClearPendingPaused(s.(enabled := false));
    var r := Disable(s);
    forall id | id in r.pending ensures Tracked(r, id) {
      assert Tracked(cleared, id);
    }
  }

  lemma FinishDisableInv(s: State, i: nat, sent: bool, failed: bool)
    requires Inv(s) && i < |s.flights| && s.flights[i].Disabling?
    ensures Inv(FinishDisable(s, i, sent, failed))
  {
    WithoutBase(s, i);
    var rest := Without(s, i);
    if !(s.closed && failed) {
      if s.paused {
        ClearedBase(rest);
        DoResumeInv(rest, StepNone, sent);
      } else {
        CallBase(rest, sent);
      }
    }
  }

  lemma SetConnectedInv(s: State, connected: bool, sent: bool)
    requires Inv(s)
    ensures Inv(SetConnected(s, connected, sent))
  {
    if connected {
      StillTracked(s, s.(connected := true));
    } else {
      DetachInv(s, sent);
    }
  }

  lemma DetachInv(s: State, sent: bool)
    requires Inv(s)
    ensures Inv(SetConnected(s, false, sent))
  {
    ClearedBase(s);
    var off := ClearPendingPaused(s.(connected := false, enabled := false, told := None));
    DoResumeInv(off, StepNone, sent);
    DetachCleared(s, sent);
  }

  lemma DetachCleared(s: State, sent: bool)
    ensures SetConnected(s, false, sent) == DoResume(ClearPendingPaused(s.(connected := false, enabled := false, told := None)), StepNone, sent)
  {
  }

  lemma StillTracked(s: State, r: State)
    requires Base(s) && r.toMain == s.toMain && r.toWorker == s.toWorker && r.nextId == s.nextId && r.pending <= s.pending
    ensures forall id :: id in r.pending ==> Tracked(r, id)
  {
    forall id | id in r.pending ensures Tracked(r, id) {
      assert Tracked(s, id);
    }
  }

  lemma EnableInv(s: State, settled: set<nat>)
    requires Inv(s)
    ensures Inv(Enable(s, settled))
  {
    StillTracked(s, Enable(s, settled));
  }

  lemma TimersInv(s: State, settled: set<nat>)
    requires Inv(s)
    ensures s.settleTimer ==> Inv(SettleExpired(s))
    ensures var r := SettleExpired(s);
      && r.toMain == s.toMain && r.paused == s.paused
      && (s.held.Some? && s.connected && s.enabled && s.paused ==> r.told == s.held)
    ensures s.graceTimer ==> Inv(GraceExpired(s, settled))
    ensures var r := GraceExpired(s, settled);
      if s.paused && !s.enabled && s.held.Some? then r.toMain != [] && r.toMain[|r.toMain| - 1] == Resume(StepNone)
      else r.toMain == s.toMain && r.paused == s.paused && r.held == s.held
  {
    StillTracked(s, SettleExpired(s));
    StillTracked(s, s.(graceTimer := false));
    if s.graceTimer && s.paused {
      StillTracked(s, s.(graceTimer := false, held := None));
      LetGo(s.(graceTimer := false, held := None), StepNone, settled);
    }
  }

  lemma BreakInv(s: State, delivered: bool)
    requires Inv(s) && !s.blocked
    ensures Inv(Break(s, delivered))
  {
    var r := Break(s, delivered);
    forall id | id in r.pending ensures Tracked(r, id) {
      assert Tracked(s, id);
    }
  }

  lemma ServiceInv(s: State)
    requires Inv(s) && s.blocked && (s.closed || s.toMain != [])
    ensures Inv(Service(s))
  {
    var r := Service(s);
    forall id | id in r.pending ensures Tracked(r, id) {
      assert Tracked(s, id);
      ServiceKeeps(s, id);
    }
    AnswerOrdered(s);
    assert s.toWorker <= r.toWorker;
    assert Paused(s.serial) in s.toWorker ==> Paused(s.serial) in r.toWorker;
    if !s.closed && s.toMain[0].Inspect? && HasResume(s.toMain) {
      var x :| x in s.toMain && x.Resume?;
      assert s.toMain == [s.toMain[0]] + r.toMain && x in r.toMain;
    }
  }

  lemma AnswerOrdered(s: State)
    requires Ordered(s) && s.blocked && (s.closed || s.toMain != [])
    ensures Ordered(Service(s))
  {
    var r := Service(s);
    if s.closed || s.toMain[0].Resume? { SameOrdered(s, r); } else { AppendedOrdered(s, r, s.toMain[0].id); }
  }

  lemma SameOrdered(s: State, r: State)
    requires Ordered(s) && r.told == s.told && r.held == s.held && r.serial == s.serial && r.toWorker == s.toWorker
    ensures Ordered(r)
  {
  }

  lemma AppendedOrdered(s: State, r: State, id: nat)
    requires Ordered(s) && r.told == s.told && r.held == s.held && r.serial == s.serial && r.toWorker == s.toWorker + [Reply(id)]
    ensures Ordered(r)
  {
  }

  lemma ServiceKeeps(s: State, id: nat)
    requires s.blocked && (s.closed || s.toMain != []) && Tracked(s, id)
    ensures Tracked(Service(s), id)
  {
    if !s.closed {
      var r := Service(s);
      assert s.toMain == [s.toMain[0]] + s.toMain[1..];
      assert s.toMain[0].Inspect? ==> Reply(s.toMain[0].id) in r.toWorker;
    }
  }

  predicate ThreadOrTimer(a: Step) { a.Stop? || a.Serve? || a.Poll? || a.Settle? || a.Grace? }

  predicate Handler(a: Step) { a.Finished? || a.Disabled? || a.Attach? || a.Detach? || a.Enabling? }

  lemma ThreadStepInv(s: State, a: Step)
    requires Inv(s) && Possible(s, a) && ThreadOrTimer(a)
    ensures Inv(Do(s, a))
  {
    match a
    case Stop(delivered) => BreakInv(s, delivered);
    case Serve => ServiceInv(s);
    case Poll(settled) => DrainInv(s, settled);
    case Settle => TimersInv(s, {});
    case Grace(settled) => TimersInv(s, settled);
  }

  lemma HandlerStepInv(s: State, a: Step)
    requires Inv(s) && Possible(s, a) && Handler(a)
    ensures Inv(Do(s, a))
  {
    match a
    case Finished(i, settled) => FinishResumeInv(s, i, settled);
    case Disabled(i, sent, failed) => FinishDisableInv(s, i, sent, failed);
    case Attach => SetConnectedInv(s, true, true);
    case Detach(sent) => SetConnectedInv(s, false, sent);
    case Enabling(settled) => EnableInv(s, settled);
  }

  lemma CommandStepInv(s: State, a: Step)
    requires Inv(s) && Possible(s, a) && !ThreadOrTimer(a) && !Handler(a)
    ensures Inv(Do(s, a))
  {
    match a
    case DisableCommand => DisableInv(s);
    case ResumeCommand(step, sent) => ClearedBase(s); DoResumeInv(s, step, sent);
    case OtherCommand(sent) => CallInv(s, sent);
    case Close => DisposeInv(s);
  }

  lemma CallInv(s: State, sent: bool)
    requires Inv(s)
    ensures Inv(Call(s, sent).0)
  {
    CallBase(s, sent);
  }

  lemma DisposeInv(s: State)
    requires Inv(s)
    ensures Inv(Dispose(s))
  {
  }

  lemma StepInv(s: State, a: Step)
    requires Inv(s) && Possible(s, a)
    ensures Inv(Do(s, a))
  {
    if ThreadOrTimer(a) {
      ThreadStepInv(s, a);
    } else if Handler(a) {
      HandlerStepInv(s, a);
    } else {
      CommandStepInv(s, a);
    }
  }

  /** In every reachable state, a main thread that is blocked on an open channel is not
      stranded: its stop is still on the way to the worker, or a resume on the way back,
      or the worker holds it with an informed client, an armed timer or a handler in flight. */
  lemma {:induction false} NeverStranded(s: State, steps: seq<Step>)
    requires Inv(s)
    ensures Inv(Run(s, steps))
    decreases |steps|
  {
    if steps != [] {
      if Possible(s, steps[0]) { StepInv(s, steps[0]); }
      NeverStranded(if Possible(s, steps[0]) then Do(s, steps[0]) else s, steps[1..]);
    }
  }

  // ───────────── no stop is held for ever ─────────────

  function Sum<T>(q: seq<T>, cost: T -> nat): nat {
    if q == [] then 0 else cost(q[0]) + Sum(q[1..], cost)
  }

  lemma {:induction false} SumConcat<T>(a: seq<T>, b: seq<T>, cost: T -> nat)
    ensures Sum(a + b, cost) == Sum(a, cost) + Sum(b, cost)
  {
    if a == [] {
      assert a + b == b;
    } else {
      assert (a + b)[1..] == a[1..] + b;
      SumConcat(a[1..], b, cost);
    }
  }

  lemma SumOne<T>(q: seq<T>, x: T, cost: T -> nat)
    ensures Sum(q + [x], cost) == Sum(q, cost) + cost(x)
  {
    SumConcat(q, [x], cost);
  }

  const MessageCost := (m: Message) => if m.Paused? then 10 else 1
  const RequestCost := (r: Request) => if r.Resume? then 1 else 3
  const FlightCost := (f: Flight) => if f.Resuming? then 2 else 7

  /** Bounds the steps the worker and the main thread can take by themselves. */
  function Weight(s: State): nat {
    Sum(s.toWorker, MessageCost) + Sum(s.toMain, RequestCost) + Sum(s.flights, FlightCost)
    + (if s.settleTimer then 3 else 0) + (if s.graceTimer then 3 else 0)
  }

  lemma {:induction false} DrainWeight(s: State, settled: set<nat>)
    ensures Weight(DrainInbox(s, settled)) <= Weight(s)
    ensures !s.closed && s.toWorker != [] ==> Weight(DrainInbox(s, settled)) < Weight(s)
    decreases |s.toWorker|, 0
  {
    if !s.closed && s.toWorker != [] {
      var rest := s.(toWorker := s.toWorker[1..]);
      match s.toWorker[0]
      case Reply(id) => DrainWeight(rest.(pending := rest.pending - {id}), settled);
      case Paused(serial) =>
        OnPausedWeight(rest, serial, settled);
        DrainWeight(OnPaused(rest, serial, settled), settled);
    }
  }

  lemma {:induction false} SetPausedWeight(s: State, v: bool, settled: set<nat>)
    ensures Weight(SetPaused(s, v, settled)) <= Weight(s)
    decreases |s.toWorker|, 1
  {
    var on := s.(endpointPaused := v, active := v);
    SameWeight(s, on);
    SameWeight(s, s.(endpointPaused := v));
    if !v {
      DrainWeight(on, settled);
      SameWeight(DrainInbox(on, settled), DrainInbox(on, settled).(pending := {}));
    }
  }

  lemma SameWeight(s: State, r: State)
    requires r.toWorker == s.toWorker && r.toMain == s.toMain && r.flights == s.flights
    requires r.settleTimer == s.settleTimer && r.graceTimer == s.graceTimer
    ensures Weight(r) == Weight(s)
  {
  }

  lemma {:induction false} OnPausedWeight(s: State, serial: nat, settled: set<nat>)
    ensures Weight(OnPaused(s, serial, settled)) <= Weight(s) + 3
    decreases |s.toWorker|, 2
  {
    SetPausedWeight(s.(paused := s.connected), s.connected, settled);
    if !s.connected { ResumeWeight(SetPaused(s.(paused := false), false, settled), StepNone); }
  }

  lemma ResumeWeight(s: State, step: nat)
    ensures Weight(BeginResume(s, step)) == Weight(s) + 1
  {
    SumOne(s.toMain, Resume(step), RequestCost);
  }

  lemma WithoutWeight(s: State, i: nat)
    requires i < |s.flights|
    ensures Weight(Without(s, i)) == Weight(s) - FlightCost(s.flights[i])
  {
    assert s.flights == s.flights[..i] + ([s.flights[i]] + s.flights[i + 1..]);
    SumConcat(s.flights[..i], [s.flights[i]] + s.flights[i + 1..], FlightCost);
    SumConcat([s.flights[i]], s.flights[i + 1..], FlightCost);
    SumConcat(s.flights[..i], s.flights[i + 1..], FlightCost);
  }

  lemma CallWeight(s: State, sent: bool)
    ensures Weight(Call(s, sent).0) <= Weight(s) + 3
  {
    SumOne(s.toMain, Inspect(s.nextId), RequestCost);
  }

  lemma DoResumeWeight(s: State, step: nat, sent: bool)
    ensures Weight(DoResume(s, step, sent)) <= Weight(s) + 5
  {
    if s.paused {
      var (called, wait) := Call(ClearPendingPaused(s), sent);
      CallWeight(ClearPendingPaused(s), sent);
      SumOne(called.flights, Resuming(step, wait), FlightCost);
    }
  }

  /** Steps that need no client and no program: callbacks already due. */
  predicate Due(s: State, a: Step) {
    !s.closed && Possible(s, a) && match a
      case Poll(_) => s.toWorker != []
      case Serve => true
      case Settle => true
      case Grace(_) => true
      case Finished(_, _) => true
      case Disabled(_, _, _) => true
      case _ => false
  }

  lemma DueDecreases(s: State, a: Step)
    requires Due(s, a)
    ensures Weight(Do(s, a)) < Weight(s)
  {
    match a
    case Poll(settled) => DrainWeight(s, settled);
    case Serve => ServeWeight(s);
    case Settle => SettleWeight(s);
    case Grace(settled) => GraceWeight(s, settled);
    case Finished(i, settled) => FinishedWeight(s, i, settled);
    case Disabled(i, sent, failed) => DisabledWeight(s, i, sent, failed);
  }

  lemma DisabledWeight(s: State, i: nat, sent: bool, failed: bool)
    requires i < |s.flights| && s.flights[i].Disabling?
    ensures Weight(FinishDisable(s, i, sent, failed)) < Weight(s)
  {
    WithoutWeight(s, i);
    DoResumeWeight(Without(s, i), StepNone, sent);
    CallWeight(Without(s, i), sent);
  }

  lemma ServeWeight(s: State)
    requires s.blocked && !s.closed && s.toMain != []
    ensures Weight(Service(s)) < Weight(s)
  {
    RequestsTail(s.toMain);
    if s.toMain[0].Inspect? { ReplyWeight(s.toWorker, s.toMain[0].id); }
    QueueWeight(s, Service(s));
  }

  lemma QueueWeight(s: State, r: State)
    requires r == s.(toMain := r.toMain, toWorker := r.toWorker, blocked := r.blocked)
    ensures Weight(r) - Weight(s) == Sum(r.toWorker, MessageCost) - Sum(s.toWorker, MessageCost)
      + Sum(r.toMain, RequestCost) - Sum(s.toMain, RequestCost)
  {
  }

  lemma RequestsTail(q: seq<Request>)
    requires q != []
    ensures Sum(q, RequestCost) == Sum(q[1..], RequestCost) + if q[0].Resume? then 1 else 3
  {
  }

  lemma ReplyWeight(q: seq<Message>, id: nat)
    ensures Sum(q + [Reply(id)], MessageCost) == Sum(q, MessageCost) + 1
  {
    SumOne(q, Reply(id), MessageCost);
  }

  lemma GraceOver(s: State, r: State)
    requires s.graceTimer && r == s.(graceTimer := false, held := r.held, paused := r.paused)
    ensures Weight(r) + 3 == Weight(s)
  {
  }

  lemma SettleWeight(s: State)
    requires s.settleTimer
    ensures Weight(SettleExpired(s)) < Weight(s)
  {
  }

  lemma GraceWeight(s: State, settled: set<nat>)
    requires s.graceTimer
    ensures Weight(GraceExpired(s, settled)) < Weight(s)
  {
    var off := s.(graceTimer := false, held := None, paused := false);
    GraceOver(s, off);
    SetPausedWeight(off, false, settled);
    ResumeWeight(SetPaused(off, false, settled), StepNone);
  }

  lemma FinishedWeight(s: State, i: nat, settled: set<nat>)
    requires i < |s.flights| && s.flights[i].Resuming?
    ensures Weight(FinishResume(s, i, settled)) < Weight(s)
  {
    WithoutWeight(s, i);
    var off := Without(s, i).(paused := false);
    SameWeight(Without(s, i), off);
    SetPausedWeight(off, false, settled);
    ResumeWeight(SetPaused(off, false, settled), s.flights[i].step);
    SameWeight(BeginResume(SetPaused(off, false, settled), s.flights[i].step), FinishResume(s, i, settled));
  }

  /** As long as the stopped thread is neither released nor known to the client, something
      is due. */
  lemma SomethingDue(s: State) returns (a: Step)
    requires Inv(s) && s.blocked && !s.closed && !Informed(s)
    ensures Due(s, a)
  {
    if s.toWorker != [] { return Poll({}); }
    if s.toMain != [] { return Serve; }
    if s.settleTimer { return Settle; }
    if s.graceTimer { return Grace({}); }
    assert s.flights != [];
    var f := s.flights[0];
    assert f in s.flights;
    if f.Disabling? { return Disabled(0, true, false); }
    assert f.wait.OnChannel? && f.wait.id in s.pending ==> Tracked(s, f.wait.id);
    return Finished(0, {});
  }

  predicate AllDue(s: State, steps: seq<Step>)
    decreases |steps|
  {
    steps == [] || (Due(s, steps[0]) && AllDue(Do(s, steps[0]), steps[1..]))
  }

  /** However the callbacks that are due interleave, there are at most `Weight(s)` of them,
      and when none is left the main thread runs or the client has been told of its stop. */
  lemma {:induction false} NoStopIsHeldForEver(s: State, steps: seq<Step>)
    requires Inv(s) && !s.closed && AllDue(s, steps)
    ensures |steps| <= Weight(s)
    ensures var end := Run(s, steps);
      Inv(end) && ((forall a :: !Due(end, a)) ==> !end.blocked || Informed(end))
    decreases |steps|
  {
    if steps == [] {
      if s.blocked && !Informed(s) { var a := SomethingDue(s); }
    } else {
      DueDecreases(s, steps[0]);
      StepInv(s, steps[0]);
      ClosedKept(s, steps[0]);
      NoStopIsHeldForEver(Do(s, steps[0]), steps[1..]);
    }
  }

  /** Nothing but closing the channel changes whether it is closed. */
  lemma ClosedKept(s: State, a: Step)
    requires Possible(s, a) && !a.Close?
    ensures Do(s, a).closed == s.closed
  {
    if ThreadOrTimer(a) {
      ThreadClosedKept(s, a);
    } else if Handler(a) {
      HandlerClosedKept(s, a);
    } else {
      CommandClosedKept(s, a);
    }
  }

  lemma ThreadClosedKept(s: State, a: Step)
    requires Possible(s, a) && ThreadOrTimer(a)
    ensures Do(s, a).closed == s.closed
  {
    if a.Grace? { GraceClosedKept(s, a.settled); }
  }

  lemma HandlerClosedKept(s: State, a: Step)
    requires Possible(s, a) && Handler(a)
    ensures Do(s, a).closed == s.closed
  {
    match a
    case Finished(i, settled) => FinishClosedKept(s, i, settled);
    case Disabled(i, sent, failed) => DisableClosedKept(s, i, sent, failed);
    case Attach => ConnectClosedKept(s, true, true);
    case Detach(sent) => ConnectClosedKept(s, false, sent);
    case Enabling(settled) => EnableClosedKept(s, settled);
  }

  lemma CommandClosedKept(s: State, a: Step)
    requires !ThreadOrTimer(a) && !Handler(a) && !a.Close?
    ensures Do(s, a).closed == s.closed
  {
    if a.ResumeCommand? { ResumeClosedKept(s, a.step, a.sent); }
  }

  lemma ResumeClosedKept(s: State, step: nat, sent: bool)
    ensures DoResume(s, step, sent).closed == s.closed
  {
  }

  lemma DisableClosedKept(s: State, i: nat, sent: bool, failed: bool)
    requires i < |s.flights| && s.flights[i].Disabling?
    ensures FinishDisable(s, i, sent, failed).closed == s.closed
  {
    ResumeClosedKept(Without(s, i), StepNone, sent);
  }

  lemma ConnectClosedKept(s: State, connected: bool, sent: bool)
    ensures SetConnected(s, connected, sent).closed == s.closed
  {
  }

  lemma EnableClosedKept(s: State, settled: set<nat>)
    ensures Enable(s, settled).closed == s.closed
  {
  }

  lemma GraceClosedKept(s: State, settled: set<nat>)
    ensures GraceExpired(s, settled).closed == s.closed
  {
    var off := s.(graceTimer := false, held := None, paused := false);
    assert Framed(off, SetPaused(off, false, settled));
  }

  lemma FinishClosedKept(s: State, i: nat, settled: set<nat>)
    requires i < |s.flights| && s.flights[i].Resuming?
    ensures FinishResume(s, i, settled).closed == s.closed
  {
    var off := Without(s, i).(paused := false);
    assert Framed(off, SetPaused(off, false, settled));
  }
}
