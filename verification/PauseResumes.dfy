/** Which resume ends which stop. A resume is not addressed to a stop, so one that is left over
    ends the next stop before the worker has even heard of it. */
module PauseResumes {
  import opened Options
  import opened PauseProtocol

  const OneResume := (r: Request) => if r.Resume? then 1 else 0
  const OneStop := (m: Message) => if m.Paused? then 1 else 0
  const OneResuming := (f: Flight) => if f.Resuming? then 1 else 0

  function Resumes(s: State): nat { Sum(s.toMain, OneResume) }

  function Stops(s: State): nat { Sum(s.toWorker, OneStop) }

  function Resumings(s: State): nat { Sum(s.flights, OneResuming) }

  /** The stop the main thread is blocked on is in exactly one place: on the way to the worker,
      in the worker's hands, or on the way back as its resume. While the thread runs there is
      none, and no resume either. */
  predicate Paired(s: State) {
    && Resumes(s) + Stops(s) + (if s.paused then 1 else 0) == (if s.blocked then 1 else 0)
    && Resumings(s) <= (if s.paused then 1 else 0)
    && (Resumings(s) > 0 ==> s.held.None?)
  }

  /** The step does not resume a stop that is being resumed already. */
  predicate Single(s: State, a: Step) {
    match a
    case Detach(_) => !s.paused || Resumings(s) == 0
    case ResumeCommand(_, _) => !s.paused || Resumings(s) == 0
    case Disabled(_, _, _) => !s.paused || Resumings(s) == 0
    case _ => true
  }

  // ───────────── what is paired, as the reader of a state sees it ─────────────

  lemma {:induction false} NoneOf<T>(q: seq<T>, cost: T -> nat)
    ensures Sum(q, cost) == 0 <==> forall x :: x in q ==> cost(x) == 0
    decreases |q|
  {
    if q != [] {
      NoneOf(q[1..], cost);
      assert q == [q[0]] + q[1..];
    }
  }

  /** The resume that ends a stop was issued after the worker took the stop in, and no other
      resume is left behind it. */
  lemma EndedByItsOwn(s: State)
    requires Paired(s) && s.blocked && !s.closed && s.toMain != [] && s.toMain[0].Resume?
    ensures (forall m :: m in s.toWorker ==> !m.Paused?) && (forall f :: f in s.flights ==> !f.Resuming?)
    ensures !Service(s).blocked && forall r :: r in Service(s).toMain ==> !r.Resume?
  {
    assert Resumes(s) == 1 + Sum(s.toMain[1..], OneResume);
    NoneOf(s.toWorker, OneStop);
    NoneOf(s.flights, OneResuming);
    NoneOf(s.toMain[1..], OneResume);
    forall m | m in s.toWorker ensures !m.Paused? { assert OneStop(m) == 0; }
    forall f | f in s.flights ensures !f.Resuming? { assert OneResuming(f) == 0; }
    forall r | r in s.toMain[1..] ensures !r.Resume? { assert OneResume(r) == 0; }
  }

  // ───────────── steps ─────────────

  /** With no stop among them, the messages only settle calls. */
  lemma {:induction false} DrainReplies(s: State, settled: set<nat>)
    requires Stops(s) == 0
    ensures var r := DrainInbox(s, settled); r == s.(toWorker := r.toWorker, pending := r.pending) && Stops(r) == 0
    decreases |s.toWorker|
  {
    if !s.closed && s.toWorker != [] {
      var rest := s.(toWorker := s.toWorker[1..]);
      assert Stops(s) == OneStop(s.toWorker[0]) + Stops(rest);
      DrainReplies(rest.(pending := rest.pending - {s.toWorker[0].id}), settled);
    }
  }

  /** What letting a held stop go does: nothing is delivered but replies. */
  lemma LetGoIs(s: State, step: nat, settled: set<nat>)
    requires Base(s) && s.paused && !s.closed && Stops(s) == 0
    ensures var r := BeginResume(SetPaused(s.(paused := false), false, settled), step);
      && r == s.(paused := false, endpointPaused := false, active := false, pending := {}, toWorker := r.toWorker, toMain := s.toMain + [Resume(step)])
      && Stops(r) == 0 && Resumes(r) == Resumes(s) + 1
  {
    var off := s.(paused := false, endpointPaused := false, active := false);
    DrainReplies(off, settled);
    SumOne(s.toMain, Resume(step), OneResume);
  }

  lemma {:induction false} DrainPaired(s: State, settled: set<nat>)
    requires Base(s) && Paired(s)
    ensures Paired(DrainInbox(s, settled))
    decreases |s.toWorker|
  {
    if !s.closed && s.toWorker != [] {
      var rest := s.(toWorker := s.toWorker[1..]);
      assert Stops(s) == OneStop(s.toWorker[0]) + Stops(rest);
      Taken(s);
      match s.toWorker[0]
      case Reply(id) => DrainPaired(rest.(pending := rest.pending - {id}), settled);
      case Paused(serial) =>
        OnPausedPaired(rest, serial, settled);
        OnPausedBase(rest, serial, settled);
        DrainPaired(OnPaused(rest, serial, settled), settled);
    }
  }

  lemma OnPausedPaired(s: State, serial: nat, settled: set<nat>)
    requires Base(s) && !s.closed && s.blocked && Resumes(s) == Stops(s) == Resumings(s) == 0 && !s.paused
    ensures Paired(OnPaused(s, serial, settled))
    ensures |OnPaused(s, serial, settled).toWorker| == |s.toWorker|
  {
    assert s.connected ==>
      SetPaused(s.(paused := true), true, settled) == s.(paused := true, endpointPaused := true, active := true);
    assert !s.connected ==> SetPaused(s.(paused := false), false, settled) == s;
    SumOne(s.toMain, Resume(StepNone), OneResume);
  }

  lemma CallCounts(s: State, sent: bool)
    ensures Resumes(Call(s, sent).0) == Resumes(s) && Stops(Call(s, sent).0) == Stops(s)
  {
    SumOne(s.toMain, Inspect(s.nextId), OneResume);
  }

  /** A second resume of the same stop, and only that, breaks the pairing. */
  lemma DoResumePaired(s: State, step: nat, sent: bool)
    requires Paired(s)
    ensures Paired(DoResume(s, step, sent)) <==> !s.paused || Resumings(s) == 0
    ensures s.paused ==> Resumings(DoResume(s, step, sent)) == Resumings(s) + 1
  {
    if s.paused {
      var cleared := ClearPendingPaused(s);
      var (called, wait) := Call(cleared, sent);
      CallCounts(cleared, sent);
      SumOne(called.flights, Resuming(step, wait), OneResuming);
    }
  }

  lemma WithoutCounts(s: State, i: nat)
    requires i < |s.flights|
    ensures Resumings(Without(s, i)) == Resumings(s) - OneResuming(s.flights[i])
  {
    assert s.flights == s.flights[..i] + ([s.flights[i]] + s.flights[i + 1..]);
    SumConcat(s.flights[..i], [s.flights[i]] + s.flights[i + 1..], OneResuming);
    SumConcat([s.flights[i]], s.flights[i + 1..], OneResuming);
    SumConcat(s.flights[..i], s.flights[i + 1..], OneResuming);
  }

  lemma FinishPaired(s: State, i: nat, settled: set<nat>)
    requires Base(s) && !s.closed && Paired(s) && i < |s.flights| && s.flights[i].Resuming?
    ensures Paired(FinishResume(s, i, settled))
  {
    WithoutCounts(s, i);
    WithoutBase(s, i);
    LetGoIs(Without(s, i), s.flights[i].step, settled);
  }

  lemma GracePaired(s: State, settled: set<nat>)
    requires Base(s) && !s.closed && Paired(s) && s.graceTimer
    ensures Paired(GraceExpired(s, settled))
  {
    var fired := s.(graceTimer := false);
    if s.paused {
      StillTracked(s, fired.(held := None));
      LetGoIs(fired.(held := None), StepNone, settled);
    }
  }

  lemma FinishDisablePaired(s: State, i: nat, sent: bool, failed: bool)
    requires !s.closed && Paired(s) && i < |s.flights| && s.flights[i].Disabling?
    ensures Paired(FinishDisable(s, i, sent, failed)) <==> !s.paused || Resumings(s) == 0
  {
    WithoutCounts(s, i);
    if s.paused { DoResumePaired(Without(s, i), StepNone, sent); } else { CallCounts(Without(s, i), sent); }
  }

  lemma ServicePaired(s: State)
    requires !s.closed && Paired(s) && s.blocked && s.toMain != []
    ensures Paired(Service(s))
  {
    assert Resumes(s) == OneResume(s.toMain[0]) + Sum(s.toMain[1..], OneResume);
    if s.toMain[0].Inspect? { SumOne(s.toWorker, Reply(s.toMain[0].id), OneStop); }
  }

  /** On an open channel a step keeps the pairing if and only if it does not resume a stop a
      second time. */
  lemma StepPairedIff(s: State, a: Step)
    requires Inv(s) && !s.closed && Paired(s) && Possible(s, a) && !a.Close?
    ensures Paired(Do(s, a)) <==> Single(s, a)
  {
    match a
    case Stop(delivered) => SumOne(s.toWorker, Paused(s.serial + 1), OneStop);
    case Serve => ServicePaired(s);
    case Poll(settled) => DrainPaired(s, settled);
    case Settle =>
    case Grace(settled) => GracePaired(s, settled);
    case Finished(i, settled) => FinishPaired(s, i, settled);
    case Disabled(i, sent, failed) => FinishDisablePaired(s, i, sent, failed);
    case Attach =>
    case Detach(sent) => DetachPaired(s, sent);
    case Enabling(settled) =>
    case DisableCommand => SumOne(s.flights, Disabling, OneResuming);
    case ResumeCommand(step, sent) => DoResumePaired(s, step, sent);
    case OtherCommand(sent) => CallCounts(s, sent);
  }

  lemma DetachPaired(s: State, sent: bool)
    requires Paired(s)
    ensures Paired(SetConnected(s, false, sent)) <==> !s.paused || Resumings(s) == 0
  {
    DetachCleared(s, sent);
    DoResumePaired(ClearPendingPaused(s.(connected := false, enabled := false, told := None)), StepNone, sent);
  }

  // ───────────── runs ─────────────

  /** No step of the run resumes a stop a second time. */
  predicate AllSingle(s: State, steps: seq<Step>)
    decreases |steps|
  {
    steps == [] ||
    if Possible(s, steps[0]) then Single(s, steps[0]) && AllSingle(Do(s, steps[0]), steps[1..]) else AllSingle(s, steps[1..])
  }

  /** Over every run that resumes no stop twice, as long as the channel is open, every stop is
      ended by its own resume. */
  lemma {:induction false} EveryStopItsResume(s: State, steps: seq<Step>)
    requires Inv(s) && (s.closed || Paired(s)) && AllSingle(s, steps)
    ensures Run(s, steps).closed || Paired(Run(s, steps))
    decreases |steps|
  {
    if steps != [] {
      if Possible(s, steps[0]) {
        var next := Do(s, steps[0]);
        StepInv(s, steps[0]);
        if s.closed {
          if !steps[0].Close? { ClosedKept(s, steps[0]); }
        } else if !steps[0].Close? {
          StepPairedIff(s, steps[0]);
        }
        EveryStopItsResume(next, steps[1..]);
      } else {
        EveryStopItsResume(s, steps[1..]);
      }
    }
  }

  /** From the start: when a resume is about to end a stop, the worker has taken that stop in. */
  lemma FromTheStart(steps: seq<Step>)
    requires AllSingle(Start, steps)
    ensures var end := Run(Start, steps);
      end.blocked && !end.closed && end.toMain != [] && end.toMain[0].Resume? ==> forall m :: m in end.toWorker ==> !m.Paused?
  {
    var end := Run(Start, steps);
    EveryStopItsResume(Start, steps);
    if end.blocked && !end.closed && end.toMain != [] && end.toMain[0].Resume? { EndedByItsOwn(end); }
  }

  /** The condition is needed: two resume commands before the first one is through. */
  lemma SecondStopLost()
    ensures var end := Run(Start, TwiceResumed());
      end.serial == 2 && !end.blocked && !end.closed && Paused(2) in end.toWorker
  {
    TwiceHeld();
    TwiceAnswered();
    TwiceReleased();
    RunConcat(Start, Holding() + Answering(), Releasing());
    RunConcat(Start, Holding(), Answering());
  }

  function Holding(): seq<Step> { [Attach, Enabling({}), Stop(true), Poll({1}), ResumeCommand(0, true), ResumeCommand(0, true)] }

  function Answering(): seq<Step> { [Serve, Serve, Poll({})] }

  function Releasing(): seq<Step> { [Finished(0, {}), Finished(0, {}), Serve, Stop(true), Serve] }

  function TwiceResumed(): seq<Step> { Holding() + Answering() + Releasing() }

  const Held := State(true, true, true, None, false, false, true, true, false, 3, {1, 2},
    [Resuming(0, OnChannel(1)), Resuming(0, OnChannel(2))], Some(1), [Inspect(1), Inspect(2)], [], 1, true)

  const Answered := Held.(pending := {}, toMain := [])

  lemma {:induction false} RunConcat(s: State, a: seq<Step>, b: seq<Step>)
    ensures Run(s, a + b) == Run(Run(s, a), b)
    decreases |a|
  {
    if a == [] {
      assert a + b == b;
    } else {
      assert (a + b)[1..] == a[1..] + b && (a + b)[0] == a[0];
      RunConcat(if Possible(s, a[0]) then Do(s, a[0]) else s, a[1..], b);
    }
  }

  lemma RunFirst(s: State, a: Step, rest: seq<Step>)
    requires Possible(s, a)
    ensures Run(s, [a] + rest) == Run(Do(s, a), rest)
  {
    assert ([a] + rest)[1..] == rest;
  }

  const Told := State(true, true, true, None, false, false, true, true, false, 1, {}, [], Some(1), [], [], 1, true)

  lemma TwiceHeld()
    ensures Run(Start, Holding()) == Held
  {
    StopTold();
    ResumeTwice();
    RunConcat(Start, [Attach, Enabling({}), Stop(true), Poll({1})], [ResumeCommand(0, true), ResumeCommand(0, true)]);
    assert Holding() == [Attach, Enabling({}), Stop(true), Poll({1})] + [ResumeCommand(0, true), ResumeCommand(0, true)];
  }

  lemma ResumeTwice()
    ensures Run(Told, [ResumeCommand(0, true), ResumeCommand(0, true)]) == Held
  {
    var next := Told.(nextId := 2, pending := {1}, toMain := [Inspect(1)], flights := [Resuming(0, OnChannel(1))]);
    assert Do(Told, ResumeCommand(0, true)) == next;
    assert Do(next, ResumeCommand(0, true)) == Held;
    RunFirst(Told, ResumeCommand(0, true), [ResumeCommand(0, true)]);
    RunFirst(next, ResumeCommand(0, true), []);
    assert [ResumeCommand(0, true)] + [] == [ResumeCommand(0, true)];
    assert [ResumeCommand(0, true)] + [ResumeCommand(0, true)] == [ResumeCommand(0, true), ResumeCommand(0, true)];
  }

  lemma StopTold()
    ensures Run(Start, [Attach, Enabling({}), Stop(true), Poll({1})]) == Told
  {
    var s1 := Start.(connected := true);
    var s2 := s1.(enabled := true);
    var s3 := s2.(serial := 1, toWorker := [Paused(1)], blocked := true);
    assert Do(Start, Attach) == s1 && Do(s1, Enabling({})) == s2 && Do(s2, Stop(true)) == s3;
    TakeStop(s3, Told);
    RunFirst(Start, Attach, [Enabling({}), Stop(true), Poll({1})]);
    RunFirst(s1, Enabling({}), [Stop(true), Poll({1})]);
    RunFirst(s2, Stop(true), [Poll({1})]);
    RunFirst(s3, Poll({1}), []);
    assert [Attach, Enabling({}), Stop(true), Poll({1})] == [Attach] + ([Enabling({})] + ([Stop(true)] + ([Poll({1})] + [])));
  }

  lemma TakeStop(s3: State, s4: State)
    requires s3 == Start.(connected := true, enabled := true, serial := 1, toWorker := [Paused(1)], blocked := true)
    requires s4 == s3.(toWorker := [], paused := true, endpointPaused := true, active := true, told := Some(1))
    ensures Do(s3, Poll({1})) == s4
  {
    var rest := s3.(toWorker := []);
    assert s3.toWorker[1..] == [];
    assert OnPaused(rest, 1, {1}) == s4;
    assert DrainInbox(s4, {1}) == s4;
  }

  lemma TwiceAnswered()
    ensures Run(Held, Answering()) == Answered
  {
    var s1 := Held.(toMain := [Inspect(2)], toWorker := [Reply(1)]);
    var s2 := Held.(toMain := [], toWorker := [Reply(1), Reply(2)]);
    assert Do(Held, Serve) == s1 && Do(s1, Serve) == s2;
    var d := s2.(toWorker := [Reply(2)], pending := {2});
    assert s2.toWorker[1..] == [Reply(2)] && {1, 2} - {1} == {2} && {2} - {2} == {};
    assert DrainInbox(s2, {}) == DrainInbox(d, {});
    assert d.toWorker[1..] == [] && DrainInbox(d, {}) == DrainInbox(Answered, {}) == Answered;
    RunFirst(Held, Serve, [Serve, Poll({})]);
    RunFirst(s1, Serve, [Poll({})]);
    RunFirst(s2, Poll({}), []);
    assert Answering() == [Serve] + ([Serve] + ([Poll({})] + []));
  }

  const Doubled := Answered.(flights := [], paused := false, endpointPaused := false, active := false,
    toMain := [Resume(0), Resume(0)], told := None)

  lemma TwiceReleased()
    ensures var end := Run(Answered, Releasing());
      end.serial == 2 && !end.blocked && !end.closed && Paused(2) in end.toWorker
  {
    BothFinish();
    LeftOver();
    RunConcat(Answered, [Finished(0, {}), Finished(0, {})], [Serve, Stop(true), Serve]);
    assert Releasing() == [Finished(0, {}), Finished(0, {})] + [Serve, Stop(true), Serve];
  }

  lemma BothFinish()
    ensures Run(Answered, [Finished(0, {}), Finished(0, {})]) == Doubled
  {
    var s1 := Doubled.(flights := [Resuming(0, OnChannel(2))], toMain := [Resume(0)]);
    assert Answered.flights[..0] + Answered.flights[1..] == s1.flights && s1.flights[..0] + s1.flights[1..] == [];
    var off := Answered.(flights := s1.flights, paused := false, endpointPaused := false, active := false);
    assert DrainInbox(off, {}) == off;
    assert Do(Answered, Finished(0, {})) == s1;
    assert Do(s1, Finished(0, {})) == Doubled;
    RunFirst(Answered, Finished(0, {}), [Finished(0, {})]);
    RunFirst(s1, Finished(0, {}), []);
    assert [Finished(0, {})] + [Finished(0, {})] == [Finished(0, {}), Finished(0, {})];
    assert [Finished(0, {})] + [] == [Finished(0, {})];
  }

  lemma LeftOver()
    ensures var end := Run(Doubled, [Serve, Stop(true), Serve]);
      end.serial == 2 && !end.blocked && !end.closed && Paused(2) in end.toWorker
  {
    var s3 := Doubled.(toMain := [Resume(0)], blocked := false);
    var s4 := s3.(serial := 2, toWorker := [Paused(2)], blocked := true);
    var s5 := s4.(toMain := [], blocked := false);
    assert Do(Doubled, Serve) == s3 && Do(s3, Stop(true)) == s4 && Do(s4, Serve) == s5;
    RunFirst(Doubled, Serve, [Stop(true), Serve]);
    RunFirst(s3, Stop(true), [Serve]);
    RunFirst(s4, Serve, []);
    assert [Serve, Stop(true), Serve] == [Serve] + ([Stop(true)] + ([Serve] + []));
    assert Paused(2) in s5.toWorker;
  }
}
