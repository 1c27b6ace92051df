/** The worker's two RPC clients and the endpoint that routes between them. A promise is the
    number of its call; `settled` is what became of it. */
module RpcClients {
  import opened Options
  import opened RpcCalls

  /** What the listener does to the endpoint when it gets an event: it turns the paused mode on or
      off, makes a call that `sent` tells the fate of, or closes everything. */
  datatype Act = Turn(on: bool) | Call(sent: bool) | Close

  /** What arrives: an answer, or an event and all the listener does about it. */
  datatype Incoming<V> = Answer(id: nat, payload: Outcome<V>) | Event(acts: seq<Act>)

  /** A channel: its calls, whether it is in the paused mode, the endpoint's flag for that, and
      the native queue. */
  datatype Mode<V> = Mode(calls: Calls<V>, active: bool, paused: bool, inbox: seq<Incoming<V>>)

  // ───────────── the drain, with the listener acting inside it ─────────────

  /** After everything that has arrived is taken in, or all up to a close. */
  function Drained<V>(m: Mode<V>): (r: Mode<V>)
    ensures |r.inbox| <= |m.inbox|
    decreases |m.inbox|, 0
  {
    if m.calls.closed || m.inbox == [] then m
    else
      var rest := m.(inbox := m.inbox[1..]);
      match m.inbox[0]
      case Answer(id, payload) => Drained(rest.(calls := Receive(rest.calls, id, payload)))
      case Event(acts) => Drained(Acted(rest, acts))
  }

  function Acted<V>(m: Mode<V>, acts: seq<Act>): (r: Mode<V>)
    ensures |r.inbox| <= |m.inbox|
    decreases |m.inbox|, 4, |acts|
  {
    if acts == [] then m else Acted(ActedOnce(m, acts[0]), acts[1..])
  }

  /** A call goes to the channel in the paused mode, else to the pipe. */
  function ActedOnce<V>(m: Mode<V>, a: Act): (r: Mode<V>)
    ensures |r.inbox| <= |m.inbox|
    decreases |m.inbox|, 3
  {
    match a
    case Turn(on) => Turned(m, on)
    case Call(sent) => if m.paused then m.(calls := Send(m.calls, sent)) else m
    case Close => m.(calls := Dispose(m.calls))
  }

  function Turned<V>(m: Mode<V>, on: bool): (r: Mode<V>)
    ensures |r.inbox| <= |m.inbox|
    decreases |m.inbox|, 2
  {
    if m.paused == on then m
    else if m.calls.closed || m.active == on then m.(paused := on)
    else if on then m.(paused := true, active := true)
    else Left(m.(paused := false))
  }

  /** Leaving the paused mode takes in what has arrived and fails the rest. */
  function Left<V>(m: Mode<V>): (r: Mode<V>)
    ensures |r.inbox| <= |m.inbox|
    decreases |m.inbox|, 1
  {
    var d := Drained(m.(active := false));
    d.(calls := FailAllPending(d.calls))
  }

  ghost predicate Sound<V>(m: Mode<V>) {
    Inv(m.calls) && (!m.calls.closed ==> m.active == m.paused)
  }

  /** From one mode to a later one. */
  ghost predicate Goes<V>(m: Mode<V>, r: Mode<V>) {
    Sound(r) && Keeps(m.calls, r.calls) && (m.calls.closed ==> r.calls.closed)
  }

  lemma GoesOn<V>(m: Mode<V>, n: Mode<V>, r: Mode<V>)
    requires Goes(m, n) && Goes(n, r)
    ensures Goes(m, r)
  {
  }

  lemma {:induction false} DrainedKeeps<V>(m: Mode<V>)
    requires Sound(m)
    ensures Goes(m, Drained(m)) && (Drained(m).calls.closed || Drained(m).inbox == [])
    decreases |m.inbox|, 0
  {
    if !m.calls.closed && m.inbox != [] {
      var rest := m.(inbox := m.inbox[1..]);
      var next: Mode<V>;
      match m.inbox[0] {
        case Answer(id, payload) =>
          ReceiveStep(rest.calls, id, payload);
          next := rest.(calls := Receive(rest.calls, id, payload));
        case Event(acts) =>
          ActedKeeps(rest, acts);
          next := Acted(rest, acts);
      }
      DrainedKeeps(next);
      GoesOn(m, next, Drained(next));
    }
  }

  lemma {:induction false} ActedKeeps<V>(m: Mode<V>, acts: seq<Act>)
    requires Sound(m)
    ensures Goes(m, Acted(m, acts))
    decreases |m.inbox|, 4, |acts|
  {
    if acts != [] {
      ActedOnceKeeps(m, acts[0]);
      ActedKeeps(ActedOnce(m, acts[0]), acts[1..]);
      GoesOn(m, ActedOnce(m, acts[0]), Acted(m, acts));
    }
  }

  lemma ActedOnceKeeps<V>(m: Mode<V>, a: Act)
    requires Sound(m)
    ensures Goes(m, ActedOnce(m, a))
    decreases |m.inbox|, 3
  {
    match a
    case Turn(on) => TurnedKeeps(m, on);
    case Call(sent) => CallGoes(m, sent);
    case Close => CloseGoes(m);
  }

  lemma CallGoes<V>(m: Mode<V>, sent: bool)
    requires Sound(m)
    ensures Goes(m, m) && Goes(m, m.(calls := Send(m.calls, sent)))
  {
    SendStep(m.calls, sent);
  }

  lemma CloseGoes<V>(m: Mode<V>)
    requires Sound(m)
    ensures Goes(m, m.(calls := Dispose(m.calls)))
  {
    StepKeeps(m.calls, RpcCalls.Close);
  }

  lemma TurnedKeeps<V>(m: Mode<V>, on: bool)
    requires Sound(m)
    ensures Goes(m, Turned(m, on))
    decreases |m.inbox|, 2
  {
    if m.paused && !on && !m.calls.closed { LeftKeeps(m.(paused := false)); }
  }

  /** Whatever the listener does meanwhile, also when it turns the mode on again and calls, no
      call is left unsettled, and settled promises stay. */
  lemma {:induction false} LeftKeeps<V>(m: Mode<V>)
    requires Inv(m.calls) && !m.paused
    ensures Goes(m, Left(m)) && Left(m).calls.pending == map[]
    ensures forall c :: 0 <= c < Left(m).calls.made ==> c in Left(m).calls.settled
    decreases |m.inbox|, 1
  {
    var d := Drained(m.(active := false));
    DrainedKeeps(m.(active := false));
    FailStep(d.calls);
    AllAnswered(FailAllPending(d.calls));
    GoesOn(m, d, Left(m));
  }

  // ───────────── a reply that has arrived is not lost ─────────────

  /** The first answer to `id` in the queue, unless the listener closes everything before it. */
  function FirstAnswer<V>(inbox: seq<Incoming<V>>, id: nat): Option<Outcome<V>> {
    if inbox == [] then None
    else match inbox[0]
      case Answer(other, payload) => if other == id then Some(payload) else FirstAnswer(inbox[1..], id)
      case Event(acts) => if Act.Close in acts then None else FirstAnswer(inbox[1..], id)
  }

  predicate NoneCloses<V>(inbox: seq<Incoming<V>>) {
    forall i :: 0 <= i < |inbox| ==> inbox[i].Event? ==> Act.Close !in inbox[i].acts
  }

  /** The call has ended with its answer, or was refused if none was to come, */
  ghost predicate Ended<V>(m: Mode<V>, c: nat, w: Option<Outcome<V>>) {
    c in m.calls.settled && m.calls.settled[c] == if w.Some? then w.value else Rejected
  }

  /** or still waits, under its own id, and this is what the queue holds for it. */
  ghost predicate Waits<V>(m: Mode<V>, c: nat, id: nat, w: Option<Outcome<V>>) {
    && !m.calls.closed && Outstanding(m.calls, c) && m.calls.issued[c] == id
    && FirstAnswer(m.inbox, id) == w && (w.None? ==> NoneCloses(m.inbox))
  }

  ghost predicate Served<V>(m: Mode<V>, c: nat, id: nat, w: Option<Outcome<V>>) {
    Sound(m) && (Ended(m, c, w) || Waits(m, c, id, w))
  }

  lemma StaysEnded<V>(m: Mode<V>, r: Mode<V>, c: nat, id: nat, w: Option<Outcome<V>>)
    requires Ended(m, c, w) && Goes(m, r)
    ensures Ended(r, c, w) && Served(r, c, id, w)
  {
  }

  /** Whatever the listener turns and calls meanwhile: an outstanding call whose answer is in the
      queue gets it, and no other call gets one. */
  lemma {:induction false} ArrivedServed<V>(m: Mode<V>, c: nat, id: nat, w: Option<Outcome<V>>)
    requires Sound(m) && Waits(m, c, id, w)
    ensures Served(Drained(m), c, id, w) && (w.Some? ==> Ended(Drained(m), c, w))
    decreases |m.inbox|, 0
  {
    if m.inbox != [] {
      var rest := m.(inbox := m.inbox[1..]);
      var next: Mode<V>;
      match m.inbox[0] {
        case Answer(other, payload) =>
          next := rest.(calls := Receive(rest.calls, other, payload));
          AnswerServed(rest, other, payload, c, id, w);
        case Event(acts) =>
          next := Acted(rest, acts);
          ActsServed(rest, acts, c, id, w);
      }
      DrainedKeeps(next);
      if Ended(next, c, w) { StaysEnded(next, Drained(m), c, id, w); } else { ArrivedServed(next, c, id, w); }
    }
  }

  lemma AnswerServed<V>(m: Mode<V>, other: nat, payload: Outcome<V>, c: nat, id: nat, w: Option<Outcome<V>>)
    requires Sound(m) && !m.calls.closed && Outstanding(m.calls, c) && m.calls.issued[c] == id
    requires w == if other == id then Some(payload) else FirstAnswer(m.inbox, id)
    requires w.None? ==> NoneCloses(m.inbox)
    ensures Served(m.(calls := Receive(m.calls, other, payload)), c, id, w)
    ensures other == id ==> Ended(m.(calls := Receive(m.calls, other, payload)), c, w)
  {
    ReceiveStep(m.calls, other, payload);
    OneStep(m.calls, Reply(other, payload), c);
    assert [Reply(other, payload)][1..] == [];
    assert Fate([Reply(other, payload)], id) == if other == id then Some(payload) else None;
  }

  lemma {:induction false} ActsServed<V>(m: Mode<V>, acts: seq<Act>, c: nat, id: nat, w: Option<Outcome<V>>)
    requires Served(m, c, id, w) && Act.Close !in acts
    ensures Served(Acted(m, acts), c, id, w)
    decreases |m.inbox|, 4, |acts|
  {
    if acts != [] {
      var next := ActedOnce(m, acts[0]);
      ActedOnceKeeps(m, acts[0]);
      if Ended(m, c, w) { StaysEnded(m, next, c, id, w); } else { ActServed(m, acts[0], c, id, w); }
      ActsServed(next, acts[1..], c, id, w);
    }
  }

  lemma ActServed<V>(m: Mode<V>, a: Act, c: nat, id: nat, w: Option<Outcome<V>>)
    requires Sound(m) && Waits(m, c, id, w) && a != Act.Close
    ensures Served(ActedOnce(m, a), c, id, w)
    decreases |m.inbox|, 3
  {
    ActedOnceKeeps(m, a);
    match a
    case Turn(on) =>
      if m.paused && !on { LeftServed(m.(paused := false), c, id, w); }
    case Call(sent) =>
      OneStep(m.calls, Sending(sent), c);
  }

  /** Leaving the paused mode fails what has no answer yet, and only that. */
  lemma LeftServed<V>(m: Mode<V>, c: nat, id: nat, w: Option<Outcome<V>>)
    requires Inv(m.calls) && !m.paused && Waits(m, c, id, w)
    ensures Sound(Left(m)) && Ended(Left(m), c, w)
    decreases |m.inbox|, 1
  {
    var off := m.(active := false);
    ArrivedServed(off, c, id, w);
    DrainedKeeps(off);
    LeftKeeps(m);
    FailStep(Drained(off).calls);
    if !Ended(Drained(off), c, w) { OneStep(Drained(off).calls, Leave, c); }
  }

  /** What one message of the pipe does to its calls. Nothing of the pipe's is left to do behind
      the listener, so what that does is calls of its own. */
  function Delivered<V>(s: Calls<V>, m: Incoming<V>): Calls<V> {
    match m
    case Answer(id, payload) => Receive(s, id, payload)
    case Event(_) => s
  }

  // ───────────── the clients ─────────────

  class ChannelClient<V> {
    var nextId: nat
    var pending: map<nat, nat>
    var active: bool
    var closed: bool
    /** The native queue. */
    var inbox: seq<Incoming<V>>
    /** The endpoint's flag. The listener turns it, and the channel with it, from inside a drain. */
    var paused: bool
    var made: nat
    var settled: map<nat, Outcome<V>>
    ghost var issued: map<nat, nat>

    ghost function Snapshot(): Calls<V>
      reads this
    {
      Calls(nextId, pending, closed, made, issued, settled)
    }

    ghost function State(): Mode<V>
      reads this
    {
      Mode(Snapshot(), active, paused, inbox)
    }

    constructor ()
      ensures Sound(State()) && !closed && !active && !paused && made == 0 && inbox == []
    {
      nextId, pending, active, closed, made := 1, map[], false, false, 0;
      inbox, paused := [], false;
      settled, issued := map[], map[];
    }

    method Send(sent: bool) returns (call: nat)
      modifies this
      ensures State() == old(State()).(calls := RpcCalls.Send(old(Snapshot()), sent))
      ensures call == old(made)
      ensures if closed || !sent then call in settled && settled[call] == Rejected && pending.Keys <= old(pending).Keys
        else pending == old(pending)[old(nextId) := call] && settled == old(settled)
    {
      call := made;
      made := made + 1;
      if closed {
        settled := settled[call := Rejected];
        return;
      }
      var id := nextId;
      nextId := nextId + 1;
      issued := issued[call := id];
      pending := pending[id := call];
      if !sent {
        assert pending - {id} == old(pending) - {id};
        pending := pending - {id};
        settled := settled[call := Rejected];
      }
    }

    method FailAllPending()
      requires Inv(Snapshot())
      modifies `pending, `settled
      ensures State() == old(State()).(calls := RpcCalls.FailAllPending(old(Snapshot()))) && Inv(Snapshot())
    {
      FailStep(Snapshot());
      settled := settled + (map c | c in pending.Values :: Rejected);
      pending := map[];
    }

    /** Receives until the native queue is empty or the channel closed. An event may turn the
        channel off and on; the drain that this starts takes the rest of the queue. */
    method DrainInbox()
      requires Sound(State())
      modifies this
      ensures State() == Drained(old(State())) && Sound(State()) && (closed || inbox == [])
      decreases |inbox|, 1
    {
      while !closed && inbox != []
        invariant Sound(State()) && |inbox| <= |old(inbox)|
        invariant Drained(State()) == Drained(old(State()))
        decreases |inbox|
      {
        TakeNext();
      }
    }

    method TakeNext()
      requires Sound(State()) && !closed && inbox != []
      modifies this
      ensures Sound(State()) && |inbox| < |old(inbox)|
      ensures Drained(State()) == Drained(old(State()))
      decreases |inbox|, 0
    {
      var m := inbox[0];
      inbox := inbox[1..];
      match m
      case Answer(id, payload) => Settle(id, payload);
      case Event(acts) => Listen(acts);
    }

    method Settle(id: nat, payload: Outcome<V>)
      requires Inv(Snapshot())
      modifies `pending, `settled
      ensures Inv(Snapshot()) && State() == old(State()).(calls := Receive(old(Snapshot()), id, payload))
    {
      ReceiveStep(Snapshot(), id, payload);
      if id in pending {
        settled := settled[pending[id] := payload];
        pending := pending - {id};
      }
      assert Snapshot() == Receive(old(Snapshot()), id, payload);
    }

    /** The listener, called from inside the drain. */
    method Listen(acts: seq<Act>)
      requires Sound(State())
      modifies this
      ensures State() == Acted(old(State()), acts) && Sound(State())
      decreases |inbox|, 6
    {
      var i := 0;
      while i < |acts|
        invariant 0 <= i <= |acts| && Sound(State()) && |inbox| <= |old(inbox)|
        invariant Acted(State(), acts[i..]) == Acted(old(State()), acts)
      {
        assert acts[i..][1..] == acts[i + 1..];
        ListenOnce(acts[i]);
        i := i + 1;
      }
    }

    method ListenOnce(a: Act)
      requires Sound(State())
      modifies this
      ensures State() == ActedOnce(old(State()), a) && Sound(State())
      decreases |inbox|, 5
    {
      ActedOnceKeeps(State(), a);
      match a
      case Turn(on) => SetPaused(on);
      case Call(sent) => if paused { var _ := Send(sent); }
      case Close => Dispose();
    }

    /** What the listener calls, and the endpoint. */
    method SetPaused(v: bool)
      requires Sound(State())
      modifies this
      ensures State() == Turned(old(State()), v) && Sound(State())
      decreases |inbox|, 4
    {
      TurnedKeeps(State(), v);
      if paused == v { return; }
      paused := v;
      SetActive(v);
    }

    method SetActive(v: bool)
      requires Inv(Snapshot()) && paused == v
      modifies this
      ensures old(closed) || old(active) == v ==> State() == old(State())
      ensures !old(closed) && !old(active) && v ==> State() == old(State()).(active := true)
      ensures !old(closed) && old(active) && !v ==> State() == Left(old(State()))
      decreases |inbox|, 3
    {
      if closed || active == v { return; }
      active := v;
      if !v {
        DrainInbox();
        FailAllPending();
      }
    }

    method Poll()
      requires Sound(State())
      modifies this
      ensures State() == Drained(old(State())) && Sound(State())
    {
      if closed { return; }
      DrainInbox();
    }

    method Dispose()
      requires Inv(Snapshot())
      modifies `closed, `pending, `settled
      ensures State() == old(State()).(calls := RpcCalls.Dispose(old(Snapshot()))) && Inv(Snapshot())
      ensures closed && pending == map[] && forall c :: 0 <= c < made ==> c in settled
    {
      if !closed {
        closed := true;
        FailAllOpen(Snapshot());
        settled := settled + (map c | c in pending.Values :: Rejected);
        pending := map[];
      }
      AllAnswered(Snapshot());
    }
  }

  class PipeClient<V> {
    var nextId: nat
    var pending: map<nat, nat>
    var closed: bool
    var made: nat
    var settled: map<nat, Outcome<V>>
    ghost var issued: map<nat, nat>

    ghost function Snapshot(): Calls<V>
      reads this
    {
      Calls(nextId, pending, closed, made, issued, settled)
    }

    constructor ()
      ensures Inv(Snapshot()) && !closed && made == 0
    {
      nextId, pending, closed, made := 1, map[], false, 0;
      settled, issued := map[], map[];
    }

    method Call(posted: bool) returns (call: nat)
      modifies this
      ensures Snapshot() == RpcCalls.Send(old(Snapshot()), posted)
      ensures call == old(made)
      ensures if closed || !posted then call in settled && settled[call] == Rejected && pending.Keys <= old(pending).Keys
        else pending == old(pending)[old(nextId) := call] && settled == old(settled)
    {
      call := made;
      made := made + 1;
      if closed {
        settled := settled[call := Rejected];
        return;
      }
      var id := nextId;
      nextId := nextId + 1;
      issued := issued[call := id];
      pending := pending[id := call];
      if !posted {
        assert pending - {id} == old(pending) - {id};
        pending := pending - {id};
        settled := settled[call := Rejected];
      }
    }

    method OnMessage(m: Incoming<V>)
      modifies `pending, `settled
      ensures Snapshot() == Delivered(old(Snapshot()), m)
    {
      if !m.Answer? || m.id !in pending { return; }
      var call := pending[m.id];
      pending := pending - {m.id};
      settled := settled[call := m.payload];
    }

    method Dispose()
      requires Inv(Snapshot())
      modifies this
      ensures Snapshot() == RpcCalls.Dispose(old(Snapshot())) && Inv(Snapshot())
      ensures closed && pending == map[] && forall c :: 0 <= c < made ==> c in settled
    {
      if !closed {
        closed := true;
        FailAllOpen(Snapshot());
        settled := settled + (map c | c in pending.Values :: Rejected);
        pending := map[];
      }
      AllAnswered(Snapshot());
    }
  }

  datatype Transport = Control | Inspect | Lifecycle
  datatype Route = Applied | OnPipe(call: nat) | OnChannel(call: nat)

  class WorkerEndpoint<V> {
    const pipe: PipeClient<V>
    const channel: ChannelClient<V>

    ghost predicate Valid()
      reads this, pipe, channel
    {
      Inv(pipe.Snapshot()) && Sound(channel.State())
    }

    constructor ()
      ensures Valid() && fresh(pipe) && fresh(channel) && !channel.paused
    {
      pipe := new PipeClient();
      channel := new ChannelClient();
    }

    /** Control calls are applied at once; the others go where an answer can come from. */
    method Call(transport: Transport, sent: bool) returns (route: Route)
      requires Valid()
      modifies pipe, channel
      ensures Valid()
      ensures transport == Control ==> route == Applied
      ensures transport == Lifecycle ==> route == OnPipe(old(pipe.made))
      ensures transport == Inspect ==> route == if old(channel.paused) then OnChannel(old(channel.made)) else OnPipe(old(pipe.made))
      ensures pipe.Snapshot() == if route.OnPipe? then Send(old(pipe.Snapshot()), sent) else old(pipe.Snapshot())
      ensures channel.Snapshot() == if route.OnChannel? then Send(old(channel.Snapshot()), sent) else old(channel.Snapshot())
    {
      SendStep(pipe.Snapshot(), sent);
      SendStep(channel.Snapshot(), sent);
      if transport == Control { return Applied; }
      if transport == Lifecycle || !channel.paused {
        var call := pipe.Call(sent);
        return OnPipe(call);
      }
      var call := channel.Send(sent);
      return OnChannel(call);
    }

    /** Once the paused mode is left, no channel call is unsettled, whatever the listener did in
        between. */
    method SetPaused(v: bool)
      requires Valid()
      modifies channel
      ensures Valid() && channel.State() == Turned(old(channel.State()), v)
      ensures v || old(channel.closed) || !old(channel.paused) ==> channel.paused == v
      ensures old(channel.paused) && !v ==> channel.pending == map[] && forall c :: 0 <= c < channel.made ==> c in channel.settled
      ensures v || !old(channel.paused) ==> channel.Snapshot() == old(channel.Snapshot())
    {
      AllAnswered(channel.Snapshot());
      LeftKeeps(channel.State().(paused := false));
      channel.SetPaused(v);
    }

    method Dispose()
      requires Valid()
      modifies pipe, channel
      ensures Valid()
      ensures pipe.pending == map[] && forall c :: 0 <= c < pipe.made ==> c in pipe.settled
      ensures channel.pending == map[] && forall c :: 0 <= c < channel.made ==> c in channel.settled
    {
      pipe.Dispose();
      channel.Dispose();
    }
  }

  lemma AllAnswered<V>(s: Calls<V>)
    requires Inv(s)
    ensures s.pending == map[] ==> forall c :: 0 <= c < s.made ==> c in s.settled
  {
    forall c | 0 <= c < s.made && s.pending == map[] ensures c in s.settled {
      assert Outstanding(s, c) || c in s.settled;
    }
  }

  lemma FailAllOpen<V>(s: Calls<V>)
    requires s.closed && Inv(s.(closed := false))
    ensures Inv(FailAllPending(s))
  {
    FailStep(s.(closed := false));
    var r := FailAllPending(s);
    var o := FailAllPending(s.(closed := false));
    forall c | 0 <= c < r.made ensures c in r.settled {
      assert c in o.settled;
    }
  }
}
