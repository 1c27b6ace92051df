/** Correlating replies with calls, on the paused channel and on the pipe. */
module RpcCalls {
  import opened Options

  /** What a reply makes of the promise of its call. */
  datatype Outcome<V> = Resolved(value: V) | Rejected

  /** One client. Calls are numbered in the order they are made; `issued` is the message id
      a call got, `settled` what became of its promise. */
  datatype Calls<V> = Calls(nextId: nat, pending: map<nat, nat>, closed: bool,
                            made: nat, issued: map<nat, nat>, settled: map<nat, Outcome<V>>)

  /** `sent`: whether the transport takes the message. */
  function Send<V>(s: Calls<V>, sent: bool): Calls<V> {
    if s.closed then s.(made := s.made + 1, settled := s.settled[s.made := Rejected])
    else
      var numbered := s.(nextId := s.nextId + 1, made := s.made + 1, issued := s.issued[s.made := s.nextId]);
      if sent then numbered.(pending := s.pending[s.nextId := s.made])
      else numbered.(pending := s.pending - {s.nextId}, settled := s.settled[s.made := Rejected])
  }

  function Receive<V>(s: Calls<V>, id: nat, payload: Outcome<V>): Calls<V> {
    if id !in s.pending then s
    else s.(pending := s.pending - {id}, settled := s.settled[s.pending[id] := payload])
  }

  function FailAllPending<V>(s: Calls<V>): Calls<V> {
    s.(pending := map[], settled := s.settled + (map c | c in s.pending.Values :: Rejected))
  }

  function Dispose<V>(s: Calls<V>): Calls<V> {
    if s.closed then s else FailAllPending(s.(closed := true))
  }

  predicate Inv<V>(s: Calls<V>) {
    Linked(s) && Numbered(s) && Covered(s)
  }

  predicate Linked<V>(s: Calls<V>) {
    && (forall id :: id in s.pending ==> s.pending[id] in s.issued && s.issued[s.pending[id]] == id && s.pending[id] !in s.settled)
    && (s.closed ==> s.pending == map[])
  }

  predicate Numbered<V>(s: Calls<V>) {
    && (forall c :: c in s.issued ==> c < s.made && s.issued[c] < s.nextId)
    && (forall c, d :: c in s.issued && d in s.issued && s.issued[c] == s.issued[d] ==> c == d)
    && (forall c :: c in s.settled ==> c < s.made)
  }

  predicate Covered<V>(s: Calls<V>) {
    forall c: nat :: c < s.made ==> Outstanding(s, c) || c in s.settled
  }

  predicate Outstanding<V>(s: Calls<V>, c: nat) {
    c in s.issued && s.issued[c] in s.pending && s.pending[s.issued[c]] == c
  }

  datatype Step<V> = Sending(sent: bool) | Reply(id: nat, payload: Outcome<V>) | Leave | Close

  function Do<V>(s: Calls<V>, a: Step<V>): Calls<V> {
    match a
    case Sending(sent) => Send(s, sent)
    case Reply(id, payload) => Receive(s, id, payload)
    case Leave => FailAllPending(s)
    case Close => Dispose(s)
  }

  function Run<V>(s: Calls<V>, steps: seq<Step<V>>): Calls<V>
    decreases |steps|
  {
    if steps == [] then s else Run(Do(s, steps[0]), steps[1..])
  }

  /** Promises once settled stay as they are, and calls keep their ids. */
  ghost predicate Keeps<V>(s: Calls<V>, r: Calls<V>) {
    && (forall c :: c in s.settled ==> c in r.settled && r.settled[c] == s.settled[c])
    && (forall c :: c in s.issued ==> c in r.issued && r.issued[c] == s.issued[c])
    && s.nextId <= r.nextId && s.made <= r.made
    && (forall id :: id in r.pending && id < s.nextId ==> id in s.pending)
  }

  lemma SendStep<V>(s: Calls<V>, sent: bool)
    requires Inv(s)
    ensures Inv(Send(s, sent)) && Keeps(s, Send(s, sent))
  {
    SendLinked(s, sent);
    SendNumbered(s, sent);
    SendCovered(s, sent);
    SendKeeps(s, sent);
  }

  lemma SendLinked<V>(s: Calls<V>, sent: bool)
    requires Linked(s) && Numbered(s)
    ensures Linked(Send(s, sent))
  {
  }

  lemma SendNumbered<V>(s: Calls<V>, sent: bool)
    requires Numbered(s)
    ensures Numbered(Send(s, sent))
  {
  }

  lemma SendCovered<V>(s: Calls<V>, sent: bool)
    requires Inv(s)
    ensures Covered(Send(s, sent))
  {
    var r := Send(s, sent);
    forall c: nat | c < r.made ensures Outstanding(r, c) || c in r.settled {
      if c < s.made { assert Outstanding(s, c) || c in s.settled; }
    }
  }

  lemma SendKeeps<V>(s: Calls<V>, sent: bool)
    requires Numbered(s)
    ensures Keeps(s, Send(s, sent))
  {
  }

  lemma ReceiveStep<V>(s: Calls<V>, id: nat, payload: Outcome<V>)
    requires Inv(s)
    ensures Inv(Receive(s, id, payload)) && Keeps(s, Receive(s, id, payload))
  {
    var r := Receive(s, id, payload);
    forall c | 0 <= c < s.made ensures Outstanding(r, c) || c in r.settled {
      assert Outstanding(s, c) || c in s.settled;
    }
  }

  lemma FailStep<V>(s: Calls<V>)
    requires Inv(s)
    ensures Inv(FailAllPending(s)) && Keeps(s, FailAllPending(s))
    ensures forall c :: 0 <= c < s.made ==> c in FailAllPending(s).settled
  {
    var r := FailAllPending(s);
    forall c | 0 <= c < s.made ensures c in r.settled {
      assert Outstanding(s, c) || c in s.settled;
    }
  }

  lemma StepKeeps<V>(s: Calls<V>, a: Step<V>)
    requires Inv(s)
    ensures Inv(Do(s, a)) && Keeps(s, Do(s, a))
  {
    match a
    case Sending(sent) => SendStep(s, sent);
    case Reply(id, payload) => ReceiveStep(s, id, payload);
    case Leave => FailStep(s);
    case Close => FailStep(s);
  }

  /** Over any interleaving every call is either outstanding under its own id or settled,
      exactly one of the two, and a promise is settled once. */
  lemma {:induction false} SettledOnce<V>(s: Calls<V>, steps: seq<Step<V>>)
    requires Inv(s)
    ensures Inv(Run(s, steps)) && Keeps(s, Run(s, steps))
    decreases |steps|
  {
    if steps != [] {
      StepKeeps(s, steps[0]);
      SettledOnce(Do(s, steps[0]), steps[1..]);
    }
  }

  /** Leaving the paused state, or closing, leaves no call without an answer. */
  lemma NoneLeft<V>(s: Calls<V>, steps: seq<Step<V>>, last: Step<V>)
    requires Inv(s) && (last.Leave? || last.Close?)
    ensures var r := Do(Run(s, steps), last);
      r.pending == map[] && forall c :: 0 <= c < r.made ==> c in r.settled
  {
    SettledOnce(s, steps);
    StepKeeps(Run(s, steps), last);
    var r := Do(Run(s, steps), last);
    forall c | 0 <= c < r.made ensures c in r.settled {
      assert Outstanding(r, c) || c in r.settled;
    }
  }

  /** A reply whose call has been answered or failed reaches no call, then or later: ids are
      not used twice. */
  lemma LateReplyIgnored<V>(s: Calls<V>, steps: seq<Step<V>>, id: nat, payload: Outcome<V>)
    requires Inv(s) && id < s.nextId && id !in s.pending
    ensures Receive(Run(s, steps), id, payload) == Run(s, steps)
  {
    SettledOnce(s, steps);
  }

  /** A call is resolved only by a reply that carries its id and came after it was sent. */
  lemma {:induction false} ResolvedByOwnReply<V>(s: Calls<V>, steps: seq<Step<V>>, c: nat) returns (k: nat)
    requires Inv(s) && c !in s.settled
    requires c in Run(s, steps).settled && Run(s, steps).settled[c].Resolved?
    ensures k < |steps| && steps[k].Reply? && steps[k].payload == Run(s, steps).settled[c]
    ensures Outstanding(Run(s, steps[..k]), c) && Run(s, steps[..k]).issued[c] == steps[k].id
    decreases |steps|
  {
    var next, rest := Do(s, steps[0]), steps[1..];
    StepKeeps(s, steps[0]);
    SettledOnce(next, rest);
    if c in next.settled {
      ResolvedNow(s, steps[0], c);
      assert steps[..0] == [];
      return 0;
    }
    var j := ResolvedByOwnReply(next, rest, c);
    assert steps[..j + 1][0] == steps[0] && steps[..j + 1][1..] == rest[..j];
    k := j + 1;
  }

  lemma ResolvedNow<V>(s: Calls<V>, a: Step<V>, c: nat)
    requires Inv(s) && c !in s.settled && c in Do(s, a).settled && Do(s, a).settled[c].Resolved?
    ensures a.Reply? && a.payload == Do(s, a).settled[c] && Outstanding(s, c) && s.issued[c] == a.id
  {
  }

  // ───────────── what becomes of a call ─────────────

  /** What the steps make of a call that is outstanding under `id`: the first of them that concerns
      it decides, a reply with its payload, leaving and closing by a refusal. */
  function Fate<V>(steps: seq<Step<V>>, id: nat): Option<Outcome<V>> {
    if steps == [] then None
    else match steps[0]
      case Sending(_) => Fate(steps[1..], id)
      case Reply(other, payload) => if other == id then Some(payload) else Fate(steps[1..], id)
      case Leave => Some(Rejected)
      case Close => Some(Rejected)
  }

  ghost predicate Became<V>(s: Calls<V>, c: nat, fate: Option<Outcome<V>>) {
    match fate
    case None => Outstanding(s, c) && c !in s.settled
    case Some(o) => c in s.settled && s.settled[c] == o
  }

  /** One step at a call that waits for its answer. */
  lemma OneStep<V>(s: Calls<V>, a: Step<V>, c: nat)
    requires Inv(s) && Outstanding(s, c)
    ensures Inv(Do(s, a)) && Became(Do(s, a), c, Fate([a], s.issued[c]))
    ensures Outstanding(Do(s, a), c) ==> Do(s, a).issued[c] == s.issued[c]
  {
    StepKeeps(s, a);
    assert c !in s.settled;
    assert Fate([a], s.issued[c]) == match a
      case Sending(_) => None
      case Reply(other, payload) => if other == s.issued[c] then Some(payload) else None
      case Leave => Some(Rejected)
      case Close => Some(Rejected);
    match a
    case Sending(_) =>
    case Reply(other, _) => assert other in s.pending && other != s.issued[c] ==> s.pending[other] != c;
    case Leave => assert c in s.pending.Values by { assert s.pending[s.issued[c]] == c; }
    case Close => assert c in s.pending.Values by { assert s.pending[s.issued[c]] == c; }
  }

  /** A call that waits for its answer stays so, under its own id, up to the first reply with that
      id, leave or close, and that decides it for good. */
  lemma {:induction false} FateDecides<V>(s: Calls<V>, steps: seq<Step<V>>, c: nat)
    requires Inv(s) && Outstanding(s, c)
    ensures Became(Run(s, steps), c, Fate(steps, s.issued[c]))
    decreases |steps|
  {
    if steps != [] {
      OneStep(s, steps[0], c);
      assert [steps[0]][1..] == [];
      if Fate([steps[0]], s.issued[c]).Some? {
        SettledOnce(Do(s, steps[0]), steps[1..]);
      } else {
        FateDecides(Do(s, steps[0]), steps[1..], c);
      }
    }
  }

  /** A whole call: refused at once if the channel is closed or does not take the message, else
      left to its fate. No other call is concerned by making it. */
  lemma CallBecomes<V>(s: Calls<V>, sent: bool, steps: seq<Step<V>>)
    requires Inv(s)
    ensures var r := Run(s, [Sending(sent)] + steps);
      Became(r, s.made, if s.closed || !sent then Some(Rejected) else Fate(steps, s.nextId))
    ensures forall d :: 0 <= d < s.made ==> (Outstanding(Send(s, sent), d) <==> Outstanding(s, d))
    ensures Send(s, sent).settled == if s.closed || !sent then s.settled[s.made := Rejected] else s.settled
  {
    var all := [Sending(sent)] + steps;
    assert all[0] == Sending(sent) && all[1..] == steps;
    StepKeeps(s, Sending(sent));
    var next := Do(s, Sending(sent));
    if s.closed || !sent {
      SettledOnce(next, steps);
    } else {
      assert Outstanding(next, s.made) && next.issued[s.made] == s.nextId;
      FateDecides(next, steps, s.made);
    }
  }
}
