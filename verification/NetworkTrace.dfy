/** What the Network domain may tell the client about a request, and in which order. */
module NetworkTrace {
  import opened InsertionMap

  /** `Announce` is a requestWillBeSent or a webSocketCreated, `Terminal` a loadingFinished
      or a loadingFailed; streamed bytes are
      `carried` by the event that counts them; a session ends when the domain is disabled or the client leaves. */
  datatype Event =
    | Announce(id: Id) | Response(id: Id) | DataReceived(id: Id, n: nat, carried: bool) | Terminal(id: Id, success: bool)
    | WebSocketEvent(id: Id) | SessionEnd

  /** Announcements of `id` in the current session. */
  function Announcements(log: seq<Event>, id: Id): nat {
    if log == [] then 0
    else
      var e, before := log[|log| - 1], Announcements(log[..|log| - 1], id);
      if e.SessionEnd? then 0 else if e == Announce(id) then before + 1 else before
  }

  function Terminals(log: seq<Event>, id: Id): nat {
    if log == [] then 0
    else
      var e, before := log[|log| - 1], Terminals(log[..|log| - 1], id);
      if e.SessionEnd? then 0 else if e.Terminal? && e.id == id then before + 1 else before
  }

  /** Event `i` tells of a request its session has announced; a terminal one closes it. */
  predicate Placed(log: seq<Event>, i: nat)
    requires i < |log|
  {
    var e := log[i];
    && (e.Response? || e.DataReceived? ==> Announcements(log[..i], e.id) >= 1)
    && (e.Terminal? ==> Terminals(log[..i], e.id) < Announcements(log[..i], e.id))
  }

  predicate WellFormed(log: seq<Event>) {
    forall i :: 0 <= i < |log| ==> Placed(log, i)
  }

  /** Each request the domain keeps as announced has an announcement left to close. */
  ghost predicate Session(announced: set<Id>, log: seq<Event>) {
    WellFormed(log) && forall id :: Terminals(log, id) + (if id in announced then 1 else 0) <= Announcements(log, id)
  }

  lemma Extended(log: seq<Event>, e: Event)
    requires WellFormed(log)
    requires e.Response? || e.DataReceived? ==> Announcements(log, e.id) >= 1
    requires e.Terminal? ==> Terminals(log, e.id) < Announcements(log, e.id)
    ensures WellFormed(log + [e])
    ensures forall id :: Announcements(log + [e], id) == if e.SessionEnd? then 0 else Announcements(log, id) + (if e == Announce(id) then 1 else 0)
    ensures forall id :: Terminals(log + [e], id) == if e.SessionEnd? then 0 else Terminals(log, id) + (if e.Terminal? && e.id == id then 1 else 0)
  {
    var r := log + [e];
    assert r[..|log|] == log;
    forall i | 0 <= i < |r| ensures Placed(r, i) {
      if i < |log| {
        assert r[..i] == log[..i] && Placed(log, i);
      }
    }
  }

  lemma SessionAnnounce(announced: set<Id>, log: seq<Event>, id: Id)
    requires Session(announced, log)
    ensures Session(announced + {id}, log + [Announce(id)])
  {
    Extended(log, Announce(id));
  }

  /** Telling more of an announced request. */
  lemma SessionTell(announced: set<Id>, log: seq<Event>, e: Event)
    requires Session(announced, log) && (e.WebSocketEvent? || ((e.Response? || e.DataReceived?) && e.id in announced))
    ensures Session(announced, log + [e])
  {
    assert e.id in announced ==> Announcements(log, e.id) >= 1;
    Extended(log, e);
  }

  lemma SessionTerminal(announced: set<Id>, log: seq<Event>, id: Id, success: bool)
    requires Session(announced, log) && id in announced
    ensures Session(announced - {id}, log + [Terminal(id, success)])
  {
    Extended(log, Terminal(id, success));
  }

  lemma SessionForget(announced: set<Id>, less: set<Id>, log: seq<Event>)
    requires Session(announced, log) && less <= announced
    ensures Session(less, log)
  {
  }

  lemma SessionOver(announced: set<Id>, log: seq<Event>)
    requires Session(announced, log)
    ensures Session({}, log + [SessionEnd])
  {
    Extended(log, SessionEnd);
  }

  /** In a well-formed trace every response, data or terminal event follows an announcement
      of its id in the same session, and terminal events never outnumber announcements. */
  lemma {:induction false} Announced(log: seq<Event>, id: Id) returns (j: nat)
    requires Announcements(log, id) >= 1
    ensures j < |log| && log[j] == Announce(id)
    ensures forall k :: j <= k < |log| ==> !log[k].SessionEnd?
  {
    var e := log[|log| - 1];
    if e == Announce(id) { return |log| - 1; }
    j := Announced(log[..|log| - 1], id);
  }

  lemma {:induction false} NeverOutnumbered(log: seq<Event>, id: Id)
    requires WellFormed(log)
    ensures Terminals(log, id) <= Announcements(log, id)
  {
    if log != [] {
      var before := log[..|log| - 1];
      forall i | 0 <= i < |before| ensures Placed(before, i) {
        assert Placed(log, i) && before[..i] == log[..i];
      }
      NeverOutnumbered(before, id);
      assert Placed(log, |log| - 1);
    }
  }

  lemma TraceProperty(log: seq<Event>, i: nat) returns (j: nat)
    requires WellFormed(log) && i < |log| && (log[i].Response? || log[i].DataReceived? || log[i].Terminal?)
    ensures j < i && log[j] == Announce(log[i].id)
    ensures forall k :: j <= k <= i ==> !log[k].SessionEnd?
  {
    assert Placed(log, i);
    j := Announced(log[..i], log[i].id);
  }
}
