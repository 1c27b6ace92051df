/** The Network domain: what it keeps of each request, and what it tells the client. */
module NetworkDomain {
  import opened Options
  import opened InsertionMap
  import opened NetworkTrace
  import opened NetworkBodies

  /** `webSocket`: how the request or its response classifies the resource. */
  datatype HttpEvent =
    | Requested(id: Id, at: int, webSocket: bool)
    | Responded(id: Id, at: int, webSocket: bool)
    | Arriving(id: Id, at: int, chunk: Chunk)
    | Finished(id: Id, at: int, success: bool, body: Option<nat>)

  datatype SocketEvent = Created(id: Id, at: int, handshake: bool) | Frame(id: Id, at: int) | Closed(id: Id, at: int, failed: bool)

  /** What is kept of one request; `holds`: whether a body is still arriving, whatever is in it. */
  datatype Kept = Kept(announced: bool, upgrade: bool, streamed: bool, holds: bool,
                       webSocket: Option<bool>, start: Option<int>, seen: Option<int>)

  const Nothing := Kept(false, false, false, false, None, None, None)

  predicate Unseen(k: Kept, cutoff: int) { k.seen.Some? && k.seen.value < cutoff }

  /** Not in the table of last events, or gone from it. */
  predicate Outlived(k: Kept, cutoff: int) { k.seen.None? && k.start.Some? && k.start.value < cutoff }

  predicate Stale(k: Kept, cutoff: int) { Unseen(k, cutoff) || Outlived(k, cutoff) }

  function Swept(k: Kept, due: bool, now: int): Kept {
    if due && Stale(k, now - 120) then Nothing else k
  }

  class Domain {
    var enabled: bool
    var announced: set<Id>
    /** Serve requests that are websocket upgrades; their HTTP end is not reported. */
    var upgrades: set<Id>
    var streamed: set<Id>
    /** Per request with metadata: whether it is classified as a websocket. */
    var meta: Table<bool>
    var startTimes: Table<int>
    var lastSeen: Table<int>
    var lastCleanup: int
    const pending: PendingBodies
    const cache: ResponseCache
    ghost var log: seq<Event>
    /** Whether a body was ever cached over an entry that the eviction loop took as well. */
    ghost var drifted: bool

    ghost predicate Valid()
      reads this, pending, cache
    {
      && pending.preview == cache.preview
      && pending.Valid() && Unique(cache.bodies) && |cache.bodies| <= cache.maxBodies && cache.maxBodies > 0
      && (!drifted ==> Exact(cache.bodies, cache.bytes, cache.maxBodies, cache.preview))
      && Session(announced, log)
      && Tables()
    }

    /** No announced request is without a time of its last event, so none is kept for ever. */
    ghost predicate Tables()
      reads `announced, `meta, `startTimes, `lastSeen
    {
      Unique(meta) && Unique(startTimes) && Unique(lastSeen) && forall x :: x in announced ==> Has(lastSeen, x)
    }

    ghost function Of(x: Id): Kept
      reads `announced, `upgrades, `streamed, `meta, `startTimes, `lastSeen, pending
    {
      Kept(x in announced, x in upgrades, x in streamed, Has(pending.bodies, x), Find(meta, x), Find(startTimes, x), Find(lastSeen, x))
    }

    predicate Due(now: int)
      reads `lastCleanup
    {
      now - lastCleanup >= 30
    }

    constructor (maxBodies: nat, preview: nat)
      requires maxBodies > 0
      ensures Valid() && fresh(pending) && fresh(cache) && log == [] && !enabled && !drifted && announced == {}
      ensures pending.preview == preview && cache.preview == preview && cache.maxBodies == maxBodies
      ensures (cache.bodies, cache.bytes) == ([], 0) && forall x :: Of(x) == Nothing
    {
      enabled, announced, upgrades, streamed := false, {}, {}, {};
      meta, startTimes, lastSeen, lastCleanup := [], [], [], 0;
      pending := new PendingBodies(preview);
      cache := new ResponseCache(maxBodies, preview);
      log, drifted := [], false;
    }

    method Enable()
      modifies `enabled
      ensures enabled
    {
      enabled := true;
    }

    /** Disabling, or the client leaving: the session and all its state is over. */
    method Disable()
      requires Valid()
      modifies this, pending, cache
      ensures Valid() && !enabled && announced == {} && log == old(log) + [SessionEnd]
      ensures pending.bodies == [] && cache.bodies == [] && !drifted
    {
      enabled := false;
      ClearState();
    }

    method ClearState()
      requires Valid()
      modifies this, pending, cache
      ensures Valid() && announced == {} && log == old(log) + [SessionEnd] && enabled == old(enabled)
      ensures pending.bodies == [] && cache.bodies == [] && !drifted
    {
      startTimes, meta, lastSeen := [], [], [];
      streamed, upgrades := {}, {};
      SessionOver(announced, log);
      announced := {};
      log := log + [SessionEnd];
      ClearBodies();
    }

    method ClearBodies()
      requires pending.Valid() && cache.maxBodies > 0
      modifies `drifted, pending, cache
      ensures pending.Valid() && Exact(cache.bodies, cache.bytes, cache.maxBodies, cache.preview)
      ensures pending.bodies == [] && cache.bodies == [] && !drifted
    {
      pending.Clear();
      cache.Clear();
      drifted := false;
    }

    method Tell(e: Event)
      requires Session(announced, log) && (e.WebSocketEvent? || ((e.Response? || e.DataReceived?) && e.id in announced))
      modifies `log
      ensures log == old(log) + [e] && Session(announced, log)
    {
      SessionTell(announced, log, e);
      log := log + [e];
    }

    /** A request of the session is announced; it has just been seen. */
    method AnnounceRequest(id: Id)
      requires Session(announced, log) && Tables() && Has(lastSeen, id)
      modifies `announced, `log
      ensures log == old(log) + [Announce(id)] && Session(announced, log) && Tables()
      ensures forall x :: Of(x) == if x == id then old(Of(x)).(announced := true) else old(Of(x))
    {
      SessionAnnounce(announced, log, id);
      announced := announced + {id};
      log := log + [Announce(id)];
    }

    /** Drops everything kept of a request. */
    method Forget(id: Id)
      requires Valid()
      modifies `announced, `upgrades, `streamed, `meta, `startTimes, `lastSeen, pending
      ensures Valid() && forall x :: Of(x) == if x == id then Nothing else old(Of(x))
      ensures forall x :: Find(pending.bodies, x) == if x == id then None else Find(old(pending.bodies), x)
    {
      pending.DropPendingBody(id);
      streamed := streamed - {id};
      Close(id);
    }

    method Close(id: Id)
      requires Session(announced, log) && Tables()
      modifies `announced, `upgrades, `meta, `startTimes, `lastSeen
      ensures Session(announced, log) && Tables()
      ensures forall x :: Of(x) == if x == id then LeftOpen(old(Of(x))) else old(Of(x))
    {
      FindDeleteAll(startTimes, id);
      FindDeleteAll(meta, id);
      FindDeleteAll(lastSeen, id);
      SessionForget(announced, announced - {id}, log);
      upgrades := upgrades - {id};
      startTimes := Delete(startTimes, id);
      meta := Delete(meta, id);
      announced := announced - {id};
      lastSeen := Delete(lastSeen, id);
    }

    method MarkSeen(id: Id, at: int)
      requires Tables()
      modifies `lastSeen
      ensures Tables() && forall x :: Find(lastSeen, x) == if x == id then Some(at) else Find(old(lastSeen), x)
    {
      FindPutAll(lastSeen, id, at);
      lastSeen := Put(lastSeen, id, at);
    }

    method MarkStart(id: Id, at: int)
      requires Tables()
      modifies `startTimes
      ensures Tables() && forall x :: Find(startTimes, x) == if x == id then Some(at) else Find(old(startTimes), x)
    {
      FindPutAll(startTimes, id, at);
      startTimes := Put(startTimes, id, at);
    }

    method Classify(id: Id, webSocket: bool)
      requires Tables()
      modifies `meta
      ensures Tables() && forall x :: Find(meta, x) == if x == id then Some(webSocket) else Find(old(meta), x)
    {
      FindPutAll(meta, id, webSocket);
      meta := Put(meta, id, webSocket);
    }

    /** Evicts what no event has touched for two minutes, at most every half minute. */
    method CleanupStaleEntries(now: int)
      requires Valid()
      modifies `announced, `upgrades, `streamed, `meta, `startTimes, `lastSeen, `lastCleanup, pending
      ensures Valid() && lastCleanup == if old(Due(now)) then now else old(lastCleanup)
      ensures forall x :: Of(x) == Swept(old(Of(x)), old(Due(now)), now)
      ensures forall x :: Find(pending.bodies, x) == if old(Due(now)) && Stale(old(Of(x)), now - 120) then None else Find(old(pending.bodies), x)
    {
      if now - lastCleanup < 30 { return; }
      lastCleanup := now;
      var cutoff := now - 120;
      SweepSeen(cutoff);
      SweepStarted(cutoff);
    }

    method SweepSeen(cutoff: int)
      requires Valid()
      modifies `announced, `upgrades, `streamed, `meta, `startTimes, `lastSeen, pending
      ensures Valid() && forall x :: Of(x) == if Unseen(old(Of(x)), cutoff) then Nothing else old(Of(x))
      ensures forall x :: Find(pending.bodies, x) == if Unseen(old(Of(x)), cutoff) then None else Find(old(pending.bodies), x)
    {
      var ids := Keys(lastSeen);
      ghost var swept := {};
      for k := 0 to |ids|
        invariant Valid() && (forall j :: 0 <= j < k ==> ids[j] in swept)
        invariant forall x :: Of(x) == if x in swept && Unseen(old(Of(x)), cutoff) then Nothing else old(Of(x))
        invariant forall x :: Find(pending.bodies, x) == if x in swept && Unseen(old(Of(x)), cutoff) then None else Find(old(pending.bodies), x)
      {
        var id := ids[k];
        swept := swept + {id};
        if Has(lastSeen, id) && Find(lastSeen, id).value < cutoff { Forget(id); }
      }
      forall x | Unseen(old(Of(x)), cutoff) ensures x in swept {
        KeysAll(old(lastSeen), x);
      }
    }

    method SweepStarted(cutoff: int)
      requires Valid()
      modifies `announced, `upgrades, `streamed, `meta, `startTimes, `lastSeen, pending
      ensures Valid() && forall x :: Of(x) == if Outlived(old(Of(x)), cutoff) then Nothing else old(Of(x))
      ensures forall x :: Find(pending.bodies, x) == if Outlived(old(Of(x)), cutoff) then None else Find(old(pending.bodies), x)
    {
      var ids := Keys(startTimes);
      ghost var swept := {};
      for k := 0 to |ids|
        invariant Valid() && (forall j :: 0 <= j < k ==> ids[j] in swept)
        invariant forall x :: Of(x) == if x in swept && Outlived(old(Of(x)), cutoff) then Nothing else old(Of(x))
        invariant forall x :: Find(pending.bodies, x) == if x in swept && Outlived(old(Of(x)), cutoff) then None else Find(old(pending.bodies), x)
      {
        var id := ids[k];
        swept := swept + {id};
        if Has(startTimes, id) && Find(startTimes, id).value < cutoff && !Has(lastSeen, id) { Forget(id); }
      }
      forall x | Outlived(old(Of(x)), cutoff) ensures x in swept {
        KeysAll(old(startTimes), x);
      }
    }

    method OnFetchEvent(e: HttpEvent)
      requires Valid()
      modifies this, pending, cache
      ensures Valid() && enabled == old(enabled)
      ensures drifted == (old(drifted) || (enabled && e.Finished? && old(DriftsAtEnd(e.id, e.body))))
      ensures !enabled ==> log == old(log) && forall x :: Of(x) == old(Of(x))
      ensures enabled ==> log == old(log) + FetchTold(e, old(Of(e.id)))
      ensures enabled ==> forall x ::
        Of(x) == Swept(if x == e.id then FetchLeft(e, old(Of(x))) else old(Of(x)), Cleans(e) && old(Due(e.at)), e.at)
      ensures enabled && e.Finished? ==> (cache.bodies, cache.bytes) == old(CachedAtEnd(e.id, e.body))
      ensures enabled && e.Finished? && old(Entry(e.id, e.body)).Some? ==>
        Find(cache.bodies, e.id) == old(Some(Cacheable(Entry(e.id, e.body).value, cache.preview)))
      ensures !enabled || !e.Finished? ==> (cache.bodies, cache.bytes) == old((cache.bodies, cache.bytes))
      ensures enabled && e.Arriving? && e.id in old(announced) ==> Find(pending.bodies, e.id) == old(Some(Grown(e.id, e.chunk)))
    {
      if !enabled { return; }
      match e
      case Requested(id, at, webSocket) => OnRequest(id, at, webSocket);
      case Responded(id, _, _) =>
        if id in announced { Tell(Response(id)); }
      case Arriving(id, at, chunk) => HandleData(id, at, chunk);
      case Finished(id, at, success, body) => HandleDone(id, at, success, body);
    }

    method Remember(id: Id, at: int, webSocket: bool)
      requires Tables()
      modifies `meta, `startTimes, `lastSeen
      ensures Tables()
      ensures forall x :: Of(x) == if x == id then old(Of(x)).(webSocket := Some(webSocket), start := Some(at), seen := Some(at)) else old(Of(x))
    {
      MarkStart(id, at);
      Classify(id, webSocket);
      MarkSeen(id, at);
    }

    method OnRequest(id: Id, at: int, webSocket: bool)
      requires Valid()
      modifies `announced, `upgrades, `streamed, `meta, `startTimes, `lastSeen, `lastCleanup, `log, pending
      ensures Valid() && log == old(log) + [Announce(id)]
      ensures forall x :: Of(x) == Swept(if x == id then Opened(old(Of(x)), at, webSocket, true) else old(Of(x)), old(Due(at)), at)
    {
      Remember(id, at, webSocket);
      assert Of(id).seen == Some(at);
      AnnounceRequest(id);
      assert forall x :: Of(x) == if x == id then Opened(old(Of(x)), at, webSocket, true) else old(Of(x));
      CleanupStaleEntries(at);
    }

    method OnServeEvent(e: HttpEvent)
      requires Valid()
      modifies this, pending, cache
      ensures Valid() && enabled == old(enabled)
      ensures drifted == (old(drifted) || (enabled && e.Finished? && old(DriftsAtEnd(e.id, e.body))))
      ensures !enabled ==> log == old(log) && forall x :: Of(x) == old(Of(x))
      ensures enabled ==> log == old(log) + ServeTold(e, old(Of(e.id)))
      ensures enabled ==> forall x ::
        Of(x) == Swept(if x == e.id then ServeLeft(e, old(Of(x))) else old(Of(x)), Cleans(e) && old(Due(e.at)), e.at)
      ensures enabled && e.Finished? ==> (cache.bodies, cache.bytes) == old(CachedAtEnd(e.id, e.body))
      ensures enabled && e.Finished? && old(Entry(e.id, e.body)).Some? ==>
        Find(cache.bodies, e.id) == old(Some(Cacheable(Entry(e.id, e.body).value, cache.preview)))
      ensures !enabled || !e.Finished? ==> (cache.bodies, cache.bytes) == old((cache.bodies, cache.bytes))
      ensures enabled && e.Arriving? && e.id in old(announced) ==> Find(pending.bodies, e.id) == old(Some(Grown(e.id, e.chunk)))
    {
      if !enabled { return; }
      match e
      case Requested(id, at, webSocket) =>
        if webSocket { OnUpgradeRequest(id, at); } else { OnRequest(id, at, false); }
      case Responded(id, _, webSocket) => OnServeResponse(id, webSocket);
      case Arriving(id, at, chunk) => HandleData(id, at, chunk);
      case Finished(id, at, success, body) => HandleDone(id, at, success, body);
    }

    /** The websocket events of the same request announce it. */
    method OnUpgradeRequest(id: Id, at: int)
      requires Valid()
      modifies `announced, `upgrades, `streamed, `meta, `startTimes, `lastSeen, `lastCleanup, `log, pending
      ensures Valid() && log == old(log)
      ensures forall x :: Of(x) == Swept(if x == id then Opened(old(Of(x)), at, true, false) else old(Of(x)), old(Due(at)), at)
    {
      Remember(id, at, true);
      upgrades := upgrades + {id};
      assert forall x :: Of(x) == if x == id then Opened(old(Of(x)), at, true, false) else old(Of(x));
      CleanupStaleEntries(at);
    }

    method OnServeResponse(id: Id, webSocket: bool)
      requires Valid()
      modifies `meta, `upgrades, `log
      ensures Valid() && log == old(log) + (if id in announced && id !in old(upgrades) && !webSocket then [Response(id)] else [])
      ensures forall x :: Of(x) == if x == id then Answered(old(Of(x)), webSocket) else old(Of(x))
    {
      if Has(meta, id) { Classify(id, webSocket); }
      if webSocket { upgrades := upgrades + {id}; }
      if id !in upgrades && id in announced { Tell(Response(id)); }
    }

    /** Frames are passed on whether or not their socket was announced. */
    method OnWebSocketEvent(e: SocketEvent)
      requires Valid()
      modifies `announced, `upgrades, `streamed, `meta, `startTimes, `lastSeen, `lastCleanup, `log, pending
      ensures Valid()
      ensures !enabled ==> log == old(log) && (forall x :: Of(x) == old(Of(x))) && pending.bodies == old(pending.bodies)
      ensures enabled ==> log == old(log) + SocketTold(e)
      ensures enabled ==> forall x :: Of(x) == Swept(old(AfterSocket(e, x)), old(Due(e.at)), e.at)
      ensures enabled ==> forall x ::
        Find(pending.bodies, x) == if old(Due(e.at) && Stale(AfterSocket(e, x), e.at - 120)) then None else Find(old(pending.bodies), x)
    {
      if !enabled { return; }
      OnSocket(e);
      CleanupStaleEntries(e.at);
    }

    ghost function AfterSocket(e: SocketEvent, x: Id): Kept
      reads `announced, `upgrades, `streamed, `meta, `startTimes, `lastSeen, pending
    {
      if x == e.id then SocketLeft(e, Of(x)) else Of(x)
    }

    method OnSocket(e: SocketEvent)
      requires Valid()
      modifies `announced, `upgrades, `meta, `startTimes, `lastSeen, `log
      ensures Valid() && log == old(log) + SocketTold(e)
      ensures forall x :: Of(x) == old(AfterSocket(e, x))
    {
      MarkSeen(e.id, e.at);
      match e
      case Created(id, at, handshake) => OpenSocket(id, at, handshake);
      case Frame(id, at) => Tell(WebSocketEvent(id));
      case Closed(id, at, failed) => CloseSocket(id, failed);
    }

    method OpenSocket(id: Id, at: int, handshake: bool)
      requires Valid() && Find(lastSeen, id) == Some(at)
      modifies `announced, `startTimes, `lastSeen, `log
      ensures Valid() && log == old(log) + SocketTold(Created(id, at, handshake))
      ensures forall x :: Of(x) == if x == id then old(Of(x)).(start := Some(at), announced := true) else old(Of(x))
    {
      MarkStart(id, at);
      MarkSeen(id, at);
      AnnounceRequest(id);
      if handshake { Tell(WebSocketEvent(id)); }
    }

    method CloseSocket(id: Id, failed: bool)
      requires Valid()
      modifies `announced, `upgrades, `meta, `startTimes, `lastSeen, `log
      ensures Valid() && log == old(log) + (if failed then [WebSocketEvent(id), WebSocketEvent(id)] else [WebSocketEvent(id)])
      ensures forall x :: Of(x) == if x == id then LeftOpen(old(Of(x))) else old(Of(x))
    {
      if failed { Tell(WebSocketEvent(id)); }
      Tell(WebSocketEvent(id));
      Close(id);
    }

    predicate IsWebSocket(id: Id)
      reads `meta
    {
      Has(meta, id) && Find(meta, id).value
    }

    method HandleData(id: Id, at: int, chunk: Chunk)
      requires Valid()
      modifies `lastSeen, `log, pending
      ensures Valid()
      ensures log == old(log) + (if id in announced then [DataReceived(id, Counted(chunk), id in streamed)] else [])
      ensures forall x :: Of(x) == if x == id then Touched(old(Of(x)), at) else old(Of(x))
      ensures id !in announced ==> pending.bodies == old(pending.bodies)
      ensures OthersEmptied(old(pending.bodies), pending.bodies, id)
      ensures id in announced ==> Find(pending.bodies, id) == Some(Arrived(old(BodyOf(id)), chunk, IsWebSocket(id), pending.preview))
    {
      if id !in announced { return; }
      MarkSeen(id, at);
      pending.Arrive(id, chunk, id in streamed, IsWebSocket(id));
      Tell(DataReceived(id, Counted(chunk), id in streamed));
    }

    /** The body of a request so far, or the one its first chunk opens. */
    ghost function BodyOf(id: Id): Body
      reads `streamed, pending
    {
      pending.Opened(id, id in streamed)
    }

    /** The end of a request. What arrived of its body, or the body that comes with the end,
        is cached, unless it is a websocket's or went to the client as it came. */
    method HandleDone(id: Id, at: int, success: bool, body: Option<nat>)
      requires Valid()
      modifies `announced, `upgrades, `streamed, `meta, `startTimes, `lastSeen, `lastCleanup, `log, `drifted, pending, cache
      ensures Valid() && !Has(pending.bodies, id)
      ensures log == old(log) + (if id in old(announced) && id !in old(upgrades) then [Terminal(id, success)] else [])
      ensures drifted == (old(drifted) || old(DriftsAtEnd(id, body)))
      ensures forall x :: Of(x) == Swept(if x == id then Ended(old(Of(x))) else old(Of(x)), old(Due(at)), at)
      ensures (cache.bodies, cache.bytes) == old(CachedAtEnd(id, body))
      ensures old(Entry(id, body)).Some? ==> Find(cache.bodies, id) == old(Some(Cacheable(Entry(id, body).value, cache.preview)))
    {
      EndRequest(id, success, body);
      CleanupStaleEntries(at);
    }

    method EndRequest(id: Id, success: bool, body: Option<nat>)
      requires Valid()
      modifies `announced, `upgrades, `streamed, `meta, `startTimes, `lastSeen, `log, `drifted, pending, cache
      ensures drifted == (old(drifted) || old(DriftsAtEnd(id, body)))
      ensures Valid() && !Has(pending.bodies, id)
      ensures log == old(log) + (if id in old(announced) && id !in old(upgrades) then [Terminal(id, success)] else [])
      ensures forall x :: Of(x) == if x == id then Ended(old(Of(x))) else old(Of(x))
      ensures (cache.bodies, cache.bytes) == old(CachedAtEnd(id, body))
      ensures old(Entry(id, body)).Some? ==> Find(cache.bodies, id) == old(Some(Cacheable(Entry(id, body).value, cache.preview)))
    {
      var entry := Ending(body, Find(pending.bodies, id));
      pending.DropPendingBody(id);
      if id in announced {
        CacheEnded(id, entry);
        EndAnnounced(id, success);
      } else {
        EndUnannounced(id);
      }
    }

    /** The body to cache when request `id` ends, with a body of its own or without, if any. */
    ghost function Entry(id: Id, body: Option<nat>): Option<Body>
      reads `announced, `meta, pending
    {
      var entry := Ending(body, Find(pending.bodies, id));
      if id in announced && Worth(entry, IsWebSocket(id)) then entry else None
    }

    ghost function CachedAtEnd(id: Id, body: Option<nat>): (Table<Body>, int)
      reads `announced, `meta, pending, cache
    {
      match Entry(id, body)
      case Some(b) => CachedEntry(cache.bodies, cache.bytes, id, b, cache.maxBodies, cache.preview)
      case None => (cache.bodies, cache.bytes)
    }

    ghost predicate DriftsAtEnd(id: Id, body: Option<nat>)
      reads `announced, `meta, pending, cache
    {
      Entry(id, body).Some? && Drifts(id, Entry(id, body).value)
    }

    method CacheEnded(id: Id, entry: Option<Body>)
      requires Valid()
      modifies `drifted, cache
      ensures drifted == (old(drifted) || (Worth(entry, IsWebSocket(id)) && old(Drifts(id, entry.value))))
      ensures Valid()
      ensures if Worth(entry, IsWebSocket(id)) then
          Find(cache.bodies, id) == Some(Cacheable(entry.value, cache.preview))
          && (cache.bodies, cache.bytes) == CachedEntry(old(cache.bodies), old(cache.bytes), id, entry.value, cache.maxBodies, cache.preview)
        else (cache.bodies, cache.bytes) == old((cache.bodies, cache.bytes))
    {
      if Worth(entry, IsWebSocket(id)) { CacheBody(id, entry.value); }
    }

    /** The byte counter loses the old entry's bytes twice. */
    ghost predicate Drifts(id: Id, body: Body)
      reads cache
    {
      !body.truncated && TotalOf(cache.bodies, id) != 0
      && !Spared(cache.bodies, id, cache.bytes - TotalOf(cache.bodies, id), body.total, cache.maxBodies, cache.preview)
    }

    method EndAnnounced(id: Id, success: bool)
      requires Valid() && id in announced && !Has(pending.bodies, id)
      modifies `announced, `streamed, `meta, `startTimes, `lastSeen, `log
      ensures Valid() && log == old(log) + (if id !in upgrades then [Terminal(id, success)] else [])
      ensures forall x :: Of(x) == if x == id then Ended(old(Of(x))) else old(Of(x))
    {
      if id !in upgrades { Report(id, success); }
      streamed := streamed - {id};
    }

    method EndUnannounced(id: Id)
      requires Valid() && !Has(pending.bodies, id)
      modifies `announced, `upgrades, `streamed, `meta, `startTimes, `lastSeen
      ensures Valid() && forall x :: Of(x) == if x == id then Nothing else old(Of(x))
    {
      streamed := streamed - {id};
      Close(id);
    }

    method CacheBody(id: Id, body: Body)
      requires Valid()
      modifies `drifted, cache
      ensures Valid() && Find(cache.bodies, id) == Some(Cacheable(body, cache.preview))
      ensures (cache.bodies, cache.bytes) == CachedEntry(old(cache.bodies), old(cache.bytes), id, body, cache.maxBodies, cache.preview)
      ensures drifted == (old(drifted) || old(Drifts(id, body)))
    {
      if body.truncated {
        UnavailableExact(cache.bodies, cache.bytes, id, cache.maxBodies);
        cache.CacheUnavailableResponseBody(id);
      } else {
        CacheKept(cache.bodies, cache.bytes, id, body, cache.maxBodies, cache.preview);
        if !drifted { CachedDrift(cache.bodies, cache.bytes, id, body, cache.maxBodies, cache.preview); }
        drifted := drifted || Drifts(id, body);
        cache.CacheResponseBody(id, body);
      }
    }

    method Report(id: Id, success: bool)
      requires Valid() && id in announced && id !in upgrades
      modifies `announced, `meta, `startTimes, `lastSeen, `log
      ensures Valid() && log == old(log) + [Terminal(id, success)]
      ensures forall x :: Of(x) == if x == id then LeftOpen(old(Of(x))) else old(Of(x))
    {
      SessionTerminal(announced, log, id, success);
      ghost var told := log + [Terminal(id, success)];
      FindDeleteAll(startTimes, id);
      FindDeleteAll(meta, id);
      FindDeleteAll(lastSeen, id);
      log := told;
      startTimes := Delete(startTimes, id);
      meta := Delete(meta, id);
      announced := announced - {id};
      lastSeen := Delete(lastSeen, id);
    }

    /** Only a request of this session can be streamed; the answer hands over the body stored here
        and what the main thread still had, `fromMain` bytes. */
    method StreamResourceContent(id: Id, fromMain: nat) returns (found: bool, buffered: nat)
      requires Valid()
      modifies `streamed, pending
      ensures Valid() && found == (id in announced)
      ensures found ==> buffered == old(pending.Held(id)) + fromMain
      ensures forall x :: Of(x) == if found && x == id then old(Of(x)).(streamed := true, holds := false) else old(Of(x))
      ensures forall x :: Find(pending.bodies, x) == if found && x == id then None else Find(old(pending.bodies), x)
    {
      if id !in announced { return false, 0; }
      var stored := pending.Held(id);
      streamed := streamed + {id};
      pending.DropPendingBody(id);
      found, buffered := true, if stored > 0 && fromMain > 0 then stored + fromMain else if fromMain > 0 then fromMain else stored;
    }

    ghost function Grown(id: Id, chunk: Chunk): Body
      reads `streamed, `meta, pending
    {
      Arrived(BodyOf(id), chunk, IsWebSocket(id), pending.preview)
    }
  }

  /** A closed socket keeps neither times nor metadata, but its streaming mark and a body. */
  function LeftOpen(k: Kept): Kept { Nothing.(streamed := k.streamed, holds := k.holds) }

  function Opened(k: Kept, at: int, webSocket: bool, announces: bool): Kept {
    Kept(k.announced || announces, k.upgrade || !announces, k.streamed, k.holds, Some(webSocket), Some(at), Some(at))
  }

  function Answered(k: Kept, webSocket: bool): Kept {
    k.(webSocket := if k.webSocket.Some? then Some(webSocket) else None, upgrade := k.upgrade || webSocket)
  }

  /** An upgrade outlives the HTTP end of its request. */
  function Ended(k: Kept): Kept {
    if k.announced && k.upgrade then k.(streamed := false, holds := false) else Nothing
  }

  /** Data leaves its request newly seen, and holding a body, if it is announced. */
  function Touched(k: Kept, at: int): Kept {
    if k.announced then k.(seen := Some(at), holds := true) else k
  }

  function FetchLeft(e: HttpEvent, k: Kept): Kept {
    match e
    case Requested(_, at, webSocket) => Opened(k, at, webSocket, true)
    case Responded(_, _, _) => k
    case Arriving(_, at, _) => Touched(k, at)
    case Finished(_, _, _, _) => Ended(k)
  }

  function ServeLeft(e: HttpEvent, k: Kept): Kept {
    match e
    case Requested(_, at, webSocket) => Opened(k, at, webSocket, !webSocket)
    case Responded(_, _, webSocket) => Answered(k, webSocket)
    case Arriving(_, at, _) => Touched(k, at)
    case Finished(_, _, _, _) => Ended(k)
  }

  function SocketLeft(e: SocketEvent, k: Kept): Kept {
    match e
    case Created(_, at, _) => k.(announced := true, start := Some(at), seen := Some(at))
    case Frame(_, at) => k.(seen := Some(at))
    case Closed(_, _, _) => LeftOpen(k)
  }

  /** Only what has a time is ever reclaimed by a sweep; */
  lemma ReclaimedIff(k: Kept)
    ensures (exists now :: Swept(k, true, now) == Nothing) <==> k == Nothing || k.seen.Some? || k.start.Some?
  {
    match k.seen
    case Some(at) => assert Swept(k, true, at + 121) == Nothing;
    case None =>
      if k.start.Some? { assert Swept(k, true, k.start.value + 121) == Nothing; }
      assert k == Nothing ==> Swept(k, true, 0) == Nothing;
  }

  /** and what has none stays as it is through every sweep. */
  lemma Timeless(k: Kept, due: bool, now: int)
    requires k.seen.None? && k.start.None?
    ensures Swept(k, due, now) == k
  {
  }

  /** So a closed websocket is reclaimed exactly if it was not streamed and holds no body. */
  lemma ClosedSocketLeft(e: SocketEvent, k: Kept)
    requires e.Closed?
    ensures (exists now :: Swept(SocketLeft(e, k), true, now) == Nothing) <==> !k.streamed && !k.holds
    ensures k.streamed || k.holds ==> forall due, now :: Swept(SocketLeft(e, k), due, now) == SocketLeft(e, k) != Nothing
  {
    ReclaimedIff(SocketLeft(e, k));
    forall due, now | k.streamed || k.holds ensures Swept(SocketLeft(e, k), due, now) == SocketLeft(e, k) {
      Timeless(SocketLeft(e, k), due, now);
    }
  }

  predicate Cleans(e: HttpEvent) { e.Requested? || e.Finished? }

  /** The body at the end of a response: one that comes with the end, or what arrived. */
  function Ending(body: Option<nat>, pending: Option<Body>): Option<Body> {
    if body.Some? then Some(Body(body.value, false, false)) else pending
  }

  predicate Worth(entry: Option<Body>, webSocket: bool) { entry.Some? && !webSocket && !entry.value.liveStreamed }

  /** A body that was given up, or is too large, is known to be unavailable. */
  function Cacheable(b: Body, preview: nat): Body {
    if b.truncated || b.total > preview then Unavailable else b
  }

  /** What the client hears of one event, by what is kept of its request. */
  function FetchTold(e: HttpEvent, k: Kept): seq<Event> {
    match e
    case Requested(id, _, _) => [Announce(id)]
    case Responded(id, _, _) => if k.announced then [Response(id)] else []
    case Arriving(id, _, chunk) => if k.announced then [DataReceived(id, Counted(chunk), k.streamed)] else []
    case Finished(id, _, success, _) => if k.announced && !k.upgrade then [Terminal(id, success)] else []
  }

  function ServeTold(e: HttpEvent, k: Kept): seq<Event> {
    match e
    case Requested(id, _, webSocket) => if webSocket then [] else [Announce(id)]
    case Responded(id, _, webSocket) => if k.announced && !k.upgrade && !webSocket then [Response(id)] else []
    case Arriving(id, _, chunk) => if k.announced then [DataReceived(id, Counted(chunk), k.streamed)] else []
    case Finished(id, _, success, _) => if k.announced && !k.upgrade then [Terminal(id, success)] else []
  }

  function SocketTold(e: SocketEvent): seq<Event> {
    match e
    case Created(id, _, handshake) => if handshake then [Announce(id), WebSocketEvent(id)] else [Announce(id)]
    case Frame(id, _) => [WebSocketEvent(id)]
    case Closed(id, _, failed) => if failed then [WebSocketEvent(id), WebSocketEvent(id)] else [WebSocketEvent(id)]
  }

  /** The cache after an ended body has been put in. */
  function CachedEntry(t: Table<Body>, bytes: int, id: Id, body: Body, maxBodies: nat, preview: nat): (Table<Body>, int) {
    if body.truncated then CachedUnavailable(t, bytes, id, maxBodies) else Cached(t, bytes, id, body, maxBodies, preview)
  }

  lemma CacheKept(t: Table<Body>, bytes: int, id: Id, body: Body, maxBodies: nat, preview: nat)
    requires Unique(t) && maxBodies > 0
    ensures var (u, left) := Cached(t, bytes, id, body, maxBodies, preview);
      Unique(u) && |u| <= maxBodies && Find(u, id) == Some(if body.total > preview then Unavailable else body)
  {
    var r := Evicted(t, bytes - TotalOf(t, id), body.total, maxBodies, preview);
    EvictedIs(t, bytes - TotalOf(t, id), body.total, maxBodies, preview, id);
    if body.total > preview {
      UnavailableExact(r.0, r.1, id, maxBodies);
    } else {
      FindPutAll(r.0, id, body);
    }
  }
}
