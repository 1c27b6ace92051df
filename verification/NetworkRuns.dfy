/** Runs of the Network domain: what a response ends as, and the three states that the
    domain's own bookkeeping does not promise. */
module NetworkRuns {
  import opened Options
  import opened InsertionMap
  import opened NetworkTrace
  import opened NetworkBodies
  import opened NetworkDomain

  /** An event of a fetch, or of a request to the program's own server. */
  method Happens(d: Domain, served: bool, e: HttpEvent)
    requires d.Valid() && d.enabled && (e.Requested? || e.Responded? ==> !e.webSocket)
    requires !d.Of(e.id).upgrade
    modifies d, d.pending, d.cache
    ensures d.Valid() && d.enabled && d.log == old(d.log) + FetchTold(e, old(d.Of(e.id)))
    ensures d.Of(e.id) == Swept((if served then ServeLeft else FetchLeft)(e, old(d.Of(e.id))), Cleans(e) && old(d.Due(e.at)), e.at)
    ensures e.Finished? && old(d.Entry(e.id, e.body)).Some? ==>
      Find(d.cache.bodies, e.id) == old(Some(Cacheable(d.Entry(e.id, e.body).value, d.cache.preview)))
    ensures e.Arriving? && e.id in old(d.announced) ==> Find(d.pending.bodies, e.id) == old(Some(d.Grown(e.id, e.chunk)))
    ensures (e.Finished? ==> old(d.Entry(e.id, e.body)).None?) ==> (d.cache.bodies, d.cache.bytes) == old((d.cache.bodies, d.cache.bytes))
  {
    if served { d.OnServeEvent(e); } else { d.OnFetchEvent(e); }
  }

  /** What the client hears of chunks it does not stream. */
  function Told(id: Id, chunks: seq<Chunk>): seq<Event> {
    if chunks == [] then [] else Told(id, chunks[..|chunks| - 1]) + [DataReceived(id, Counted(chunks[|chunks| - 1]), false)]
  }

  /** A response from its request to its end, over the network alone: the client hears of each
      part of it in order, and its body is available exactly if every chunk fit, and then has
      the bytes carried, whatever was only counted. */
  method Download(d: Domain, id: Id, at: int, chunks: seq<Chunk>, served: bool, success: bool)
    requires d.Valid() && d.enabled && d.Of(id) == Nothing && chunks != []
    modifies d, d.pending, d.cache
    ensures d.Valid() && d.Of(id) == Nothing
    ensures d.log == old(d.log) + ([Announce(id), Response(id)] + Told(id, chunks) + [Terminal(id, success)])
    ensures Find(d.cache.bodies, id)
      == Some(if AllFit(chunks, d.cache.preview) then Body(CarriedBy(chunks), false, false) else Unavailable)
  {
    EndsAs(chunks, d.cache.preview);
    Joined(d.log, [Announce(id), Response(id)], Told(id, chunks), [Terminal(id, success)]);
    Begin(d, id, at, served);
    Receive(d, id, at, chunks, served);
    End(d, id, at, served, success);
  }

  lemma Joined(a: seq<Event>, b: seq<Event>, c: seq<Event>, d: seq<Event>)
    ensures a + b + c + d == a + (b + c + d)
  {
  }

  lemma EndsAs(chunks: seq<Chunk>, preview: nat)
    ensures var b := ArrivedAll(Body(0, false, false), chunks, false, preview);
      !b.liveStreamed && Cacheable(b, preview) == if AllFit(chunks, preview) then Body(CarriedBy(chunks), false, false) else Unavailable
  {
    ArrivedIs(chunks, preview);
    if AllFit(chunks, preview) { CarriedFits(chunks, preview); }
  }

  method End(d: Domain, id: Id, at: int, served: bool, success: bool)
    requires d.Valid() && d.enabled && d.Of(id) == Kept(true, false, false, true, Some(false), Some(at), Some(at))
    requires !Find(d.pending.bodies, id).value.liveStreamed
    modifies d, d.pending, d.cache
    ensures d.Valid() && d.Of(id) == Nothing && d.log == old(d.log) + [Terminal(id, success)]
    ensures Find(d.cache.bodies, id) == old(Some(Cacheable(Find(d.pending.bodies, id).value, d.cache.preview)))
  {
    assert !d.IsWebSocket(id) && id in d.announced;
    Happens(d, served, Finished(id, at, success, None));
  }

  /** A request, and then its response. */
  method Begin(d: Domain, id: Id, at: int, served: bool)
    requires d.Valid() && d.enabled && d.Of(id) == Nothing
    modifies d, d.pending, d.cache
    ensures d.Valid() && d.enabled && d.Of(id) == Kept(true, false, false, false, Some(false), Some(at), Some(at))
    ensures d.log == old(d.log) + [Announce(id), Response(id)] && (d.cache.bodies, d.cache.bytes) == old((d.cache.bodies, d.cache.bytes))
  {
    Happens(d, served, Requested(id, at, false));
    assert d.Of(id) == Kept(true, false, false, false, Some(false), Some(at), Some(at));
    Happens(d, served, Responded(id, at, false));
  }

  /** One more chunk. */
  method Continue(d: Domain, id: Id, at: int, chunk: Chunk, served: bool)
    requires d.Valid() && d.enabled && d.Of(id) == Kept(true, false, false, d.Of(id).holds, Some(false), Some(at), Some(at))
    modifies d, d.pending, d.cache
    ensures d.Valid() && d.enabled && d.Of(id) == old(d.Of(id)).(holds := true)
    ensures Find(d.pending.bodies, id) == Some(Arrived(old(d.BodyOf(id)), chunk, false, d.pending.preview))
    ensures d.log == old(d.log) + [DataReceived(id, Counted(chunk), false)]
  {
    Happens(d, served, Arriving(id, at, chunk));
  }

  lemma OneMore(id: Id, chunks: seq<Chunk>, i: nat, preview: nat)
    requires i < |chunks|
    ensures Told(id, chunks[..i + 1]) == Told(id, chunks[..i]) + [DataReceived(id, Counted(chunks[i]), false)]
    ensures ArrivedAll(Body(0, false, false), chunks[..i + 1], false, preview)
      == Arrived(ArrivedAll(Body(0, false, false), chunks[..i], false, preview), chunks[i], false, preview)
  {
    assert chunks[..i + 1][..i] == chunks[..i];
  }

  method Receive(d: Domain, id: Id, at: int, chunks: seq<Chunk>, served: bool)
    requires d.Valid() && d.enabled && chunks != []
    requires d.Of(id) == Kept(true, false, false, false, Some(false), Some(at), Some(at))
    modifies d, d.pending, d.cache
    ensures d.Valid() && d.enabled && d.Of(id) == Kept(true, false, false, true, Some(false), Some(at), Some(at))
    ensures Find(d.pending.bodies, id) == Some(ArrivedAll(Body(0, false, false), chunks, false, d.pending.preview))
    ensures d.log == old(d.log) + Told(id, chunks)
  {
    for i := 0 to |chunks|
      invariant d.Valid() && d.enabled
      invariant d.Of(id) == Kept(true, false, false, i > 0, Some(false), Some(at), Some(at))
      invariant d.BodyOf(id) == ArrivedAll(Body(0, false, false), chunks[..i], false, d.pending.preview)
      invariant d.log == old(d.log) + Told(id, chunks[..i])
    {
      OneMore(id, chunks, i, d.pending.preview);
      Continue(d, id, at, chunks[i], served);
    }
    assert chunks[..|chunks|] == chunks;
  }

  /** A body of placeholders alone is cached as an available one, of no bytes. */
  method PlaceholdersAvailable(d: Domain, id: Id, at: int, n: nat)
    requires d.Valid() && d.enabled && d.Of(id) == Nothing && 0 < 2 * n <= d.pending.preview
    modifies d, d.pending, d.cache
    ensures Find(d.cache.bodies, id) == Some(Body(0, false, false)) && Body(0, false, false) != Unavailable
  {
    var chunks := [Chunk(0, n)];
    assert chunks[..0] == [] && FitsAt(chunks, 0, d.pending.preview);
    Download(d, id, at, chunks, false, true);
  }

  /** Whatever happens to other sockets, and however much time passes, what has no time stays. */
  method Elapse(d: Domain, id: Id, later: seq<SocketEvent>)
    requires d.Valid() && d.enabled && d.Of(id).seen.None? && d.Of(id).start.None?
    requires forall e :: e in later ==> e.id != id
    modifies d, d.pending, d.cache
    ensures d.Valid() && d.Of(id) == old(d.Of(id)) && Find(d.pending.bodies, id) == Find(old(d.pending.bodies), id)
  {
    for i := 0 to |later|
      invariant d.Valid() && d.enabled && d.Of(id) == old(d.Of(id))
      invariant Find(d.pending.bodies, id) == Find(old(d.pending.bodies), id)
    {
      d.OnWebSocketEvent(later[i]);
    }
  }

  /** An announced websocket that was seen at `at`. */
  function Opening(at: int): Kept { Nothing.(announced := true, start := Some(at), seen := Some(at)) }

  method Open(d: Domain, id: Id, at: int)
    requires d.Valid() && d.enabled && d.Of(id) == Nothing
    modifies d, d.pending, d.cache
    ensures d.Valid() && d.enabled && d.Of(id) == Opening(at)
  {
    d.OnWebSocketEvent(Created(id, at, false));
  }

  function Frames(id: Id, n: nat): (r: seq<Event>) { seq(n, _ => WebSocketEvent(id)) }

  /** Events of an open websocket. */
  method Talk(d: Domain, id: Id, at: int, n: nat)
    requires d.Valid() && d.enabled && d.Of(id) == Opening(at)
    modifies d, d.pending, d.cache
    ensures d.Valid() && d.enabled && d.Of(id) == Opening(at) && d.log == old(d.log) + Frames(id, n)
  {
    for i := 0 to n
      invariant d.Valid() && d.enabled && d.Of(id) == Opening(at) && d.log == old(d.log) + Frames(id, i)
    {
      d.OnWebSocketEvent(Frame(id, at));
      assert Frames(id, i) + [WebSocketEvent(id)] == Frames(id, i + 1);
    }
  }

  lemma Heard(a: seq<Event>, id: Id, b: seq<Event>, handshake: bool, n: nat, failed: bool)
    requires b == SocketTold(Created(id, 0, handshake))
    ensures a + b + Frames(id, n) + SocketTold(Closed(id, 0, failed))
      == a + [Announce(id)] + Frames(id, (if handshake then 1 else 0) + n + (if failed then 2 else 1))
  {
  }

  /** A websocket from its creation to its end: the client hears of it, of its handshake, of
      every frame, of a failure and of the end; nothing of it is left. */
  method Conversation(d: Domain, id: Id, at: int, handshake: bool, frames: nat, failed: bool)
    requires d.Valid() && d.enabled && d.Of(id) == Nothing
    modifies d, d.pending, d.cache
    ensures d.Valid() && d.Of(id) == Nothing
    ensures d.log == old(d.log) + [Announce(id)] + Frames(id, (if handshake then 1 else 0) + frames + (if failed then 2 else 1))
  {
    Heard(d.log, id, SocketTold(Created(id, 0, handshake)), handshake, frames, failed);
    d.OnWebSocketEvent(Created(id, at, handshake));
    Talk(d, id, at, frames);
    d.OnWebSocketEvent(Closed(id, at, failed));
  }

  function Upgraded(at: int): Kept { Kept(true, true, false, false, Some(true), Some(at), Some(at)) }

  /** A request of the program's own server that becomes a websocket. */
  method UpgradeBegins(d: Domain, id: Id, at: int)
    requires d.Valid() && d.enabled && d.Of(id) == Nothing
    modifies d, d.pending, d.cache
    ensures d.Valid() && d.enabled && d.log == old(d.log) + [Announce(id)] && d.Of(id) == Upgraded(at)
  {
    d.OnServeEvent(Requested(id, at, true));
    assert d.Of(id) == Upgraded(at).(announced := false);
    d.OnWebSocketEvent(Created(id, at, false));
  }

  /** Its response and its end are not told. */
  method UpgradeAnswered(d: Domain, id: Id, at: int, success: bool)
    requires d.Valid() && d.enabled && d.Of(id) == Upgraded(at)
    modifies d, d.pending, d.cache
    ensures d.Valid() && d.enabled && d.log == old(d.log) && d.Of(id) == Upgraded(at)
  {
    d.OnServeEvent(Responded(id, at, true));
    assert d.Of(id) == Upgraded(at);
    d.OnServeEvent(Finished(id, at, success, None));
  }

  /** So of the whole upgrade the websocket alone is told of; both ends over, nothing is left. */
  method Upgrade(d: Domain, id: Id, at: int, success: bool, failed: bool)
    requires d.Valid() && d.enabled && d.Of(id) == Nothing
    modifies d, d.pending, d.cache
    ensures d.Valid() && d.Of(id) == Nothing
    ensures d.log == old(d.log) + [Announce(id)] + Frames(id, if failed then 2 else 1)
  {
    UpgradeBegins(d, id, at);
    UpgradeAnswered(d, id, at, success);
    d.OnWebSocketEvent(Closed(id, at, failed));
  }

  /** Nor is it where the response alone shows that the request is an upgrade. */
  method UpgradeByResponse(d: Domain, id: Id, at: int, success: bool, failed: bool)
    requires d.Valid() && d.enabled && d.Of(id) == Nothing
    modifies d, d.pending, d.cache
    ensures d.Valid() && d.Of(id) == Nothing
    ensures d.log == old(d.log) + [Announce(id)] + Frames(id, if failed then 2 else 1)
  {
    d.OnServeEvent(Requested(id, at, false));
    assert d.Of(id) == Upgraded(at).(upgrade := false, webSocket := Some(false));
    UpgradeAnsweredLate(d, id, at, success);
    d.OnWebSocketEvent(Closed(id, at, failed));
  }

  method UpgradeAnsweredLate(d: Domain, id: Id, at: int, success: bool)
    requires d.Valid() && d.enabled && d.Of(id) == Upgraded(at).(upgrade := false, webSocket := Some(false))
    modifies d, d.pending, d.cache
    ensures d.Valid() && d.enabled && d.log == old(d.log) && d.Of(id) == Upgraded(at)
  {
    d.OnServeEvent(Responded(id, at, true));
    assert d.Of(id) == Upgraded(at);
    d.OnServeEvent(Finished(id, at, success, None));
  }

  /** A request stays as long as something of it is heard every two minutes. */
  method StaysAlive(d: Domain, id: Id, other: Id, at: int, later: int, now: int, chunk: Chunk, served: bool)
    requires d.Valid() && d.enabled && d.Of(id) == Nothing && other != id
    requires at <= later && now - later <= 120
    modifies d, d.pending, d.cache
    ensures d.Valid() && d.Of(id) == Kept(true, false, false, true, Some(false), Some(at), Some(later))
  {
    Begin(d, id, at, served);
    Happens(d, served, Arriving(id, later, chunk));
    assert d.Of(id) == Kept(true, false, false, true, Some(false), Some(at), Some(later));
    d.OnWebSocketEvent(Frame(other, now));
  }

  method StreamFrom(d: Domain, id: Id, at: int, fromMain: nat, served: bool)
    requires d.Valid() && d.enabled && d.Of(id) == Nothing
    modifies d, d.pending, d.cache
    ensures d.Valid() && d.enabled && d.Of(id) == Kept(true, false, true, false, Some(false), Some(at), Some(at))
    ensures d.log == old(d.log) + [Announce(id), Response(id)]
    ensures (d.cache.bodies, d.cache.bytes) == old((d.cache.bodies, d.cache.bytes))
  {
    Begin(d, id, at, served);
    var found, buffered := d.StreamResourceContent(id, fromMain);
    assert found && buffered == fromMain;
  }

  /** What the client has asked to stream comes to it, and is not cached. */
  method StreamedChunk(d: Domain, id: Id, at: int, fromMain: nat, chunk: Chunk, served: bool, success: bool)
    requires d.Valid() && d.enabled && d.Of(id) == Nothing
    modifies d, d.pending, d.cache
    ensures d.Valid() && d.Of(id) == Nothing && (d.cache.bodies, d.cache.bytes) == old((d.cache.bodies, d.cache.bytes))
    ensures d.log == old(d.log) + [Announce(id), Response(id), DataReceived(id, Counted(chunk), true), Terminal(id, success)]
  {
    StreamFrom(d, id, at, fromMain, served);
    Happens(d, served, Arriving(id, at, chunk));
    assert Find(d.pending.bodies, id) == Some(Body(0, false, true));
    Happens(d, served, Finished(id, at, success, None));
  }

  /** A closed one, and whatever happens later. */
  method CloseAndElapse(d: Domain, id: Id, at: int, later: seq<SocketEvent>)
    requires d.Valid() && d.enabled && forall e :: e in later ==> e.id != id
    modifies d, d.pending, d.cache
    ensures d.Valid() && d.Of(id) == LeftOpen(old(d.Of(id))) && Find(d.pending.bodies, id) == Find(old(d.pending.bodies), id)
  {
    d.OnWebSocketEvent(Closed(id, at, false));
    Elapse(d, id, later);
  }

  /** A websocket that got data leaves its body behind, counted, */
  method SocketKeepsBody(d: Domain, id: Id, at: int, n: nat, later: seq<SocketEvent>)
    requires d.Valid() && d.enabled && d.Of(id) == Nothing && 2 * n <= d.pending.preview
    requires forall e :: e in later ==> e.id != id
    modifies d, d.pending, d.cache
    ensures d.Valid() && d.Of(id) == Nothing.(holds := true)
    ensures Find(d.pending.bodies, id) == Some(Body(n, false, false)) && n <= d.pending.bytes
  {
    Open(d, id, at);
    d.OnFetchEvent(Arriving(id, at, Chunk(n, 0)));
    assert d.Of(id).holds && !d.Of(id).streamed;
    CloseAndElapse(d, id, at, later);
    TotalDelete(d.pending.bodies, id, SizeOf);
  }

  /** and one that was streamed its mark. */
  method SocketKeepsMark(d: Domain, id: Id, at: int, fromMain: nat, later: seq<SocketEvent>)
    requires d.Valid() && d.enabled && d.Of(id) == Nothing
    requires forall e :: e in later ==> e.id != id
    modifies d, d.pending, d.cache
    ensures d.Valid() && d.Of(id) == Nothing.(streamed := true)
  {
    Open(d, id, at);
    var found, buffered := d.StreamResourceContent(id, fromMain);
    assert d.Of(id) == Opening(at).(streamed := true);
    CloseAndElapse(d, id, at, later);
  }

  /** Two responses fill the cache; the first request comes again and ends with a larger body.
      The cache is over its limit and its counter shows six bytes. */
  method CounterDrifts(x: Id, y: Id, maxBodies: nat, preview: nat) returns (d: Domain)
    requires x != y && maxBodies > 2 && preview > 5
    ensures fresh(d) && d.Valid() && d.drifted && d.cache.preview == preview
    ensures d.cache.bytes == 6 && Total(d.cache.bodies, SizeOf) == preview + 2
  {
    d := new Domain(maxBodies, preview);
    d.Enable();
    var a, b, c := Body(preview - 4, false, false), Body(4, false, false), Body(preview - 2, false, false);
    Whole(d, x, preview - 4);
    CachedFirst(x, a, maxBodies, preview);
    Whole(d, y, 4);
    CachedSecond(x, a, y, b, maxBodies, preview);
    RecachedOverrun(x, y, maxBodies, preview);
    Whole(d, x, preview - 2);
  }

  /** A request whose end brings its body. */
  method Whole(d: Domain, id: Id, n: nat)
    requires d.Valid() && d.enabled && d.Of(id) == Nothing
    modifies d, d.pending, d.cache
    ensures d.Valid() && d.enabled
    ensures forall z :: old(d.Of(z)) == Nothing ==> d.Of(z) == Nothing
    ensures (d.cache.bodies, d.cache.bytes)
      == Cached(old(d.cache.bodies), old(d.cache.bytes), id, Body(n, false, false), d.cache.maxBodies, d.cache.preview)
    ensures d.drifted == (old(d.drifted) || old(d.Drifts(id, Body(n, false, false))))
  {
    d.OnFetchEvent(Requested(id, 0, false));
    assert d.Of(id).webSocket == Some(false);
    d.OnFetchEvent(Finished(id, 0, true, Some(n)));
  }
}
