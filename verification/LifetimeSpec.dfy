/**
 * The life of a milter and its sessions as a transition system on values: reference counts, the
 * session queue, the events registered with the event loop, and the account of what was acquired
 * and released.
 *
 * Memory is explicit.  A session structure or a queue link is a key of a map and freeing it
 * removes the key; the milter itself is `alive` or not.
 */
module LifetimeSpec {
  import opened Sequences
  import opened Decoder
  import opened SessionMachine

  type SessionId = nat
  type LinkId = nat
  type Handle = nat

  datatype Option<T> = None | Some(value: T)

  /** struct rmilter_session. */
  datatype SessionRec = SessionRec(
    fd: int, parentLink: LinkId, readEv: Option<Handle>, timeoutEv: Option<Handle>,
    refcount: nat, core: Core)

  /** The chunks read for a session, and where they have taken its decoder. */
  datatype Stream = Stream(decoder: State, chunks: seq<seq<Byte>>)

  /** What the event loop does when an event fires: the callback for reading or for the timer, and its user data. */
  datatype Watch = OnRead(session: SessionId) | OnTimer(session: SessionId)

  /** What read() brings. */
  datatype ReadResult = Failed | EndOfStream | Bytes(bytes: seq<Byte>)

  datatype World = World(
    // struct rmilter_milter; `queue` is the list of links, head first
    alive: bool, queue: seq<LinkId>, wannaDie: bool, refcount: nat,
    // the heap: queue links with their data, and session structures
    links: map<LinkId, SessionId>, memory: map<SessionId, SessionRec>,
    // the event loop: registered events
    registered: map<Handle, Watch>,
    // links, sessions and handles from here on were never used
    next: nat,
    // whether the creator still holds its reference
    owned: bool,
    // the account: events added and deleted, descriptors taken over and closed,
    // runs of the milter's destructor, and the stream of each live session
    added: multiset<Handle>, deleted: multiset<Handle>,
    fdsTaken: multiset<int>, fdsClosed: multiset<int>,
    milterDtors: nat, streams: map<SessionId, Stream>)

  // ----- Invariant -----------------------------------------------------------

  /** Event h is registered as the given one. */
  ghost predicate Listens(w: World, h: Option<Handle>, watch: Watch) {
    h.Some? && h.value in w.registered && w.registered[h.value] == watch
  }

  /**
   * A live session: the milter's one reference, a decoder its loop can go on from, its own link in
   * the queue, its two events with the loop.
   */
  ghost predicate Live(w: World, s: SessionId) {
    && s in w.memory && s < w.next && s in w.streams
    && var r := w.memory[s];
    && r.refcount == 1 && Usable(w.streams[s].decoder) && r.core == CoreOf(w.streams[s].decoder)
    && r.parentLink in w.links && w.links[r.parentLink] == s
    && Listens(w, r.readEv, OnRead(s)) && Listens(w, r.timeoutEv, OnTimer(s)) && r.readEv != r.timeoutEv
  }

  /** A queue link: in the queue, and the own link of a live session. */
  ghost predicate Linked(w: World, l: LinkId) {
    && l in w.links && l < w.next && l in w.queue
    && w.links[l] in w.memory && w.memory[w.links[l]].parentLink == l
  }

  /** A registered event: the read event or the timer of a live session. */
  ghost predicate Fires(w: World, h: Handle) {
    && h in w.registered && h < w.next && w.registered[h].session in w.memory
    && var r := w.memory[w.registered[h].session];
    && (if w.registered[h].OnRead? then r.readEv else r.timeoutEv) == Some(h)
  }

  /** The milter's reference count: its live sessions, and the creator until it lets go. */
  ghost predicate CountInv(w: World) {
    && w.refcount == |w.queue| + (if w.owned then 1 else 0)
    && (w.alive <==> w.refcount > 0)
    && w.milterDtors == (if w.alive then 0 else 1)
    && (!w.owned ==> w.wannaDie)
  }

  /** The queue holds each link once; every session, link and event in existence is in order. */
  ghost predicate Inv(w: World) {
    && Distinct(w.queue)
    && (forall i {:trigger w.queue[i]} | 0 <= i < |w.queue| :: w.queue[i] in w.links)
    && (forall s {:trigger Live(w, s)} | s in w.memory :: Live(w, s))
    && (forall s {:trigger s in w.streams} | s in w.streams :: s in w.memory)
    && (forall l {:trigger Linked(w, l)} | l in w.links :: Linked(w, l))
    && (forall h {:trigger Fires(w, h)} | h in w.registered :: Fires(w, h))
    && CountInv(w)
  }

  // ----- Steps ---------------------------------------------------------------

  /** rmilter_create. */
  const CREATED := World(true, [], false, 1, map[], map[], map[], 0, true,
                         multiset{}, multiset{}, multiset{}, multiset{}, 0, map[])

  /** The milter loses a reference, and is freed with the last one. */
  ghost function Released(w: World): World
    requires w.refcount > 0
  {
    var n := w.refcount - 1;
    w.(refcount := n, alive := n > 0, milterDtors := w.milterDtors + if n > 0 then 0 else 1)
  }

  /** The creator's reference is released; the last reference to go runs the milter's destructor. */
  ghost function LetGo(w: World): World
    requires w.refcount > 0
  {
    Released(w.(owned := false))
  }

  /** The descriptor, if it is one that has to be closed. */
  ghost function Descriptor(fd: int): multiset<int> {
    if fd == -1 then multiset{} else multiset{fd}
  }

  /** rmilter_consume_socket on a milter that takes sessions: link, session and two events come into being. */
  ghost function Consumed(w: World, fd: int): World {
    var s, l, re, te := w.next, w.next + 1, w.next + 2, w.next + 3;
    w.(queue := [l] + w.queue, refcount := w.refcount + 1,
       links := w.links[l := s],
       memory := w.memory[s := SessionRec(fd, l, Some(re), Some(te), 1, CoreOf(START))],
       registered := w.registered[re := OnRead(s)][te := OnTimer(s)],
       next := w.next + 4,
       added := w.added + multiset{re} + multiset{te},
       fdsTaken := w.fdsTaken + Descriptor(fd),
       streams := w.streams[s := Stream(START, [])])
  }

  /** rmilter_session_close: the session's events, descriptor, link and memory go, and its reference on the milter. */
  ghost function Closed(w: World, s: SessionId): World
    requires s in w.memory && w.memory[s].readEv.Some? && w.memory[s].timeoutEv.Some? && w.refcount > 0
  {
    var r, n := w.memory[s], w.refcount - 1;
    w.(queue := RemoveLink(w.queue, r.parentLink),
       links := w.links - {r.parentLink},
       memory := w.memory - {s},
       registered := w.registered - {r.readEv.value} - {r.timeoutEv.value},
       deleted := w.deleted + multiset{r.readEv.value} + multiset{r.timeoutEv.value},
       fdsClosed := w.fdsClosed + Descriptor(r.fd),
       refcount := n, alive := n > 0, milterDtors := w.milterDtors + (if n > 0 then 0 else 1),
       streams := w.streams - {s})
  }

  /** What closing a session needs: the session, its events, its link and the milter are all there. */
  ghost predicate Closable(w: World, s: SessionId) {
    && s in w.memory && w.memory[s].refcount == 1
    && w.memory[s].readEv.Some? && w.memory[s].readEv.value in w.registered
    && w.memory[s].timeoutEv.Some? && w.memory[s].timeoutEv.value in w.registered
    && w.memory[s].readEv != w.memory[s].timeoutEv
    && w.memory[s].parentLink in w.links && w.alive && w.refcount > 0
    && (w.refcount == 1 ==> w.queue == [w.memory[s].parentLink])
  }

  /** What reading for a session needs: the session, and a decoder the loop can go on from. */
  ghost predicate Feedable(w: World, s: SessionId) {
    && s in w.memory && s in w.streams
    && Usable(w.streams[s].decoder) && w.memory[s].core == CoreOf(w.streams[s].decoder)
  }

  lemma LiveIsClosable(w: World, s: SessionId)
    requires Inv(w) && s in w.memory
    ensures Closable(w, s) && Feedable(w, s) && w.memory[s].parentLink in w.queue
  {
    assert Live(w, s);
    var l := w.memory[s].parentLink;
    assert Linked(w, l);
    if w.refcount == 1 {
      assert |w.queue| == 1 && w.queue[0] == l;
    }
  }

  /** rmilter_session_want_read with input: the session's state machine runs over the chunk. */
  ghost function Fed(w: World, s: SessionId, bytes: seq<Byte>): World
    requires s in w.memory && s in w.streams
  {
    var d := AsWritten(w.streams[s].decoder, bytes);
    w.(memory := w.memory[s := w.memory[s].(core := CoreOf(d))],
       streams := w.streams[s := Stream(d, w.streams[s].chunks + [bytes])])
  }

  /** Where in the queue link l is, from position i on; the end if it is not there. */
  function FindLink(q: seq<LinkId>, l: LinkId, i: nat): (k: nat)
    requires i <= |q|
    ensures i <= k <= |q| && (k < |q| ==> q[k] == l) && forall j | i <= j < k :: q[j] != l
    decreases |q| - i
  {
    if i == |q| || q[i] == l then i else FindLink(q, l, i + 1)
  }

  /** g_queue_delete_link. */
  function RemoveLink(q: seq<LinkId>, l: LinkId): seq<LinkId> {
    var k := FindLink(q, l, 0);
    if k < |q| then q[..k] + q[k + 1..] else q
  }

  lemma RemoveLinkKeeps(q: seq<LinkId>, l: LinkId)
    requires l in q && Distinct(q)
    ensures |RemoveLink(q, l)| == |q| - 1 && Distinct(RemoveLink(q, l))
    ensures forall x :: x in RemoveLink(q, l) <==> x in q && x != l
  {
    var k := FindLink(q, l, 0);
    var a, b := q[..k], q[k + 1..];
    assert q == a + [l] + b && RemoveLink(q, l) == a + b;
    MiddleOut(a, l, b);
  }

  /** The order of the others is kept. */
  lemma RemoveLinkAt(q: seq<LinkId>, i: nat)
    requires Distinct(q) && i < |q|
    ensures RemoveLink(q, q[i]) == q[..i] + q[i + 1..]
  {
    assert FindLink(q, q[i], 0) == i;
  }

  lemma MiddleOut(a: seq<LinkId>, l: LinkId, b: seq<LinkId>)
    requires Distinct(a + [l] + b)
    ensures Distinct(a + b) && forall x :: x in a + b <==> x in a + [l] + b && x != l
  {
    var q, r := a + [l] + b, a + b;
    forall i, j | 0 <= i < j < |r| ensures r[i] != r[j] {
      assert r[i] == q[if i < |a| then i else i + 1] && r[j] == q[if j < |a| then j else j + 1];
    }
    assert q[|a|] == l;
    forall i | 0 <= i < |r| ensures r[i] != l {
      assert r[i] == q[if i < |a| then i else i + 1];
    }
  }

  // ----- Each step keeps the invariant ---------------------------------------

  lemma CreatedInv()
    ensures Inv(CREATED)
  {
  }

  lemma ConsumedInv(w: World, fd: int)
    requires Inv(w) && w.alive
    ensures Inv(Consumed(w, fd))
  {
    var w' := Consumed(w, fd);
    ConsumedQueue(w, fd);
    forall s | s in w'.memory ensures Live(w', s) {
      ConsumedLive(w, fd, s);
    }
    forall l | l in w'.links ensures Linked(w', l) {
      ConsumedLinked(w, fd, l);
    }
    forall h | h in w'.registered ensures Fires(w', h) {
      ConsumedFires(w, fd, h);
    }
  }

  lemma ConsumedLive(w: World, fd: int, s: SessionId)
    requires Inv(w) && s in Consumed(w, fd).memory
    ensures Live(Consumed(w, fd), s)
  {
    Unused(w);
    assert s != w.next ==> Live(w, s);
  }

  lemma ConsumedLinked(w: World, fd: int, l: LinkId)
    requires Inv(w) && l in Consumed(w, fd).links
    ensures Linked(Consumed(w, fd), l)
  {
    Unused(w);
    assert Consumed(w, fd).queue[0] == w.next + 1;
    assert l != w.next + 1 ==> Linked(w, l) && l in [w.next + 1] + w.queue;
  }

  lemma ConsumedFires(w: World, fd: int, h: Handle)
    requires Inv(w) && h in Consumed(w, fd).registered
    ensures Fires(Consumed(w, fd), h)
  {
    Unused(w);
    assert h < w.next ==> Fires(w, h);
  }

  lemma ConsumedQueue(w: World, fd: int)
    requires Inv(w)
    ensures Distinct(Consumed(w, fd).queue)
  {
    Unused(w);
    var q := Consumed(w, fd).queue;
    forall i, j | 0 <= i < j < |q| ensures q[i] != q[j] {
      assert q[j] == w.queue[j - 1];
    }
  }

  /** What was never used is nowhere. */
  lemma Unused(w: World)
    requires Inv(w)
    ensures forall x | w.next <= x :: x !in w.memory && x !in w.links && x !in w.registered && x !in w.queue
  {
    forall x | w.next <= x ensures x !in w.memory && x !in w.links && x !in w.registered && x !in w.queue {
      assert x in w.memory ==> Live(w, x);
      assert x in w.links ==> Linked(w, x);
      assert x in w.registered ==> Fires(w, x);
    }
  }

  lemma ClosedInv(w: World, s: SessionId)
    requires Inv(w) && s in w.memory
    ensures Closable(w, s) && Inv(Closed(w, s))
  {
    LiveIsClosable(w, s);
    var w', r := Closed(w, s), w.memory[s];
    RemoveLinkKeeps(w.queue, r.parentLink);
    assert Live(w, s);
    forall x | x in w'.memory ensures Live(w', x) {
      assert Live(w, x);
    }
    forall l | l in w'.links ensures Linked(w', l) {
      assert Linked(w, l);
    }
    forall h | h in w'.registered ensures Fires(w', h) {
      assert Fires(w, h);
    }
    forall i | 0 <= i < |w'.queue| ensures w'.queue[i] in w'.links {
      assert w'.queue[i] in w.queue && w'.queue[i] != r.parentLink;
    }
  }

  lemma FedInv(w: World, s: SessionId, bytes: seq<Byte>)
    requires Inv(w) && s in w.memory && s in w.streams
    ensures Inv(Fed(w, s, bytes))
  {
    var w' := Fed(w, s, bytes);
    assert Live(w, s);
    AsWrittenUsable(w.streams[s].decoder, bytes);
    forall x | x in w'.memory ensures Live(w', x) {
      assert Live(w, x);
    }
    forall l | l in w'.links ensures Linked(w', l) {
      assert Linked(w, l);
    }
    forall h | h in w'.registered ensures Fires(w', h) {
      assert Fires(w, h);
    }
  }

  // ----- Destroying the milter -----------------------------------------------

  /** The session whose link is the tail of the queue. */
  ghost function TailSession(w: World): Option<SessionId> {
    if w.queue != [] && w.queue[|w.queue| - 1] in w.links then Some(w.links[w.queue[|w.queue| - 1]]) else None
  }

  /** The session at the tail of the queue is closed, if there is one. */
  ghost function TailClosed(w: World): World {
    var s := TailSession(w);
    if s.Some? && Closable(w, s.value) then Closed(w, s.value) else w
  }

  ghost function TailsClosed(w: World, n: nat): World
    decreases n
  {
    if n == 0 then w else TailsClosed(TailClosed(w), n - 1)
  }

  lemma TailClosable(w: World)
    requires Inv(w) && w.queue != []
    ensures TailSession(w).Some? && Closable(w, TailSession(w).value)
    ensures w.memory[TailSession(w).value].parentLink == w.queue[|w.queue| - 1]
  {
    assert Linked(w, w.queue[|w.queue| - 1]);
    LiveIsClosable(w, TailSession(w).value);
  }

  lemma TailClosedInv(w: World)
    requires Inv(w) && w.queue != []
    ensures Inv(TailClosed(w)) && TailClosed(w).queue == w.queue[..|w.queue| - 1]
    ensures TailClosed(w).owned == w.owned && TailClosed(w).wannaDie == w.wannaDie && TailClosed(w).next == w.next
    ensures TailClosed(w).fdsTaken == w.fdsTaken
    ensures TailClosed(w).memory.Keys <= w.memory.Keys
  {
    TailClosable(w);
    ClosedInv(w, TailSession(w).value);
    RemoveLast(w.queue);
  }

  lemma RemoveLast(q: seq<LinkId>)
    requires q != [] && Distinct(q)
    ensures RemoveLink(q, q[|q| - 1]) == q[..|q| - 1]
  {
    assert FindLink(q, q[|q| - 1], 0) == |q| - 1;
  }

  lemma {:induction false} TailsClosedInv(w: World, n: nat)
    requires Inv(w) && n <= |w.queue|
    ensures var r := TailsClosed(w, n);
      && Inv(r) && |r.queue| == |w.queue| - n && r.owned == w.owned && r.wannaDie == w.wannaDie
      && r.next == w.next && r.fdsTaken == w.fdsTaken
    decreases n
  {
    if n > 0 {
      TailClosedInv(w);
      TailsClosedInv(TailClosed(w), n - 1);
    }
  }

  /** rmilter_destroy, repaired to step towards the head: closes every session, from the tail on, and lets go. */
  ghost function Destroyed(w: World): World {
    var r := TailsClosed(w.(wannaDie := true), |w.queue|);
    if r.refcount > 0 then LetGo(r) else r
  }

  /** rmilter_destroy as written: it starts at the tail and steps to the next link, of which the tail has none. */
  ghost function DestroyedAsWritten(w: World): World {
    var r := TailClosed(w.(wannaDie := true));
    if r.refcount > 0 then LetGo(r) else r
  }

  lemma DyingInv(w: World)
    requires Inv(w)
    ensures Inv(w.(wannaDie := true))
  {
    SameSessions(w, w.(wannaDie := true));
  }

  lemma SameSessions(w: World, w': World)
    requires Inv(w) && CountInv(w')
    requires w'.queue == w.queue && w'.links == w.links && w'.memory == w.memory
    requires w'.registered == w.registered && w'.next == w.next && w'.streams == w.streams
    ensures Inv(w')
  {
    forall s | s in w'.memory ensures Live(w', s) {
      assert Live(w, s);
    }
    forall l | l in w'.links ensures Linked(w', l) {
      assert Linked(w, l);
    }
    forall h | h in w'.registered ensures Fires(w', h) {
      assert Fires(w, h);
    }
  }

  lemma LetGoInv(w: World)
    requires Inv(w) && w.owned && w.wannaDie
    ensures w.refcount > 0 && Inv(LetGo(w))
    ensures LetGo(w).alive <==> w.queue != []
  {
    SameSessions(w, LetGo(w));
  }

  /** A milter that has been freed has left nothing behind. */
  lemma FreedLeavesNothing(w: World)
    requires Inv(w) && !w.alive
    ensures w.queue == [] && w.links == map[] && w.memory == map[] && w.registered == map[] && w.milterDtors == 1
  {
    forall l ensures l !in w.links {
      assert l in w.links ==> Linked(w, l);
    }
    forall s ensures s !in w.memory {
      assert s in w.memory ==> Live(w, s);
    }
    forall h ensures h !in w.registered {
      assert h in w.registered ==> Fires(w, h);
    }
  }

  /** Destroying closes every session, however many there are, and then frees the milter. */
  lemma DestroyedFreesAll(w: World)
    requires Inv(w) && w.owned
    ensures var r := Destroyed(w);
      && Inv(r) && r.wannaDie && !r.alive && !r.owned && r.next == w.next
      && r.queue == [] && r.memory == map[] && r.registered == map[] && r.fdsTaken == w.fdsTaken
  {
    var w' := w.(wannaDie := true);
    DyingInv(w);
    TailsClosedInv(w', |w.queue|);
    LetGoInv(TailsClosed(w', |w.queue|));
    FreedLeavesNothing(Destroyed(w));
  }

  /** What the code as written leaves: all sessions but the one at the tail. */
  lemma DestroyedAsWrittenInv(w: World)
    requires Inv(w) && w.owned
    ensures var r := DestroyedAsWritten(w);
      && Inv(r) && r.wannaDie
      && r.queue == (if w.queue == [] then [] else w.queue[..|w.queue| - 1])
      && (r.alive <==> |w.queue| > 1)
      && r.memory.Keys <= w.memory.Keys
  {
    var w' := w.(wannaDie := true);
    DyingInv(w);
    if w.queue != [] {
      TailClosedInv(w');
    }
    LetGoInv(TailClosed(w'));
  }

  /** The code as written destroys the milter and all its sessions exactly when there is at most one. */
  lemma DestroyedAsWrittenExactly(w: World)
    requires Inv(w) && w.owned
    ensures DestroyedAsWritten(w) == Destroyed(w) <==> |w.queue| <= 1
  {
    DestroyedAsWrittenInv(w);
    DestroyedFreesAll(w);
    var w' := w.(wannaDie := true);
    assert TailsClosed(w', 0) == w' && TailsClosed(w', 1) == TailsClosed(TailClosed(w'), 0) == TailClosed(w');
  }

  // ----- Whole runs ----------------------------------------------------------

  datatype Event =
    | Consume(fd: int)
    | Readable(h: Handle, result: ReadResult)
    | TimedOut(h: Handle)
    | Destroy(asWritten: bool)

  /** The event loop only reports events registered with it, and the creator does not use a milter it let go of. */
  ghost predicate CanHappen(w: World, e: Event) {
    match e
    case Consume(_) => w.alive
    case Readable(h, _) => h in w.registered && w.registered[h].OnRead?
    case TimedOut(h) => h in w.registered && w.registered[h].OnTimer?
    case Destroy(_) => w.owned
  }

  /** What an event leads to; one that cannot happen is passed over. */
  ghost function After(w: World, e: Event): World {
    if !CanHappen(w, e) then w
    else
      match e
      case Consume(fd) => if w.wannaDie then w else Consumed(w, fd)
      case Readable(h, result) =>
        var s := w.registered[h].session;
        if result.Bytes? then (if s in w.memory && s in w.streams then Fed(w, s, result.bytes) else w)
        else if Closable(w, s) then Closed(w, s) else w
      case TimedOut(h) =>
        var s := w.registered[h].session;
        if Closable(w, s) then Closed(w, s) else w
      case Destroy(asWritten) => if asWritten then DestroyedAsWritten(w) else Destroyed(w)
  }

  /** No event breaks the invariant, and none that closes a session finds it, its link or its events gone. */
  lemma AfterInv(w: World, e: Event)
    requires Inv(w)
    ensures Inv(After(w, e))
    ensures CanHappen(w, e) && (e.Readable? || e.TimedOut?) ==>
      Closable(w, w.registered[e.h].session) && Feedable(w, w.registered[e.h].session)
  {
    if CanHappen(w, e) {
      match e
      case Consume(fd) => ConsumedInv(w, fd);
      case Readable(h, result) =>
        assert Fires(w, h);
        LiveEvent(w, w.registered[h].session, result.Bytes?, if result.Bytes? then result.bytes else []);
      case TimedOut(h) =>
        assert Fires(w, h);
        LiveEvent(w, w.registered[h].session, false, []);
      case Destroy(asWritten) =>
        DestroyedFreesAll(w);
        DestroyedAsWrittenInv(w);
    }
  }

  lemma LiveEvent(w: World, s: SessionId, input: bool, bytes: seq<Byte>)
    requires Inv(w) && s in w.memory
    ensures Closable(w, s) && Feedable(w, s)
    ensures Inv(if input then Fed(w, s, bytes) else Closed(w, s))
  {
    LiveIsClosable(w, s);
    if input {
      FedInv(w, s, bytes);
    } else {
      ClosedInv(w, s);
    }
  }

  ghost function Run(w: World, events: seq<Event>): World
    decreases |events|
  {
    if events == [] then w else Run(After(w, events[0]), events[1..])
  }

  /** The invariant holds in every reachable state. */
  lemma {:induction false} RunInv(w: World, events: seq<Event>)
    requires Inv(w)
    ensures Inv(Run(w, events))
    decreases |events|
  {
    if events != [] {
      AfterInv(w, events[0]);
      RunInv(After(w, events[0]), events[1..]);
    }
  }

  /** Every event that is still registered, whenever it fires, finds its session alive and its own. */
  lemma RegisteredCanFire(events: seq<Event>, h: Handle)
    requires h in Run(CREATED, events).registered
    ensures var w := Run(CREATED, events);
      && (CanHappen(w, Readable(h, Failed)) || CanHappen(w, TimedOut(h)))
      && Closable(w, w.registered[h].session) && Feedable(w, w.registered[h].session)
      && h !in w.deleted
  {
    CreatedInv();
    RunInv(CREATED, events);
    var w := Run(CREATED, events);
    assert Fires(w, h);
    LiveIsClosable(w, w.registered[h].session);
    RunAccount(CREATED, events);
    HeldIsNotReleased(w.added, w.deleted, w.registered.Keys, w.next, h);
  }

  /** The queue has as many links as there are live sessions. */
  lemma {:induction false} QueueCounts(w: World)
    requires Inv(w)
    ensures |w.memory| == |w.queue|
    decreases |w.queue|
  {
    if w.queue == [] {
      forall s ensures s !in w.memory {
        assert s in w.memory ==> Live(w, s);
        assert s in w.memory ==> Linked(w, w.memory[s].parentLink);
      }
      assert w.memory == map[];
    } else {
      TailClosable(w);
      TailClosedInv(w);
      var s := TailSession(w).value;
      assert TailClosed(w).memory == w.memory - {s};
      assert w.memory.Keys == TailClosed(w).memory.Keys + {s};
      QueueCounts(TailClosed(w));
    }
  }

  /**
   * In every reachable state the milter's reference count is the number of live sessions, and one
   * for the creator until it lets go; each live session has one place in the queue, its own link's.
   */
  lemma RefcountCounts(events: seq<Event>)
    ensures var w := Run(CREATED, events);
      && w.refcount == |w.memory| + (if w.owned then 1 else 0)
      && (w.alive <==> w.memory != map[] || w.owned)
      && |w.queue| == |w.memory|
      && (forall s | s in w.memory :: w.memory[s].parentLink in w.queue)
      && forall i {:trigger w.queue[i]} | 0 <= i < |w.queue| ::
           && w.queue[i] in w.links && w.links[w.queue[i]] in w.memory
           && w.memory[w.links[w.queue[i]]].parentLink == w.queue[i]
  {
    CreatedInv();
    RunInv(CREATED, events);
    var w := Run(CREATED, events);
    QueueCounts(w);
    forall s | s in w.memory ensures w.memory[s].parentLink in w.queue {
      LiveIsClosable(w, s);
    }
    forall i | 0 <= i < |w.queue| ensures Linked(w, w.queue[i]) {
    }
  }

  /** Once the milter has been told to die, no session is ever added. */
  lemma {:induction false} NoneAddedAfterDestroy(w: World, events: seq<Event>)
    requires Inv(w) && w.wannaDie
    ensures Run(w, events).wannaDie && Run(w, events).memory.Keys <= w.memory.Keys
    decreases |events|
  {
    if events != [] {
      AfterInv(w, events[0]);
      DyingShrinks(w, events[0]);
      NoneAddedAfterDestroy(After(w, events[0]), events[1..]);
    }
  }

  lemma DyingShrinks(w: World, e: Event)
    requires Inv(w) && w.wannaDie
    ensures After(w, e).wannaDie && After(w, e).memory.Keys <= w.memory.Keys
  {
    if CanHappen(w, e) && e.Destroy? {
      DestroyedFreesAll(w);
      DestroyedAsWrittenInv(w);
    }
  }

  // ----- The sessions' streams -----------------------------------------------

  /** Session s's decoder is where the chunks read for it, and no others, take it. */
  ghost predicate Decoded(w: World, s: SessionId)
    requires s in w.streams
  {
    w.streams[s].decoder == AsWrittenAll(START, w.streams[s].chunks)
  }

  /** So it is for each live session. */
  ghost predicate StreamInv(w: World) {
    && w.streams.Keys == w.memory.Keys
    && forall s {:trigger Decoded(w, s)} | s in w.memory :: Decoded(w, s)
  }

  /** Session s is as it was. */
  lemma StreamKept(w: World, w': World, s: SessionId)
    requires StreamInv(w) && s in w.memory && s in w'.memory && s in w'.streams
    requires w'.streams[s] == w.streams[s]
    ensures Decoded(w', s)
  {
    assert Decoded(w, s);
  }

  lemma ConsumedStream(w: World, fd: int)
    requires StreamInv(w) && w.next !in w.memory
    ensures StreamInv(Consumed(w, fd))
  {
    var w' := Consumed(w, fd);
    forall s | s in w'.memory ensures Decoded(w', s) {
      if s == w.next {
        assert AsWrittenAll(START, []) == START;
      } else {
        StreamKept(w, w', s);
      }
    }
  }

  lemma ClosedStream(w: World, s: SessionId)
    requires StreamInv(w) && Closable(w, s)
    ensures StreamInv(Closed(w, s))
  {
    var w' := Closed(w, s);
    forall x | x in w'.memory ensures Decoded(w', x) {
      StreamKept(w, w', x);
    }
  }

  lemma FedStream(w: World, s: SessionId, bytes: seq<Byte>)
    requires StreamInv(w) && s in w.memory
    ensures StreamInv(Fed(w, s, bytes))
  {
    var w' := Fed(w, s, bytes);
    forall x | x in w'.memory ensures Decoded(w', x) {
      if x == s {
        assert Decoded(w, s);
        AsWrittenSnoc(START, w.streams[s].chunks, bytes);
      } else {
        StreamKept(w, w', x);
      }
    }
  }

  lemma TailClosedStream(w: World)
    requires StreamInv(w)
    ensures StreamInv(TailClosed(w))
  {
    var s := TailSession(w);
    if s.Some? && Closable(w, s.value) {
      ClosedStream(w, s.value);
    }
  }

  /** Fields of the milter alone do not matter. */
  lemma SameStream(w: World, w': World)
    requires StreamInv(w) && w'.memory == w.memory && w'.streams == w.streams
    ensures StreamInv(w')
  {
    forall s | s in w'.memory ensures Decoded(w', s) {
      StreamKept(w, w', s);
    }
  }

  lemma {:induction false} TailsClosedStream(w: World, n: nat)
    requires StreamInv(w)
    ensures StreamInv(TailsClosed(w, n))
    decreases n
  {
    if n > 0 {
      TailClosedStream(w);
      TailsClosedStream(TailClosed(w), n - 1);
    }
  }

  lemma DestroyedStream(w: World)
    requires StreamInv(w)
    ensures StreamInv(Destroyed(w))
  {
    var w' := w.(wannaDie := true);
    SameStream(w, w');
    TailsClosedStream(w', |w.queue|);
    SameStream(TailsClosed(w', |w.queue|), Destroyed(w));
  }

  lemma DestroyedAsWrittenStream(w: World)
    requires StreamInv(w)
    ensures StreamInv(DestroyedAsWritten(w))
  {
    var w' := w.(wannaDie := true);
    SameStream(w, w');
    TailClosedStream(w');
    SameStream(TailClosed(w'), DestroyedAsWritten(w));
  }

  lemma AfterStream(w: World, e: Event)
    requires StreamInv(w) && w.next !in w.memory
    ensures StreamInv(After(w, e))
  {
    if CanHappen(w, e) {
      match e
      case Consume(fd) => ConsumedStream(w, fd);
      case Readable(h, result) => SessionStream(w, w.registered[h].session, result);
      case TimedOut(h) => SessionStream(w, w.registered[h].session, Failed);
      case Destroy(_) =>
        DestroyedStream(w);
        DestroyedAsWrittenStream(w);
    }
  }

  lemma SessionStream(w: World, s: SessionId, result: ReadResult)
    requires StreamInv(w)
    ensures result.Bytes? && s in w.memory ==> StreamInv(Fed(w, s, result.bytes))
    ensures !result.Bytes? && Closable(w, s) ==> StreamInv(Closed(w, s))
  {
    if result.Bytes? && s in w.memory {
      FedStream(w, s, result.bytes);
    } else if Closable(w, s) {
      ClosedStream(w, s);
    }
  }

  /** Sessions do not disturb each other: over any run, each live session has decoded its own stream. */
  lemma {:induction false} RunStream(w: World, events: seq<Event>)
    requires Inv(w) && StreamInv(w)
    ensures StreamInv(Run(w, events))
    decreases |events|
  {
    if events != [] {
      Unused(w);
      AfterStream(w, events[0]);
      AfterInv(w, events[0]);
      RunStream(After(w, events[0]), events[1..]);
    }
  }

  // ----- The account of what was acquired and released -----------------------

  /** Everything acquired, each thing once, is either still held or was released, once. */
  ghost predicate Balanced(acquired: multiset<nat>, released: multiset<nat>, held: set<nat>, next: nat) {
    && (forall x {:trigger acquired[x]} | x in acquired :: acquired[x] == 1 && x < next)
    && acquired == released + multiset(held)
  }

  ghost predicate EventsInv(w: World) {
    Balanced(w.added, w.deleted, w.registered.Keys, w.next)
  }

  /** The live sessions that hold descriptor f. */
  ghost function Holders(memory: map<SessionId, SessionRec>, f: int): set<SessionId> {
    set s | s in memory && memory[s].fd == f
  }

  /** Descriptor f was closed as often as it was taken over, not counting the sessions that still hold it. */
  ghost predicate Accounted(w: World, f: int) {
    w.fdsTaken[f] == w.fdsClosed[f] + if f == -1 then 0 else |Holders(w.memory, f)|
  }

  ghost predicate DescriptorsInv(w: World) {
    && w.fdsTaken[-1] == 0
    && forall f {:trigger Accounted(w, f)} :: Accounted(w, f)
  }

  ghost predicate AccountInv(w: World) {
    EventsInv(w) && DescriptorsInv(w)
  }

  lemma NotHeld(acquired: multiset<nat>, released: multiset<nat>, held: set<nat>, next: nat)
    requires Balanced(acquired, released, held, next)
    ensures forall x | next <= x :: x !in held
  {
    forall x | next <= x ensures x !in held {
      assert x !in acquired;
      assert acquired[x] == released[x] + multiset(held)[x];
    }
  }

  lemma Acquire(acquired: multiset<nat>, released: multiset<nat>, held: set<nat>, next: nat, x: nat, next': nat)
    requires Balanced(acquired, released, held, next) && next <= x < next'
    ensures Balanced(acquired + multiset{x}, released, held + {x}, next')
  {
    assert x !in acquired;
    NotHeld(acquired, released, held, next);
    assert multiset(held + {x}) == multiset(held) + multiset{x};
  }

  lemma Release(acquired: multiset<nat>, released: multiset<nat>, held: set<nat>, next: nat, x: nat)
    requires Balanced(acquired, released, held, next) && x in held
    ensures Balanced(acquired, released + multiset{x}, held - {x}, next)
  {
    assert multiset(held) == multiset(held - {x}) + multiset{x};
  }

  lemma AcquireTwo(acquired: multiset<nat>, released: multiset<nat>, held: set<nat>, next: nat,
                   x: nat, y: nat, next': nat)
    requires Balanced(acquired, released, held, next) && next <= x < y < next'
    ensures Balanced(acquired + multiset{x} + multiset{y}, released, held + {x} + {y}, next')
  {
    Acquire(acquired, released, held, next, x, y);
    Acquire(acquired + multiset{x}, released, held + {x}, y, y, next');
  }

  lemma ConsumedAccount(w: World, fd: int)
    requires AccountInv(w) && w.next !in w.memory
    ensures AccountInv(Consumed(w, fd))
  {
    EventsAccount(w, fd);
    DescriptorAccount(w, fd);
  }

  lemma EventsAccount(w: World, fd: int)
    requires EventsInv(w)
    ensures EventsInv(Consumed(w, fd))
  {
    AcquireTwo(w.added, w.deleted, w.registered.Keys, w.next, w.next + 2, w.next + 3, w.next + 4);
    assert Consumed(w, fd).registered.Keys == w.registered.Keys + {w.next + 2} + {w.next + 3};
  }

  lemma DescriptorAccount(w: World, fd: int)
    requires DescriptorsInv(w) && w.next !in w.memory
    ensures DescriptorsInv(Consumed(w, fd))
  {
    var w' := Consumed(w, fd);
    forall f ensures Accounted(w', f) {
      assert Accounted(w, f);
      HolderAdded(w.memory, w.next, w'.memory[w.next], f);
    }
  }

  lemma HolderAdded(memory: map<SessionId, SessionRec>, s: SessionId, r: SessionRec, f: int)
    requires s !in memory
    ensures |Holders(memory[s := r], f)| == |Holders(memory, f)| + if f == r.fd then 1 else 0
  {
    var before, after := Holders(memory, f), Holders(memory[s := r], f);
    assert s !in before;
    if f == r.fd {
      assert after == before + {s};
    } else {
      assert after == before;
    }
  }

  lemma ClosedAccount(w: World, s: SessionId)
    requires AccountInv(w) && Closable(w, s)
    ensures AccountInv(Closed(w, s))
  {
    ClosedEvents(w, s);
    ClosedDescriptor(w, s);
  }

  lemma ClosedEvents(w: World, s: SessionId)
    requires EventsInv(w) && Closable(w, s)
    ensures EventsInv(Closed(w, s))
  {
    var re, te := w.memory[s].readEv.value, w.memory[s].timeoutEv.value;
    Release(w.added, w.deleted, w.registered.Keys, w.next, re);
    Release(w.added, w.deleted + multiset{re}, w.registered.Keys - {re}, w.next, te);
    assert Closed(w, s).registered.Keys == w.registered.Keys - {re} - {te};
  }

  lemma ClosedDescriptor(w: World, s: SessionId)
    requires DescriptorsInv(w) && Closable(w, s)
    ensures DescriptorsInv(Closed(w, s))
  {
    var w' := Closed(w, s);
    forall f ensures Accounted(w', f) {
      assert Accounted(w, f);
      HolderRemoved(w.memory, s, f);
    }
    assert Accounted(w, -1);
  }

  lemma HolderRemoved(memory: map<SessionId, SessionRec>, s: SessionId, f: int)
    requires s in memory
    ensures |Holders(memory, f)| == |Holders(memory - {s}, f)| + if f == memory[s].fd then 1 else 0
  {
    var m := memory - {s};
    assert s !in Holders(m, f);
    if f == memory[s].fd {
      assert Holders(memory, f) == Holders(m, f) + {s};
    } else {
      assert Holders(memory, f) == Holders(m, f);
    }
  }

  lemma SameDescriptors(w: World, w': World)
    requires DescriptorsInv(w) && w'.fdsTaken == w.fdsTaken && w'.fdsClosed == w.fdsClosed
    requires w'.memory.Keys == w.memory.Keys && forall s | s in w.memory :: w'.memory[s].fd == w.memory[s].fd
    ensures DescriptorsInv(w')
  {
    forall f ensures Accounted(w', f) {
      assert Accounted(w, f);
      assert Holders(w'.memory, f) == Holders(w.memory, f);
    }
  }

  lemma TailClosedAccount(w: World)
    requires AccountInv(w)
    ensures AccountInv(TailClosed(w))
  {
    var s := TailSession(w);
    if s.Some? && Closable(w, s.value) {
      ClosedAccount(w, s.value);
    }
  }

  lemma {:induction false} TailsClosedAccount(w: World, n: nat) returns (r: World)
    requires AccountInv(w)
    ensures r == TailsClosed(w, n) && AccountInv(r)
    decreases n
  {
    if n == 0 {
      r := w;
    } else {
      var v := TailAccount(w, n);
      r := TailsClosedAccount(v, n - 1);
    }
  }

  lemma TailAccount(w: World, n: nat) returns (v: World)
    requires AccountInv(w) && n > 0
    ensures AccountInv(v) && TailsClosed(w, n) == TailsClosed(v, n - 1)
  {
    TailClosedAccount(w);
    v := TailClosed(w);
  }

  lemma AfterAccount(w: World, e: Event)
    requires AccountInv(w) && w.next !in w.memory
    ensures AccountInv(After(w, e))
  {
    if CanHappen(w, e) {
      match e
      case Consume(fd) => ConsumedAccount(w, fd);
      case Readable(h, result) => SessionAccount(w, w.registered[h].session, result);
      case TimedOut(h) => SessionAccount(w, w.registered[h].session, Failed);
      case Destroy(asWritten) =>
        DestroyedAccount(w);
    }
  }

  lemma DestroyedAccount(w: World)
    requires AccountInv(w)
    ensures AccountInv(Destroyed(w)) && AccountInv(DestroyedAsWritten(w))
  {
    var w' := w.(wannaDie := true);
    SameDescriptors(w, w');
    var r := TailsClosedAccount(w', |w.queue|);
    TailClosedAccount(w');
    if r.refcount > 0 {
      SameDescriptors(r, LetGo(r));
    }
    if TailClosed(w').refcount > 0 {
      SameDescriptors(TailClosed(w'), LetGo(TailClosed(w')));
    }
  }

  lemma SessionAccount(w: World, s: SessionId, result: ReadResult)
    requires AccountInv(w)
    ensures result.Bytes? && s in w.memory && s in w.streams ==> AccountInv(Fed(w, s, result.bytes))
    ensures !result.Bytes? && Closable(w, s) ==> AccountInv(Closed(w, s))
  {
    if result.Bytes? {
      if s in w.memory && s in w.streams {
        SameDescriptors(w, Fed(w, s, result.bytes));
      }
    } else if Closable(w, s) {
      ClosedAccount(w, s);
    }
  }

  lemma {:induction false} RunAccount(w: World, events: seq<Event>)
    requires Inv(w) && AccountInv(w)
    ensures AccountInv(Run(w, events))
    decreases |events|
  {
    if events != [] {
      Unused(w);
      AfterAccount(w, events[0]);
      AfterInv(w, events[0]);
      RunAccount(After(w, events[0]), events[1..]);
    }
  }

  /**
   * The account of every run: each event added was deleted once, unless it is still registered;
   * each descriptor was closed as often as it was taken over, not counting the live sessions that
   * hold it; and a freed milter has left nothing registered, no session, and was freed once.
   */
  lemma RunReleasesAll(events: seq<Event>)
    ensures var w := Run(CREATED, events);
      && (forall h | h in w.added :: w.added[h] == 1 && w.deleted[h] == if h in w.registered then 0 else 1)
      && w.deleted <= w.added
      && (forall f | f != -1 :: w.fdsTaken[f] == w.fdsClosed[f] + |Holders(w.memory, f)|)
      && w.fdsTaken[-1] == w.fdsClosed[-1] == 0
      && (!w.alive ==> w.registered == map[] && w.memory == map[] && w.milterDtors == 1)
  {
    CreatedInv();
    forall f ensures Accounted(CREATED, f) {
    }
    RunInv(CREATED, events);
    RunAccount(CREATED, events);
    AccountMeans(Run(CREATED, events));
  }

  lemma AccountMeans(w: World)
    requires Inv(w) && AccountInv(w)
    ensures forall h | h in w.added :: w.added[h] == 1 && w.deleted[h] == if h in w.registered then 0 else 1
    ensures w.deleted <= w.added
    ensures forall f | f != -1 :: w.fdsTaken[f] == w.fdsClosed[f] + |Holders(w.memory, f)|
    ensures w.fdsTaken[-1] == w.fdsClosed[-1] == 0
    ensures !w.alive ==> w.registered == map[] && w.memory == map[] && w.milterDtors == 1
  {
    ReleasedOnce(w.added, w.deleted, w.registered.Keys, w.next);
    forall f | f != -1 ensures w.fdsTaken[f] == w.fdsClosed[f] + |Holders(w.memory, f)| {
      assert Accounted(w, f);
    }
    assert Accounted(w, -1);
    if !w.alive {
      FreedLeavesNothing(w);
    }
  }

  lemma HeldIsNotReleased(acquired: multiset<nat>, released: multiset<nat>, held: set<nat>, next: nat, x: nat)
    requires Balanced(acquired, released, held, next) && x in held
    ensures x !in released
  {
    assert acquired[x] == released[x] + multiset(held)[x];
    assert x in acquired;
  }

  lemma ReleasedOnce(acquired: multiset<nat>, released: multiset<nat>, held: set<nat>, next: nat)
    requires Balanced(acquired, released, held, next)
    ensures released <= acquired
    ensures forall x | x in acquired :: acquired[x] == 1 && released[x] == if x in held then 0 else 1
  {
    forall x | x in acquired ensures released[x] == if x in held then 0 else 1 {
      assert acquired[x] == released[x] + multiset(held)[x];
    }
  }

  // ----- The calls that delete a session's events ----------------------------

  /** What del_read and del_timer are handed: nothing, the data of some event loop, or an event. */
  datatype Pointer = Null | LoopData(loop: nat) | OneEvent(handle: Handle)

  /** A call of del_read or del_timer, with the arguments in the order of the callback's parameters. */
  datatype DelCall = DelCall(privData: Pointer, evData: Pointer)

  /**
   * The events left after a call to the loop whose data is `data`; nothing if the call is misdirected.
   * A null event is let pass, and otherwise the loop wants its own data and one of its events.
   */
  function EventsAfter(events: set<Handle>, data: Pointer, call: DelCall): Option<set<Handle>> {
    if call.evData.Null? then Some(events)
    else if call.privData == data && call.evData.OneEvent? && call.evData.handle in events
    then Some(events - {call.evData.handle})
    else None
  }

  function EventsAfterAll(events: set<Handle>, data: Pointer, calls: seq<DelCall>): Option<set<Handle>> {
    if calls == [] then Some(events)
    else
      var rest := EventsAfter(events, data, calls[0]);
      if rest.Some? then EventsAfterAll(rest.value, data, calls[1..]) else None
  }

  /** The call in rmilter_session_close: as written, the two arguments are in the other order. */
  function CallFromClose(data: Pointer, h: Handle, inOrder: bool): DelCall {
    if inOrder then DelCall(data, OneEvent(h)) else DelCall(OneEvent(h), data)
  }

  /** The destructor's call for an event field of the session. */
  function CallFromDtor(data: Pointer, h: Option<Handle>): seq<DelCall> {
    if h.Some? then [DelCall(data, OneEvent(h.value))] else []
  }

  /** All calls for a session that is closed: as written, the fields are not cleared before the destructor runs. */
  function CallsToClose(data: Pointer, r: SessionRec, inOrder: bool, cleared: bool): seq<DelCall>
    requires r.readEv.Some? && r.timeoutEv.Some?
  {
    [CallFromClose(data, r.readEv.value, inOrder), CallFromClose(data, r.timeoutEv.value, inOrder)]
    + CallFromDtor(data, if cleared then None else r.readEv)
    + CallFromDtor(data, if cleared then None else r.timeoutEv)
  }

  lemma FirstTwoCalls(events: set<Handle>, data: Pointer, calls: seq<DelCall>)
    requires |calls| >= 2
    ensures var one := EventsAfter(events, data, calls[0]);
      EventsAfterAll(events, data, calls) ==
      if one.None? || EventsAfter(one.value, data, calls[1]).None? then None
      else EventsAfterAll(EventsAfter(one.value, data, calls[1]).value, data, calls[2..])
  {
    assert calls[1..][0] == calls[1] && calls[1..][1..] == calls[2..];
  }

  /** The destructor's two calls, on a session whose event fields were not cleared. */
  lemma DtorCalls(events: set<Handle>, data: Pointer, re: Handle, te: Handle)
    ensures var calls := CallFromDtor(data, Some(re)) + CallFromDtor(data, Some(te));
      EventsAfterAll(events, data, calls) ==
      if re in events && te in events && re != te then Some(events - {re} - {te}) else None
  {
    var calls := CallFromDtor(data, Some(re)) + CallFromDtor(data, Some(te));
    FirstTwoCalls(events, data, calls);
    assert calls[2..] == [];
  }

  /**
   * The calls leave the events that closing leaves if and only if both repairs are made, the arguments
   * in the order of the parameters and the fields cleared, or neither is and the loop's data is null.
   */
  lemma CloseDeletesExactly(w: World, s: SessionId, data: Pointer, inOrder: bool, cleared: bool)
    requires Closable(w, s)
    ensures var left := EventsAfterAll(w.registered.Keys, data, CallsToClose(data, w.memory[s], inOrder, cleared));
      left == Some(Closed(w, s).registered.Keys) <==> (inOrder && cleared) || (!inOrder && !cleared && data.Null?)
  {
    var r, events := w.memory[s], w.registered.Keys;
    var re, te := r.readEv.value, r.timeoutEv.value;
    var calls := CallsToClose(data, r, inOrder, cleared);
    FirstTwoCalls(events, data, calls);
    assert Closed(w, s).registered.Keys == events - {re} - {te};
    assert re in events;
    if cleared {
      assert calls[2..] == [];
    } else {
      assert calls[2..] == CallFromDtor(data, Some(re)) + CallFromDtor(data, Some(te));
      DtorCalls(events, data, re, te);
      DtorCalls(events - {re} - {te}, data, re, te);
    }
  }

  /**
   * The code as written closes a session if and only if its event loop has no data: the misdirected
   * calls are then calls on a null event, and the destructor's delete the events.  For any other loop
   * one of the calls is misdirected.
   */
  lemma CloseAsWrittenExactly(w: World, s: SessionId, data: Pointer)
    requires Closable(w, s)
    ensures var left := EventsAfterAll(w.registered.Keys, data, CallsToClose(data, w.memory[s], false, false));
      && (left.Some? <==> data.Null?)
      && (left.Some? ==> left.value == Closed(w, s).registered.Keys)
  {
    CloseDeletesExactly(w, s, data, false, false);
    var calls := CallsToClose(data, w.memory[s], false, false);
    FirstTwoCalls(w.registered.Keys, data, calls);
  }

  // ----- Runs in which the code as written falls short -----------------------

  lemma Consumes(w: World, fd: int, events: seq<Event>)
    requires w.alive && !w.wannaDie
    ensures Run(w, [Consume(fd)] + events) == Run(Consumed(w, fd), events)
  {
    assert ([Consume(fd)] + events)[1..] == events;
  }

  /**
   * Two sockets are taken over and the milter is destroyed as written: it stays, let go of by its
   * creator, and so does one of the sessions.
   */
  lemma DestroyAsWrittenExample() returns (w: World, after: World)
    ensures w == Run(CREATED, [Consume(3), Consume(4)]) && after == After(w, Destroy(true))
    ensures w.owned && |w.memory| == 2
    ensures after.alive && !after.owned && |after.memory| == 1
    ensures !After(w, Destroy(false)).alive
  {
    w := TwoConsumed();
    after := OneLeft(w);
    NoneLeft(w);
  }

  lemma TwoConsumed() returns (two: World)
    ensures two == Run(CREATED, [Consume(3), Consume(4)])
    ensures Inv(two) && two.owned && |two.queue| == |two.memory| == 2
  {
    var one := Consumed(CREATED, 3);
    two := Consumed(one, 4);
    assert [Consume(3)] + [Consume(4)] == [Consume(3), Consume(4)];
    assert [Consume(4)] + [] == [Consume(4)];
    Consumes(CREATED, 3, [Consume(4)]);
    Consumes(one, 4, []);
    CreatedInv();
    ConsumedInv(CREATED, 3);
    ConsumedInv(one, 4);
    QueueCounts(two);
  }

  lemma OneLeft(w: World) returns (after: World)
    requires Inv(w) && w.owned && |w.queue| == 2
    ensures after == After(w, Destroy(true))
    ensures after.alive && !after.owned && |after.memory| == 1
  {
    after := AllButOne(w);
    QueueCounts(after);
  }

  lemma NoneLeft(w: World)
    requires Inv(w) && w.owned
    ensures !After(w, Destroy(false)).alive
  {
    DestroyedFreesAll(w);
  }

  lemma AllButOne(w: World) returns (after: World)
    requires Inv(w) && w.owned && |w.queue| > 1
    ensures after == After(w, Destroy(true))
    ensures Inv(after) && after.alive && !after.owned && |after.queue| == |w.queue| - 1
  {
    after := DestroyedAsWritten(w);
    DestroyedAsWrittenInv(w);
    DestroyedLetsGo(w);
  }

  lemma DestroyedLetsGo(w: World)
    requires Inv(w) && w.owned
    ensures !DestroyedAsWritten(w).owned
  {
    var w' := w.(wannaDie := true);
    DyingInv(w);
    if w.queue != [] {
      TailClosedInv(w');
    }
    LetGoInv(TailClosed(w'));
  }

  /** One socket is taken over: the calls that close its session as written do not go through a loop with data. */
  lemma CloseAsWrittenExample()
    ensures var w := Run(CREATED, [Consume(3)]);
      && w.memory.Keys == {0} && Closable(w, 0)
      && EventsAfterAll(w.registered.Keys, LoopData(0), CallsToClose(LoopData(0), w.memory[0], false, false)) == None
      && EventsAfterAll(w.registered.Keys, Null, CallsToClose(Null, w.memory[0], false, false)) == Some({})
  {
    var one := Consumed(CREATED, 3);
    assert [Consume(3)] + [] == [Consume(3)];
    Consumes(CREATED, 3, []);
    CreatedInv();
    ConsumedInv(CREATED, 3);
    LiveIsClosable(one, 0);
    CloseAsWrittenExactly(one, 0, LoopData(0));
    CloseAsWrittenExactly(one, 0, Null);
    assert Closed(one, 0).registered.Keys == {};
  }
}
