/**
 * What a milter does for its clients, told from the events alone: which clients it serves, in which
 * order, with which descriptor, and what it has read from each.
 *
 * A client is a socket taken over.  Nothing here knows of queues, links, references or decoders; the
 * transition system is proved to serve exactly these clients.
 */
module Service {
  import opened Sequences
  import opened Decoder
  import opened SessionMachine
  import opened LifetimeSpec
  import opened EventEffects
  import StreamCuts

  /** The client that came as the `number`-th, from zero on. */
  datatype Client = Client(number: nat, fd: int, chunks: seq<seq<Byte>>)

  /** The clients served, the last to come first; how many came; whether the milter was told to die. */
  datatype Clients = Clients(served: seq<Client>, arrived: nat, closing: bool)

  // The identities given out to a client: its session's, its link's, and its two events'.

  function SessionOf(number: nat): SessionId {
    4 * number
  }

  function LinkOf(number: nat): LinkId {
    4 * number + 1
  }

  function ReadEventOf(number: nat): Handle {
    4 * number + 2
  }

  function TimerOf(number: nat): Handle {
    4 * number + 3
  }

  /** The clients after one more event. */
  ghost function Served(a: Clients, e: Event): Clients {
    match e
    case Consume(fd) =>
      if a.closing then a
      else a.(served := [Client(a.arrived, fd, [])] + a.served, arrived := a.arrived + 1)
    case Readable(h, Bytes(bytes)) => a.(served := Heard(a.served, h, bytes))
    case Readable(h, _) => a.(served := Staying(a.served, false, h))
    case TimedOut(h) => a.(served := Staying(a.served, true, h))
    case Destroy(asWritten) =>
      if a.closing then a
      else a.(closing := true, served := if asWritten && a.served != [] then a.served[..|a.served| - 1] else [])
  }

  ghost function Heard(served: seq<Client>, h: Handle, bytes: seq<Byte>): (r: seq<Client>) {
    seq(|served|, i requires 0 <= i < |served| =>
      if ReadEventOf(served[i].number) == h then served[i].(chunks := served[i].chunks + [bytes]) else served[i])
  }

  /** The clients but the one whose timer, or whose read event, is h. */
  ghost function Staying(served: seq<Client>, timer: bool, h: Handle): seq<Client> {
    if served == [] then []
    else (if EventOf(served[0], timer) == h then [] else [served[0]]) + Staying(served[1..], timer, h)
  }

  ghost function EventOf(c: Client, timer: bool): Handle {
    if timer then TimerOf(c.number) else ReadEventOf(c.number)
  }

  /** The clients after the events. */
  ghost function ServedAfter(events: seq<Event>): Clients {
    if events == [] then Clients([], 0, false)
    else Served(ServedAfter(events[..|events| - 1]), events[|events| - 1])
  }

  // ----- The transition system serves these clients --------------------------

  /** Link l stands for client c: its session, with its descriptor, its events and what it has read. */
  ghost predicate StandsFor(w: World, l: LinkId, c: Client) {
    var s := SessionOf(c.number);
    && l == LinkOf(c.number) && l in w.links && w.links[l] == s
    && s in w.memory && s in w.streams
    && w.memory[s].parentLink == l && w.memory[s].fd == c.fd
    && w.memory[s].readEv == Some(ReadEventOf(c.number)) && w.memory[s].timeoutEv == Some(TimerOf(c.number))
    && w.streams[s].chunks == c.chunks
  }

  /** The queue lists the clients served, the last to come at its head. */
  ghost predicate Serves(w: World, a: Clients) {
    && w.next == 4 * a.arrived && w.wannaDie == a.closing && w.owned == !a.closing
    && |w.queue| == |a.served|
    && (forall i {:trigger a.served[i]} | 0 <= i < |a.served| :: StandsFor(w, w.queue[i], a.served[i]))
    && (forall i {:trigger a.served[i]} | 0 <= i < |a.served| :: a.served[i].number < a.arrived)
    && forall i, j | 0 <= i < j < |a.served| :: a.served[i].number > a.served[j].number
  }

  /** Any session alive is some client's. */
  lemma ServedBy(w: World, a: Clients, s: SessionId) returns (i: nat)
    requires Inv(w) && Serves(w, a) && s in w.memory
    ensures i < |a.served| && s == SessionOf(a.served[i].number) && w.queue[i] == w.memory[s].parentLink
  {
    assert Live(w, s);
    var l := w.memory[s].parentLink;
    assert Linked(w, l);
    i :| 0 <= i < |w.queue| && w.queue[i] == l;
    assert StandsFor(w, w.queue[i], a.served[i]);
  }

  /** The sessions and links of the clients are as they were. */
  lemma StillStandsFor(w: World, w': World, l: LinkId, c: Client)
    requires StandsFor(w, l, c)
    requires l in w'.links && w'.links[l] == w.links[l]
    requires var s := SessionOf(c.number);
      s in w'.memory && w'.memory[s] == w.memory[s] && s in w'.streams && w'.streams[s] == w.streams[s]
    ensures StandsFor(w', l, c)
  {
  }

  lemma ServesConsume(w: World, a: Clients, fd: int)
    requires Inv(w) && Serves(w, a)
    ensures Serves(After(w, Consume(fd)), Served(a, Consume(fd)))
  {
    if !w.wannaDie {
      assert w.alive;
      var w', a' := After(w, Consume(fd)), Served(a, Consume(fd));
      TakingAddsSession(w, fd);
      TakingAddsLinkAndEvents(w, fd);
      assert StandsFor(w', w'.queue[0], a'.served[0]);
      forall i | 0 <= i < |a'.served| ensures StandsFor(w', w'.queue[i], a'.served[i]) {
        if i > 0 {
          assert a'.served[i] == a.served[i - 1] && w'.queue[i] == w.queue[i - 1];
          StillStandsFor(w, w', w.queue[i - 1], a.served[i - 1]);
        }
      }
    }
  }

  /** The events registered are the clients'. */
  lemma EventsAreClients(w: World, a: Clients, timer: bool, h: Handle)
    requires Inv(w) && Serves(w, a)
    ensures (h in w.registered && w.registered[h].OnTimer? == timer) <==>
      exists i :: 0 <= i < |a.served| && EventOf(a.served[i], timer) == h
  {
    if h in w.registered && w.registered[h].OnTimer? == timer {
      assert Fires(w, h);
      var i := ServedBy(w, a, w.registered[h].session);
      assert StandsFor(w, w.queue[i], a.served[i]);
      assert EventOf(a.served[i], timer) == h;
    }
    forall i | 0 <= i < |a.served| && EventOf(a.served[i], timer) == h
      ensures h in w.registered && w.registered[h].OnTimer? == timer
    {
      assert StandsFor(w, w.queue[i], a.served[i]);
      assert Live(w, SessionOf(a.served[i].number));
    }
  }

  lemma ServesRead(w: World, a: Clients, h: Handle, bytes: seq<Byte>)
    requires Inv(w) && Serves(w, a)
    ensures Serves(After(w, Readable(h, Bytes(bytes))), Served(a, Readable(h, Bytes(bytes))))
  {
    EventsAreClients(w, a, false, h);
    var e := Readable(h, Bytes(bytes));
    if CanHappen(w, e) {
      ReadingChangesNoMore(w, h, bytes);
      ReadingKeepsNext(w, h, bytes);
      forall i | 0 <= i < |a.served| ensures StandsFor(After(w, e), w.queue[i], Heard(a.served, h, bytes)[i]) {
        assert StandsFor(w, w.queue[i], a.served[i]);
        ReadStandsFor(w, h, bytes, w.queue[i], a.served[i]);
      }
    } else {
      assert Heard(a.served, h, bytes) == a.served;
    }
  }

  lemma ReadStandsFor(w: World, h: Handle, bytes: seq<Byte>, l: LinkId, c: Client)
    requires Inv(w) && h in w.registered && w.registered[h].OnRead? && StandsFor(w, l, c)
    ensures StandsFor(After(w, Readable(h, Bytes(bytes))), l,
                      if ReadEventOf(c.number) == h then c.(chunks := c.chunks + [bytes]) else c)
  {
    ReadingFeedsSession(w, h, bytes);
    ReadingChangesNoMore(w, h, bytes);
    HeardBy(w, h, l, c);
  }

  /** The session that reads is the client's whose read event has fired. */
  lemma HeardBy(w: World, h: Handle, l: LinkId, c: Client)
    requires Inv(w) && h in w.registered && w.registered[h].OnRead? && StandsFor(w, l, c)
    ensures ReadEventOf(c.number) == h <==> SessionOf(c.number) == w.registered[h].session
  {
    assert Fires(w, h);
    assert Live(w, SessionOf(c.number));
  }

  lemma {:induction false} StayingAll(served: seq<Client>, timer: bool, h: Handle)
    requires forall i | 0 <= i < |served| :: EventOf(served[i], timer) != h
    ensures Staying(served, timer, h) == served
  {
    if served != [] {
      StayingAll(served[1..], timer, h);
    }
  }

  lemma {:induction false} StayingBut(served: seq<Client>, timer: bool, h: Handle, i: nat)
    requires i < |served| && forall j | 0 <= j < |served| :: EventOf(served[j], timer) == h <==> j == i
    ensures Staying(served, timer, h) == served[..i] + served[i + 1..]
  {
    if i == 0 {
      StayingAll(served[1..], timer, h);
    } else {
      StayingBut(served[1..], timer, h, i - 1);
      assert served[..i] == [served[0]] + served[1..][..i - 1];
      assert served[1..][i..] == served[i + 1..];
    }
  }

  /** The end of client i's session. */
  lemma ServesEnd(w: World, a: Clients, e: Event, h: Handle, i: nat)
    requires Inv(w) && Serves(w, a) && Ends(e, h) && CanHappen(w, e)
    requires i < |a.served| && w.registered[h].session == SessionOf(a.served[i].number)
    ensures Serves(After(w, e), a.(served := a.served[..i] + a.served[i + 1..]))
  {
    var w' := After(w, e);
    assert StandsFor(w, w.queue[i], a.served[i]);
    EndingRemovesSession(w, e, h);
    EndingRemovesLinkAndEvents(w, e, h, i);
    EndingKeeps(w, e, h);
    ServesOthers(w, w', a, i);
  }

  /** All clients but client i are served as before. */
  lemma ServesOthers(w: World, w': World, a: Clients, i: nat)
    requires Serves(w, a) && i < |a.served|
    requires w'.queue == w.queue[..i] + w.queue[i + 1..]
    requires w'.next == w.next && w'.owned == !w'.wannaDie
    requires var s := SessionOf(a.served[i].number);
      && (forall l | l in w.links && l != w.queue[i] :: l in w'.links && w'.links[l] == w.links[l])
      && (forall x | x in w.memory && x != s :: x in w'.memory && w'.memory[x] == w.memory[x])
      && forall x | x in w.streams && x != s :: x in w'.streams && w'.streams[x] == w.streams[x]
    ensures Serves(w', a.(served := a.served[..i] + a.served[i + 1..], closing := w'.wannaDie))
  {
    var a' := a.(served := a.served[..i] + a.served[i + 1..], closing := w'.wannaDie);
    assert StandsFor(w, w.queue[i], a.served[i]);
    forall j | 0 <= j < |a'.served| ensures StandsFor(w', w'.queue[j], a'.served[j]) {
      var j' := if j < i then j else j + 1;
      assert a'.served[j] == a.served[j'] && w'.queue[j] == w.queue[j'];
      assert StandsFor(w, w.queue[j'], a.served[j']);
      StillStandsFor(w, w', w.queue[j'], a.served[j']);
    }
  }

  lemma ServesEnding(w: World, a: Clients, e: Event)
    requires Inv(w) && Serves(w, a) && (e.TimedOut? || (e.Readable? && !e.result.Bytes?))
    ensures Serves(After(w, e), Served(a, e))
  {
    var h, timer := e.h, e.TimedOut?;
    EventsAreClients(w, a, timer, h);
    if CanHappen(w, e) {
      assert Fires(w, h);
      var i := ServedBy(w, a, w.registered[h].session);
      assert StandsFor(w, w.queue[i], a.served[i]);
      StayingBut(a.served, timer, h, i);
      ServesEnd(w, a, e, h, i);
    } else {
      StayingAll(a.served, timer, h);
    }
  }

  lemma ServesDestroyAsWritten(w: World, a: Clients)
    requires Inv(w) && Serves(w, a) && w.owned
    ensures Serves(After(w, Destroy(true)), Served(a, Destroy(true)))
  {
    var w', a' := After(w, Destroy(true)), Served(a, Destroy(true));
    if w.queue == [] {
      DestroyingAsWrittenNone(w);
    } else {
      DestroyingAsWrittenFreesLast(w);
      var n := |w.queue| - 1;
      assert StandsFor(w, w.queue[n], a.served[n]);
      assert w.queue[n + 1..] == [] && a.served[n + 1..] == [];
      ConcatNothing(w.queue[..n]);
      ConcatNothing(a.served[..n]);
      ServesOthers(w, w', a, n);
    }
  }

  lemma ServesDestroy(w: World, a: Clients, asWritten: bool)
    requires Inv(w) && Serves(w, a)
    ensures Serves(After(w, Destroy(asWritten)), Served(a, Destroy(asWritten)))
  {
    if w.owned {
      if asWritten {
        ServesDestroyAsWritten(w, a);
      } else {
        DestroyedFreesAll(w);
      }
    }
  }

  lemma ServesEvent(w: World, a: Clients, e: Event)
    requires Inv(w) && Serves(w, a)
    ensures Serves(After(w, e), Served(a, e))
  {
    match e
    case Consume(fd) => ServesConsume(w, a, fd);
    case Readable(h, Bytes(bytes)) => ServesRead(w, a, h, bytes);
    case Readable(_, _) => ServesEnding(w, a, e);
    case TimedOut(_) => ServesEnding(w, a, e);
    case Destroy(asWritten) => ServesDestroy(w, a, asWritten);
  }

  lemma {:induction false} RunSnoc(w: World, events: seq<Event>, e: Event)
    ensures Run(w, events + [e]) == After(Run(w, events), e)
    decreases |events|
  {
    if events == [] {
      assert [] + [e] == [e] && [e][1..] == [];
    } else {
      RunSnoc(After(w, events[0]), events[1..], e);
      assert (events + [e])[1..] == events[1..] + [e];
    }
  }

  /** After any events the milter serves the clients that those events leave. */
  lemma {:induction false} RunServes(events: seq<Event>)
    ensures Inv(Run(CREATED, events)) && Serves(Run(CREATED, events), ServedAfter(events))
  {
    CreatedInv();
    RunInv(CREATED, events);
    if events != [] {
      var init, last := events[..|events| - 1], events[|events| - 1];
      RunServes(init);
      RunSnoc(CREATED, init, last);
      assert events == init + [last];
      ServesEvent(Run(CREATED, init), ServedAfter(init), last);
    }
  }

  // ----- What that means -----------------------------------------------------

  /** In every reachable state the queue lists the sessions alive, the last to come first. */
  lemma NewestFirst(events: seq<Event>)
    ensures var w := Run(CREATED, events);
      && (forall i {:trigger w.queue[i]} | 0 <= i < |w.queue| :: w.queue[i] in w.links)
      && forall i, j | 0 <= i < j < |w.queue| :: w.links[w.queue[i]] > w.links[w.queue[j]]
  {
    RunServes(events);
    var w, a := Run(CREATED, events), ServedAfter(events);
    forall i, j | 0 <= i < j < |w.queue| ensures w.links[w.queue[i]] > w.links[w.queue[j]] {
      assert StandsFor(w, w.queue[i], a.served[i]) && StandsFor(w, w.queue[j], a.served[j]);
    }
  }

  /** Destroying as written frees the session of the client that came first of those served, and no other. */
  lemma OldestGoes(events: seq<Event>) returns (s: SessionId)
    requires Run(CREATED, events).owned && Run(CREATED, events).memory != map[]
    ensures var w := Run(CREATED, events);
      && s in w.memory && (forall x | x in w.memory :: s <= x)
      && After(w, Destroy(true)).memory == w.memory - {s}
  {
    RunServes(events);
    var w, a := Run(CREATED, events), ServedAfter(events);
    QueueCounts(w);
    var n := |w.queue| - 1;
    DestroyingAsWrittenFreesLast(w);
    assert StandsFor(w, w.queue[n], a.served[n]);
    s := SessionOf(a.served[n].number);
    forall x | x in w.memory ensures s <= x {
      var i := ServedBy(w, a, x);
      assert i == n || a.served[i].number > a.served[n].number;
    }
  }

  /** A milter with two clients, destroyed as written, goes on serving the one that came last. */
  lemma DestroyAsWrittenLeavesLast() returns (w: World)
    ensures w == Run(CREATED, [Consume(3), Consume(4), Destroy(true)])
    ensures w.alive && w.memory.Keys == {SessionOf(1)} && w.memory[SessionOf(1)].fd == 4
  {
    var events := [Consume(3), Consume(4), Destroy(true)];
    w := Run(CREATED, events);
    var a := TwoThenDestroy();
    RunServes(events);
    ServesOne(w, a);
  }

  lemma TwoThenDestroy() returns (a: Clients)
    ensures a == ServedAfter([Consume(3), Consume(4), Destroy(true)]) && a.served == [Client(1, 4, [])]
  {
    var events := [Consume(3), Consume(4), Destroy(true)];
    assert events[..2] == [Consume(3), Consume(4)] && [Consume(3), Consume(4)][..1] == [Consume(3)];
    a := ServedAfter(events);
    assert ServedAfter([Consume(3)]) == Clients([Client(0, 3, [])], 1, false);
    assert ServedAfter([Consume(3), Consume(4)]) == Clients([Client(1, 4, []), Client(0, 3, [])], 2, false);
  }

  lemma ServesOne(w: World, a: Clients)
    requires Inv(w) && Serves(w, a) && a.served == [Client(1, 4, [])]
    ensures w.alive && w.memory.Keys == {SessionOf(1)} && w.memory[SessionOf(1)].fd == 4
  {
    assert StandsFor(w, w.queue[0], a.served[0]);
    forall s | s in w.memory ensures s == SessionOf(1) {
      var i := ServedBy(w, a, s);
    }
  }

  // ----- Told from the events ------------------------------------------------

  ghost predicate ToldToDie(events: seq<Event>) {
    exists i :: 0 <= i < |events| && events[i].Destroy?
  }

  /** The descriptors of the sockets taken over: those that came before the milter was told to die. */
  ghost function Sockets(events: seq<Event>): seq<int> {
    if events == [] then []
    else
      var init, last := events[..|events| - 1], events[|events| - 1];
      Sockets(init) + if last.Consume? && !ToldToDie(init) then [last.fd] else []
  }

  /** What was read when event h fired, chunk by chunk. */
  ghost function ChunksRead(events: seq<Event>, h: Handle): seq<seq<Byte>> {
    if events == [] then []
    else
      var last := events[|events| - 1];
      ChunksRead(events[..|events| - 1], h)
      + if last.Readable? && last.h == h && last.result.Bytes? then [last.result.bytes] else []
  }

  lemma ToldToDieSnoc(init: seq<Event>, last: Event)
    ensures ToldToDie(init + [last]) <==> ToldToDie(init) || last.Destroy?
  {
    var events := init + [last];
    if ToldToDie(init) {
      var i :| 0 <= i < |init| && init[i].Destroy?;
      assert events[i].Destroy?;
    }
    if last.Destroy? {
      assert events[|init|].Destroy?;
    }
  }

  /** How many came, and whether the milter is to die. */
  lemma {:induction false} Arrivals(events: seq<Event>)
    ensures ServedAfter(events).arrived == |Sockets(events)| && ServedAfter(events).closing == ToldToDie(events)
  {
    if events != [] {
      var init, last := events[..|events| - 1], events[|events| - 1];
      Arrivals(init);
      assert events == init + [last];
      ToldToDieSnoc(init, last);
    }
  }

  lemma {:induction false} StayingIn(served: seq<Client>, timer: bool, h: Handle, c: Client)
    requires c in Staying(served, timer, h)
    ensures c in served && EventOf(c, timer) != h
  {
    if EventOf(served[0], timer) == h || c != served[0] {
      StayingIn(served[1..], timer, h, c);
    }
  }

  /** Where a client served now was before the last event. */
  lemma ServedBefore(a: Clients, e: Event, c: Client) returns (before: Client)
    requires c in Served(a, e).served
    requires !(e.Consume? && !a.closing && c == Client(a.arrived, e.fd, []))
    ensures before in a.served && before.number == c.number && before.fd == c.fd
    ensures c.chunks == before.chunks
      + if e.Readable? && e.h == ReadEventOf(c.number) && e.result.Bytes? then [e.result.bytes] else []
  {
    before := c;
    match e
    case Readable(h, Bytes(bytes)) =>
      var i :| 0 <= i < |a.served| && Heard(a.served, h, bytes)[i] == c;
      before := a.served[i];
    case Readable(h, _) => StayingIn(a.served, false, h, c);
    case TimedOut(h) => StayingIn(a.served, true, h, c);
    case _ =>
  }

  /**
   * A client that is served came with some event before the milter was told to die, as the one whose
   * number it bears, and what was read from it is what its read event has brought since.
   */
  lemma {:induction false} ClientHistory(events: seq<Event>, c: Client) returns (k: nat)
    requires c in ServedAfter(events).served
    ensures k < |events| && events[k] == Consume(c.fd) && !ToldToDie(events[..k])
    ensures c.number == |Sockets(events[..k])|
    ensures c.chunks == ChunksRead(events[k + 1..], ReadEventOf(c.number))
  {
    var init, last := events[..|events| - 1], events[|events| - 1];
    var a := ServedAfter(init);
    Arrivals(init);
    if last.Consume? && !a.closing && c == Client(a.arrived, last.fd, []) {
      k := |init|;
      assert events[..k] == init && events[k + 1..] == [];
    } else {
      var before := ServedBefore(a, last, c);
      k := ClientHistory(init, before);
      assert events[..k] == init[..k];
      var since := events[k + 1..];
      assert since[..|since| - 1] == init[k + 1..] && since[|since| - 1] == last;
    }
  }

  /**
   * After any run, whatever the other clients and the creator did in it: the commands received from a
   * client are the commands it sent exactly when its chunks broke no payload, the chunks being what its
   * read event brought since it came.
   */
  lemma SessionDecodes(events: seq<Event>, c: Client, cmds: seq<Command>) returns (k: nat)
    requires c in ServedAfter(events).served && Concat(c.chunks) == Encode(cmds)
    ensures k < |events| && events[k] == Consume(c.fd) && |Sockets(events[..k])| == c.number
    ensures c.chunks == ChunksRead(events[k + 1..], ReadEventOf(c.number))
    ensures var w, s := Run(CREATED, events), SessionOf(c.number);
      && s in w.memory && s in w.streams && w.memory[s].fd == c.fd
      && w.memory[s].core == CoreOf(w.streams[s].decoder)
      && (Received(w.streams[s].decoder) == cmds <==> StreamCuts.Unbroken(cmds, c.chunks))
  {
    k := ClientHistory(events, c);
    RunServes(events);
    CreatedInv();
    RunStream(CREATED, events);
    var w, a := Run(CREATED, events), ServedAfter(events);
    var i :| 0 <= i < |a.served| && a.served[i] == c;
    assert StandsFor(w, w.queue[i], c);
    var s := SessionOf(c.number);
    LiveIsClosable(w, s);
    assert Decoded(w, s);
    StreamCuts.StreamDecodes(cmds, c.chunks);
  }

  // ----- Descriptors ---------------------------------------------------------

  /** One event takes over one descriptor at most. */
  lemma TakesDescriptor(w: World, e: Event, f: int)
    requires Inv(w)
    ensures After(w, e).fdsTaken[f]
         == w.fdsTaken[f] + if e.Consume? && w.alive && !w.wannaDie && e.fd == f && f != -1 then 1 else 0
  {
    match e
    case Consume(fd) =>
      if w.alive && !w.wannaDie {
        TakingIsCounted(w, fd);
      }
    case Readable(h, Bytes(bytes)) => ReadingChangesNoMore(w, h, bytes);
    case Readable(h, _) => TakesNone(w, e);
    case TimedOut(h) => TakesNone(w, e);
    case Destroy(asWritten) =>
      if w.owned {
        DestroyedFreesAll(w);
        if w.queue == [] {
          DestroyingAsWrittenNone(w);
        } else {
          DestroyingAsWrittenFreesLast(w);
        }
      }
  }

  lemma TakesNone(w: World, e: Event)
    requires Inv(w) && (e.TimedOut? || (e.Readable? && !e.result.Bytes?))
    ensures After(w, e).fdsTaken == w.fdsTaken
  {
    if CanHappen(w, e) {
      EndingIsCounted(w, e, e.h);
    }
  }

  lemma {:induction false} RunTakes(events: seq<Event>, f: int)
    ensures Run(CREATED, events).fdsTaken[f] == if f == -1 then 0 else multiset(Sockets(events))[f]
  {
    if events != [] {
      var init, last := events[..|events| - 1], events[|events| - 1];
      var w := Run(CREATED, init);
      assert events == init + [last];
      RunTakes(init, f);
      RunServes(init);
      RunSnoc(CREATED, init, last);
      Arrivals(init);
      TakesDescriptor(w, last, f);
    }
  }

  /**
   * Every descriptor of a socket taken over was closed, as often as it came, unless a session alive
   * holds it; and no other descriptor was closed.
   */
  lemma DescriptorsAreClosed(events: seq<Event>, f: int)
    requires f != -1
    ensures var w := Run(CREATED, events);
      multiset(Sockets(events))[f] == w.fdsClosed[f] + |Holders(w.memory, f)|
  {
    RunTakes(events, f);
    RunReleasesAll(events);
  }
}
