/**
 * The functions of librmilter.c and session.c that create, close and free, on mutable state.
 *
 * The fields stand for the milter structure, the heap of links and sessions, and the event loop.
 * An access to a session or a link needs it to be there, and so does freeing it, deleting an event
 * needs that event, and releasing the milter needs the milter: that none of this goes wrong is
 * proved of every method, and each method is proved to take its step of the transition system.
 */
module Lifetime {
  import opened Decoder
  import opened SessionMachine
  import opened LifetimeSpec

  class Runtime {
    // struct rmilter_milter
    var alive: bool
    var queue: seq<LinkId>
    var wannaDie: bool
    var refcount: nat
    // the heap
    var links: map<LinkId, SessionId>
    var memory: map<SessionId, SessionRec>
    // the event loop
    var registered: map<Handle, Watch>
    // the supply of identities, whether the creator holds its reference, and the account
    var next: nat
    var owned: bool
    ghost var added: multiset<Handle>
    ghost var deleted: multiset<Handle>
    ghost var fdsTaken: multiset<int>
    ghost var fdsClosed: multiset<int>
    ghost var milterDtors: nat
    ghost var streams: map<SessionId, Stream>

    ghost function View(): World
      reads this
    {
      World(alive, queue, wannaDie, refcount, links, memory, registered, next, owned,
            added, deleted, fdsTaken, fdsClosed, milterDtors, streams)
    }

    /** rmilter_create: the creator holds the first reference. */
    constructor ()
      ensures View() == CREATED
    {
      alive, queue, wannaDie, refcount := true, [], false, 1;
      links, memory, registered, next := map[], map[], map[], 0;
      owned, added, deleted := true, multiset{}, multiset{};
      fdsTaken, fdsClosed, milterDtors, streams := multiset{}, multiset{}, 0, map[];
    }

    /** The loop's add_read and add_timer. */
    method AddEvent(watch: Watch) returns (h: Handle)
      modifies `registered, `added, `next
      ensures h == old(next) && next == h + 1
      ensures registered == old(registered)[h := watch] && added == old(added) + multiset{h}
    {
      h := next;
      next := next + 1;
      registered := registered[h := watch];
      added := added + multiset{h};
    }

    /** The loop's del_read and del_timer: the event has to be one of its own. */
    method DelEvent(h: Handle)
      requires h in registered
      modifies `registered, `deleted
      ensures registered == old(registered) - {h} && deleted == old(deleted) + multiset{h}
    {
      registered := registered - {h};
      deleted := deleted + multiset{h};
    }

    /** rmilter_session_start: the initial state, and the two events of the session. */
    method SessionStart(s: SessionId)
      requires s in memory
      modifies `memory, `registered, `added, `next
      ensures var r, re, te := old(memory[s]), old(next), old(next) + 1;
        && next == old(next) + 2
        && registered == old(registered)[re := OnRead(s)][te := OnTimer(s)]
        && added == old(added) + multiset{re} + multiset{te}
        && memory == old(memory)[s :=
             r.(readEv := Some(re), timeoutEv := Some(te), core := r.core.(state := ReadCmd))]
    {
      memory := memory[s := memory[s].(core := memory[s].core.(state := ReadCmd))];
      var re := AddEvent(OnRead(s));
      memory := memory[s := memory[s].(readEv := Some(re))];
      var te := AddEvent(OnTimer(s));
      memory := memory[s := memory[s].(timeoutEv := Some(te))];
    }

    /** The part of rmilter_consume_socket behind the check: the session comes into being. */
    method SessionOpen(fd: int)
      modifies this
      ensures View() == Started(Enqueued(Zeroed(old(View()), fd), old(next)), old(next))
    {
      var s := Allocate(fd);
      Enqueue(s);
      SessionBegin(s);
    }

    /** A zeroed session with its reference count of one, and an identity for its link. */
    method Allocate(fd: int) returns (s: SessionId)
      modifies `next, `memory, `fdsTaken, `streams
      ensures s == old(next) && s in memory && View() == Zeroed(old(View()), fd)
    {
      s := NewSession(fd);
    }

    method NewSession(fd: int) returns (s: SessionId)
      modifies `next, `memory, `fdsTaken, `streams
      ensures s == old(next) && next == s + 2
      ensures memory == old(memory)[s := SessionRec(fd, s + 1, None, None, 1, CoreOf(START))]
      ensures fdsTaken == old(fdsTaken) + Descriptor(fd) && streams == old(streams)[s := Stream(START, [])]
    {
      s := next;
      next := next + 2;
      memory := memory[s := SessionRec(fd, s + 1, None, None, 1, Core(ReadCmd, 0, 0, []))];
      fdsTaken := fdsTaken + Descriptor(fd);
      streams := streams[s := Stream(START, [])];
    }

    /** The milter's new reference, and the link at the head of the queue. */
    method Enqueue(s: SessionId)
      modifies `refcount, `links, `queue
      ensures View() == Enqueued(old(View()), s)
    {
      refcount := refcount + 1;
      links := links[s + 1 := s];
      queue := [s + 1] + queue;
    }

    method SessionBegin(s: SessionId)
      requires s in memory
      modifies `memory, `registered, `added, `next
      ensures View() == Started(old(View()), s)
    {
      SessionStart(s);
    }

    /** rmilter_consume_socket. */
    method ConsumeSocket(fd: int) returns (taken: bool)
      requires alive
      modifies this
      ensures taken == !old(wannaDie)
      ensures View() == if taken then Consumed(old(View()), fd) else old(View())
    {
      if wannaDie {
        return false;
      }
      OpenInThree(View(), fd);
      SessionOpen(fd);
      return true;
    }

    /** REF_RELEASE on the milter, and rmilter_milter_dtor with its assertion that no session is left. */
    method ReleaseMilter()
      requires alive && refcount > 0 && (refcount == 1 ==> queue == [])
      modifies `alive, `refcount, `milterDtors
      ensures View() == Released(old(View()))
    {
      refcount := refcount - 1;
      if refcount == 0 {
        assert |queue| == 0;
        alive := false;
        milterDtors := milterDtors + 1;
      }
    }

    /** An event field of a session that is being freed: the event is deleted if the field is set. */
    method DropEvent(h: Option<Handle>)
      requires h.Some? ==> h.value in registered
      modifies `registered, `deleted
      ensures registered == old(registered) - Set(h) && deleted == old(deleted) + multiset(Set(h))
    {
      if h.Some? {
        DelEvent(h.value);
      }
    }

    /** g_queue_delete_link on the session queue. */
    method DeleteLink(l: LinkId)
      requires l in links
      modifies `queue, `links
      ensures View() == Unlinked(old(View()), l)
    {
      queue := RemoveLink(queue, l);
      links := links - {l};
    }

    /** g_slice_free1 of a session. */
    method Free(s: SessionId)
      requires s in memory
      modifies `memory, `streams
      ensures View() == Freed(old(View()), s)
    {
      memory := memory - {s};
      streams := streams - {s};
    }

    /** close, if there is a descriptor. */
    method CloseDescriptor(s: SessionId)
      requires s in memory
      modifies `fdsClosed
      ensures View() == Hungup(old(View()), s)
    {
      if memory[s].fd != -1 {
        fdsClosed := fdsClosed + multiset{memory[s].fd};
      }
    }

    /** The destructor's deletions of the events the session still has. */
    method DropEvents(s: SessionId)
      requires s in memory && Set(memory[s].readEv) + Set(memory[s].timeoutEv) <= registered.Keys
      requires Set(memory[s].readEv) !! Set(memory[s].timeoutEv)
      modifies `registered, `deleted
      ensures View() == Dropped(old(View()), s)
    {
      DropEvent(memory[s].readEv);
      DropEvent(memory[s].timeoutEv);
    }

    /** The session's descriptor, its link and its reference on the milter. */
    method Leave(s: SessionId)
      requires s in memory && memory[s].parentLink in links && alive && refcount > 0
      requires refcount == 1 ==> queue == [memory[s].parentLink]
      modifies `fdsClosed, `queue, `links, `alive, `refcount, `milterDtors
      ensures View() == Left(old(View()), s)
    {
      CloseDescriptor(s);
      DeleteLink(memory[s].parentLink);
      ReleaseMilter();
    }

    /** rmilter_session_dtor. */
    method SessionDtor(s: SessionId)
      requires s in memory && Set(memory[s].readEv) + Set(memory[s].timeoutEv) <= registered.Keys
      requires Set(memory[s].readEv) !! Set(memory[s].timeoutEv)
      requires memory[s].parentLink in links && alive && refcount > 0
      requires refcount == 1 ==> queue == [memory[s].parentLink]
      modifies this
      ensures View() == Buried(old(View()), s)
    {
      DropEvents(s);
      Leave(s);
      Free(s);
    }

    /** The session's events are deleted and forgotten, and the milter's reference on it is dropped. */
    method Detach(s: SessionId)
      requires Closable(View(), s)
      modifies `memory, `registered, `deleted
      ensures memory == Detached(old(View()), s).memory
      ensures registered == Detached(old(View()), s).registered && deleted == Detached(old(View()), s).deleted
    {
      DelEvent(memory[s].readEv.value);
      memory := memory[s := memory[s].(readEv := None)];
      DelEvent(memory[s].timeoutEv.value);
      memory := memory[s := memory[s].(timeoutEv := None)];
      memory := memory[s := memory[s].(refcount := memory[s].refcount - 1)];
    }

    /**
     * rmilter_session_close with its two repairs: the events are passed in the order of the
     * callbacks' parameters, and the session forgets them, so that its destructor does not
     * delete them again.
     */
    method SessionClose(s: SessionId)
      requires Closable(View(), s)
      modifies this
      ensures View() == Buried(Detached(old(View()), s), s)
    {
      ghost var w := View();
      Detach(s);
      assert View() == Detached(w, s);
      if memory[s].refcount == 0 {
        SessionDtor(s);
      }
    }

    /** del_read or del_timer of the loop with the given data, in the order of the callback's parameters. */
    method Del(data: Pointer, privData: Pointer, evData: Pointer)
      requires EventsAfter(registered.Keys, data, DelCall(privData, evData)).Some?
      modifies `registered, `deleted
      ensures evData.Null? ==> View() == old(View())
      ensures evData.OneEvent? ==>
        registered == old(registered) - {evData.handle} && deleted == old(deleted) + multiset{evData.handle}
    {
      if evData != Null {
        DelEvent(evData.handle);
      }
    }

    /**
     * rmilter_session_close as written, for an event loop without data, the one kind of loop with
     * which its calls go through: the destructor deletes the events.
     */
    method SessionCloseAsWritten(s: SessionId, data: Pointer)
      requires Closable(View(), s) && data.Null?
      modifies this
      ensures View() == Closed(old(View()), s)
    {
      BuryWhole(View(), s);
      Del(data, OneEvent(memory[s].readEv.value), data);
      Del(data, OneEvent(memory[s].timeoutEv.value), data);
      DropReference(s);
      if memory[s].refcount == 0 {
        SessionDtor(s);
      }
    }

    method DropReference(s: SessionId)
      requires s in memory && memory[s].refcount > 0
      modifies `memory
      ensures View() == Unreferenced(old(View()), s)
    {
      memory := memory[s := memory[s].(refcount := memory[s].refcount - 1)];
    }

    method CloseSession(s: SessionId)
      requires Closable(View(), s)
      modifies this
      ensures View() == Closed(old(View()), s)
    {
      CloseInTwo(View(), s);
      SessionClose(s);
    }

    /** The session's state machine goes on over the chunk. */
    method FeedChunk(s: SessionId, bytes: seq<Byte>)
      requires Feedable(View(), s)
      modifies `memory, `streams
      ensures View() == Fed(old(View()), s, bytes)
    {
      var machine := new Session.Resumed(memory[s].core, streams[s].decoder);
      ghost var turns := machine.StateMachine(bytes);
      memory := memory[s := memory[s].(core := Core(machine.state, machine.cmd, machine.cmdlen, machine.data))];
      streams := streams[s := Stream(machine.View(), streams[s].chunks + [bytes])];
    }

    /** rmilter_process_read and rmilter_session_want_read, for what read() brought. */
    method ProcessRead(h: Handle, result: ReadResult)
      requires h in registered && Closable(View(), registered[h].session) && Feedable(View(), registered[h].session)
      modifies this
      ensures var w, s := old(View()), old(registered)[h].session;
        View() == if result.Bytes? then Fed(w, s, result.bytes) else Closed(w, s)
    {
      if result.Bytes? {
        FeedChunk(registered[h].session, result.bytes);
      } else {
        CloseSession(registered[h].session);
      }
    }

    /** rmilter_process_timer. */
    method ProcessTimer(h: Handle)
      requires h in registered && Closable(View(), registered[h].session)
      modifies this
      ensures View() == Closed(old(View()), old(registered)[h].session)
    {
      CloseSession(registered[h].session);
    }

    /** No new session is taken from now on. */
    method MarkDying()
      modifies `wannaDie
      ensures View() == old(View()).(wannaDie := true)
    {
      wannaDie := true;
    }

    /** REF_RELEASE (milter) at the end of rmilter_destroy. */
    method Abandon()
      requires alive && refcount > 0 && (refcount == 1 ==> queue == [])
      modifies `owned, `alive, `refcount, `milterDtors
      ensures View() == LetGo(old(View()))
    {
      owned := false;
      ReleaseMilter();
    }

    /** The body of the loop of rmilter_destroy: closes the session whose link is the tail. */
    method CloseLast(cur: LinkId)
      requires Tail(queue) == Some(cur) && TailSession(View()).Some? && Closable(View(), TailSession(View()).value)
      modifies this
      ensures View() == TailClosed(old(View()))
    {
      CloseSession(links[cur]);
    }

    /** The loop of rmilter_destroy, with the step towards the head read before the link is freed. */
    method CloseSessions()
      requires Inv(View())
      modifies this
      ensures View() == TailsClosed(old(View()), |old(queue)|)
    {
      var cur := Tail(queue);
      while cur.Some?
        invariant Inv(View()) && cur == Tail(queue)
        invariant TailsClosed(View(), |queue|) == TailsClosed(old(View()), |old(queue)|)
        decreases |queue|
      {
        TailClosable(View());
        TailClosedInv(View());
        var prev := Previous(queue);
        CloseLast(cur.value);
        cur := prev;
      }
    }

    /** rmilter_destroy. */
    method Destroy()
      requires Inv(View()) && owned
      modifies this
      ensures View() == Destroyed(old(View()))
    {
      DestroyReady(View());
      MarkDying();
      CloseSessions();
      Abandon();
    }

    /**
     * rmilter_destroy as written: it closes the session at the tail and then asks the link it has
     * just freed for its successor.  The tail has none; `readFreed` reports that freed memory is read.
     */
    method DestroyAsWritten() returns (readFreed: bool)
      requires Inv(View()) && owned
      modifies this
      ensures View() == DestroyedAsWritten(old(View()))
      ensures readFreed <==> old(queue) != []
    {
      DestroyAsWrittenReady(View());
      MarkDying();
      readFreed := false;
      ghost var w := View();
      var cur := Tail(queue);
      while cur.Some?
        invariant cur.Some? ==> View() == w && cur == Tail(queue) && !readFreed
        invariant cur.None? ==> View() == TailClosed(w) && (readFreed <==> w.queue != [])
        decreases cur.Some?
      {
        CloseLast(cur.value);
        readFreed := cur.value !in links;
        cur := None;
      }
      Abandon();
    }

    /** The event loop reports, or the creator acts; what cannot happen is passed over. */
    method Report(e: Event)
      requires Inv(View())
      modifies this
      ensures View() == After(old(View()), e)
    {
      AfterInv(View(), e);
      match e
      case Consume(fd) =>
        if alive {
          var taken := ConsumeSocket(fd);
        }
      case Readable(h, result) =>
        if h in registered && registered[h].OnRead? {
          ProcessRead(h, result);
        }
      case TimedOut(h) =>
        if h in registered && registered[h].OnTimer? {
          ProcessTimer(h);
        }
      case Destroy(asWritten) =>
        if owned {
          if asWritten {
            var readFreed := DestroyAsWritten();
          } else {
            Destroy();
          }
        }
    }

    /** A whole run. */
    method Drive(events: seq<Event>)
      requires Inv(View())
      modifies this
      ensures View() == Run(old(View()), events) && Inv(View())
    {
      var i := 0;
      assert events[0..] == events;
      while i < |events|
        invariant i <= |events| && Inv(View()) && Run(View(), events[i..]) == Run(old(View()), events)
      {
        assert events[i..][0] == events[i] && events[i..][1..] == events[i + 1..];
        AfterInv(View(), events[i]);
        Report(events[i]);
        i := i + 1;
      }
    }
  }

  function Tail(q: seq<LinkId>): Option<LinkId> {
    if q == [] then None else Some(q[|q| - 1])
  }

  /** g_list_previous of the tail. */
  function Previous(q: seq<LinkId>): Option<LinkId> {
    if |q| < 2 then None else Some(q[|q| - 2])
  }

  lemma DestroyReady(w: World)
    requires Inv(w) && w.owned
    ensures var w' := w.(wannaDie := true);
      var r := TailsClosed(w', |w.queue|);
      Inv(w') && r.alive && r.refcount > 0 && (r.refcount == 1 ==> r.queue == [])
  {
    var w' := w.(wannaDie := true);
    DyingInv(w);
    TailsClosedInv(w', |w.queue|);
  }

  lemma DestroyAsWrittenReady(w: World)
    requires Inv(w) && w.owned
    ensures var w' := w.(wannaDie := true);
      var r := TailClosed(w');
      && (w.queue != [] ==>
            && TailSession(w').Some? && Closable(w', TailSession(w').value)
            && w.queue[|w.queue| - 1] !in r.links)
      && (w.queue == [] ==> r == w')
      && r.alive && r.refcount > 0 && (r.refcount == 1 ==> r.queue == [])
  {
    var w' := w.(wannaDie := true);
    DyingInv(w);
    if w.queue != [] {
      TailClosable(w');
      TailClosedInv(w');
    }
  }

  ghost function Set(h: Option<Handle>): set<Handle> {
    if h.Some? then {h.value} else {}
  }

  /** The first half of a close: the events are deleted and forgotten, the reference is dropped. */
  ghost function Detached(w: World, s: SessionId): World
    requires Closable(w, s)
  {
    var r := w.memory[s];
    w.(memory := w.memory[s := r.(readEv := None, timeoutEv := None, refcount := r.refcount - 1)],
       registered := w.registered - {r.readEv.value} - {r.timeoutEv.value},
       deleted := w.deleted + multiset{r.readEv.value} + multiset{r.timeoutEv.value})
  }

  /** The events that are still set are deleted. */
  ghost function Dropped(w: World, s: SessionId): World
    requires s in w.memory
  {
    var r := w.memory[s];
    w.(registered := w.registered - Set(r.readEv) - Set(r.timeoutEv),
       deleted := w.deleted + multiset(Set(r.readEv)) + multiset(Set(r.timeoutEv)))
  }

  ghost function Hungup(w: World, s: SessionId): World
    requires s in w.memory
  {
    w.(fdsClosed := w.fdsClosed + Descriptor(w.memory[s].fd))
  }

  ghost function Unlinked(w: World, l: LinkId): World {
    w.(queue := RemoveLink(w.queue, l), links := w.links - {l})
  }

  /** The descriptor is closed, the link leaves the queue, and the milter loses a reference. */
  ghost function Left(w: World, s: SessionId): World
    requires s in w.memory && w.refcount > 0
  {
    Released(Unlinked(Hungup(w, s), w.memory[s].parentLink))
  }

  ghost function Freed(w: World, s: SessionId): World {
    w.(memory := w.memory - {s}, streams := w.streams - {s})
  }

  /** The second half, by the destructor. */
  ghost function Buried(w: World, s: SessionId): World
    requires s in w.memory && w.refcount > 0
  {
    Freed(Left(Dropped(w, s), s), s)
  }

  ghost function Unreferenced(w: World, s: SessionId): World
    requires s in w.memory && w.memory[s].refcount > 0
  {
    w.(memory := w.memory[s := w.memory[s].(refcount := w.memory[s].refcount - 1)])
  }

  /** The destructor alone closes a session whose events have not been deleted. */
  lemma BuryWhole(w: World, s: SessionId)
    requires Closable(w, s)
    ensures Buried(Unreferenced(w, s), s) == Closed(w, s)
  {
    assert Unreferenced(w, s).memory - {s} == w.memory - {s};
  }

  lemma CloseInTwo(w: World, s: SessionId)
    requires Closable(w, s)
    ensures Buried(Detached(w, s), s) == Closed(w, s)
  {
    var d := Detached(w, s);
    assert d.memory - {s} == w.memory - {s};
    assert d.registered - {} - {} == d.registered;
    assert multiset(Set(None)) == multiset{};
  }

  /** The first step of taking a socket: the session structure. */
  ghost function Zeroed(w: World, fd: int): World {
    var s := w.next;
    w.(next := w.next + 2,
       memory := w.memory[s := SessionRec(fd, s + 1, None, None, 1, CoreOf(START))],
       fdsTaken := w.fdsTaken + Descriptor(fd),
       streams := w.streams[s := Stream(START, [])])
  }

  /** The second: the milter's reference, and the link of session s in the queue. */
  ghost function Enqueued(w: World, s: SessionId): World {
    w.(refcount := w.refcount + 1, links := w.links[s + 1 := s], queue := [s + 1] + w.queue)
  }

  /** The third: rmilter_session_start. */
  ghost function Started(w: World, s: SessionId): World
    requires s in w.memory
  {
    var r, re, te := w.memory[s], w.next, w.next + 1;
    w.(next := w.next + 2,
       memory := w.memory[s := r.(readEv := Some(re), timeoutEv := Some(te), core := r.core.(state := ReadCmd))],
       registered := w.registered[re := OnRead(s)][te := OnTimer(s)],
       added := w.added + multiset{re} + multiset{te})
  }

  lemma OpenInThree(w: World, fd: int)
    ensures Started(Enqueued(Zeroed(w, fd), w.next), w.next) == Consumed(w, fd)
  {
    var a := Enqueued(Zeroed(w, fd), w.next);
    SessionSetTwice(w.memory, w.next, a.memory[w.next], Consumed(w, fd).memory[w.next]);
  }

  lemma SessionSetTwice(memory: map<SessionId, SessionRec>, s: SessionId, r: SessionRec, r': SessionRec)
    ensures memory[s := r][s := r'] == memory[s := r']
  {
  }
}
