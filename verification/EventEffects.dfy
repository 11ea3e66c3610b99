/**
 * What each event does to the fields of the milter, its sessions, the heap, the event loop and the
 * account, and what it leaves alone.
 */
module EventEffects {
  import opened Sequences
  import opened Decoder
  import opened SessionMachine
  import opened LifetimeSpec

  // ----- A socket ------------------------------------------------------------

  /** A milter that is to die takes no socket. */
  lemma RefusalChangesNothing(w: World, fd: int)
    requires w.wannaDie
    ensures After(w, Consume(fd)) == w
  {
  }

  /** A socket taken over is a new session, which holds the descriptor and a fresh decoder. */
  lemma TakingAddsSession(w: World, fd: int)
    requires Inv(w) && w.alive && !w.wannaDie
    ensures var w', s := After(w, Consume(fd)), w.next;
      && s !in w.memory && w'.memory.Keys == w.memory.Keys + {s} && w'.streams.Keys == w.streams.Keys + {s}
      && w'.memory[s].fd == fd && w'.memory[s].refcount == 1
      && w'.memory[s].core == Core(ReadCmd, 0, 0, []) && w'.streams[s].chunks == []
      && (forall x | x in w.memory :: w'.memory[x] == w.memory[x])
      && forall x | x in w.streams :: w'.streams[x] == w.streams[x]
  {
    Unused(w);
    assert w.next !in w.streams;
  }

  /** Its link is the new head of the queue, and it has one read event and one timer with the loop. */
  lemma TakingAddsLinkAndEvents(w: World, fd: int)
    requires Inv(w) && w.alive && !w.wannaDie
    ensures var w', s := After(w, Consume(fd)), w.next;
      && s in w'.memory
      && var l := w'.memory[s].parentLink;
      && l !in w.links && w'.links == w.links[l := s] && w'.queue == [l] + w.queue
    ensures var w', s := After(w, Consume(fd)), w.next;
      && s in w'.memory && w'.memory[s].readEv.Some? && w'.memory[s].timeoutEv.Some?
      && var re, te := w'.memory[s].readEv.value, w'.memory[s].timeoutEv.value;
      && re != te && re !in w.registered && te !in w.registered
      && w'.registered == w.registered[re := OnRead(s)][te := OnTimer(s)]
      && w'.added == w.added + multiset{re, te} && w'.deleted == w.deleted
  {
    Unused(w);
  }

  /** The milter has one more reference, and the descriptor is in the account unless it is -1. */
  lemma TakingIsCounted(w: World, fd: int)
    requires Inv(w) && w.alive && !w.wannaDie
    ensures var w' := After(w, Consume(fd));
      && w'.refcount == w.refcount + 1 && w'.alive && w'.owned == w.owned && !w'.wannaDie
      && (forall f :: w'.fdsTaken[f] == w.fdsTaken[f] + if f == fd && fd != -1 then 1 else 0)
      && w'.fdsClosed == w.fdsClosed && w'.milterDtors == w.milterDtors
  {
  }

  // ----- Input ---------------------------------------------------------------

  /** Input reaches the session whose read event fired, all of it, and no other session. */
  lemma ReadingFeedsSession(w: World, h: Handle, bytes: seq<Byte>)
    requires Inv(w) && h in w.registered && w.registered[h].OnRead?
    ensures var w', s := After(w, Readable(h, Bytes(bytes))), w.registered[h].session;
      && s in w.memory && s in w.streams && w.memory[s].readEv == Some(h)
      && w'.memory.Keys == w.memory.Keys && w'.streams.Keys == w.streams.Keys
      && w'.streams[s].chunks == w.streams[s].chunks + [bytes]
      && w'.streams[s].decoder == AsWritten(w.streams[s].decoder, bytes)
      && w'.memory[s] == w.memory[s].(core := CoreOf(w'.streams[s].decoder))
      && (forall x | x in w.memory && x != s :: w'.memory[x] == w.memory[x])
      && forall x | x in w.streams && x != s :: w'.streams[x] == w.streams[x]
  {
    assert Fires(w, h);
    LiveIsClosable(w, w.registered[h].session);
  }

  /** Input changes nothing but the session's decoder. */
  lemma ReadingChangesNoMore(w: World, h: Handle, bytes: seq<Byte>)
    ensures var w' := After(w, Readable(h, Bytes(bytes)));
      && w'.queue == w.queue && w'.links == w.links && w'.registered == w.registered
      && w'.alive == w.alive && w'.refcount == w.refcount && w'.owned == w.owned && w'.wannaDie == w.wannaDie
      && w'.added == w.added && w'.deleted == w.deleted
      && w'.fdsTaken == w.fdsTaken && w'.fdsClosed == w.fdsClosed && w'.milterDtors == w.milterDtors
  {
  }

  lemma ReadingKeepsNext(w: World, h: Handle, bytes: seq<Byte>)
    ensures After(w, Readable(h, Bytes(bytes))).next == w.next
  {
  }

  // ----- The end of a session ------------------------------------------------

  /** A timeout, a failed read or the end of the stream, reported for event h. */
  ghost predicate Ends(e: Event, h: Handle) {
    e == TimedOut(h) || (e.Readable? && e.h == h && !e.result.Bytes?)
  }

  /** It frees exactly the session the event is registered for. */
  lemma EndingRemovesSession(w: World, e: Event, h: Handle)
    requires Inv(w) && Ends(e, h) && CanHappen(w, e)
    ensures var w', s := After(w, e), w.registered[h].session;
      && s in w.memory && (if e.TimedOut? then w.memory[s].timeoutEv else w.memory[s].readEv) == Some(h)
      && w'.memory.Keys == w.memory.Keys - {s} && w'.streams.Keys == w.streams.Keys - {s}
      && (forall x | x in w.memory && x != s :: w'.memory[x] == w.memory[x])
      && forall x | x in w.streams && x != s :: w'.streams[x] == w.streams[x]
  {
    EndingCloses(w, e, h);
  }

  /** With it go its link and its two events. */
  lemma EndingRemovesLinkAndEvents(w: World, e: Event, h: Handle, i: nat)
    requires Inv(w) && Ends(e, h) && CanHappen(w, e)
    requires w.registered[h].session in w.memory && i < |w.queue|
    requires w.queue[i] == w.memory[w.registered[h].session].parentLink
    ensures var w', r := After(w, e), w.memory[w.registered[h].session];
      && w'.queue == w.queue[..i] + w.queue[i + 1..]
      && w'.links == w.links - {r.parentLink}
      && r.readEv.Some? && r.timeoutEv.Some?
      && w'.registered == w.registered - {r.readEv.value, r.timeoutEv.value}
      && w'.added == w.added && w'.deleted == w.deleted + multiset{r.readEv.value, r.timeoutEv.value}
  {
    EndingCloses(w, e, h);
    RemoveLinkAt(w.queue, i);
  }

  /** The milter loses one reference, and the descriptor is closed unless it is -1. */
  lemma EndingIsCounted(w: World, e: Event, h: Handle)
    requires Inv(w) && Ends(e, h) && CanHappen(w, e)
    ensures var w', s := After(w, e), w.registered[h].session;
      && s in w.memory
      && w'.refcount == w.refcount - 1 && (w'.alive <==> w'.refcount > 0)
      && w'.owned == w.owned && w'.wannaDie == w.wannaDie && w'.fdsTaken == w.fdsTaken
      && forall f :: w'.fdsClosed[f] == w.fdsClosed[f] + if f == w.memory[s].fd && f != -1 then 1 else 0
  {
    EndingCloses(w, e, h);
  }

  lemma EndingKeeps(w: World, e: Event, h: Handle)
    requires Inv(w) && Ends(e, h) && CanHappen(w, e)
    ensures var w' := After(w, e);
      w'.next == w.next && w'.owned == w.owned && w'.wannaDie == w.wannaDie
  {
    EndingCloses(w, e, h);
  }

  lemma EndingCloses(w: World, e: Event, h: Handle)
    requires Inv(w) && Ends(e, h) && CanHappen(w, e)
    ensures var s := w.registered[h].session;
      && s in w.memory && (if e.TimedOut? then w.memory[s].timeoutEv else w.memory[s].readEv) == Some(h)
      && Closable(w, s) && After(w, e) == Closed(w, s)
  {
    assert Fires(w, h);
    LiveIsClosable(w, w.registered[h].session);
  }

  // ----- The end of the milter -----------------------------------------------

  /**
   * Destroying as written frees the session whose link is the last of the queue and no other, and
   * lets go of the milter.
   */
  lemma DestroyingAsWrittenFreesLast(w: World)
    requires Inv(w) && w.owned && w.queue != []
    ensures var w', l := After(w, Destroy(true)), w.queue[|w.queue| - 1];
      && l in w.links && w.links[l] in w.memory
      && w'.queue == w.queue[..|w.queue| - 1] && w'.links == w.links - {l}
      && w'.memory == w.memory - {w.links[l]} && w'.streams == w.streams - {w.links[l]}
      && w'.wannaDie && !w'.owned && w'.next == w.next && w'.fdsTaken == w.fdsTaken
  {
    var dying := w.(wannaDie := true);
    DyingInv(w);
    TailClosable(dying);
    TailClosedInv(dying);
    LetGoInv(TailClosed(dying));
  }

  /** Without a session, it only lets go. */
  lemma DestroyingAsWrittenNone(w: World)
    requires Inv(w) && w.owned && w.queue == []
    ensures var w' := After(w, Destroy(true));
      && w'.queue == [] && w'.wannaDie && !w'.owned && !w'.alive
      && w'.next == w.next && w'.fdsTaken == w.fdsTaken
  {
    DyingInv(w);
    LetGoInv(TailClosed(w.(wannaDie := true)));
  }
}
