/** What the three in-place sorts keep of the heap while a pass is under way, and how two of them read their input. */
module SortHeap {
  import opened Sequences
  import opened Lists
  import opened MergeSpec

  /** The output list built so far: head `list`, last node `tail`, whose `next` is still stale. */
  ghost predicate Built(out: seq<Node>, list: Node?, tail: Node?)
    reads out
  {
    && Distinct(out)
    && list == At(out, 0)
    && tail == (if out == [] then null else out[|out| - 1])
    && forall i {:trigger out[i].next} | 0 <= i < |out| - 1 :: out[i].next == out[i + 1]
  }

  /**
   * A merge in progress on the pass input s: s[i..m] is what is left of the left run,
   * s[j..] is the right run and all that follows, and every node already read is in `out`.
   */
  ghost predicate Merging(s: seq<Node>, end: Node?, i: nat, m: nat, j: nat, out: seq<Node>, list: Node?, tail: Node?)
    reads s, out
  {
    && i <= m <= j <= |s|
    && Distinct(s)
    && Threaded(s, end, i, m)
    && Threaded(s, end, j, |s|)
    && (forall x | x in out :: x in s)
    && (forall x | i <= x < m || j <= x < |s| :: s[x] !in out)
    && Built(out, list, tail)
  }

  /** In the output list of a doubly linked sort each node's `prev` is its predecessor, the first one's null. */
  ghost predicate Chained(out: seq<Node>)
    reads out
  {
    forall i {:trigger out[i].prev} | 0 <= i < |out| :: out[i].prev == if i == 0 then null else out[i - 1]
  }

  /**
   * The cursors of a merge: p at the psize nodes left of the left run s[i..m], and q at the right run
   * s[j..b], which has qsize nodes unless the list ends first.
   */
  ghost predicate Cursors(s: seq<Node>, p: Node?, q: Node?, psize: nat, qsize: nat, insize: nat,
                          i: nat, m: nat, j: nat, b: nat)
  {
    && i <= m <= j <= b == Min(m + insize, |s|)
    && psize == m - i && (psize > 0 ==> p == s[i])
    && qsize == m + insize - j && q == At(s, j)
  }

  /** Node e, just read from the front of one of the two runs, goes to the end of the output list. */
  method Link(list0: Node?, tail0: Node?, e: Node, ghost end: Node?, ghost s: seq<Node>,
              ghost i: nat, ghost m: nat, ghost j: nat, ghost out: seq<Node>)
    returns (list: Node?, tail: Node?)
    requires Merging(s, end, i, m, j, out, list0, tail0)
    requires e in s && e !in out && forall x | i <= x < m || j <= x < |s| :: s[x] != e
    modifies s`next
    ensures Merging(s, end, i, m, j, out + [e], list, tail)
  {
    list := list0;
    if tail0 != null {
      assert tail0 in out;
      tail0.next := e;
    } else {
      list := e;
    }
    tail := e;
  }

  /** The same in a doubly linked list. */
  method LinkBoth(list0: Node?, tail0: Node?, e: Node, ghost end: Node?, ghost s: seq<Node>,
                  ghost i: nat, ghost m: nat, ghost j: nat, ghost out: seq<Node>)
    returns (list: Node?, tail: Node?)
    requires Merging(s, end, i, m, j, out, list0, tail0) && Chained(out)
    requires e in s && e !in out && forall x | i <= x < m || j <= x < |s| :: s[x] != e
    modifies s
    ensures Merging(s, end, i, m, j, out + [e], list, tail) && Chained(out + [e])
  {
    list, tail := Link(list0, tail0, e, end, s, i, m, j, out);
    e.prev := tail0;
  }

  // ----- Reading a null-terminated list: the same in LL_SORT2 and DL_SORT2 ------

  /**
   * The four-way choice of the merge loop: reads node e from the front of the left run p or the right
   * run q.  The comparator is called when both runs have nodes left, and then once.
   */
  method Choose(cmp: Comparator, p0: Node?, q0: Node?, psize0: nat, qsize0: nat, ghost insize: nat,
                ghost s: seq<Node>, ghost i: nat, ghost m: nat, ghost j: nat, ghost b: nat)
    returns (e: Node, p: Node?, q: Node?, psize: nat, qsize: nat)
    requires Cursors(s, p0, q0, psize0, qsize0, insize, i, m, j, b) && (psize0 > 0 || (qsize0 > 0 && q0 != null))
    requires Threaded(s, null, i, m) && Threaded(s, null, j, |s|)
    modifies cmp`calls
    ensures cmp.calls == old(cmp.calls) + Compared(s, i, m, j, b)
    ensures var left := LeftNext(cmp.order, s, i, m, j, b);
      && (left || j < b) && e == s[if left then i else j]
      && Cursors(s, p, q, psize, qsize, insize, if left then i + 1 else i, m, if left then j else j + 1, b)
  {
    p, q, psize, qsize := p0, q0, psize0, qsize0;
    if psize == 0 {
      e := q; q := q.next; qsize := qsize - 1;
    } else if qsize == 0 || q == null {
      e := p; p := p.next; psize := psize - 1;
    } else {
      var c := cmp.Compare(p, q);
      if c <= 0 {
        e := p; p := p.next; psize := psize - 1;
      } else {
        e := q; q := q.next; qsize := qsize - 1;
      }
    }
  }

  /** The end of the run of insize nodes that starts at p: the node after it, and how long the run is. */
  method SkipRun(p: Node, insize: nat, ghost s: seq<Node>, ghost a: nat) returns (q: Node?, psize: nat)
    requires insize > 0 && a < |s| && p == s[a] && Threaded(s, null, a, |s|)
    ensures psize == Min(a + insize, |s|) - a && q == At(s, a + psize)
  {
    q, psize := p, 0;
    var i := 0;
    while i < insize
      invariant psize == i <= insize && a + i < |s| && q == s[a + i]
    {
      psize := psize + 1;
      q := q.next;
      if q == null {
        break;
      }
      i := i + 1;
    }
  }
}
