/** DL_SORT2: the in-place merge sort of a doubly linked list. */
module DoubleSort {
  import opened Sequences
  import opened Lists
  import opened MergeSpec
  import opened MergeTheorems
  import opened SortHeap
  import opened CompareOnce

  /** A turn of the merge loop: takes a node from one of the two runs and puts it on the output list. */
  method Turn(cmp: Comparator, p0: Node?, q0: Node?, psize0: nat, qsize0: nat, ghost insize: nat,
              list0: Node?, tail0: Node?,
              ghost s: seq<Node>, ghost i: nat, ghost m: nat, ghost j: nat, ghost b: nat,
              ghost out: seq<Node>, ghost goal: seq<Node>, ghost total: seq<(Node, Node)>)
    returns (p: Node?, q: Node?, psize: nat, qsize: nat, list: Node?, tail: Node?,
             ghost i': nat, ghost j': nat, ghost out': seq<Node>)
    requires Cursors(s, p0, q0, psize0, qsize0, insize, i, m, j, b) && (psize0 > 0 || (qsize0 > 0 && q0 != null))
    requires Merging(s, null, i, m, j, out, list0, tail0) && Chained(out)
    requires Owes(cmp.order, s, i, m, j, b, out, cmp.calls, goal, total)
    modifies s, cmp`calls
    ensures Cursors(s, p, q, psize, qsize, insize, i', m, j', b) && psize + qsize < psize0 + qsize0
    ensures Merging(s, null, i', m, j', out', list, tail) && Chained(out')
    ensures Owes(cmp.order, s, i', m, j', b, out', cmp.calls, goal, total)
  {
    var e: Node;
    ghost var calls := cmp.calls;
    e, p, q, psize, qsize := Choose(cmp, p0, q0, psize0, qsize0, insize, s, i, m, j, b);
    i', j', out' := Take(cmp.order, s, i, m, j, b, out, calls, goal, total);
    list, tail := LinkBoth(list0, tail0, e, null, s, i', m, j', out);
  }

  /** The merge loop: puts out what the merge under way owes, in the order and with the calls it owes. */
  method MergeLoop(cmp: Comparator, p0: Node?, q0: Node?, psize0: nat, qsize0: nat, ghost insize: nat,
                   list0: Node?, tail0: Node?,
                   ghost s: seq<Node>, ghost a: nat, ghost m: nat, ghost b: nat,
                   ghost out0: seq<Node>, ghost goal: seq<Node>, ghost total: seq<(Node, Node)>)
    returns (q: Node?, list: Node?, tail: Node?, ghost out: seq<Node>)
    requires Cursors(s, p0, q0, psize0, qsize0, insize, a, m, m, b)
    requires Merging(s, null, a, m, m, out0, list0, tail0) && Chained(out0)
    requires Owes(cmp.order, s, a, m, m, b, out0, cmp.calls, goal, total)
    modifies s, cmp`calls
    ensures q == At(s, b) && Merging(s, null, m, m, b, out, list, tail) && Chained(out)
    ensures Owes(cmp.order, s, m, m, b, b, out, cmp.calls, goal, total)
  {
    var p, psize, qsize := p0, psize0, qsize0;
    q, list, tail := q0, list0, tail0;
    ghost var i: nat, j: nat := a, m;
    out := out0;
    while psize > 0 || (qsize > 0 && q != null)
      invariant Cursors(s, p, q, psize, qsize, insize, i, m, j, b)
      invariant Merging(s, null, i, m, j, out, list, tail) && Chained(out)
      invariant Owes(cmp.order, s, i, m, j, b, out, cmp.calls, goal, total)
      decreases psize + qsize
    {
      p, q, psize, qsize, list, tail, i, j, out :=
        Turn(cmp, p, q, psize, qsize, insize, list, tail, s, i, m, j, b, out, goal, total);
    }
  }

  /** Merges the run p0 with the run q0 onto the end of the output list. */
  method MergeRuns(cmp: Comparator, p0: Node, q0: Node?, psize0: nat, insize: nat,
                   list0: Node?, tail0: Node?,
                   ghost s: seq<Node>, ghost a: nat, ghost m: nat, ghost out0: seq<Node>)
    returns (q: Node?, list: Node?, tail: Node?, ghost b: nat, ghost out: seq<Node>)
    requires a < m == Min(a + insize, |s|) && psize0 == m - a && p0 == s[a] && q0 == At(s, m)
    requires Merging(s, null, a, m, m, out0, list0, tail0) && Chained(out0)
    modifies s, cmp`calls
    ensures b == Min(m + insize, |s|) && q == At(s, b)
    ensures Merging(s, null, b, b, b, out, list, tail) && Chained(out)
    ensures out == out0 + Merge(cmp.order, s[a..m], s[m..b])
    ensures cmp.calls == old(cmp.calls) + MergeCalls(cmp.order, s[a..m], s[m..b])
  {
    b := Min(m + insize, |s|);
    out := out0 + Merge(cmp.order, s[a..m], s[m..b]);
    ghost var total := cmp.calls + MergeCalls(cmp.order, s[a..m], s[m..b]);
    ghost var goal := out;
    q, list, tail, out :=
      MergeLoop(cmp, p0, q0, psize0, insize, insize, list0, tail0, s, a, m, b, out0, goal, total);
    Settled(cmp.order, s, m, b, out, cmp.calls, goal, total);
  }

  /** The body of a pass: finds the two runs at p and merges them onto the output list. */
  method MergePair(cmp: Comparator, p: Node, insize: nat, list0: Node?, tail0: Node?,
                   ghost s: seq<Node>, ghost a: nat,
                   ghost out0: seq<Node>, ghost merges: nat, ghost total: seq<(Node, Node)>)
    returns (q: Node?, list: Node?, tail: Node?, ghost b: nat, ghost out: seq<Node>)
    requires insize > 0 && a < |s| && p == s[a]
    requires Merging(s, null, a, a, a, out0, list0, tail0) && Chained(out0)
    requires PassOwes(cmp.order, s, a, insize, out0, merges, cmp.calls, total)
    modifies s, cmp`calls
    ensures a < b <= |s| && q == At(s, b)
    ensures Merging(s, null, b, b, b, out, list, tail) && Chained(out)
    ensures PassOwes(cmp.order, s, b, insize, out, merges + 1, cmp.calls, total)
  {
    var psize;
    q, psize := SkipRun(p, insize, s, a);
    ghost var m, calls := a + psize, cmp.calls;
    q, list, tail, b, out := MergeRuns(cmp, p, q, psize, insize, list0, tail0, s, a, m, out0);
    PassStep(cmp.order, s, a, insize, out0, merges, calls, total, m, b);
  }

  /** The shape of a doubly linked list is restored: the tail in the head's `prev`, null in the tail's `next`. */
  method Terminate(list: Node, tail: Node, ghost s: seq<Node>, ghost out: seq<Node>)
    requires list in s && tail in s && Built(out, list, tail) && Chained(out)
    modifies s
    ensures DL(list, out)
  {
    list.prev := tail;
    tail.next := null;
  }

  /** The loop of a pass: merges the runs of insize nodes in pairs onto a new output list. */
  method PassLoop(list0: Node, insize: nat, cmp: Comparator, ghost s: seq<Node>, ghost total: seq<(Node, Node)>)
    returns (list: Node?, tail: Node?, nmerges: nat, ghost out: seq<Node>)
    requires insize > 0 && LL(list0, s) && total == cmp.calls + PassCalls(cmp.order, s, 0, insize)
    modifies s, cmp`calls
    ensures Built(out, list, tail) && Chained(out) && out == PassFrom(cmp.order, s, 0, insize)
    ensures forall x | x in out :: x in s
    ensures nmerges == Merges(|s|, 0, insize) && cmp.calls == total
  {
    var p: Node? := list0;
    list, tail, nmerges, out := null, null, 0, [];
    ghost var a: nat := 0;
    PassBegins(cmp.order, s, insize, cmp.calls);
    while p != null
      invariant a <= |s| && p == At(s, a)
      invariant Merging(s, null, a, a, a, out, list, tail) && Chained(out)
      invariant PassOwes(cmp.order, s, a, insize, out, nmerges, cmp.calls, total)
      decreases |s| - a
    {
      p, list, tail, a, out := MergePair(cmp, p, insize, list, tail, s, a, out, nmerges, total);
      nmerges := nmerges + 1;
    }
    PassEnds(cmp.order, s, insize, out, nmerges, cmp.calls, total);
  }

  /** One pass. */
  method Pass(list0: Node, insize: nat, cmp: Comparator, ghost s: seq<Node>)
    returns (list: Node?, nmerges: nat)
    requires insize > 0 && LL(list0, s)
    modifies s, cmp`calls
    ensures DL(list, PassFrom(cmp.order, s, 0, insize))
    ensures nmerges == Merges(|s|, 0, insize) && cmp.calls == old(cmp.calls) + PassCalls(cmp.order, s, 0, insize)
  {
    var tail: Node?;
    ghost var total, out: seq<Node> := cmp.calls + PassCalls(cmp.order, s, 0, insize), [];
    list, tail, nmerges, out := PassLoop(list0, insize, cmp, s, total);
    assert list in out && tail in out;
    Terminate(list, tail, s, out);
  }

  /** The body of the sort's outer loop. */
  method Round(list0: Node, insize: nat, cmp: Comparator,
               ghost s: seq<Node>, ghost t: seq<Node>, ghost passes: nat, ghost total: seq<(Node, Node)>)
    returns (list: Node?, nmerges: nat, ghost t': seq<Node>)
    requires insize > 0 && LL(list0, t) && SortOwes(cmp.order, s, t, insize, passes, cmp.calls, total, true)
    modifies s, cmp`calls
    ensures list != null && DL(list, t')
    ensures SortOwes(cmp.order, s, t', 2 * insize, passes + 1, cmp.calls, total, nmerges > 1)
    ensures nmerges > 1 ==> 2 * insize < |s|
  {
    assert forall i | 0 <= i < |t| :: t[i] in s;
    SortStep(cmp.order, s, t, insize, passes, cmp.calls, total);
    list, nmerges := Pass(list0, insize, cmp, t);
    t' := PassFrom(cmp.order, t, 0, insize);
  }

  /** The outer loop of the sort. */
  method SortLoop(list0: Node, cmp: Comparator, ghost s: seq<Node>, ghost total: seq<(Node, Node)>)
    returns (list: Node?, ghost passes: nat, ghost width: nat)
    requires LL(list0, s) && total == cmp.calls + SortCalls(cmp.order, s, 1)
    modifies s, cmp`calls
    ensures DL(list, MergeSort(cmp.order, s)) && cmp.calls == total
    ensures passes == Passes(|s|, 1) && width == Pow2(passes)
  {
    list, passes := list0, 0;
    var insize, looping := 1, true;
    ghost var t := s;
    SortStart(cmp.order, s, cmp.calls);
    while looping
      invariant list != null && LL(list, t) && 0 < insize && (looping ==> insize <= |s|)
      invariant SortOwes(cmp.order, s, t, insize, passes, cmp.calls, total, looping) && (looping || Backed(t))
      decreases looping, |s| - insize
    {
      var nmerges;
      list, nmerges, t := Round(list, insize, cmp, s, t, passes, total);
      if nmerges <= 1 {
        looping := false;
      }
      insize, passes := insize * 2, passes + 1;
    }
    width := insize;
  }

  /** DL_SORT2. */
  method Sort(head: Node?, cmp: Comparator, ghost s: seq<Node>)
    returns (list: Node?, ghost passes: nat, ghost width: nat)
    requires LL(head, s)
    modifies s, cmp`calls
    ensures DL(list, MergeSort(cmp.order, s))
    ensures cmp.calls == old(cmp.calls) + if s == [] then [] else SortCalls(cmp.order, s, 1)
    ensures s != [] ==> passes == Passes(|s|, 1) && width == Pow2(passes)
    ensures s != [] ==> |cmp.calls| + |s| - 1 <= |old(cmp.calls)| + |s| * CeilLog2(|s|)
    ensures NoneTwice(cmp.calls[|old(cmp.calls)|..])
  {
    list, passes, width := head, 0, 1;
    if list != null {
      ghost var before, calls := cmp.calls, SortCalls(cmp.order, s, 1);
      list, passes, width := SortLoop(list, cmp, s, before + calls);
      MergeSortCost(cmp.order, s);
      SortComparesOnce(cmp.order, s);
      DropFirst(cmp.calls, before, calls);
    } else {
      ConcatNothing(cmp.calls);
    }
  }
}
