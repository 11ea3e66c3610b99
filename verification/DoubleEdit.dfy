/** The DL_ edit macros: doubly linked lists with the tail in the head's `prev`. */
module DoubleEdit {
  import opened Lists
  import opened SeqEdits
  import opened Sequences

  /** DL_PREPEND2. */
  method Prepend(head: Node?, add: Node, ghost s: seq<Node>) returns (newHead: Node)
    requires DL(head, s) && add !in s
    modifies s, add
    ensures DL(newHead, [add] + s)
  {
    add.next := head;
    if head != null {
      add.prev := head.prev;
      head.prev := add;
    } else {
      add.prev := add;
    }
    newHead := add;
  }

  /** DL_APPEND2. */
  method Append(head: Node?, add: Node, ghost s: seq<Node>) returns (newHead: Node)
    requires DL(head, s) && add !in s
    modifies s, add
    ensures DL(newHead, s + [add])
  {
    if head != null {
      newHead := head;
      add.prev := head.prev;
      head.prev.next := add;
      head.prev := add;
      add.next := null;
    } else {
      newHead := add;
      newHead.prev := newHead;
      newHead.next := null;
    }
  }

  /** DL_CONCAT2. */
  method Concat(head1: Node?, head2: Node?, ghost s1: seq<Node>, ghost s2: seq<Node>) returns (newHead: Node?)
    requires DL(head1, s1) && DL(head2, s2) && forall x | x in s1 :: x !in s2
    modifies s1, s2
    ensures DL(newHead, s1 + s2)
  {
    newHead := head1;
    if head2 != null {
      if head1 != null {
        Join(head1, head2, s1, s2);
      } else {
        newHead := head2;
        ConcatNothing(s2);
      }
    } else {
      ConcatNothing(s1);
    }
  }

  /** The case of two lists that are not empty. */
  method Join(head1: Node, head2: Node, ghost s1: seq<Node>, ghost s2: seq<Node>)
    requires DL(head1, s1) && DL(head2, s2) && forall x | x in s1 :: x !in s2
    modifies s1, s2
    ensures DL(head1, s1 + s2)
  {
    DisjointDistinct(s1, s2);
    assert head1.prev == s1[|s1| - 1] && head1 == s1[0] && head2 == s2[0];
    assert head1 in s1 && head2 in s2;
    assert forall i | 0 <= i < |s1| :: s1[i] in s1 && s1[i] != head2;
    assert forall i | 0 <= i < |s2| :: s2[i] in s2 && s2[i] != head1;
    var tmp := head2.prev;
    head2.prev := head1.prev;
    head1.prev.next := head2;
    head1.prev := tmp;
    JoinThreaded(s1, s2);
    JoinBacked(s1, s2);
  }

  /** DL_DELETE2. */
  method Delete(head: Node?, del: Node, ghost s: seq<Node>) returns (newHead: Node?)
    requires DL(head, s) && del in s
    modifies s
    ensures DL(newHead, Without(s, del))
  {
    ghost var k, t := WithoutIndexed(s, del);
    assert del.prev != null;
    newHead := head;
    if del.prev == del {
      newHead := null;
    } else if del == head {
      del.next.prev := del.prev;
      newHead := del.next;
    } else {
      del.prev.next := del.next;
      if del.next != null {
        del.next.prev := del.prev;
      } else {
        head.prev := del.prev;
      }
    }
    if newHead != null {
      CutThreaded(s, k, t, null);
      CutBacked(s, k, t);
    }
  }

  /** DL_REPLACE_ELEM. */
  method Replace(head: Node, el: Node, add: Node, ghost s: seq<Node>) returns (newHead: Node)
    requires DL(head, s) && el in s && add !in s
    modifies s, add
    ensures DL(newHead, Replaced(s, el, add))
  {
    ghost var k := IndexOf(s, el);
    newHead := head;
    if head == el {
      newHead := add;
      add.next := el.next;
      if el.next == null {
        add.prev := add;
      } else {
        add.prev := el.prev;
        add.next.prev := add;
      }
    } else {
      add.next := el.next;
      add.prev := el.prev;
      add.prev.next := add;
      if el.next == null {
        head.prev := add;
      } else {
        add.next.prev := add;
      }
    }
  }

  /** DL_PREPEND_ELEM. */
  method PrependElem(head: Node, el: Node, add: Node, ghost s: seq<Node>) returns (newHead: Node)
    requires DL(head, s) && el in s && add !in s
    modifies s, add
    ensures DL(newHead, Inserted(s, el, add))
  {
    ghost var k, t := InsertedIndexed(s, el, add);
    newHead := head;
    assert el.prev == s[Before(s, k)] && head == s[0];
    assert forall i | 0 <= i < |s| && i != k :: s[i] != el;
    add.next := el;
    add.prev := el.prev;
    el.prev := add;
    if head == el {
      newHead := add;
    } else {
      add.prev.next := add;
    }
    PutThreaded(s, k, add, t, null);
    PutBacked(s, k, add, t);
  }

  /** One turn of the traversal below: the successor is read before the body runs. */
  method Visit(head: Node?, el: Node, drop: Node -> bool,
               ghost s: seq<Node>, ghost n: nat, ghost visited: seq<Node>)
    returns (newHead: Node?, tmp: Node?, ghost visited': seq<Node>)
    requires n < |s| && el == s[n] && visited == s[..n]
    requires DL(head, Visited(s, drop, n))
    modifies s
    ensures visited' == s[..n + 1] && tmp == At(s, n + 1) && DL(newHead, Visited(s, drop, n + 1))
  {
    visited' := visited + [el];
    VisitGrows(s, n, visited, el);
    ghost var cur, k := VisitHere(s, drop, n);
    VisitNext(s, drop, n);
    newHead := head;
    assert el == cur[k];
    tmp := el.next;
    if drop(el) {
      newHead := Delete(newHead, el, cur);
    }
  }

  /** DL_FOREACH_SAFE2 around a body that deletes the current node when `drop` says so. */
  method ForeachSafe(head: Node?, drop: Node -> bool, ghost s: seq<Node>)
    returns (newHead: Node?, ghost visited: seq<Node>)
    requires DL(head, s)
    modifies s
    ensures visited == s
    ensures DL(newHead, Kept(s, drop))
  {
    newHead, visited := head, [];
    ghost var n: nat := 0;
    var el := head;
    VisitEnds(s, drop);
    while el != null
      invariant n <= |s| && visited == s[..n] && el == At(s, n)
      invariant DL(newHead, Visited(s, drop, n))
      decreases |s| - n
    {
      newHead, el, visited := Visit(newHead, el, drop, s, n, visited);
      n := n + 1;
    }
    assert n == |s|;
  }

  /**
   * DL_FOREACH_SAFE2 around a body that frees the current node: the memory of a freed node may
   * hold anything, and no freed node is read again.
   */
  method FreeAll(head: Node?, ghost s: seq<Node>) returns (ghost freed: seq<Node>)
    requires DL(head, s)
    modifies s
    ensures freed == s && Distinct(freed)
  {
    freed := [];
    var el := head;
    while el != null
      invariant |freed| <= |s| && freed == s[..|freed|]
      invariant el == At(s, |freed|)
      invariant Threaded(s, null, |freed|, |s|)
      decreases |s| - |freed|
    {
      assert el !in freed;
      var tmp := el.next;
      el.next, el.prev := *, *;
      freed := freed + [el];
      el := tmp;
    }
  }
}
