/** The CDL_ edit macros: rings, with the head at index zero. */
module RingEdit {
  import opened Sequences
  import opened Lists
  import opened SeqEdits

  /** CDL_PREPEND2. */
  method Prepend(head: Node?, add: Node, ghost s: seq<Node>) returns (newHead: Node)
    requires CDL(head, s) && add !in s
    modifies s, add
    ensures CDL(newHead, [add] + s)
  {
    if head != null {
      add.prev := head.prev;
      add.next := head;
      head.prev := add;
      add.prev.next := add;
    } else {
      add.prev := add;
      add.next := add;
    }
    newHead := add;
  }

  /** CDL_DELETE2. */
  method Delete(head: Node, del: Node, ghost s: seq<Node>) returns (newHead: Node?)
    requires CDL(head, s) && del in s
    modifies s
    ensures CDL(newHead, Without(s, del))
  {
    ghost var k, t := WithoutIndexed(s, del);
    newHead := head;
    assert del.next == (if k + 1 < |s| then s[k + 1] else s[0]);
    assert del.prev == (if k == 0 then s[|s| - 1] else s[k - 1]);
    if head == del && head.next == head {
      newHead := null;
    } else {
      del.next.prev := del.prev;
      del.prev.next := del.next;
      if del == head {
        newHead := del.next;
      }
      CutThreaded(s, k, t, newHead);
      CutBacked(s, k, t);
    }
  }

  /** CDL_REPLACE_ELEM. */
  method Replace(head: Node, el: Node, add: Node, ghost s: seq<Node>) returns (newHead: Node)
    requires CDL(head, s) && el in s && add !in s
    modifies s, add
    ensures CDL(newHead, Replaced(s, el, add))
  {
    ghost var k := IndexOf(s, el);
    newHead := head;
    assert el.next == (if k + 1 < |s| then s[k + 1] else s[0]);
    assert el.prev == (if k == 0 then s[|s| - 1] else s[k - 1]);
    if el.next == el {
      add.next := add;
      add.prev := add;
      newHead := add;
    } else {
      add.next := el.next;
      add.prev := el.prev;
      add.next.prev := add;
      add.prev.next := add;
      if head == el {
        newHead := add;
      }
    }
  }

  /** CDL_PREPEND_ELEM. */
  method PrependElem(head: Node, el: Node, add: Node, ghost s: seq<Node>) returns (newHead: Node)
    requires CDL(head, s) && el in s && add !in s
    modifies s, add
    ensures CDL(newHead, Inserted(s, el, add))
  {
    ghost var k, t := InsertedIndexed(s, el, add);
    newHead := head;
    assert el.next == (if k + 1 < |s| then s[k + 1] else s[0]);
    assert el.prev == (if k == 0 then s[|s| - 1] else s[k - 1]);
    add.next := el;
    add.prev := el.prev;
    el.prev := add;
    add.prev.next := add;
    if head == el {
      newHead := add;
    }
    PutThreaded(s, k, add, t, newHead);
    PutBacked(s, k, add, t);
  }

  /** One turn of the traversal below: `last` is the node the ring ended with at the start. */
  method Visit(head: Node?, el: Node, last: Node, drop: Node -> bool,
               ghost s: seq<Node>, ghost n: nat, ghost visited: seq<Node>)
    returns (newHead: Node?, next: Node?, ghost visited': seq<Node>)
    requires n < |s| && el == s[n] && visited == s[..n] && Distinct(s) && last == s[|s| - 1]
    requires CDL(head, Visited(s, drop, n))
    modifies s
    ensures visited' == s[..n + 1] && next == At(s, n + 1) && CDL(newHead, Visited(s, drop, n + 1))
  {
    visited' := visited + [el];
    VisitGrows(s, n, visited, el);
    ghost var cur, k := VisitHere(s, drop, n);
    VisitNext(s, drop, n);
    newHead := head;
    assert el == cur[k];
    var tmp2 := el.next;
    if drop(el) {
      newHead := Delete(newHead, el, cur);
    }
    next := if el == last then null else tmp2;
  }

  /** CDL_FOREACH_SAFE2 around a body that deletes the current node when `drop` says so. */
  method ForeachSafe(head: Node?, drop: Node -> bool, ghost s: seq<Node>)
    returns (newHead: Node?, ghost visited: seq<Node>)
    requires CDL(head, s)
    modifies s
    ensures visited == s
    ensures CDL(newHead, Kept(s, drop))
  {
    newHead, visited := head, [];
    ghost var n: nat := 0;
    var el := head;
    var tmp1 := if head != null then head.prev else null;
    VisitEnds(s, drop);
    assert s != [] ==> tmp1 == s[|s| - 1];
    while el != null
      invariant n <= |s| && visited == s[..n] && el == At(s, n)
      invariant CDL(newHead, Visited(s, drop, n))
      invariant s != [] ==> tmp1 == s[|s| - 1]
      decreases |s| - n
    {
      newHead, el, visited := Visit(newHead, el, tmp1, drop, s, n, visited);
      n := n + 1;
    }
    assert n == |s|;
  }
}
