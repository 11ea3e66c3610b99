/** The LL_ edit macros on singly linked lists, and their two replacements for VS2008. */
module SingleEdit {
  import opened Sequences
  import opened Lists
  import opened SeqEdits

  /** LL_PREPEND2. */
  method Prepend(head: Node?, add: Node, ghost s: seq<Node>) returns (newHead: Node)
    requires LL(head, s) && add !in s
    modifies add`next
    ensures LL(newHead, [add] + s)
  {
    add.next := head;
    newHead := add;
  }

  /** LL_CONCAT2. */
  method Concat(head1: Node?, head2: Node?, ghost s1: seq<Node>, ghost s2: seq<Node>) returns (newHead: Node?)
    requires LL(head1, s1) && LL(head2, s2) && forall x | x in s1 :: x !in s2
    modifies s1`next
    ensures LL(newHead, s1 + s2)
  {
    DisjointDistinct(s1, s2);
    newHead := head1;
    if head1 != null {
      var tmp := head1;
      ghost var n := 0;
      while tmp.next != null
        invariant n < |s1| && tmp == s1[n]
        decreases |s1| - n
      {
        tmp := tmp.next;
        n := n + 1;
      }
      assert tmp in s1;
      tmp.next := head2;
    } else {
      newHead := head2;
      assert s1 + s2 == s2;
    }
  }

  /** LL_APPEND2. */
  method Append(head: Node?, add: Node, ghost s: seq<Node>) returns (newHead: Node)
    requires LL(head, s) && add !in s
    modifies s`next, add`next
    ensures LL(newHead, s + [add])
  {
    add.next := null;
    if head != null {
      newHead := head;
      var tmp := head;
      ghost var n := 0;
      while tmp.next != null
        invariant n < |s| && tmp == s[n] && Threaded(s, null, 0, |s|)
        decreases |s| - n
      {
        tmp := tmp.next;
        n := n + 1;
      }
      tmp.next := add;
    } else {
      newHead := add;
    }
  }

  /** LL_APPEND2_VS2008: the cursor is the new node's own `next`. */
  method AppendVS2008(head: Node?, add: Node, ghost s: seq<Node>) returns (newHead: Node)
    requires LL(head, s) && add !in s
    modifies s`next, add`next
    ensures LL(newHead, s + [add])
  {
    if head != null {
      newHead := head;
      add.next := head;
      ghost var n := 0;
      while add.next.next != null
        invariant n < |s| && add.next == s[n] && Threaded(s, null, 0, |s|)
        decreases |s| - n
      {
        add.next := add.next.next;
        n := n + 1;
      }
      add.next.next := add;
    } else {
      newHead := add;
    }
    add.next := null;
  }

  /** LL_DELETE2; a node that is not in the list is left where it is. */
  method Delete(head: Node, del: Node, ghost s: seq<Node>) returns (newHead: Node?)
    requires LL(head, s)
    modifies s`next
    ensures LL(newHead, Without(s, del)) && del.next == old(del.next)
  {
    newHead := head;
    if head == del {
      ghost var k, t := WithoutIndexed(s, del);
      newHead := head.next;
    } else {
      var tmp := head;
      ghost var n := 0;
      while tmp.next != null && tmp.next != del
        invariant n < |s| && tmp == s[n] && del !in s[..n + 1]
        decreases |s| - n
      {
        tmp := tmp.next;
        n := n + 1;
      }
      Unlink(tmp, del, s, n);
    }
  }

  /** What LL_DELETE2 does once its search has stopped at node n. */
  method Unlink(tmp: Node, del: Node, ghost s: seq<Node>, ghost n: nat)
    requires n < |s| && tmp == s[n] && LL(s[0], s) && del !in s[..n + 1]
    requires tmp.next == null || tmp.next == del
    modifies s`next
    ensures LL(s[0], Without(s, del)) && del.next == old(del.next)
  {
    if tmp.next != null {
      ghost var k, t := WithoutIndexed(s, del);
      assert del == s[n + 1] && k == n + 1;
      tmp.next := del.next;
    } else {
      assert s[..n + 1] == s;
    }
  }

  /** LL_DELETE2_VS2008: the list head itself is the cursor, and is put back at the end. */
  method DeleteVS2008(head0: Node, del: Node, ghost s: seq<Node>) returns (head: Node?)
    requires LL(head0, s)
    modifies s`next
    ensures LL(head, Without(s, del)) && del.next == old(del.next)
  {
    head := head0;
    if head == del {
      ghost var k, t := WithoutIndexed(s, del);
      head := head.next;
    } else {
      var tmp := head;
      ghost var n := 0;
      while head.next != null && head.next != del
        invariant n < |s| && head == s[n] && del !in s[..n + 1]
        decreases |s| - n
      {
        head := head.next;
        n := n + 1;
      }
      Unlink(head, del, s, n);
      head := tmp;
    }
  }

  /** The search of LL_REPLACE_ELEM and LL_PREPEND_ELEM, and the link it ends with. */
  method LinkBefore(head: Node, el: Node, add: Node, ghost s: seq<Node>)
    requires LL(head, s) && add !in s && head != el
    modifies s`next
    ensures el !in s ==> LL(head, s)
    ensures el in s ==> var k := IndexOf(s, el);
      k > 0 && s[k - 1].next == add
      && forall i {:trigger s[i].next} | 0 <= i < |s| && i != k - 1 :: s[i].next == Successor(s, null, i)
    ensures add.next == old(add.next)
  {
    var tmp := head;
    ghost var n := 0;
    while tmp.next != null && tmp.next != el
      invariant n < |s| && tmp == s[n] && el !in s[..n + 1]
      decreases |s| - n
    {
      tmp := tmp.next;
      n := n + 1;
    }
    if tmp.next != null {
      assert IndexOf(s, el) == n + 1;
      tmp.next := add;
    } else {
      assert s[..n + 1] == s;
    }
  }

  /** LL_REPLACE_ELEM. */
  method Replace(head: Node, el: Node, add: Node, ghost s: seq<Node>) returns (newHead: Node)
    requires LL(head, s) && add !in s
    modifies s`next, add`next
    ensures LL(newHead, Replaced(s, el, add))
  {
    newHead := head;
    add.next := el.next;
    if head == el {
      newHead := add;
      assert IndexOf(s, el) == 0;
    } else {
      LinkBefore(head, el, add, s);
    }
  }

  /** LL_PREPEND_ELEM. */
  method PrependElem(head: Node, el: Node, add: Node, ghost s: seq<Node>) returns (newHead: Node)
    requires LL(head, s) && add !in s
    modifies s`next, add`next
    ensures LL(newHead, Inserted(s, el, add))
  {
    newHead := head;
    if el in s {
      ghost var k, t := InsertedIndexed(s, el, add);
    }
    add.next := el;
    if head == el {
      newHead := add;
    } else {
      LinkBefore(head, el, add, s);
    }
  }
}
