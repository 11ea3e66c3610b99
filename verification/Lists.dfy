/**
 * The nodes of the intrusive lists of utlist.h and the three list shapes.
 *
 * A list macro is handed the caller's structure type; all it touches are the
 * `next` and `prev` fields.  A comparator is any function of two nodes: what it
 * looks at in the caller's structure is nothing that a list macro changes.
 */
module Lists {
  import opened Sequences

  class Node {
    var next: Node?
    var prev: Node?

    constructor () {
      next, prev := null, null;
    }
  }

  /** The comparator a sort is handed, with the pairs of nodes it has been called on. */
  class Comparator {
    const order: (Node, Node) -> int
    ghost var calls: seq<(Node, Node)>

    constructor (order: (Node, Node) -> int)
      ensures this.order == order
    {
      this.order := order;
      calls := [];
    }

    method Compare(x: Node, y: Node) returns (c: int)
      modifies this`calls
      ensures c == order(x, y) && calls == old(calls) + [(x, y)]
    {
      calls := calls + [(x, y)];
      c := order(x, y);
    }
  }

  /** Node i of s, or null at the end. */
  ghost function At(s: seq<Node>, i: nat): Node?
    requires i <= |s|
  {
    if i < |s| then s[i] else null
  }

  /** What node i of s has in `next`; `end` is what the last node has. */
  ghost function Successor(s: seq<Node>, end: Node?, i: nat): Node?
    requires i < |s|
  {
    if i + 1 < |s| then s[i + 1] else end
  }

  ghost predicate Threaded(s: seq<Node>, end: Node?, lo: nat, hi: nat)
    requires lo <= hi <= |s|
    reads s
  {
    forall i {:trigger s[i].next} | lo <= i < hi :: s[i].next == Successor(s, end, i)
  }

  /** Each node's `prev` is its predecessor, and the first node's is the last node. */
  ghost predicate Backed(s: seq<Node>)
    reads s
  {
    forall i {:trigger s[i].prev} | 0 <= i < |s| :: s[i].prev == if i == 0 then s[|s| - 1] else s[i - 1]
  }

  /** A singly linked list: null-terminated. */
  ghost predicate LL(head: Node?, s: seq<Node>)
    reads s
  {
    && Distinct(s)
    && head == At(s, 0)
    && Threaded(s, null, 0, |s|)
  }

  /** A doubly linked list: null-terminated, with the tail in head.prev. */
  ghost predicate DL(head: Node?, s: seq<Node>)
    reads s
  {
    LL(head, s) && Backed(s)
  }

  /** A ring threaded forwards: the last node's `next` is the head. */
  ghost predicate Ring(head: Node?, s: seq<Node>)
    reads s
  {
    && Distinct(s)
    && head == At(s, 0)
    && Threaded(s, head, 0, |s|)
  }

  /** A circular doubly linked list. */
  ghost predicate CDL(head: Node?, s: seq<Node>)
    reads s
  {
    Ring(head, s) && Backed(s)
  }
}
