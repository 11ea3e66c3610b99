/** The edits of the list macros as edits of a sequence without repeats. */
module SeqEdits {
  import opened Sequences
  import opened Lists

  ghost function IndexOf(s: seq<Node>, x: Node): (i: nat)
    requires x in s
    ensures i < |s| && s[i] == x
  {
    var i: nat :| i < |s| && s[i] == x;
    i
  }

  /** s without x; s itself when x is not in it. */
  ghost function Without(s: seq<Node>, x: Node): seq<Node> {
    if x in s then s[..IndexOf(s, x)] + s[IndexOf(s, x) + 1..] else s
  }

  /** s with y in the place of x; s itself when x is not in it. */
  ghost function Replaced(s: seq<Node>, x: Node, y: Node): seq<Node> {
    if x in s then s[IndexOf(s, x) := y] else s
  }

  /** s with y in front of x; s itself when x is not in it. */
  ghost function Inserted(s: seq<Node>, x: Node, y: Node): seq<Node> {
    if x in s then s[..IndexOf(s, x)] + [y] + s[IndexOf(s, x)..] else s
  }

  lemma WithoutIndexed(s: seq<Node>, x: Node) returns (k: nat, t: seq<Node>)
    requires Distinct(s) && x in s
    ensures t == Without(s, x) && CutAt(s, k, t) && s[k] == x
    ensures Distinct(t)
  {
    k, t := IndexOf(s, x), Without(s, x);
    CutDistinct(s, k, t);
  }

  lemma CutDistinct(s: seq<Node>, k: nat, t: seq<Node>)
    requires Distinct(s) && CutAt(s, k, t)
    ensures Distinct(t)
  {
    forall i, j | 0 <= i < j < |t| ensures t[i] != t[j] {
      var i', j' := if i < k then i else i + 1, if j < k then j else j + 1;
      assert t[i] == s[i'] && t[j] == s[j'] && i' < j';
    }
  }

  lemma InsertedIndexed(s: seq<Node>, x: Node, y: Node) returns (k: nat, t: seq<Node>)
    requires Distinct(s) && x in s && y !in s
    ensures t == Inserted(s, x, y) && PutAt(s, k, y, t) && s[k] == x
    ensures Distinct(t)
  {
    k, t := IndexOf(s, x), Inserted(s, x, y);
    PutDistinct(s, k, y, t);
  }

  lemma PutDistinct(s: seq<Node>, k: nat, y: Node, t: seq<Node>)
    requires Distinct(s) && y !in s && PutAt(s, k, y, t)
    ensures Distinct(t)
  {
    forall i, j | 0 <= i < j < |t| ensures t[i] != t[j] {
      if i == k {
        assert t[i] == y && t[j] == s[j - 1];
      } else if j == k {
        assert t[j] == y && t[i] == s[i];
      } else {
        var i', j' := if i < k then i else i - 1, if j < k then j else j - 1;
        assert t[i] == s[i'] && t[j] == s[j'] && i' < j';
      }
    }
  }

  // ----- Links that go with an edit ------------------------------------------

  /** Where in s the node is that node i has in `prev`: one before it, and for the first node at the end. */
  ghost function Before(s: seq<Node>, i: nat): nat
    requires i < |s|
  {
    if i == 0 then |s| - 1 else i - 1
  }

  /** t is s without its node k. */
  ghost predicate CutAt(s: seq<Node>, k: nat, t: seq<Node>) {
    && k < |s| && |t| == |s| - 1
    && forall i {:trigger t[i]} | 0 <= i < |t| :: t[i] == if i < k then s[i] else s[i + 1]
  }

  /** t is s with y in front of its node k. */
  ghost predicate PutAt(s: seq<Node>, k: nat, y: Node, t: seq<Node>) {
    && k < |s| && |t| == |s| + 1
    && forall i {:trigger t[i]} | 0 <= i < |t| :: t[i] == if i < k then s[i] else if i == k then y else s[i - 1]
  }

  /** The `next` fields of s lead past node k. */
  lemma CutThreaded(s: seq<Node>, k: nat, t: seq<Node>, end: Node?)
    requires CutAt(s, k, t)
    requires forall x {:trigger s[x].next} | 0 <= x < |s| && x != k ::
      s[x].next == Successor(s, end, if x + 1 == k then k else x)
    ensures Threaded(t, end, 0, |t|)
  {
  }

  /** The `prev` fields of s lead past node k. */
  lemma CutBacked(s: seq<Node>, k: nat, t: seq<Node>)
    requires CutAt(s, k, t)
    requires forall x {:trigger s[x].prev} | 0 <= x < |s| && x != k ::
      s[x].prev == s[Before(s, if Before(s, x) == k then k else x)]
    ensures Backed(t)
  {
  }

  /** The `next` fields of s lead through y in front of node k. */
  lemma PutThreaded(s: seq<Node>, k: nat, y: Node, t: seq<Node>, end: Node?)
    requires PutAt(s, k, y, t) && y.next == s[k]
    requires forall x {:trigger s[x].next} | 0 <= x < |s| ::
      s[x].next == if x + 1 == k then y else Successor(s, end, x)
    ensures Threaded(t, end, 0, |t|)
  {
  }

  /** The `prev` fields of s lead through y in front of node k. */
  lemma PutBacked(s: seq<Node>, k: nat, y: Node, t: seq<Node>)
    requires PutAt(s, k, y, t) && y.prev == s[Before(s, k)]
    requires forall x {:trigger s[x].prev} | 0 <= x < |s| ::
      s[x].prev == if x == k then y else s[Before(s, x)]
    ensures Backed(t)
  {
  }

  /** The `next` fields of s1 lead on into s2. */
  lemma JoinThreaded(s1: seq<Node>, s2: seq<Node>)
    requires s1 != [] && s2 != [] && Threaded(s1, s2[0], 0, |s1|) && Threaded(s2, null, 0, |s2|)
    ensures Threaded(s1 + s2, null, 0, |s1 + s2|)
  {
    forall i | 0 <= i < |s1 + s2| ensures (s1 + s2)[i].next == Successor(s1 + s2, null, i) {
      assert i < |s1| ==> s1[i].next == Successor(s1, s2[0], i);
      assert i >= |s1| ==> s2[i - |s1|].next == Successor(s2, null, i - |s1|);
    }
  }

  /** The `prev` fields of s2 lead back into s1, and the first one of s1 to the end of s2. */
  lemma JoinBacked(s1: seq<Node>, s2: seq<Node>)
    requires s1 != [] && s2 != [] && s1[0].prev == s2[|s2| - 1] && s2[0].prev == s1[|s1| - 1]
    requires forall i {:trigger s1[i].prev} | 1 <= i < |s1| :: s1[i].prev == s1[i - 1]
    requires forall i {:trigger s2[i].prev} | 1 <= i < |s2| :: s2[i].prev == s2[i - 1]
    ensures Backed(s1 + s2)
  {
    var t := s1 + s2;
    forall i | 0 <= i < |t| ensures t[i].prev == if i == 0 then t[|t| - 1] else t[i - 1] {
      assert 1 <= i < |s1| ==> s1[i].prev == s1[i - 1];
      assert i > |s1| ==> s2[i - |s1|].prev == s2[i - |s1| - 1];
    }
  }

  lemma DisjointDistinct(s1: seq<Node>, s2: seq<Node>)
    requires Distinct(s1) && Distinct(s2) && (forall x | x in s1 :: x !in s2)
    ensures Distinct(s1 + s2)
  {
    forall i, j | 0 <= i < |s1| && 0 <= j < |s2| ensures s1[i] != s2[j] {
      assert s1[i] in s1 && s2[j] in s2;
    }
  }

  /** The nodes of s that are not to be dropped. */
  ghost function Kept(s: seq<Node>, drop: Node -> bool): seq<Node> {
    if s == [] then []
    else
      var last := s[|s| - 1];
      Kept(s[..|s| - 1], drop) + if drop(last) then [] else [last]
  }

  lemma {:induction false} KeptExactly(s: seq<Node>, drop: Node -> bool)
    ensures forall i | 0 <= i < |Kept(s, drop)| :: Kept(s, drop)[i] in s && !drop(Kept(s, drop)[i])
    ensures forall x | x in s && !drop(x) :: x in Kept(s, drop)
  {
    if s != [] {
      KeptExactly(s[..|s| - 1], drop);
      assert s == s[..|s| - 1] + [s[|s| - 1]];
    }
  }

  /** What is left of list s when its first n nodes have been visited. */
  ghost function Visited(s: seq<Node>, drop: Node -> bool, n: nat): seq<Node>
    requires n <= |s|
  {
    Kept(s[..n], drop) + s[n..]
  }

  lemma VisitEnds(s: seq<Node>, drop: Node -> bool)
    ensures Visited(s, drop, 0) == s && Visited(s, drop, |s|) == Kept(s, drop)
    ensures s[..0] == [] && s[..|s|] == s
  {
    assert s[..|s|] == s;
  }

  /** The record of the nodes visited, when the one the cursor stands at has been added. */
  lemma VisitGrows(s: seq<Node>, n: nat, visited: seq<Node>, el: Node)
    requires n < |s| && visited == s[..n] && el == s[n]
    ensures visited + [el] == s[..n + 1]
  {
  }

  /** The node visited next stands behind the nodes kept so far. */
  lemma VisitHere(s: seq<Node>, drop: Node -> bool, n: nat) returns (cur: seq<Node>, k: nat)
    requires n < |s|
    ensures cur == Visited(s, drop, n) && k < |cur| && cur[k] == s[n] && At(cur, k + 1) == At(s, n + 1)
    ensures forall i | 0 <= i < |cur| :: cur[i] in s
  {
    cur, k := Visited(s, drop, n), |Kept(s[..n], drop)|;
    KeptExactly(s[..n], drop);
    forall i | 0 <= i < |cur| ensures cur[i] in s {
      if i < k {
        assert cur[i] == Kept(s[..n], drop)[i];
        assert cur[i] in s[..n];
      }
    }
  }

  /** Dropping the visited node deletes it from what is left of the list. */
  lemma VisitNext(s: seq<Node>, drop: Node -> bool, n: nat)
    requires n < |s| && Distinct(Visited(s, drop, n))
    ensures var cur := Visited(s, drop, n);
      Visited(s, drop, n + 1) == if drop(s[n]) then Without(cur, s[n]) else cur
  {
    var cur, kept, rest := Visited(s, drop, n), Kept(s[..n], drop), s[n + 1..];
    assert s[..n + 1][..n] == s[..n];
    assert s[n..] == [s[n]] + rest;
    assert cur == kept + [s[n]] + rest;
    WithoutMiddle(kept, s[n], rest);
  }

  lemma WithoutMiddle(a: seq<Node>, x: Node, b: seq<Node>)
    requires Distinct(a + [x] + b)
    ensures Without(a + [x] + b, x) == a + b
  {
    var s := a + [x] + b;
    assert s[|a|] == x;
    assert IndexOf(s, x) == |a|;
  }

  /** Replacing puts y where x stood, and x is gone. */
  lemma ReplacedMiddle(a: seq<Node>, x: Node, b: seq<Node>, y: Node)
    requires Distinct(a + [x] + b) && y !in a + [x] + b
    ensures Replaced(a + [x] + b, x, y) == a + [y] + b
    ensures x !in Replaced(a + [x] + b, x, y) && |Replaced(a + [x] + b, x, y)| == |a + [x] + b|
  {
    var s := a + [x] + b;
    assert s[|a|] == x;
    assert IndexOf(s, x) == |a|;
    assert s[|a| := y] == a + [y] + b;
    assert x !in a && x !in b by {
      assert forall i | 0 <= i < |a| :: a[i] == s[i];
      assert forall i | 0 <= i < |b| :: b[i] == s[|a| + 1 + i];
    }
  }

  /** Inserting puts y in front of x. */
  lemma InsertedMiddle(a: seq<Node>, x: Node, b: seq<Node>, y: Node)
    requires Distinct(a + [x] + b)
    ensures Inserted(a + [x] + b, x, y) == a + [y, x] + b
  {
    var s := a + [x] + b;
    assert s[|a|] == x;
    assert IndexOf(s, x) == |a|;
    assert s[..|a|] == a && s[|a|..] == [x] + b;
  }

  /** A node of a list stands between two parts of it. */
  lemma Around(s: seq<Node>, x: Node) returns (a: seq<Node>, b: seq<Node>)
    requires x in s
    ensures s == a + [x] + b
  {
    var k := IndexOf(s, x);
    a, b := s[..k], s[k + 1..];
  }

  /** What is kept keeps its order: keeping goes part by part, down to single nodes. */
  lemma {:induction false} KeptConcat(a: seq<Node>, b: seq<Node>, drop: Node -> bool)
    ensures Kept(a + b, drop) == Kept(a, drop) + Kept(b, drop)
  {
    if b == [] {
      ConcatNothing(a);
      ConcatNothing(Kept(a, drop));
    } else {
      var n := |b| - 1;
      KeptConcat(a, b[..n], drop);
      KeptSnoc(a + b[..n], b[n], drop);
      KeptSnoc(b[..n], b[n], drop);
      assert b == b[..n] + [b[n]];
      ConcatAssoc(a, b[..n], [b[n]]);
      ConcatAssoc(Kept(a, drop), Kept(b[..n], drop), if drop(b[n]) then [] else [b[n]]);
    }
  }

  lemma KeptSnoc(s: seq<Node>, x: Node, drop: Node -> bool)
    ensures Kept(s + [x], drop) == Kept(s, drop) + if drop(x) then [] else [x]
  {
    assert (s + [x])[..|s|] == s;
  }
}
