/**
 * Arbitrary programs of list edits.
 *
 * A program works on two list variables.  `Concat` appends the second list to the first and
 * leaves the second variable empty, `Swap` exchanges the variables, and every other edit is
 * made on the first list.  Nodes may be removed and put in again any number of times.
 */
module EditRuns {
  import opened Lists
  import opened SeqEdits
  import opened MergeSpec
  import opened MergeTheorems
  import opened Sequences
  import DoubleEdit
  import DoubleSort
  import RingEdit
  import RingSort

  datatype Edit =
    | Prepend(add: Node)
    | Append(add: Node)
    | Delete(del: Node)
    | Replace(el: Node, add: Node)
    | PrependElem(el: Node, add: Node)
    | Sort(cmp: (Node, Node) -> int)
    | DropAll(drop: Node -> bool)
    | Concat
    | Swap

  /** The contents of the two list variables. */
  datatype TwoLists = TwoLists(s1: seq<Node>, s2: seq<Node>)

  ghost predicate Unlisted(x: Node, l: TwoLists) {
    x !in l.s1 && x !in l.s2
  }

  /** What an edit demands of its caller: a node put in is in no list, a node named as present is. */
  ghost predicate Permitted(e: Edit, l: TwoLists) {
    match e
    case Prepend(add) => Unlisted(add, l)
    case Append(add) => Unlisted(add, l)
    case Delete(del) => del in l.s1
    case Replace(el, add) => el in l.s1 && Unlisted(add, l)
    case PrependElem(el, add) => el in l.s1 && Unlisted(add, l)
    case _ => true
  }

  ghost function Apply(e: Edit, l: TwoLists): TwoLists {
    match e
    case Prepend(add) => TwoLists([add] + l.s1, l.s2)
    case Append(add) => TwoLists(l.s1 + [add], l.s2)
    case Delete(del) => TwoLists(Without(l.s1, del), l.s2)
    case Replace(el, add) => TwoLists(Replaced(l.s1, el, add), l.s2)
    case PrependElem(el, add) => TwoLists(Inserted(l.s1, el, add), l.s2)
    case Sort(cmp) => TwoLists(MergeSort(cmp, l.s1), l.s2)
    case DropAll(drop) => TwoLists(Kept(l.s1, drop), l.s2)
    case Concat => TwoLists(l.s1 + l.s2, [])
    case Swap => TwoLists(l.s2, l.s1)
  }

  ghost predicate AllPermitted(edits: seq<Edit>, l: TwoLists) {
    edits == [] || (Permitted(edits[0], l) && AllPermitted(edits[1..], Apply(edits[0], l)))
  }

  ghost function Outcome(edits: seq<Edit>, l: TwoLists): TwoLists {
    if edits == [] then l else Outcome(edits[1..], Apply(edits[0], l))
  }

  /** The node an edit puts in, if it puts one in. */
  ghost function Added(e: Edit): set<Node> {
    if e.Prepend? || e.Append? || e.Replace? || e.PrependElem? then {e.add} else {}
  }

  /** Both lists consist of nodes of the pool, and share none. */
  ghost predicate Apart(l: TwoLists, pool: set<Node>) {
    && (forall i | 0 <= i < |l.s1| :: l.s1[i] in pool && l.s1[i] !in l.s2)
    && (forall i | 0 <= i < |l.s2| :: l.s2[i] in pool && l.s2[i] !in l.s1)
  }

  /**
   * What each edit makes of the first list l.s1, which it cuts at the node it names where it names one;
   * only concatenating and exchanging the lists touch the second.
   */
  lemma ApplyMeans(e: Edit, l: TwoLists)
    requires Permitted(e, l) && Distinct(l.s1)
    ensures e.Prepend? ==> Apply(e, l).s1[0] == e.add && Apply(e, l).s1[1..] == l.s1
    ensures e.Append? ==> Apply(e, l).s1[|l.s1|] == e.add && Apply(e, l).s1[..|l.s1|] == l.s1
    ensures e.Delete? ==> forall a, b | l.s1 == a + [e.del] + b :: Apply(e, l).s1 == a + b
    ensures e.Replace? ==> forall a, b | l.s1 == a + [e.el] + b :: Apply(e, l).s1 == a + [e.add] + b
    ensures e.PrependElem? ==> forall a, b | l.s1 == a + [e.el] + b :: Apply(e, l).s1 == a + [e.add, e.el] + b
    ensures !e.Concat? && !e.Swap? ==> Apply(e, l).s2 == l.s2
  {
    match e
    case Delete(del) =>
      forall a, b | l.s1 == a + [del] + b ensures Apply(e, l).s1 == a + b {
        WithoutMiddle(a, del, b);
      }
    case Replace(el, add) =>
      forall a, b | l.s1 == a + [el] + b ensures Apply(e, l).s1 == a + [add] + b {
        ReplacedMiddle(a, el, b, add);
      }
    case PrependElem(el, add) =>
      forall a, b | l.s1 == a + [el] + b ensures Apply(e, l).s1 == a + [add, el] + b {
        InsertedMiddle(a, el, b, add);
      }
    case _ =>
  }

  /** The edits that concern both lists, or all of the first. */
  lemma ApplyMeansWhole(e: Edit, l: TwoLists)
    ensures e.Concat? ==> Apply(e, l).s2 == [] && Apply(e, l).s1[..|l.s1|] == l.s1 && Apply(e, l).s1[|l.s1|..] == l.s2
    ensures e.Swap? ==> Apply(Swap, Apply(e, l)) == l && Apply(e, l).s1 == l.s2
    ensures e.DropAll? ==> forall x :: x in Apply(e, l).s1 <==> x in l.s1 && !e.drop(x)
    ensures e.Sort? ==> multiset(Apply(e, l).s1) == multiset(l.s1)
    ensures e.Sort? && TotalPreorder(e.cmp, set x | x in l.s1) ==>
      Sorted(e.cmp, Apply(e, l).s1) && Stable(e.cmp, l.s1, Apply(e, l).s1)
  {
    match e
    case Sort(cmp) =>
      SortPermutes(cmp, l.s1, 1);
      if TotalPreorder(cmp, set x | x in l.s1) {
        MergeSortCorrect(cmp, l.s1);
      }
    case DropAll(drop) => KeptExactly(l.s1, drop);
    case _ =>
  }

  /** A program is made of its parts, down to single edits. */
  lemma {:induction false} OutcomeConcat(edits: seq<Edit>, more: seq<Edit>, l: TwoLists)
    ensures Outcome(edits + more, l) == Outcome(more, Outcome(edits, l))
    ensures forall e :: Outcome([e], l) == Apply(e, l)
  {
    if edits == [] {
      assert edits + more == more;
    } else {
      OutcomeConcat(edits[1..], more, Apply(edits[0], l));
      assert (edits + more)[1..] == edits[1..] + more;
    }
    forall e ensures Outcome([e], l) == Apply(e, l) {
      assert [e][1..] == [];
    }
  }

  lemma ApplyApart(e: Edit, l: TwoLists, pool: set<Node>)
    requires Permitted(e, l) && Added(e) <= pool && Apart(l, pool)
    ensures Apart(Apply(e, l), pool)
  {
    match e
    case Sort(cmp) =>
      SortPermutes(cmp, l.s1, 1);
      SameMembers(l.s1, MergeSort(cmp, l.s1));
    case DropAll(drop) => KeptExactly(l.s1, drop);
    case Delete(del) =>
    case _ =>
  }

  lemma SameMembers(s: seq<Node>, t: seq<Node>)
    requires multiset(s) == multiset(t)
    ensures forall i | 0 <= i < |t| :: t[i] in s
    ensures forall i | 0 <= i < |s| :: s[i] in t
  {
    forall i | 0 <= i < |t| ensures t[i] in s { assert t[i] in multiset(t); }
    forall i | 0 <= i < |s| ensures s[i] in t { assert s[i] in multiset(s); }
  }

  /** One edit of the first list, by the DL_ macro for it. */
  method EditDouble(e: Edit, head: Node?, ghost l: TwoLists) returns (newHead: Node?)
    requires DL(head, l.s1) && Permitted(e, l) && !e.Concat? && !e.Swap?
    modifies l.s1, Added(e)
    ensures DL(newHead, Apply(e, l).s1)
  {
    match e
    case Prepend(add) => newHead := DoubleEdit.Prepend(head, add, l.s1);
    case Append(add) => newHead := DoubleEdit.Append(head, add, l.s1);
    case Delete(del) => newHead := DoubleEdit.Delete(head, del, l.s1);
    case Replace(el, add) => newHead := DoubleEdit.Replace(head, el, add, l.s1);
    case PrependElem(el, add) => newHead := DoubleEdit.PrependElem(head, el, add, l.s1);
    case Sort(cmp) =>
      var comparator := new Comparator(cmp);
      ghost var passes, width;
      newHead, passes, width := DoubleSort.Sort(head, comparator, l.s1);
    case DropAll(drop) =>
      ghost var visited;
      newHead, visited := DoubleEdit.ForeachSafe(head, drop, l.s1);
  }

  method PerformDouble(e: Edit, h1: Node?, h2: Node?, ghost l: TwoLists, ghost pool: set<Node>)
    returns (g1: Node?, g2: Node?)
    requires DL(h1, l.s1) && DL(h2, l.s2) && Apart(l, pool)
    requires Permitted(e, l) && Added(e) <= pool
    modifies pool
    ensures DL(g1, Apply(e, l).s1) && DL(g2, Apply(e, l).s2) && Apart(Apply(e, l), pool)
  {
    ApplyApart(e, l, pool);
    g1, g2 := h1, h2;
    if e.Concat? {
      g1 := DoubleEdit.Concat(h1, h2, l.s1, l.s2);
      g2 := null;
    } else if e.Swap? {
      g1, g2 := h2, h1;
    } else {
      g1 := EditDouble(e, h1, l);
    }
  }

  /** Any program of edits of doubly linked lists. */
  method ExecuteDouble(edits: seq<Edit>, h1: Node?, h2: Node?, ghost l: TwoLists, ghost pool: set<Node>)
    returns (g1: Node?, g2: Node?)
    requires DL(h1, l.s1) && DL(h2, l.s2) && Apart(l, pool)
    requires AllPermitted(edits, l) && forall e | e in edits :: Added(e) <= pool
    modifies pool
    ensures DL(g1, Outcome(edits, l).s1) && DL(g2, Outcome(edits, l).s2)
  {
    g1, g2 := h1, h2;
    ghost var cur := l;
    var i := 0;
    while i < |edits|
      invariant i <= |edits| && AllPermitted(edits[i..], cur) && Outcome(edits[i..], cur) == Outcome(edits, l)
      invariant DL(g1, cur.s1) && DL(g2, cur.s2) && Apart(cur, pool)
    {
      assert edits[i..][0] == edits[i] && edits[i..][1..] == edits[i + 1..];
      g1, g2 := PerformDouble(edits[i], g1, g2, cur, pool);
      cur := Apply(edits[i], cur);
      i := i + 1;
    }
  }

  /** One edit of the first list, by the CDL_ macro for it. */
  method EditRing(e: Edit, head: Node?, ghost l: TwoLists) returns (newHead: Node?)
    requires CDL(head, l.s1) && Permitted(e, l) && !e.Concat? && !e.Swap? && !e.Append?
    modifies l.s1, Added(e)
    ensures CDL(newHead, Apply(e, l).s1)
  {
    match e
    case Prepend(add) => newHead := RingEdit.Prepend(head, add, l.s1);
    case Delete(del) => newHead := RingEdit.Delete(head, del, l.s1);
    case Replace(el, add) => newHead := RingEdit.Replace(head, el, add, l.s1);
    case PrependElem(el, add) => newHead := RingEdit.PrependElem(head, el, add, l.s1);
    case Sort(cmp) =>
      var comparator := new Comparator(cmp);
      ghost var passes, width;
      newHead, passes, width := RingSort.Sort(head, comparator, l.s1);
    case DropAll(drop) =>
      ghost var visited;
      newHead, visited := RingEdit.ForeachSafe(head, drop, l.s1);
  }

  method PerformRing(e: Edit, h1: Node?, h2: Node?, ghost l: TwoLists, ghost pool: set<Node>)
    returns (g1: Node?, g2: Node?)
    requires CDL(h1, l.s1) && CDL(h2, l.s2) && Apart(l, pool)
    requires Permitted(e, l) && Added(e) <= pool && !e.Append? && !e.Concat?
    modifies pool
    ensures CDL(g1, Apply(e, l).s1) && CDL(g2, Apply(e, l).s2) && Apart(Apply(e, l), pool)
  {
    ApplyApart(e, l, pool);
    g1, g2 := h1, h2;
    if e.Swap? {
      g1, g2 := h2, h1;
    } else {
      g1 := EditRing(e, h1, l);
    }
  }

  /** Any program of edits of rings. */
  method ExecuteRing(edits: seq<Edit>, h1: Node?, h2: Node?, ghost l: TwoLists, ghost pool: set<Node>)
    returns (g1: Node?, g2: Node?)
    requires CDL(h1, l.s1) && CDL(h2, l.s2) && Apart(l, pool)
    requires AllPermitted(edits, l) && forall e | e in edits :: Added(e) <= pool && !e.Append? && !e.Concat?
    modifies pool
    ensures CDL(g1, Outcome(edits, l).s1) && CDL(g2, Outcome(edits, l).s2)
  {
    g1, g2 := h1, h2;
    ghost var cur := l;
    var i := 0;
    while i < |edits|
      invariant i <= |edits| && AllPermitted(edits[i..], cur) && Outcome(edits[i..], cur) == Outcome(edits, l)
      invariant CDL(g1, cur.s1) && CDL(g2, cur.s2) && Apart(cur, pool)
    {
      assert edits[i..][0] == edits[i] && edits[i..][1..] == edits[i + 1..];
      g1, g2 := PerformRing(edits[i], g1, g2, cur, pool);
      cur := Apply(edits[i], cur);
      i := i + 1;
    }
  }
}
