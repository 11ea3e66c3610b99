/**
 * No sort calls its comparator twice on the same two nodes, in either order.
 *
 * Two nodes are compared when the runs they are in are merged.  Before that they were in different
 * runs, and afterwards they are in the same one, as they then remain.
 */
module CompareOnce {
  import opened Sequences
  import opened MergeSpec
  import opened MergeTheorems

  ghost predicate SamePair<T>(p: (T, T), q: (T, T)) {
    p == q || (p.0 == q.1 && p.1 == q.0)
  }

  /** No two of the calls are on the same two elements. */
  ghost predicate NoneTwice<T>(calls: seq<(T, T)>) {
    forall i, j | 0 <= i < j < |calls| :: !SamePair(calls[i], calls[j])
  }

  /** x and y are in one of the blocks of k into which s is cut from position a on. */
  ghost predicate Together<T>(s: seq<T>, a: nat, k: nat, x: T, y: T)
    requires k > 0 && a <= |s|
    decreases |s| - a
  {
    a < |s| &&
    var b := Min(a + k, |s|);
    (x in s[a..b] && y in s[a..b]) || Together(s, b, k, x, y)
  }

  lemma NoneTwiceConcat<T>(a: seq<(T, T)>, b: seq<(T, T)>)
    requires NoneTwice(a) && NoneTwice(b)
    requires forall p, q | p in a && q in b :: !SamePair(p, q)
    ensures NoneTwice(a + b)
  {
    var c := a + b;
    forall i, j | 0 <= i < j < |c| ensures !SamePair(c[i], c[j]) {
      if i < |a| <= j {
        assert c[i] in a && c[j] in b;
      }
    }
  }

  // ----- One merge -----------------------------------------------------------

  lemma {:induction false} MergeCallsWithin<T>(cmp: (T, T) -> int, a: seq<T>, b: seq<T>, p: (T, T))
    requires p in MergeCalls(cmp, a, b)
    ensures p.0 in a && p.1 in b
    decreases |a| + |b|
  {
    if p != (a[0], b[0]) {
      if cmp(a[0], b[0]) <= 0 {
        MergeCallsWithin(cmp, a[1..], b, p);
      } else {
        MergeCallsWithin(cmp, a, b[1..], p);
      }
    }
  }

  /** One of two elements compared is put out at once, and is compared with nothing else of the two runs. */
  lemma {:induction false} MergeComparesOnce<T>(cmp: (T, T) -> int, a: seq<T>, b: seq<T>)
    requires Distinct(a) && Distinct(b) && forall x | x in a :: x !in b
    ensures NoneTwice(MergeCalls(cmp, a, b))
    decreases |a| + |b|
  {
    if a != [] && b != [] {
      var left := cmp(a[0], b[0]) <= 0;
      var a', b' := if left then a[1..] else a, if left then b else b[1..];
      var rest := MergeCalls(cmp, a', b');
      MergeComparesOnce(cmp, a', b');
      forall p, q | p in [(a[0], b[0])] && q in rest ensures !SamePair(p, q) {
        MergeCallsWithin(cmp, a', b', q);
        HeadIsGone(a);
        HeadIsGone(b);
      }
      NoneTwiceConcat([(a[0], b[0])], rest);
    }
  }

  lemma HeadIsGone<T>(s: seq<T>)
    requires Distinct(s) && s != []
    ensures s[0] in s && s[0] !in s[1..]
  {
  }

  // ----- One pass ------------------------------------------------------------

  /** The positions of a pass that starts a turn at a: both blocks are cut out of s, and the rest follows. */
  lemma PairOfBlocks<T>(s: seq<T>, a: nat, m: nat, b: nat)
    requires Distinct(s) && a <= m <= b <= |s|
    ensures Distinct(s[a..m]) && Distinct(s[m..b])
    ensures forall x | x in s[a..m] :: x !in s[m..b] && x !in s[b..]
    ensures forall x | x in s[m..b] :: x !in s[b..]
  {
  }

  lemma {:induction false} PassCallsWithin<T>(cmp: (T, T) -> int, s: seq<T>, a: nat, k: nat, p: (T, T))
    requires k > 0 && a <= |s| && p in PassCalls(cmp, s, a, k)
    ensures p.0 in s[a..] && p.1 in s[a..]
    decreases |s| - a
  {
    var m, b := FirstTurn(cmp, s, a, k);
    if p in MergeCalls(cmp, s[a..m], s[m..b]) {
      MergeCallsWithin(cmp, s[a..m], s[m..b], p);
    } else {
      PassCallsWithin(cmp, s, b, k, p);
    }
  }

  lemma FirstTurn<T>(cmp: (T, T) -> int, s: seq<T>, a: nat, k: nat) returns (m: nat, b: nat)
    requires k > 0 && a < |s|
    ensures a < m <= b <= |s| && m == Min(a + k, |s|) && b == Min(m + k, |s|) == Min(a + 2 * k, |s|)
    ensures PassCalls(cmp, s, a, k) == MergeCalls(cmp, s[a..m], s[m..b]) + PassCalls(cmp, s, b, k)
  {
    m, b := TwoBlocks(|s|, a, k);
    CountsUnfold(cmp, s, a, k, m, b);
  }

  lemma {:induction false} PassComparesOnce<T>(cmp: (T, T) -> int, s: seq<T>, a: nat, k: nat)
    requires k > 0 && a <= |s| && Distinct(s)
    ensures NoneTwice(PassCalls(cmp, s, a, k))
    decreases |s| - a
  {
    if a < |s| {
      var m, b := FirstTurn(cmp, s, a, k);
      var calls, rest := MergeCalls(cmp, s[a..m], s[m..b]), PassCalls(cmp, s, b, k);
      PairOfBlocks(s, a, m, b);
      MergeComparesOnce(cmp, s[a..m], s[m..b]);
      PassComparesOnce(cmp, s, b, k);
      forall p, q | p in calls && q in rest ensures !SamePair(p, q) {
        MergeCallsWithin(cmp, s[a..m], s[m..b], p);
        PassCallsWithin(cmp, s, b, k, q);
      }
      NoneTwiceConcat(calls, rest);
    }
  }

  lemma {:induction false} TogetherWithin<T>(s: seq<T>, a: nat, k: nat, x: T, y: T)
    requires k > 0 && a <= |s| && Together(s, a, k, x, y)
    ensures x in s[a..] && y in s[a..]
    decreases |s| - a
  {
    var b := Min(a + k, |s|);
    if !(x in s[a..b] && y in s[a..b]) {
      TogetherWithin(s, b, k, x, y);
    }
  }

  /** Before a turn two elements are together in its left block, its right block, or what follows. */
  lemma TogetherUnfolds<T>(s: seq<T>, a: nat, k: nat, m: nat, b: nat, x: T, y: T)
    requires k > 0 && a < |s| && m == Min(a + k, |s|) && b == Min(m + k, |s|)
    ensures Together(s, a, k, x, y) <==>
      (x in s[a..m] && y in s[a..m]) || (x in s[m..b] && y in s[m..b]) || Together(s, b, k, x, y)
  {
    assert Together(s, a, k, x, y) <==> (x in s[a..m] && y in s[a..m]) || Together(s, m, k, x, y);
  }

  /** What a pass compares was not together before it. */
  lemma {:induction false} ComparedWereApart<T>(cmp: (T, T) -> int, s: seq<T>, a: nat, k: nat, p: (T, T))
    requires k > 0 && a <= |s| && Distinct(s) && p in PassCalls(cmp, s, a, k)
    ensures !Together(s, a, k, p.0, p.1)
    decreases |s| - a
  {
    var m, b := FirstTurn(cmp, s, a, k);
    PairOfBlocks(s, a, m, b);
    TogetherUnfolds(s, a, k, m, b, p.0, p.1);
    if p in MergeCalls(cmp, s[a..m], s[m..b]) {
      MergeCallsWithin(cmp, s[a..m], s[m..b], p);
      if Together(s, b, k, p.0, p.1) {
        TogetherWithin(s, b, k, p.0, p.1);
      }
    } else {
      PassCallsWithin(cmp, s, b, k, p);
      ComparedWereApart(cmp, s, b, k, p);
    }
  }

  /** After a pass those are together that were so before it, and those it has compared. */
  lemma {:induction false} PassBringsTogether<T>(cmp: (T, T) -> int, s: seq<T>, a: nat, k: nat,
                                                 before: seq<T>, x: T, y: T)
    requires k > 0 && a <= |s| && |before| == a
    requires Together(s, a, k, x, y) || (x, y) in PassCalls(cmp, s, a, k)
    ensures Together(before + PassFrom(cmp, s, a, k), a, 2 * k, x, y)
    decreases |s| - a
  {
    var m, b := FirstTurn(cmp, s, a, k);
    var block, rest := Merge(cmp, s[a..m], s[m..b]), PassFrom(cmp, s, b, k);
    TogetherUnfolds(s, a, k, m, b, x, y);
    if Together(s, b, k, x, y) || (x, y) in PassCalls(cmp, s, b, k) {
      PassBringsTogether(cmp, s, b, k, before + block, x, y);
    } else {
      MergeBringsTogether(cmp, s[a..m], s[m..b], x, y);
    }
    PassAfter(cmp, s, a, k, before, m, b);
    BlockOf(before + PassFrom(cmp, s, a, k), before, block, rest, a, b, 2 * k, x, y);
  }

  lemma PassAfter<T>(cmp: (T, T) -> int, s: seq<T>, a: nat, k: nat, before: seq<T>, m: nat, b: nat)
    requires k > 0 && a < |s| && m == Min(a + k, |s|) && b == Min(m + k, |s|)
    ensures before + PassFrom(cmp, s, a, k) == before + Merge(cmp, s[a..m], s[m..b]) + PassFrom(cmp, s, b, k)
  {
    PassUnfolds(cmp, s, a, k, m, b);
    Extend(before, PassFrom(cmp, s, a, k), Merge(cmp, s[a..m], s[m..b]), PassFrom(cmp, s, b, k));
  }

  lemma MergeBringsTogether<T>(cmp: (T, T) -> int, a: seq<T>, b: seq<T>, x: T, y: T)
    requires (x, y) in MergeCalls(cmp, a, b) || (x in a && y in a) || (x in b && y in b)
    ensures x in Merge(cmp, a, b) && y in Merge(cmp, a, b)
  {
    if (x, y) in MergeCalls(cmp, a, b) {
      MergeCallsWithin(cmp, a, b, (x, y));
    }
    MergeMembers(cmp, a, b, x);
    MergeMembers(cmp, a, b, y);
  }

  lemma MergeMembers<T>(cmp: (T, T) -> int, a: seq<T>, b: seq<T>, x: T)
    ensures x in Merge(cmp, a, b) <==> x in a || x in b
  {
    MergePermutes(cmp, a, b);
    assert x in Merge(cmp, a, b) <==> x in multiset(Merge(cmp, a, b));
  }

  /** The block of t that comes after `before`, from a to b. */
  lemma BlockOf<T>(t: seq<T>, before: seq<T>, block: seq<T>, rest: seq<T>, a: nat, b: nat, k: nat, x: T, y: T)
    requires t == before + block + rest && a == |before| && b == a + |block|
    requires k > 0 && 0 < |block| <= k && (rest != [] ==> |block| == k)
    ensures Together(t, a, k, x, y) <==> (x in block && y in block) || Together(t, b, k, x, y)
  {
    assert t[a..b] == block;
  }

  // ----- The whole sort ------------------------------------------------------

  lemma PassKeepsDistinct<T>(cmp: (T, T) -> int, s: seq<T>, k: nat)
    requires k > 0 && Distinct(s)
    ensures Distinct(PassFrom(cmp, s, 0, k))
  {
    PassPermutes(cmp, s, 0, k);
    assert s[0..] == s;
    DistinctByCount(s, PassFrom(cmp, s, 0, k));
  }

  lemma DistinctByCount<T>(s: seq<T>, t: seq<T>)
    requires Distinct(s) && multiset(s) == multiset(t)
    ensures Distinct(t)
  {
    forall i, j | 0 <= i < j < |t| ensures t[i] != t[j] {
      if t[i] == t[j] {
        TwiceCounted(t, i, j);
        OnceCounted(s, t[i]);
      }
    }
  }

  lemma TwiceCounted<T>(t: seq<T>, i: nat, j: nat)
    requires i < j < |t| && t[i] == t[j]
    ensures multiset(t)[t[i]] >= 2
  {
    var a, b := t[..j], t[j..];
    assert t == a + b;
    assert a[i] in multiset(a) && b[0] in multiset(b);
  }

  lemma {:induction false} OnceCounted<T>(s: seq<T>, x: T)
    requires Distinct(s)
    ensures multiset(s)[x] <= 1
  {
    if s != [] {
      HeadIsGone(s);
      HeadAndTail(s);
      OnceCounted(s[1..], x);
      assert x == s[0] ==> x !in multiset(s[1..]);
    }
  }

  /** From run size k on: no pair is compared twice, and none that was together in a run of k is compared. */
  lemma {:induction false} SortFromComparesOnce<T>(cmp: (T, T) -> int, s: seq<T>, k: nat)
    requires k > 0 && Distinct(s)
    ensures NoneTwice(SortCalls(cmp, s, k))
    ensures forall p | p in SortCalls(cmp, s, k) :: !Together(s, 0, k, p.0, p.1)
    decreases if |s| > k then |s| - k else 0
  {
    var t, calls := PassFrom(cmp, s, 0, k), PassCalls(cmp, s, 0, k);
    SortUnfolds(cmp, s, k);
    PassComparesOnce(cmp, s, 0, k);
    forall p | p in calls ensures !Together(s, 0, k, p.0, p.1) {
      ComparedWereApart(cmp, s, 0, k, p);
    }
    if Merges(|s|, 0, k) > 1 {
      var rest := SortCalls(cmp, t, 2 * k);
      PassKeepsDistinct(cmp, s, k);
      SortFromComparesOnce(cmp, t, 2 * k);
      forall q | q in rest ensures !Together(s, 0, k, q.0, q.1) {
        LaterIsApart(cmp, s, k, q);
      }
      forall p, q | p in calls && q in rest ensures !SamePair(p, q) {
        LaterIsOther(cmp, s, k, p, q);
      }
      NoneTwiceConcat(calls, rest);
    } else {
      ConcatNothing(calls);
    }
  }

  lemma LaterIsApart<T>(cmp: (T, T) -> int, s: seq<T>, k: nat, q: (T, T))
    requires k > 0 && !Together(PassFrom(cmp, s, 0, k), 0, 2 * k, q.0, q.1)
    ensures !Together(s, 0, k, q.0, q.1)
  {
    if Together(s, 0, k, q.0, q.1) {
      PassBringsTogether(cmp, s, 0, k, [], q.0, q.1);
      ConcatNothing(PassFrom(cmp, s, 0, k));
    }
  }

  lemma LaterIsOther<T>(cmp: (T, T) -> int, s: seq<T>, k: nat, p: (T, T), q: (T, T))
    requires k > 0 && p in PassCalls(cmp, s, 0, k)
    requires !Together(PassFrom(cmp, s, 0, k), 0, 2 * k, q.0, q.1)
    ensures !SamePair(p, q)
  {
    PassBringsTogether(cmp, s, 0, k, [], p.0, p.1);
    ConcatNothing(PassFrom(cmp, s, 0, k));
    TogetherBothWays(PassFrom(cmp, s, 0, k), 0, 2 * k, p.0, p.1);
  }

  lemma {:induction false} TogetherBothWays<T>(s: seq<T>, a: nat, k: nat, x: T, y: T)
    requires k > 0 && a <= |s| && Together(s, a, k, x, y)
    ensures Together(s, a, k, y, x)
    decreases |s| - a
  {
    var b := Min(a + k, |s|);
    if !(x in s[a..b] && y in s[a..b]) {
      TogetherBothWays(s, b, k, x, y);
    }
  }

  /** Whatever the comparator, sorting nodes calls it at most once on any two of them, in one order only. */
  lemma SortComparesOnce<T>(cmp: (T, T) -> int, s: seq<T>)
    requires Distinct(s)
    ensures NoneTwice(SortCalls(cmp, s, 1))
  {
    SortFromComparesOnce(cmp, s, 1);
  }

  /** Whatever a comparator has answered to calls none of which is on the same two nodes, some function answers too. */
  lemma {:induction false} AnsweredByFunction<T(!new)>(calls: seq<(T, T)>, answers: seq<int>) returns (f: (T, T) -> int)
    requires NoneTwice(calls) && |answers| == |calls|
    ensures forall i | 0 <= i < |calls| :: f(calls[i].0, calls[i].1) == answers[i]
  {
    if calls == [] {
      f := (x: T, y: T) => 0;
    } else {
      var n := |calls| - 1;
      var g := AnsweredByFunction(calls[..n], answers[..n]);
      var last, answer := calls[n], answers[n];
      f := (x: T, y: T) => if (x, y) == last then answer else g(x, y);
      forall i | 0 <= i < n ensures f(calls[i].0, calls[i].1) == answers[i] {
        assert !SamePair(calls[i], last);
        assert calls[..n][i] == calls[i] && answers[..n][i] == answers[i];
      }
    }
  }

  // ----- The calls decide the order ------------------------------------------

  /** Two comparators put the elements of each of the calls in the same order. */
  ghost predicate Agree<T>(c1: (T, T) -> int, c2: (T, T) -> int, calls: seq<(T, T)>) {
    forall p | p in calls :: c1(p.0, p.1) <= 0 <==> c2(p.0, p.1) <= 0
  }

  lemma {:induction false} MergeAgrees<T>(c1: (T, T) -> int, c2: (T, T) -> int, a: seq<T>, b: seq<T>)
    requires Agree(c1, c2, MergeCalls(c1, a, b))
    ensures Merge(c1, a, b) == Merge(c2, a, b) && MergeCalls(c1, a, b) == MergeCalls(c2, a, b)
    decreases |a| + |b|
  {
    if a != [] && b != [] {
      assert (a[0], b[0]) in MergeCalls(c1, a, b);
      if c1(a[0], b[0]) <= 0 {
        MergeAgrees(c1, c2, a[1..], b);
      } else {
        MergeAgrees(c1, c2, a, b[1..]);
      }
    }
  }

  lemma {:induction false} PassAgrees<T>(c1: (T, T) -> int, c2: (T, T) -> int, s: seq<T>, a: nat, k: nat)
    requires k > 0 && a <= |s| && Agree(c1, c2, PassCalls(c1, s, a, k))
    ensures PassFrom(c1, s, a, k) == PassFrom(c2, s, a, k) && PassCalls(c1, s, a, k) == PassCalls(c2, s, a, k)
    decreases |s| - a
  {
    if a < |s| {
      var m, b := FirstTurn(c1, s, a, k);
      CountsUnfold(c2, s, a, k, m, b);
      PassUnfolds(c1, s, a, k, m, b);
      PassUnfolds(c2, s, a, k, m, b);
      MergeAgrees(c1, c2, s[a..m], s[m..b]);
      PassAgrees(c1, c2, s, b, k);
    }
  }

  lemma {:induction false} SortAgrees<T>(c1: (T, T) -> int, c2: (T, T) -> int, s: seq<T>, k: nat)
    requires k > 0 && Agree(c1, c2, SortCalls(c1, s, k))
    ensures SortFrom(c1, s, k) == SortFrom(c2, s, k) && SortCalls(c1, s, k) == SortCalls(c2, s, k)
    decreases if |s| > k then |s| - k else 0
  {
    SortUnfolds(c1, s, k);
    SortUnfolds(c2, s, k);
    PassAgrees(c1, c2, s, 0, k);
    if Merges(|s|, 0, k) > 1 {
      SortAgrees(c1, c2, PassFrom(c1, s, 0, k), 2 * k);
    }
  }

  /** The order depends on the comparator's answers to the calls made, and on nothing else it would say. */
  lemma CallsDecideOrder<T>(c1: (T, T) -> int, c2: (T, T) -> int, s: seq<T>)
    requires Agree(c1, c2, SortCalls(c1, s, 1))
    ensures MergeSort(c1, s) == MergeSort(c2, s) && SortCalls(c1, s, 1) == SortCalls(c2, s, 1)
  {
    SortAgrees(c1, c2, s, 1);
  }
}
