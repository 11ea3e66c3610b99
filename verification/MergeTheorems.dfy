/**
 * What the bottom-up merge sort promises: the order it produces, how many
 * comparisons and passes it takes, and how far its run size grows.
 */
module MergeTheorems {
  import opened Sequences
  import opened MergeSpec

  // ----- Order ---------------------------------------------------------------

  /** a is a multiple of w. */
  ghost predicate MultipleOf(a: nat, w: nat)
    requires w > 0
  {
    a == 0 || (a >= w && MultipleOf(a - w, w))
  }

  /** The merge of the two neighbouring blocks of k that s has from position a on. */
  function MergedPair<T>(cmp: (T, T) -> int, s: seq<T>, a: nat, k: nat): (r: seq<T>)
    requires a <= |s|
    ensures |r| == Min(a + 2 * k, |s|) - a
  {
    var m := Min(a + k, |s|);
    Merge(cmp, s[a..m], s[m..Min(a + 2 * k, |s|)])
  }

  /** Each aligned block of 2k in a pass's output is the merge of the two k-blocks its input has there. */
  lemma PassBlock<T>(cmp: (T, T) -> int, s: seq<T>, k: nat, a: nat) returns (before: seq<T>, after: seq<T>)
    requires k > 0 && a < |s| && MultipleOf(a, 2 * k)
    ensures |before| == a && PassFrom(cmp, s, 0, k) == before + (MergedPair(cmp, s, a, k) + after)
  {
    before := PassSplits(cmp, s, 0, k, a);
    after := PassHead(cmp, s, a, k);
  }

  lemma PassHead<T>(cmp: (T, T) -> int, s: seq<T>, a: nat, k: nat) returns (after: seq<T>)
    requires k > 0 && a < |s|
    ensures PassFrom(cmp, s, a, k) == MergedPair(cmp, s, a, k) + after
  {
    var m, b := TwoBlocks(|s|, a, k);
    PassUnfolds(cmp, s, a, k, m, b);
    assert b == Min(a + 2 * k, |s|);
    after := PassFrom(cmp, s, b, k);
  }

  /** A pass puts out as many nodes as it has read: what it does from position p on, it does there. */
  lemma {:induction false} PassSplits<T>(cmp: (T, T) -> int, s: seq<T>, a: nat, k: nat, p: nat) returns (before: seq<T>)
    requires k > 0 && a <= p < |s| && MultipleOf(p - a, 2 * k)
    ensures |before| == p - a && PassFrom(cmp, s, a, k) == before + PassFrom(cmp, s, p, k)
    decreases p - a
  {
    if a == p {
      before := [];
      ConcatNothing(PassFrom(cmp, s, a, k));
    } else {
      var m, b := TwoBlocks(|s|, a, k);
      PassUnfolds(cmp, s, a, k, m, b);
      before := PassSplits(cmp, s, b, k, p);
      var block, rest := Merge(cmp, s[a..m], s[m..b]), PassFrom(cmp, s, b, k);
      before := Prepended(PassFrom(cmp, s, a, k), block, rest, before, PassFrom(cmp, s, p, k));
    }
  }

  lemma Prepended<T>(t: seq<T>, x: seq<T>, u: seq<T>, y: seq<T>, v: seq<T>) returns (xy: seq<T>)
    requires t == x + u && u == y + v
    ensures |xy| == |x| + |y| && t == xy + v
  {
    xy := x + y;
  }

  lemma {:induction false} SortFromCorrect<T>(cmp: (T, T) -> int, s: seq<T>, k: nat, d: set<T>)
    requires k > 0 && TotalPreorder(cmp, d) && Within(s, d) && Runs(cmp, s, 0, k)
    ensures Sorted(cmp, SortFrom(cmp, s, k))
    ensures forall x | x in d :: Ties(cmp, x, SortFrom(cmp, s, k)) == Ties(cmp, x, s)
    decreases if |s| > k then |s| - k else 0
  {
    var t := PassFrom(cmp, s, 0, k);
    PassCorrect(cmp, s, k, d);
    SortUnfolds(cmp, s, k);
    if Merges(|s|, 0, k) <= 1 {
      assert t[0..|t|] == t;
    } else {
      SortFromCorrect(cmp, t, 2 * k, d);
    }
  }

  lemma PassCorrect<T>(cmp: (T, T) -> int, s: seq<T>, k: nat, d: set<T>)
    requires k > 0 && TotalPreorder(cmp, d) && Within(s, d) && Runs(cmp, s, 0, k)
    ensures var t := PassFrom(cmp, s, 0, k);
      && Within(t, d) && Runs(cmp, t, 0, 2 * k)
      && forall x | x in d :: Ties(cmp, x, t) == Ties(cmp, x, s)
  {
    var t := PassFrom(cmp, s, 0, k);
    assert s[0..] == s;
    forall x | x in d ensures Ties(cmp, x, t) == Ties(cmp, x, s) {
      PassStable(cmp, s, 0, k, d, x);
    }
    PassDoublesRuns(cmp, s, 0, k, d, []);
    ConcatNothing(t);
    PassPermutes(cmp, s, 0, k);
    PermutedWithin(s, t, d);
  }

  lemma PermutedWithin<T>(s: seq<T>, t: seq<T>, d: set<T>)
    requires multiset(t) == multiset(s) && Within(s, d)
    ensures Within(t, d)
  {
    forall i | 0 <= i < |t| ensures t[i] in d {
      assert t[i] in multiset(t);
    }
  }

  /** For a total preorder the sort yields the stable sorted order. */
  lemma MergeSortCorrect<T>(cmp: (T, T) -> int, s: seq<T>)
    requires TotalPreorder(cmp, set x | x in s)
    ensures Sorted(cmp, MergeSort(cmp, s)) && Stable(cmp, s, MergeSort(cmp, s))
  {
    var d := set x | x in s;
    SingletonRuns(cmp, s, 0);
    SortFromCorrect(cmp, s, 1, d);
    SortPermutes(cmp, s, 1);
  }

  // ----- The reference: recursive insertion sort -----------------------------

  function Insert<T>(cmp: (T, T) -> int, x: T, s: seq<T>): seq<T> {
    if s == [] || cmp(x, s[0]) <= 0 then [x] + s
    else [s[0]] + Insert(cmp, x, s[1..])
  }

  function InsertionSort<T>(cmp: (T, T) -> int, s: seq<T>): seq<T> {
    if s == [] then [] else Insert(cmp, s[0], InsertionSort(cmp, s[1..]))
  }

  lemma {:induction false} InsertPermutes<T>(cmp: (T, T) -> int, x: T, s: seq<T>)
    ensures multiset(Insert(cmp, x, s)) == multiset([x] + s)
  {
    if s != [] && cmp(x, s[0]) > 0 {
      InsertPermutes(cmp, x, s[1..]);
      assert [x] + s == [x] + [s[0]] + s[1..];
    }
  }

  lemma {:induction false} InsertSorts<T>(cmp: (T, T) -> int, x: T, s: seq<T>, d: set<T>)
    requires TotalPreorder(cmp, d) && Within(s, d) && x in d && Sorted(cmp, s)
    ensures Sorted(cmp, Insert(cmp, x, s))
  {
    if s != [] && cmp(x, s[0]) <= 0 {
      assert Leq(cmp, x, s[0]);
      SortedCons(cmp, x, s);
    } else if s != [] {
      var r := Insert(cmp, x, s[1..]);
      InsertSorts(cmp, x, s[1..], d);
      InsertPermutes(cmp, x, s[1..]);
      assert !Leq(cmp, x, s[0]);
      forall y | y in r ensures Leq(cmp, s[0], y) {
        assert y in multiset(r);
      }
      SortedCons(cmp, s[0], r);
    }
  }

  lemma SortedCons<T>(cmp: (T, T) -> int, x: T, s: seq<T>)
    requires Sorted(cmp, s) && forall y | y in s :: Leq(cmp, x, y)
    ensures Sorted(cmp, [x] + s)
  {
  }

  /** Insertion puts x before whatever it ties with. */
  lemma {:induction false} InsertStable<T>(cmp: (T, T) -> int, x: T, s: seq<T>, d: set<T>, y: T)
    requires TotalPreorder(cmp, d) && Within(s, d) && x in d && y in d
    ensures Ties(cmp, y, Insert(cmp, x, s)) == Ties(cmp, y, [x]) + Ties(cmp, y, s)
  {
    TiesConcat(cmp, y, [x], s);
    if s == [] {
    } else if cmp(x, s[0]) <= 0 {
    } else {
      InsertStable(cmp, x, s[1..], d, y);
      assert !Leq(cmp, x, s[0]);
      assert !(Tie(cmp, y, x) && Tie(cmp, y, s[0]));
      assert Ties(cmp, y, [x]) == [] || !Tie(cmp, y, s[0]);
    }
  }

  lemma {:induction false} InsertionSortCorrect<T>(cmp: (T, T) -> int, s: seq<T>, d: set<T>)
    requires TotalPreorder(cmp, d) && Within(s, d)
    ensures multiset(InsertionSort(cmp, s)) == multiset(s)
    ensures Sorted(cmp, InsertionSort(cmp, s))
    ensures forall y | y in d :: Ties(cmp, y, InsertionSort(cmp, s)) == Ties(cmp, y, s)
  {
    if s != [] {
      var r := InsertionSort(cmp, s[1..]);
      InsertionSortCorrect(cmp, s[1..], d);
      PermutedWithin(s[1..], r, d);
      InsertSorts(cmp, s[0], r, d);
      InsertPermutes(cmp, s[0], r);
      assert s == [s[0]] + s[1..];
      forall y | y in d ensures Ties(cmp, y, InsertionSort(cmp, s)) == Ties(cmp, y, s) {
        InsertStable(cmp, s[0], r, d, y);
        TiesConcat(cmp, y, [s[0]], s[1..]);
      }
    }
  }

  /** The stable sorted order of a sequence is unique. */
  lemma {:induction false} StableOrderUnique<T>(cmp: (T, T) -> int, a: seq<T>, b: seq<T>, d: set<T>)
    requires TotalPreorder(cmp, d) && Within(a, d) && Within(b, d)
    requires Sorted(cmp, a) && Sorted(cmp, b)
    requires forall x | x in d :: Ties(cmp, x, a) == Ties(cmp, x, b)
    ensures a == b
  {
    SameHead(cmp, a, b, d);
    if a != [] {
      assert a == [a[0]] + a[1..] && b == [b[0]] + b[1..];
      forall x | x in d ensures Ties(cmp, x, a[1..]) == Ties(cmp, x, b[1..]) {
        TiesTail(cmp, x, a, b);
      }
      StableOrderUnique(cmp, a[1..], b[1..], d);
    }
  }

  lemma SameHead<T>(cmp: (T, T) -> int, a: seq<T>, b: seq<T>, d: set<T>)
    requires TotalPreorder(cmp, d) && Within(a, d) && Within(b, d)
    requires Sorted(cmp, a) && Sorted(cmp, b)
    requires forall x | x in d :: Ties(cmp, x, a) == Ties(cmp, x, b)
    ensures a == [] <==> b == []
    ensures a != [] ==> a[0] == b[0]
  {
    TiesNonempty(cmp, a, d);
    TiesNonempty(cmp, b, d);
    if a != [] {
      HeadsTie(cmp, a, b, d);
      HeadsTie(cmp, b, a, d);
      assert Leq(cmp, a[0], a[0]) && Leq(cmp, b[0], b[0]);
      assert Ties(cmp, a[0], a)[0] == a[0] && Ties(cmp, a[0], b)[0] == b[0];
    }
  }

  lemma TiesTail<T>(cmp: (T, T) -> int, x: T, a: seq<T>, b: seq<T>)
    requires a != [] && b != [] && a[0] == b[0]
    requires Ties(cmp, x, a) == Ties(cmp, x, b)
    ensures Ties(cmp, x, a[1..]) == Ties(cmp, x, b[1..])
  {
    var h := if Tie(cmp, x, a[0]) then [a[0]] else [];
    assert Ties(cmp, x, a[1..]) == Ties(cmp, x, a)[|h|..];
    assert Ties(cmp, x, b[1..]) == Ties(cmp, x, b)[|h|..];
  }

  lemma TiesNonempty<T>(cmp: (T, T) -> int, s: seq<T>, d: set<T>)
    requires TotalPreorder(cmp, d) && Within(s, d)
    ensures s != [] ==> s[0] in d && |Ties(cmp, s[0], s)| > 0 && Ties(cmp, s[0], s)[0] == s[0]
  {
    assert s != [] ==> Leq(cmp, s[0], s[0]);
  }

  lemma HeadsTie<T>(cmp: (T, T) -> int, a: seq<T>, b: seq<T>, d: set<T>)
    requires TotalPreorder(cmp, d) && Within(a, d) && Within(b, d)
    requires a != [] && b != [] && Sorted(cmp, a)
    requires Ties(cmp, b[0], a) == Ties(cmp, b[0], b)
    ensures Leq(cmp, a[0], b[0])
  {
    assert Leq(cmp, b[0], b[0]);
    if forall i | 0 <= i < |a| :: !Tie(cmp, b[0], a[i]) {
      NoTies(cmp, b[0], a);
    } else {
      var i :| 0 <= i < |a| && Tie(cmp, b[0], a[i]);
      assert i == 0 || Leq(cmp, a[0], a[i]);
    }
  }

  /** The heap sorts' common order is that of the recursive stable sort. */
  lemma MergeSortIsInsertionSort<T>(cmp: (T, T) -> int, s: seq<T>)
    requires TotalPreorder(cmp, set x | x in s)
    ensures MergeSort(cmp, s) == InsertionSort(cmp, s)
  {
    var d := set x | x in s;
    SingletonRuns(cmp, s, 0);
    SortFromCorrect(cmp, s, 1, d);
    SortPermutes(cmp, s, 1);
    InsertionSortCorrect(cmp, s, d);
    PermutedWithin(s, MergeSort(cmp, s), d);
    PermutedWithin(s, InsertionSort(cmp, s), d);
    StableOrderUnique(cmp, MergeSort(cmp, s), InsertionSort(cmp, s), d);
  }

  // ----- Cost and integer width ----------------------------------------------

  function Pow2(n: nat): (p: nat)
    ensures p > 0
  {
    if n == 0 then 1 else 2 * Pow2(n - 1)
  }

  lemma {:induction false} Pow2Monotone(a: nat, b: nat)
    requires a < b
    ensures 2 * Pow2(a) <= Pow2(b)
    decreases b
  {
    if a + 1 < b { Pow2Monotone(a, b - 1); }
  }

  /** The binary logarithm rounded up. */
  function CeilLog2(n: nat): (l: nat)
    requires n > 0
    ensures n <= Pow2(l) && (l == 0 || Pow2(l - 1) < n)
  {
    if n == 1 then 0 else 1 + CeilLog2((n + 1) / 2)
  }

  lemma DoubleOut(k: nat, p: nat)
    ensures k * Pow2(p + 1) == (2 * k) * Pow2(p)
  {
    var x := Pow2(p);
    assert k * (2 * x) == (2 * k) * x;
  }

  lemma {:induction false} PassesBound(n: nat, k: nat)
    requires k > 0
    ensures Passes(n, k) >= 1
    ensures n <= k * Pow2(Passes(n, k))
    ensures Passes(n, k) > 1 ==> k * Pow2(Passes(n, k) - 1) < n
    decreases if n > k then n - k else 0
  {
    MergesAtMostOne(n, k);
    DoubleOut(k, 0);
    if n > 2 * k {
      PassesBound(n, 2 * k);
      var p := Passes(n, 2 * k);
      assert Passes(n, k) == 1 + p;
      DoubleOut(k, p);
      DoubleOut(k, p - 1);
    } else {
      assert Passes(n, k) == 1;
    }
  }

  /** A sort of n nodes makes max(1, ceil(log2 n)) passes. */
  lemma PassCount(n: nat)
    requires n > 0
    ensures Passes(n, 1) == if n <= 2 then 1 else CeilLog2(n)
  {
    PassesBound(n, 1);
    var p, l := Passes(n, 1), CeilLog2(n);
    MergesAtMostOne(n, 1);
    if n > 2 {
      assert Pow2(1) == 2 * Pow2(0) == 2;
      if p < l { if p < l - 1 { Pow2Monotone(p, l - 1); } }
      if l < p { if l < p - 1 { Pow2Monotone(l, p - 1); } }
    }
  }

  /** The run size doubles after every pass, the last one included: it ends at 2^passes <= 2n. */
  lemma FinalRunSize(n: nat)
    requires n > 0
    ensures Pow2(Passes(n, 1)) <= 2 * n
  {
    PassesBound(n, 1);
    MergesAtMostOne(n, 1);
    var p := Passes(n, 1);
    assert p > 1 ==> Pow2(p) == 2 * Pow2(p - 1);
    assert Pow2(1) == 2 * Pow2(0) == 2;
  }

  /** The doubling stays inside a signed 32-bit integer exactly for lists of up to 2^30 nodes. */
  lemma RunSizeFitsInt32(n: nat)
    requires n > 0
    ensures Pow2(Passes(n, 1)) <= 0x7fff_ffff <==> n <= 0x4000_0000
  {
    PassesBound(n, 1);
    var p := Passes(n, 1);
    Pow2Of30();
    if p <= 30 {
      if p < 30 { Pow2Monotone(p, 30); }
    } else {
      if p == 31 { assert Pow2(31) == 2 * Pow2(30); } else { Pow2Monotone(30, p - 1); Pow2Monotone(30, p); }
      assert n > Pow2(p - 1) >= Pow2(30);
    }
  }

  lemma Pow2Of30()
    ensures Pow2(30) == 0x4000_0000
  {
    Pow2Of10();
    Pow2Adds(10, 10);
    Pow2Adds(10, 20);
  }

  lemma Pow2Of10()
    ensures Pow2(10) == 1024
  {
    assert Pow2(5) == 32 by { assert Pow2(2) == 4; }
    Pow2Adds(5, 5);
  }

  lemma {:induction false} Pow2Adds(a: nat, b: nat)
    ensures Pow2(a + b) == Pow2(a) * Pow2(b)
  {
    if a > 0 { Pow2Adds(a - 1, b); }
  }

  lemma {:induction false} MergeCallsBound<T>(cmp: (T, T) -> int, a: seq<T>, b: seq<T>)
    ensures |MergeCalls(cmp, a, b)| <= if a == [] || b == [] then 0 else |a| + |b| - 1
    decreases |a| + |b|
  {
    if a != [] && b != [] {
      if cmp(a[0], b[0]) <= 0 { MergeCallsBound(cmp, a[1..], b); } else { MergeCallsBound(cmp, a, b[1..]); }
    }
  }

  /** Every merge of a pass takes at least one node without a comparison. */
  lemma {:induction false} PassCallsBound<T>(cmp: (T, T) -> int, s: seq<T>, a: nat, k: nat)
    requires k > 0 && a <= |s|
    ensures |PassCalls(cmp, s, a, k)| + Merges(|s|, a, k) <= |s| - a
    decreases |s| - a
  {
    if a < |s| {
      var m, b := TwoBlocks(|s|, a, k);
      CountsUnfold(cmp, s, a, k, m, b);
      MergeCallsBound(cmp, s[a..m], s[m..b]);
      PassCallsBound(cmp, s, b, k);
    }
  }

  /**
   * The whole sort: at most n * passes - (n - 1) comparisons.  The induction carries any r
   * that is at most the number of runs, ceil(n / k).
   */
  lemma {:induction false} SortCallsBound<T>(cmp: (T, T) -> int, s: seq<T>, k: nat, r: nat)
    requires k > 0 && r > 0 && (r - 1) * k < |s|
    ensures |SortCalls(cmp, s, k)| + r - 1 <= |s| * Passes(|s|, k)
    decreases if |s| > k then |s| - k else 0
  {
    var n, merges := |s|, Merges(|s|, 0, k);
    var t := PassFrom(cmp, s, 0, k);
    PassCallsBound(cmp, s, 0, k);
    MergesIsCeiling(n, 0, k);
    SortUnfolds(cmp, s, k);
    RunsHalve(n, k, r, merges);
    if merges > 1 {
      MulPeel(merges, 2 * k);
      SortCallsBound(cmp, t, 2 * k, merges);
      MulPeel(Passes(n, k), n);
    }
  }

  lemma SortUnfolds<T>(cmp: (T, T) -> int, s: seq<T>, k: nat)
    requires k > 0
    ensures var more, t := Merges(|s|, 0, k) > 1, PassFrom(cmp, s, 0, k);
      && (more <==> 2 * k < |s|)
      && SortFrom(cmp, s, k) == (if more then SortFrom(cmp, t, 2 * k) else t)
      && SortCalls(cmp, s, k) == PassCalls(cmp, s, 0, k) + (if more then SortCalls(cmp, t, 2 * k) else [])
      && Passes(|s|, k) == 1 + (if more then Passes(|s|, 2 * k) else 0)
  {
    MergesAtMostOne(|s|, k);
  }

  lemma MulPeel(c: nat, x: nat)
    requires c > 0
    ensures c * x == x * c == (c - 1) * x + x == x * (c - 1) + x
  {
  }

  lemma MulCancel(x: int, y: int, k: nat)
    requires x * k < y * k
    ensures x < y
  {
    assert (x - y) * k < 0;
  }

  lemma RunsHalve(n: nat, k: nat, r: nat, merges: nat)
    requires k > 0 && r > 0 && (r - 1) * k < n <= merges * (2 * k)
    ensures r <= 2 * merges
  {
    assert merges * (2 * k) == (2 * merges) * k;
    MulCancel(r - 1, 2 * merges, k);
  }

  /** The cost of sorting n nodes: at most n * ceil(log2 n) comparisons, less n - 1. */
  lemma MergeSortCost<T>(cmp: (T, T) -> int, s: seq<T>)
    requires s != []
    ensures |SortCalls(cmp, s, 1)| + |s| - 1 <= |s| * CeilLog2(|s|)
  {
    if |s| == 1 {
      PassCallsBound(cmp, s, 0, 1);
      MergesAtMostOne(1, 1);
    } else {
      SortCallsBound(cmp, s, 1, |s|);
      PassCount(|s|);
    }
  }

  // ----- The outer loop ------------------------------------------------------

  /** A sort under way: it has turned s into t in `passes` passes, and has run size k next. */
  ghost predicate SortOwes<T>(cmp: (T, T) -> int, s: seq<T>, t: seq<T>, k: nat,
                              passes: nat, calls: seq<(T, T)>, total: seq<(T, T)>, looping: bool)
    requires k > 0
  {
    && |t| == |s|
    && multiset(t) == multiset(s)
    && (forall x | x in t :: x in s)
    && k == Pow2(passes)
    && if looping then
         && (k == 1 || k < |s|)
         && SortFrom(cmp, t, k) == MergeSort(cmp, s)
         && passes + Passes(|s|, k) == Passes(|s|, 1)
         && calls + SortCalls(cmp, t, k) == total
       else
         && t == MergeSort(cmp, s)
         && passes == Passes(|s|, 1)
         && calls == total
  }

  lemma SortStart<T>(cmp: (T, T) -> int, s: seq<T>, calls: seq<(T, T)>)
    ensures SortOwes(cmp, s, s, 1, 0, calls, calls + SortCalls(cmp, s, 1), true)
  {
  }

  lemma SortStep<T>(cmp: (T, T) -> int, s: seq<T>, t: seq<T>, k: nat,
                    passes: nat, calls: seq<(T, T)>, total: seq<(T, T)>)
    requires k > 0 && SortOwes(cmp, s, t, k, passes, calls, total, true)
    ensures SortOwes(cmp, s, PassFrom(cmp, t, 0, k), 2 * k, passes + 1,
                     calls + PassCalls(cmp, t, 0, k), total, Merges(|s|, 0, k) > 1)
    ensures Merges(|s|, 0, k) > 1 ==> 2 * k < |s|
  {
    SortUnfolds(cmp, t, k);
    if Merges(|s|, 0, k) > 1 {
      SortGoesOn(cmp, s, t, k, passes, calls, total);
    } else {
      SortStops(cmp, s, t, k, passes, calls, total);
    }
  }

  lemma SortGoesOn<T>(cmp: (T, T) -> int, s: seq<T>, t: seq<T>, k: nat,
                      passes: nat, calls: seq<(T, T)>, total: seq<(T, T)>)
    requires k > 0 && SortOwes(cmp, s, t, k, passes, calls, total, true) && Merges(|s|, 0, k) > 1
    ensures SortOwes(cmp, s, PassFrom(cmp, t, 0, k), 2 * k, passes + 1, calls + PassCalls(cmp, t, 0, k), total, true)
  {
    SortUnfolds(cmp, t, k);
    var now, later := PassCalls(cmp, t, 0, k), SortCalls(cmp, PassFrom(cmp, t, 0, k), 2 * k);
    Regroup(total, calls, SortCalls(cmp, t, k), now, later);
    PassMembers(cmp, s, t, k);
  }

  lemma SortStops<T>(cmp: (T, T) -> int, s: seq<T>, t: seq<T>, k: nat,
                     passes: nat, calls: seq<(T, T)>, total: seq<(T, T)>)
    requires k > 0 && SortOwes(cmp, s, t, k, passes, calls, total, true) && Merges(|s|, 0, k) <= 1
    ensures SortOwes(cmp, s, PassFrom(cmp, t, 0, k), 2 * k, passes + 1, calls + PassCalls(cmp, t, 0, k), total, false)
  {
    SortUnfolds(cmp, t, k);
    ConcatNothing(PassCalls(cmp, t, 0, k));
    PassMembers(cmp, s, t, k);
  }

  lemma PassMembers<T>(cmp: (T, T) -> int, s: seq<T>, t: seq<T>, k: nat)
    requires k > 0 && multiset(t) == multiset(s)
    ensures var r := PassFrom(cmp, t, 0, k);
      multiset(r) == multiset(s) && forall x | x in r :: x in s
  {
    PassPermutes(cmp, t, 0, k);
    assert t[0..] == t;
    forall x | x in PassFrom(cmp, t, 0, k) ensures x in s {
      assert x in multiset(PassFrom(cmp, t, 0, k));
    }
  }
}
