/**
 * The bottom-up merge sort of utlist.h as a function on sequences.
 *
 * The three sort macros rewrite links on the heap; what order they leave the
 * nodes in is the function `MergeSort` below.  This module proves what that
 * order is: a permutation for every comparator, and the stable sorted order
 * when the comparator is a total preorder on the nodes being sorted.
 */
module MergeSpec {
  import opened Sequences

  function Min(a: nat, b: nat): nat {
    if a < b then a else b
  }

  // ----- The algorithm -------------------------------------------------------

  /** Two runs merged; on a tie the left run goes first. */
  function Merge<T>(cmp: (T, T) -> int, a: seq<T>, b: seq<T>): (r: seq<T>)
    ensures |r| == |a| + |b|
    decreases |a| + |b|
  {
    if a == [] then b
    else if b == [] then a
    else if cmp(a[0], b[0]) <= 0 then [a[0]] + Merge(cmp, a[1..], b)
    else [b[0]] + Merge(cmp, a, b[1..])
  }

  /** The pairs on which merging the two runs calls the comparator, one after the other. */
  ghost function MergeCalls<T>(cmp: (T, T) -> int, a: seq<T>, b: seq<T>): seq<(T, T)>
    decreases |a| + |b|
  {
    if a == [] || b == [] then []
    else [(a[0], b[0])] + if cmp(a[0], b[0]) <= 0 then MergeCalls(cmp, a[1..], b) else MergeCalls(cmp, a, b[1..])
  }

  /** What one pass with run size k makes of s[a..]. */
  function PassFrom<T>(cmp: (T, T) -> int, s: seq<T>, a: nat, k: nat): (r: seq<T>)
    requires k > 0 && a <= |s|
    ensures |r| == |s| - a
    decreases |s| - a
  {
    if a == |s| then []
    else
      var m := Min(a + k, |s|);
      var b := Min(m + k, |s|);
      Merge(cmp, s[a..m], s[m..b]) + PassFrom(cmp, s, b, k)
  }

  ghost function PassCalls<T>(cmp: (T, T) -> int, s: seq<T>, a: nat, k: nat): seq<(T, T)>
    requires k > 0 && a <= |s|
    decreases |s| - a
  {
    if a == |s| then []
    else
      var m := Min(a + k, |s|);
      var b := Min(m + k, |s|);
      MergeCalls(cmp, s[a..m], s[m..b]) + PassCalls(cmp, s, b, k)
  }

  /** How many merges a pass with run size k makes of a list of n nodes, from position a on. */
  ghost function Merges(n: nat, a: nat, k: nat): nat
    requires k > 0 && a <= n
    decreases n - a
  {
    if a == n then 0 else 1 + Merges(n, Min(Min(a + k, n) + k, n), k)
  }

  /** Passes with run sizes k, 2k, 4k, ... up to and including the first that makes at most one merge. */
  ghost function SortFrom<T>(cmp: (T, T) -> int, s: seq<T>, k: nat): (r: seq<T>)
    requires k > 0
    ensures |r| == |s|
    decreases if |s| > k then |s| - k else 0
  {
    var t := PassFrom(cmp, s, 0, k);
    MergesAtMostOne(|s|, k);
    if Merges(|s|, 0, k) <= 1 then t else SortFrom(cmp, t, 2 * k)
  }

  ghost function MergeSort<T>(cmp: (T, T) -> int, s: seq<T>): (r: seq<T>)
    ensures |r| == |s|
  {
    SortFrom(cmp, s, 1)
  }

  ghost function SortCalls<T>(cmp: (T, T) -> int, s: seq<T>, k: nat): seq<(T, T)>
    requires k > 0
    decreases if |s| > k then |s| - k else 0
  {
    var t := PassFrom(cmp, s, 0, k);
    MergesAtMostOne(|s|, k);
    PassCalls(cmp, s, 0, k) + if Merges(|s|, 0, k) <= 1 then [] else SortCalls(cmp, t, 2 * k)
  }

  /** The number of passes made on a list of n nodes, from run size k on. */
  ghost function Passes(n: nat, k: nat): nat
    requires k > 0
    decreases if n > k then n - k else 0
  {
    MergesAtMostOne(n, k);
    1 + if Merges(n, 0, k) <= 1 then 0 else Passes(n, 2 * k)
  }

  lemma MergesAtMostOne(n: nat, k: nat)
    requires k > 0
    ensures Merges(n, 0, k) <= 1 <==> n <= 2 * k
  {
    if n > 0 {
      var b := Min(Min(k, n) + k, n);
      assert Merges(n, 0, k) == 1 + Merges(n, b, k);
      assert b < n ==> Merges(n, b, k) >= 1;
    }
  }

  /** A pass makes ceil((n - a) / 2k) merges. */
  lemma {:induction false} MergesIsCeiling(n: nat, a: nat, k: nat)
    requires k > 0 && a <= n
    ensures n - a <= Merges(n, a, k) * (2 * k) < n - a + 2 * k
    decreases n - a
  {
    if a < n {
      var b := Min(Min(a + k, n) + k, n);
      MergesIsCeiling(n, b, k);
      assert Merges(n, a, k) * (2 * k) == Merges(n, b, k) * (2 * k) + 2 * k;
      if b == n {
        assert Merges(n, b, k) == 0;
      }
    }
  }

  /** Merging one element at a time: what each branch of the inner loop leaves to be merged. */
  lemma MergeStep<T>(cmp: (T, T) -> int, s: seq<T>, i: nat, m: nat, j: nat, b: nat)
    requires i <= m <= j <= b <= |s|
    requires i < m || j < b
    ensures var left := LeftNext(cmp, s, i, m, j, b);
      var i', j' := if left then i + 1 else i, if left then j else j + 1;
      && Merge(cmp, s[i..m], s[j..b]) == [if left then s[i] else s[j]] + Merge(cmp, s[i'..m], s[j'..b])
      && MergeCalls(cmp, s[i..m], s[j..b]) == Compared(s, i, m, j, b) + MergeCalls(cmp, s[i'..m], s[j'..b])
  {
    if i < m { assert s[i..m][1..] == s[i + 1..m]; }
    if j < b { assert s[j..b][1..] == s[j + 1..b]; }
    if i < m && j == b { assert s[i..m] == [s[i]] + s[i + 1..m]; }
    if i == m { assert s[j..b] == [s[j]] + s[j + 1..b]; }
  }

  /** Whether the left run s[i..m] is taken from next: a tie with the right run s[j..b] does not hold it up. */
  ghost predicate LeftNext<T>(cmp: (T, T) -> int, s: seq<T>, i: nat, m: nat, j: nat, b: nat)
    requires m <= |s| && b <= |s| && j <= b
  {
    i < m && (j == b || cmp(s[i], s[j]) <= 0)
  }

  /** The call of the comparator: while both runs have nodes left it is called on their first nodes. */
  ghost function Compared<T>(s: seq<T>, i: nat, m: nat, j: nat, b: nat): seq<(T, T)>
    requires i <= m <= |s| && j <= b <= |s|
  {
    if i == m || j == b then [] else [(s[i], s[j])]
  }

  /**
   * A merge under way: `out` is what it has put out, s[i..m] and s[j..b] are left of its two
   * runs, `calls` are the comparator's calls so far, and finishing it puts out `goal` after the calls `total` in all.
   */
  ghost predicate Owes<T>(cmp: (T, T) -> int, s: seq<T>, i: nat, m: nat, j: nat, b: nat,
                          out: seq<T>, calls: seq<(T, T)>, goal: seq<T>, total: seq<(T, T)>)
  {
    && i <= m <= j <= b <= |s|
    && out + Merge(cmp, s[i..m], s[j..b]) == goal
    && calls + MergeCalls(cmp, s[i..m], s[j..b]) == total
  }

  /** Taking the next node from the left run, or from the right one, whichever the comparator asks for. */
  lemma Take<T>(cmp: (T, T) -> int, s: seq<T>, i: nat, m: nat, j: nat, b: nat,
                out: seq<T>, calls: seq<(T, T)>, goal: seq<T>, total: seq<(T, T)>)
    returns (i': nat, j': nat, out': seq<T>)
    requires Owes(cmp, s, i, m, j, b, out, calls, goal, total) && (i < m || j < b)
    ensures var left := LeftNext(cmp, s, i, m, j, b);
      && i' == (if left then i + 1 else i) && j' == (if left then j else j + 1) && i' <= m && j' <= b
      && out' == out + [if left then s[i] else s[j]]
    ensures Owes(cmp, s, i', m, j', b, out', calls + Compared(s, i, m, j, b), goal, total)
  {
    var left := LeftNext(cmp, s, i, m, j, b);
    var x := if left then s[i] else s[j];
    i', j' := if left then i + 1 else i, if left then j else j + 1;
    out' := out + [x];
    MergeStep(cmp, s, i, m, j, b);
    ConcatAssoc(out, [x], Merge(cmp, s[i'..m], s[j'..b]));
    ConcatAssoc(calls, Compared(s, i, m, j, b), MergeCalls(cmp, s[i'..m], s[j'..b]));
  }

  lemma Settled<T>(cmp: (T, T) -> int, s: seq<T>, m: nat, b: nat,
                   out: seq<T>, calls: seq<(T, T)>, goal: seq<T>, total: seq<(T, T)>)
    requires Owes(cmp, s, m, m, b, b, out, calls, goal, total)
    ensures out == goal && calls == total
  {
    assert Merge(cmp, s[m..m], s[b..b]) == [];
    ConcatNothing(out);
    ConcatNothing(calls);
  }

  /**
   * A pass under way: after `merges` merges and the comparator's calls `calls` it has put out `out` and
   * stands at position a; finishing it takes the calls `total` in all.
   */
  ghost predicate PassOwes<T>(cmp: (T, T) -> int, s: seq<T>, a: nat, k: nat,
                              out: seq<T>, merges: nat, calls: seq<(T, T)>, total: seq<(T, T)>)
    requires k > 0
  {
    && a <= |s|
    && out + PassFrom(cmp, s, a, k) == PassFrom(cmp, s, 0, k)
    && merges + Merges(|s|, a, k) == Merges(|s|, 0, k)
    && calls + PassCalls(cmp, s, a, k) == total
  }

  lemma PassBegins<T>(cmp: (T, T) -> int, s: seq<T>, k: nat, calls: seq<(T, T)>)
    requires k > 0
    ensures PassOwes(cmp, s, 0, k, [], 0, calls, calls + PassCalls(cmp, s, 0, k))
  {
    ConcatNothing(PassFrom(cmp, s, 0, k));
  }

  lemma PassStep<T>(cmp: (T, T) -> int, s: seq<T>, a: nat, k: nat,
                    out: seq<T>, merges: nat, calls: seq<(T, T)>, total: seq<(T, T)>, m: nat, b: nat)
    requires k > 0 && PassOwes(cmp, s, a, k, out, merges, calls, total) && a < |s|
    requires m == Min(a + k, |s|) && b == Min(m + k, |s|)
    ensures PassOwes(cmp, s, b, k, out + Merge(cmp, s[a..m], s[m..b]), merges + 1,
                     calls + MergeCalls(cmp, s[a..m], s[m..b]), total)
  {
    PutsOut(cmp, s, a, k, out, PassFrom(cmp, s, 0, k), m, b);
    CountsUnfold(cmp, s, a, k, m, b);
    Regroup(total, calls, PassCalls(cmp, s, a, k), MergeCalls(cmp, s[a..m], s[m..b]), PassCalls(cmp, s, b, k));
  }

  lemma PutsOut<T>(cmp: (T, T) -> int, s: seq<T>, a: nat, k: nat, out: seq<T>, goal: seq<T>, m: nat, b: nat)
    requires k > 0 && a < |s| && m == Min(a + k, |s|) && b == Min(m + k, |s|)
    requires out + PassFrom(cmp, s, a, k) == goal
    ensures out + Merge(cmp, s[a..m], s[m..b]) + PassFrom(cmp, s, b, k) == goal
  {
    PassUnfolds(cmp, s, a, k, m, b);
    Regroup(goal, out, PassFrom(cmp, s, a, k), Merge(cmp, s[a..m], s[m..b]), PassFrom(cmp, s, b, k));
  }

  lemma PassEnds<T>(cmp: (T, T) -> int, s: seq<T>, k: nat,
                    out: seq<T>, merges: nat, calls: seq<(T, T)>, total: seq<(T, T)>)
    requires k > 0 && PassOwes(cmp, s, |s|, k, out, merges, calls, total)
    ensures out == PassFrom(cmp, s, 0, k) && merges == Merges(|s|, 0, k) && calls == total
  {
    assert PassFrom(cmp, s, |s|, k) == [] && PassCalls(cmp, s, |s|, k) == [];
    ConcatNothing(out);
    ConcatNothing(calls);
  }

  // ----- Permutation, whatever the comparator --------------------------------

  lemma {:induction false} MergePermutes<T>(cmp: (T, T) -> int, a: seq<T>, b: seq<T>)
    ensures multiset(Merge(cmp, a, b)) == multiset(a) + multiset(b)
    decreases |a| + |b|
  {
    if a == [] || b == [] {
    } else if cmp(a[0], b[0]) <= 0 {
      MergePermutes(cmp, a[1..], b);
      HeadAndTail(a);
      ConsPermutes(a[0], Merge(cmp, a[1..], b));
    } else {
      MergePermutes(cmp, a, b[1..]);
      HeadAndTail(b);
      ConsPermutes(b[0], Merge(cmp, a, b[1..]));
    }
  }

  lemma ConsPermutes<T>(x: T, s: seq<T>)
    ensures multiset([x] + s) == multiset{x} + multiset(s)
  {
  }

  lemma HeadAndTail<T>(s: seq<T>)
    requires s != []
    ensures multiset(s) == multiset{s[0]} + multiset(s[1..])
  {
    assert s == [s[0]] + s[1..];
  }

  /** The first block pair of a pass, and what the rest of the pass makes of the remainder. */
  lemma PassUnfolds<T>(cmp: (T, T) -> int, s: seq<T>, a: nat, k: nat, m: nat, b: nat)
    requires k > 0 && a < |s| && m == Min(a + k, |s|) && b == Min(m + k, |s|)
    ensures PassFrom(cmp, s, a, k) == Merge(cmp, s[a..m], s[m..b]) + PassFrom(cmp, s, b, k)
  {
    var x, y := Merge(cmp, s[a..m], s[m..b]), PassFrom(cmp, s, b, k);
    assert PassFrom(cmp, s, a, k) == x + y;
  }

  /** The positions of the first two blocks from a on. */
  lemma TwoBlocks(n: nat, a: nat, k: nat) returns (m: nat, b: nat)
    requires k > 0 && a < n
    ensures a < m <= b <= n && m == Min(a + k, n) && b == Min(m + k, n)
    ensures b == Min(a + 2 * k, n)
  {
    m := Min(a + k, n);
    b := Min(m + k, n);
  }

  lemma CountsUnfold<T>(cmp: (T, T) -> int, s: seq<T>, a: nat, k: nat, m: nat, b: nat)
    requires k > 0 && a < |s| && m == Min(a + k, |s|) && b == Min(m + k, |s|)
    ensures Merges(|s|, a, k) == 1 + Merges(|s|, b, k)
    ensures PassCalls(cmp, s, a, k) == MergeCalls(cmp, s[a..m], s[m..b]) + PassCalls(cmp, s, b, k)
  {
  }

  lemma CutTwice<T>(s: seq<T>, a: nat, m: nat, b: nat)
    requires a <= m <= b <= |s|
    ensures s[a..] == (s[a..m] + s[m..b]) + s[b..]
  {
  }

  lemma ConcatPermutes<T>(x: seq<T>, y: seq<T>, x': seq<T>, y': seq<T>)
    requires multiset(x) == multiset(x') && multiset(y) == multiset(y')
    ensures multiset(x + y) == multiset(x' + y')
  {
  }

  lemma {:induction false} PassPermutes<T>(cmp: (T, T) -> int, s: seq<T>, a: nat, k: nat)
    requires k > 0 && a <= |s|
    ensures multiset(PassFrom(cmp, s, a, k)) == multiset(s[a..])
    decreases |s| - a
  {
    if a < |s| {
      var m, b := TwoBlocks(|s|, a, k);
      PassUnfolds(cmp, s, a, k, m, b);
      CutTwice(s, a, m, b);
      MergePermutes(cmp, s[a..m], s[m..b]);
      PassPermutes(cmp, s, b, k);
      ConcatPermutes(Merge(cmp, s[a..m], s[m..b]), PassFrom(cmp, s, b, k), s[a..m] + s[m..b], s[b..]);
    }
  }

  lemma {:induction false} SortPermutes<T>(cmp: (T, T) -> int, s: seq<T>, k: nat)
    requires k > 0
    ensures multiset(SortFrom(cmp, s, k)) == multiset(s)
    decreases if |s| > k then |s| - k else 0
  {
    PassPermutes(cmp, s, 0, k);
    assert s[0..] == s;
    MergesAtMostOne(|s|, k);
    if Merges(|s|, 0, k) > 1 {
      SortPermutes(cmp, PassFrom(cmp, s, 0, k), 2 * k);
    }
  }

  // ----- Order and stability, for a total preorder ---------------------------

  ghost predicate Leq<T>(cmp: (T, T) -> int, x: T, y: T) {
    cmp(x, y) <= 0
  }

  /** The comparator orders the elements of d: any two compare, and Leq is transitive. */
  ghost predicate TotalPreorder<T>(cmp: (T, T) -> int, d: set<T>) {
    && (forall x, y | x in d && y in d :: Leq(cmp, x, y) || Leq(cmp, y, x))
    && (forall x, y, z | x in d && y in d && z in d :: Leq(cmp, x, y) && Leq(cmp, y, z) ==> Leq(cmp, x, z))
  }

  ghost predicate Within<T>(s: seq<T>, d: set<T>) {
    forall i | 0 <= i < |s| :: s[i] in d
  }

  ghost predicate Sorted<T>(cmp: (T, T) -> int, s: seq<T>) {
    forall i, j | 0 <= i < j < |s| :: Leq(cmp, s[i], s[j])
  }

  ghost predicate Tie<T>(cmp: (T, T) -> int, x: T, y: T) {
    Leq(cmp, x, y) && Leq(cmp, y, x)
  }

  /** The elements of s that tie with x, in the order s has them. */
  ghost function Ties<T>(cmp: (T, T) -> int, x: T, s: seq<T>): seq<T> {
    if s == [] then []
    else (if Tie(cmp, x, s[0]) then [s[0]] else []) + Ties(cmp, x, s[1..])
  }

  /** t has the elements of s, and elements that tie are in t in the order they had in s. */
  ghost predicate Stable<T>(cmp: (T, T) -> int, s: seq<T>, t: seq<T>) {
    && multiset(t) == multiset(s)
    && forall x | x in s :: Ties(cmp, x, t) == Ties(cmp, x, s)
  }

  lemma {:induction false} TiesConcat<T>(cmp: (T, T) -> int, x: T, a: seq<T>, b: seq<T>)
    ensures Ties(cmp, x, a + b) == Ties(cmp, x, a) + Ties(cmp, x, b)
  {
    if a == [] {
      assert a + b == b;
    } else {
      TiesConcat(cmp, x, a[1..], b);
      var h := TiesCons(cmp, x, a[0], a[1..] + b);
      assert a + b == [a[0]] + (a[1..] + b);
      ConcatAssoc(h, Ties(cmp, x, a[1..]), Ties(cmp, x, b));
    }
  }

  lemma {:induction false} NoTies<T>(cmp: (T, T) -> int, x: T, s: seq<T>)
    requires forall i | 0 <= i < |s| :: !Tie(cmp, x, s[i])
    ensures Ties(cmp, x, s) == []
  {
    if s != [] {
      forall i | 0 <= i < |s[1..]| ensures !Tie(cmp, x, s[1..][i]) {
        assert s[1..][i] == s[i + 1];
      }
      NoTies(cmp, x, s[1..]);
    }
  }

  lemma {:induction false} MergeSorts<T>(cmp: (T, T) -> int, a: seq<T>, b: seq<T>, d: set<T>)
    requires TotalPreorder(cmp, d) && Within(a, d) && Within(b, d)
    requires Sorted(cmp, a) && Sorted(cmp, b)
    ensures Sorted(cmp, Merge(cmp, a, b)) && Within(Merge(cmp, a, b), d)
    decreases |a| + |b|
  {
    if a == [] || b == [] {
    } else if cmp(a[0], b[0]) <= 0 {
      MergeSorts(cmp, a[1..], b, d);
      BelowMerge(cmp, a[0], a[1..], b);
    } else {
      MergeSorts(cmp, a, b[1..], d);
      BelowMerge(cmp, b[0], a, b[1..]);
    }
  }

  lemma BelowMerge<T>(cmp: (T, T) -> int, x: T, a: seq<T>, b: seq<T>)
    requires forall y | y in a || y in b :: Leq(cmp, x, y)
    ensures forall i | 0 <= i < |Merge(cmp, a, b)| :: Leq(cmp, x, Merge(cmp, a, b)[i])
  {
    MergePermutes(cmp, a, b);
    forall i | 0 <= i < |Merge(cmp, a, b)| ensures Leq(cmp, x, Merge(cmp, a, b)[i]) {
      assert Merge(cmp, a, b)[i] in multiset(Merge(cmp, a, b));
    }
  }

  lemma {:induction false} MergeStable<T>(cmp: (T, T) -> int, a: seq<T>, b: seq<T>, d: set<T>, x: T)
    requires TotalPreorder(cmp, d) && Within(a, d) && Within(b, d) && x in d
    requires Sorted(cmp, a)
    ensures Ties(cmp, x, Merge(cmp, a, b)) == Ties(cmp, x, a) + Ties(cmp, x, b)
    decreases |a| + |b|
  {
    if a == [] || b == [] {
    } else if cmp(a[0], b[0]) <= 0 {
      MergeStable(cmp, a[1..], b, d, x);
      var rest := TiesCons(cmp, x, a[0], Merge(cmp, a[1..], b));
      ConcatAssoc(rest, Ties(cmp, x, a[1..]), Ties(cmp, x, b));
    } else {
      MergeStable(cmp, a, b[1..], d, x);
      var rest := TiesCons(cmp, x, b[0], Merge(cmp, a, b[1..]));
      RightGoesFirst(cmp, a, b, d, x);
      MoveOver(rest, Ties(cmp, x, a), Ties(cmp, x, b[1..]));
    }
  }

  lemma TiesCons<T>(cmp: (T, T) -> int, x: T, y: T, s: seq<T>) returns (h: seq<T>)
    ensures h == if Tie(cmp, x, y) then [y] else []
    ensures Ties(cmp, x, [y] + s) == h + Ties(cmp, x, s)
  {
    h := if Tie(cmp, x, y) then [y] else [];
    assert ([y] + s)[1..] == s;
  }

  lemma MoveOver<T>(h: seq<T>, x: seq<T>, y: seq<T>)
    requires h == [] || x == []
    ensures h + (x + y) == x + (h + y)
  {
  }

  /** What the left run has ties with nothing that goes before all of it. */
  lemma RightGoesFirst<T>(cmp: (T, T) -> int, a: seq<T>, b: seq<T>, d: set<T>, x: T)
    requires TotalPreorder(cmp, d) && Within(a, d) && Within(b, d) && x in d
    requires Sorted(cmp, a) && a != [] && b != [] && cmp(a[0], b[0]) > 0
    ensures Tie(cmp, x, b[0]) ==> Ties(cmp, x, a) == []
  {
    if Tie(cmp, x, b[0]) {
      forall i | 0 <= i < |a| ensures !Tie(cmp, x, a[i]) {
        assert !Leq(cmp, a[0], b[0]);
        assert i == 0 || Leq(cmp, a[0], a[i]);
      }
      NoTies(cmp, x, a);
    }
  }

  /** Every aligned block of k elements of s, from position a on, is sorted. */
  ghost predicate Runs<T>(cmp: (T, T) -> int, s: seq<T>, a: nat, k: nat)
    requires k > 0 && a <= |s|
    decreases |s| - a
  {
    a == |s| || (Sorted(cmp, s[a..Min(a + k, |s|)]) && Runs(cmp, s, Min(a + k, |s|), k))
  }

  lemma {:induction false} SingletonRuns<T>(cmp: (T, T) -> int, s: seq<T>, a: nat)
    requires a <= |s|
    ensures Runs(cmp, s, a, 1)
    decreases |s| - a
  {
    if a < |s| {
      SingletonRuns(cmp, s, a + 1);
    }
  }

  lemma RunsPair<T>(cmp: (T, T) -> int, s: seq<T>, a: nat, k: nat, m: nat, b: nat)
    requires k > 0 && a < |s| && Runs(cmp, s, a, k)
    requires m == Min(a + k, |s|) && b == Min(m + k, |s|)
    ensures Sorted(cmp, s[a..m]) && Sorted(cmp, s[m..b]) && Runs(cmp, s, b, k)
  {
  }

  lemma PairStable<T>(cmp: (T, T) -> int, a: seq<T>, b: seq<T>, c: seq<T>, d: set<T>, x: T)
    requires TotalPreorder(cmp, d) && Within(a, d) && Within(b, d) && x in d
    requires Sorted(cmp, a)
    ensures Ties(cmp, x, a + b + c) == Ties(cmp, x, Merge(cmp, a, b)) + Ties(cmp, x, c)
  {
    MergeStable(cmp, a, b, d, x);
    TiesConcat(cmp, x, a + b, c);
    TiesConcat(cmp, x, a, b);
  }

  lemma WithinSlice<T>(s: seq<T>, d: set<T>, a: nat, b: nat)
    requires Within(s, d) && a <= b <= |s|
    ensures Within(s[a..b], d)
  {
  }

  /** A pass moves no element past one it ties with. */
  lemma {:induction false} PassStable<T>(cmp: (T, T) -> int, s: seq<T>, a: nat, k: nat, d: set<T>, x: T)
    requires k > 0 && a <= |s|
    requires TotalPreorder(cmp, d) && Within(s, d) && x in d
    requires Runs(cmp, s, a, k)
    ensures Ties(cmp, x, PassFrom(cmp, s, a, k)) == Ties(cmp, x, s[a..])
    decreases |s| - a
  {
    if a < |s| {
      var m, b := TwoBlocks(|s|, a, k);
      PassUnfolds(cmp, s, a, k, m, b);
      CutTwice(s, a, m, b);
      RunsPair(cmp, s, a, k, m, b);
      WithinSlice(s, d, a, m);
      WithinSlice(s, d, m, b);
      PairStable(cmp, s[a..m], s[m..b], s[b..], d, x);
      PassStable(cmp, s, b, k, d, x);
      TiesConcat(cmp, x, Merge(cmp, s[a..m], s[m..b]), PassFrom(cmp, s, b, k));
    }
  }

  lemma RunsCons<T>(cmp: (T, T) -> int, before: seq<T>, block: seq<T>, rest: seq<T>, k: nat)
    requires k > 0 && 0 < |block| <= k && (rest != [] ==> |block| == k)
    requires Sorted(cmp, block) && Runs(cmp, before + block + rest, |before + block|, k)
    ensures Runs(cmp, before + block + rest, |before|, k)
  {
    var t := before + block + rest;
    assert t[|before|..Min(|before| + k, |t|)] == block;
  }

  /** Two neighbouring sorted blocks of k merge into a sorted block of 2k. */
  lemma PairSorts<T>(cmp: (T, T) -> int, s: seq<T>, a: nat, k: nat, d: set<T>, m: nat, b: nat)
    requires k > 0 && a < |s| && m == Min(a + k, |s|) && b == Min(m + k, |s|)
    requires TotalPreorder(cmp, d) && Within(s, d) && Runs(cmp, s, a, k)
    ensures Sorted(cmp, Merge(cmp, s[a..m], s[m..b])) && Runs(cmp, s, b, k)
  {
    RunsPair(cmp, s, a, k, m, b);
    MergeSorts(cmp, s[a..m], s[m..b], d);
  }

  /** A pass over sorted blocks of k elements leaves sorted blocks of 2k. */
  lemma {:induction false} PassDoublesRuns<T>(cmp: (T, T) -> int, s: seq<T>, a: nat, k: nat, d: set<T>, before: seq<T>)
    requires k > 0 && a <= |s| && |before| == a
    requires TotalPreorder(cmp, d) && Within(s, d)
    requires Runs(cmp, s, a, k)
    ensures Runs(cmp, before + PassFrom(cmp, s, a, k), a, 2 * k)
    decreases |s| - a
  {
    if a < |s| {
      var m, b := TwoBlocks(|s|, a, k);
      PassUnfolds(cmp, s, a, k, m, b);
      PairSorts(cmp, s, a, k, d, m, b);
      var block, rest := Merge(cmp, s[a..m], s[m..b]), PassFrom(cmp, s, b, k);
      PassDoublesRuns(cmp, s, b, k, d, before + block);
      RunsCons(cmp, before, block, rest, 2 * k);
      ConcatAssoc(before, block, rest);
    }
  }
}
