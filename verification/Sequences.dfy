/** Facts about sequences that the proofs call on by name. */
module Sequences {
  ghost predicate Distinct<T>(s: seq<T>) {
    forall i, j | 0 <= i < j < |s| :: s[i] != s[j]
  }

  lemma ConcatAssoc<T>(x: seq<T>, y: seq<T>, z: seq<T>)
    ensures x + (y + z) == x + y + z
  {
  }

  lemma ConcatNothing<T>(x: seq<T>)
    ensures [] + x == x == x + []
  {
  }

  lemma Regroup<T>(goal: seq<T>, x: seq<T>, u: seq<T>, y: seq<T>, z: seq<T>)
    requires x + u == goal && u == y + z
    ensures x + y + z == goal
  {
    ConcatAssoc(x, y, z);
  }

  lemma Extend<T>(x: seq<T>, u: seq<T>, y: seq<T>, z: seq<T>)
    requires u == y + z
    ensures x + u == x + y + z
  {
    ConcatAssoc(x, y, z);
  }

  lemma TakeFirst<T>(t: seq<T>, x: seq<T>, y: seq<T>, p: nat)
    requires t == x + y && p <= |x|
    ensures t[..p] == x[..p]
  {
  }

  lemma TakeBoth<T>(t: seq<T>, x: seq<T>, y: seq<T>, p: nat)
    requires t == x + y && |x| <= p <= |t|
    ensures t[..p] == x + y[..p - |x|]
  {
  }

  lemma DropFirst<T>(t: seq<T>, x: seq<T>, y: seq<T>)
    requires t == x + y
    ensures t[|x|..] == y
  {
  }
}
