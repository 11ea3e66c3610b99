/**
 * Which ways of cutting a stream of commands into chunks the state machine loop as written survives,
 * in terms of the commands sent and the positions of the cuts alone.
 */
module StreamCuts {
  import opened Sequences
  import opened Decoder
  import opened SessionMachine

  /** Where in the stream command j starts; where the last one ends for j == |cmds|. */
  ghost function Offset(cmds: seq<Command>, j: nat): nat
    requires j <= |cmds|
  {
    if j == 0 then 0 else Offset(cmds, j - 1) + 5 + |cmds[j - 1].data|
  }

  /** Where in the stream chunk i starts. */
  ghost function Cut(chunks: seq<seq<Byte>>, i: nat): nat
    requires i <= |chunks|
  {
    if i == 0 then 0 else Cut(chunks, i - 1) + |chunks[i - 1]|
  }

  /** The cut at p is strictly inside the payload of command j, and the next one is behind that payload. */
  ghost predicate Breaks(cmds: seq<Command>, j: nat, p: nat, next: nat)
    requires j < |cmds|
  {
    Offset(cmds, j) + 5 < p < Offset(cmds, j + 1) < next
  }

  ghost predicate Spares(cmds: seq<Command>, p: nat, next: nat) {
    forall j | 0 <= j < |cmds| :: !Breaks(cmds, j, p, next)
  }

  /** No payload is cut unless the next cut is at or before its end. */
  ghost predicate Unbroken(cmds: seq<Command>, chunks: seq<seq<Byte>>) {
    forall i | 0 <= i < |chunks| :: Spares(cmds, Cut(chunks, i), Cut(chunks, i + 1))
  }

  // ----- Positions in the stream ---------------------------------------------

  lemma {:induction false} OffsetIsLength(cmds: seq<Command>, j: nat)
    requires j <= |cmds|
    ensures Offset(cmds, j) == |Encode(cmds[..j])|
  {
    if j > 0 {
      OffsetIsLength(cmds, j - 1);
      assert cmds[..j] == cmds[..j - 1] + [cmds[j - 1]];
      EncodeSnoc(cmds[..j - 1], cmds[j - 1]);
      EncodeOneLength(cmds[j - 1]);
    }
  }

  lemma EncodeOneLength(c: Command)
    ensures |EncodeOne(c)| == 5 + |c.data|
  {
  }

  lemma {:induction false} OffsetOfPrefix(cmds: seq<Command>, n: nat, j: nat)
    requires j <= n <= |cmds|
    ensures Offset(cmds[..n], j) == Offset(cmds, j)
    decreases j
  {
    if j > 0 {
      OffsetOfPrefix(cmds, n, j - 1);
    }
  }

  lemma {:induction false} OffsetGrows(cmds: seq<Command>, i: nat, j: nat)
    requires i <= j <= |cmds|
    ensures Offset(cmds, i) <= Offset(cmds, j)
    decreases j
  {
    if i < j {
      OffsetGrows(cmds, i, j - 1);
    }
  }

  lemma {:induction false} CutIsLength(chunks: seq<seq<Byte>>, i: nat)
    requires i <= |chunks|
    ensures Cut(chunks, i) == |Concat(chunks[..i])| <= |Concat(chunks)|
    ensures Concat(chunks)[..Cut(chunks, i)] == Concat(chunks[..i])
    decreases i
  {
    ConcatSplits(chunks[..i], chunks[i..]);
    assert chunks[..i] + chunks[i..] == chunks;
    if i > 0 {
      CutIsLength(chunks, i - 1);
      ConcatSplits(chunks[..i - 1], [chunks[i - 1]]);
      assert chunks[..i] == chunks[..i - 1] + [chunks[i - 1]];
      assert Concat([chunks[i - 1]]) == chunks[i - 1] + [];
    }
  }

  lemma {:induction false} ConcatSplits(a: seq<seq<Byte>>, b: seq<seq<Byte>>)
    ensures Concat(a + b) == Concat(a) + Concat(b)
  {
    if a == [] {
      assert a + b == b;
    } else {
      ConcatSplits(a[1..], b);
      assert (a + b)[1..] == a[1..] + b;
      ConcatAssoc(a[0], Concat(a[1..]), Concat(b));
    }
  }

  // ----- The decoder at a position in the stream -----------------------------

  /** How many header bytes of the command in progress are still to come. */
  ghost function HeaderLeft(d: State): nat {
    match d.phase
    case Len1 => 4
    case Len2 => 3
    case Len3 => 2
    case Len4 => 1
    case _ => 0
  }

  lemma {:induction false} HeaderHasNoData(d: State, bytes: seq<Byte>)
    requires d.data == [] && |bytes| <= HeaderLeft(d)
    ensures Feed(d, bytes).data == []
    decreases |bytes|
  {
    if bytes != [] {
      HeaderHasNoData(Step(d, bytes[0]), bytes[1..]);
    }
  }

  /** Within one command, q bytes of which have been fed. */
  lemma OvershootInCommand(d: State, c: Command, q: nat, n: nat)
    requires Between(d) && q <= 5 + |c.data|
    ensures Overshoots(Feed(d, EncodeOne(c)[..q]), n) <==> 5 < q < 5 + |c.data| < q + n
  {
    var bytes := EncodeOne(c)[..q];
    if q == 0 {
    } else if q <= 5 {
      HeaderHasNoData(Step(d, bytes[0]), bytes[1..]);
    } else if q < 5 + |c.data| {
      SplitState(d, c, q - 5);
      FieldOfBytes(|c.data|);
    } else {
      assert bytes == EncodeOne(c);
      FeedOne(d, c);
    }
  }

  /** At any position p of the stream, the next n bytes overshoot exactly when they break a payload. */
  lemma {:induction false} OvershootAt(d: State, cmds: seq<Command>, p: nat, n: nat)
    requires Between(d) && p <= |Encode(cmds)|
    ensures Overshoots(Feed(d, Encode(cmds)[..p]), n) <==> !Spares(cmds, p, p + n)
    decreases |cmds|
  {
    if cmds == [] {
      assert Encode(cmds)[..p] == [];
    } else {
      var k := |cmds| - 1;
      OffsetIsLength(cmds, k);
      if p < Offset(cmds, k) {
        OvershootAt(d, cmds[..k], p, n);
        BreaksEarlier(cmds, p, p + n);
        TakeFirst(Encode(cmds), Encode(cmds[..k]), EncodeOne(cmds[k]), p);
      } else {
        OvershootInLast(d, cmds, p, n);
      }
    }
  }

  lemma OvershootInLast(d: State, cmds: seq<Command>, p: nat, n: nat)
    requires Between(d) && cmds != [] && Offset(cmds, |cmds| - 1) <= p <= |Encode(cmds)|
    ensures Overshoots(Feed(d, Encode(cmds)[..p]), n) <==> !Spares(cmds, p, p + n)
  {
    var k := |cmds| - 1;
    OffsetIsLength(cmds, k);
    TakeBoth(Encode(cmds), Encode(cmds[..k]), EncodeOne(cmds[k]), p);
    OvershootBehind(d, cmds[..k], cmds[k], p - Offset(cmds, k), n);
    BreaksLast(cmds, p, p + n);
  }

  lemma OvershootBehind(d: State, init: seq<Command>, last: Command, q: nat, n: nat)
    requires Between(d) && q <= |EncodeOne(last)|
    ensures Overshoots(Feed(d, Encode(init) + EncodeOne(last)[..q]), n) <==> 5 < q < 5 + |last.data| < q + n
  {
    EncodeOneLength(last);
    FeedConcat(d, Encode(init), EncodeOne(last)[..q]);
    RoundTrip(d, init);
    OvershootInCommand(Feed(d, Encode(init)), last, q, n);
  }

  lemma BreaksOfPrefix(cmds: seq<Command>, n: nat, j: nat, p: nat, next: nat)
    requires j < n <= |cmds|
    ensures Breaks(cmds[..n], j, p, next) <==> Breaks(cmds, j, p, next)
  {
    OffsetOfPrefix(cmds, n, j);
    OffsetOfPrefix(cmds, n, j + 1);
  }

  /** A cut in front of the last command breaks what it breaks of the others. */
  lemma BreaksEarlier(cmds: seq<Command>, p: nat, next: nat)
    requires cmds != [] && p < Offset(cmds, |cmds| - 1)
    ensures Spares(cmds, p, next) <==> Spares(cmds[..|cmds| - 1], p, next)
  {
    var n := |cmds| - 1;
    if Spares(cmds, p, next) {
      forall j | 0 <= j < n ensures !Breaks(cmds[..n], j, p, next) {
        BreaksOfPrefix(cmds, n, j, p, next);
      }
    }
    if Spares(cmds[..n], p, next) {
      forall j | 0 <= j < |cmds| ensures !Breaks(cmds, j, p, next) {
        SparedWithPrefix(cmds, n, j, p, next);
      }
    }
  }

  lemma SparedWithPrefix(cmds: seq<Command>, n: nat, j: nat, p: nat, next: nat)
    requires j <= n < |cmds| && p < Offset(cmds, n) && Spares(cmds[..n], p, next)
    ensures !Breaks(cmds, j, p, next)
  {
    if j < n {
      BreaksOfPrefix(cmds, n, j, p, next);
    }
  }

  /** A cut in or behind the last command breaks no other. */
  lemma BreaksLast(cmds: seq<Command>, p: nat, next: nat)
    requires cmds != [] && p >= Offset(cmds, |cmds| - 1)
    ensures Spares(cmds, p, next) <==> !Breaks(cmds, |cmds| - 1, p, next)
  {
    forall j | 0 <= j < |cmds| - 1 ensures !Breaks(cmds, j, p, next) {
      BehindCommand(cmds, j, p, next);
    }
  }

  lemma BehindCommand(cmds: seq<Command>, j: nat, p: nat, next: nat)
    requires j < |cmds| - 1 && p >= Offset(cmds, |cmds| - 1)
    ensures !Breaks(cmds, j, p, next)
  {
    OffsetGrows(cmds, j + 1, |cmds| - 1);
  }

  // ----- The whole stream ----------------------------------------------------

  /** Chunk i does not overshoot where it finds the decoder. */
  ghost predicate Fits(d: State, chunks: seq<seq<Byte>>, i: nat)
    requires i < |chunks|
  {
    !Overshoots(Feed(d, Concat(chunks[..i])), |chunks[i]|)
  }

  lemma {:induction false} NeverOvershootsAt(d: State, chunks: seq<seq<Byte>>)
    ensures NeverOvershoots(d, chunks) <==> forall i | 0 <= i < |chunks| :: Fits(d, chunks, i)
    decreases |chunks|
  {
    if chunks != [] {
      var e, rest := Feed(d, chunks[0]), chunks[1..];
      NeverOvershootsAt(e, rest);
      assert Fits(d, chunks, 0) <==> !Overshoots(d, |chunks[0]|) by {
        assert chunks[..0] == [];
      }
      forall i | 0 <= i < |rest| ensures Fits(e, rest, i) <==> Fits(d, chunks, i + 1) {
        FitsLater(d, chunks, i);
      }
      assert forall i | 0 < i < |chunks| :: Fits(d, chunks, i) <==> Fits(e, rest, i - 1);
    }
  }

  lemma FitsLater(d: State, chunks: seq<seq<Byte>>, i: nat)
    requires i + 1 < |chunks|
    ensures Fits(Feed(d, chunks[0]), chunks[1..], i) <==> Fits(d, chunks, i + 1)
  {
    assert chunks[..i + 1][1..] == chunks[1..][..i];
    FeedConcat(d, chunks[0], Concat(chunks[1..][..i]));
  }

  lemma FitsIsSpares(cmds: seq<Command>, chunks: seq<seq<Byte>>, i: nat)
    requires Concat(chunks) == Encode(cmds) && i < |chunks|
    ensures Fits(START, chunks, i) <==> Spares(cmds, Cut(chunks, i), Cut(chunks, i + 1))
  {
    CutIsLength(chunks, i);
    OvershootAt(START, cmds, Cut(chunks, i), |chunks[i]|);
  }

  /** No chunk overshoots at its turn exactly when no payload is broken. */
  lemma NeverOvershootsIsUnbroken(cmds: seq<Command>, chunks: seq<seq<Byte>>)
    requires Concat(chunks) == Encode(cmds)
    ensures NeverOvershoots(START, chunks) <==> Unbroken(cmds, chunks)
  {
    NeverOvershootsAt(START, chunks);
    if NeverOvershoots(START, chunks) {
      forall i | 0 <= i < |chunks| ensures Spares(cmds, Cut(chunks, i), Cut(chunks, i + 1)) {
        FitsIsSpares(cmds, chunks, i);
        assert Fits(START, chunks, i);
      }
    } else {
      var i :| 0 <= i < |chunks| && !Fits(START, chunks, i);
      FitsIsSpares(cmds, chunks, i);
    }
  }

  /**
   * From a fresh session the loop as written receives exactly the commands sent if and only if no
   * payload is cut with the next cut behind its end.
   */
  lemma StreamDecodes(cmds: seq<Command>, chunks: seq<seq<Byte>>)
    requires Concat(chunks) == Encode(cmds)
    ensures Received(AsWrittenAll(START, chunks)) == cmds <==> Unbroken(cmds, chunks)
  {
    DecodesUnlessOvershot(cmds, chunks);
    NeverOvershootsIsUnbroken(cmds, chunks);
  }
}
