/**
 * rmilter_session_state_machine: the loop that takes the decoder over a chunk of input.
 *
 * The source copies MIN(cmdlen, end - p) payload bytes at a time, which does not subtract the
 * bytes an earlier chunk brought in.  `StateMachine` is that loop; `AsWritten` is what it
 * computes, and the lemmas say exactly when that is the decoder's meaning, `Feed`.
 * `StateMachineBounded` is the loop with the bound MIN(cmdlen - data.len, end - p).
 */
module SessionMachine {
  import opened Sequences
  import opened Decoder

  // ----- What the loop as written computes -----------------------------------

  /** Before the call: the chunk reaches beyond a payload of which an earlier chunk brought a part. */
  predicate Overshoots(d: State, n: nat) {
    d.phase == ReadData && |d.len| == 4 && 0 < |d.data| < Total(d) && n > Total(d) - |d.data|
  }

  /** More payload has been stored than the command has: the completion test cannot succeed any more. */
  predicate Stuck(d: State) {
    d.phase == ReadData && |d.len| == 4 && 0 < Total(d) < |d.data|
  }

  function AsWritten(d: State, bytes: seq<Byte>): State {
    if Stuck(d) || Overshoots(d, |bytes|) then d.(data := d.data + bytes) else Feed(d, bytes)
  }

  function AsWrittenAll(d: State, chunks: seq<seq<Byte>>): State
    decreases |chunks|
  {
    if chunks == [] then d else AsWrittenAll(AsWritten(d, chunks[0]), chunks[1..])
  }

  /** No chunk reaches beyond a payload it found half read. */
  predicate NeverOvershoots(d: State, chunks: seq<seq<Byte>>)
    decreases |chunks|
  {
    chunks == [] || (!Overshoots(d, |chunks[0]|) && NeverOvershoots(Feed(d, chunks[0]), chunks[1..]))
  }

  /** One call decodes its chunk correctly exactly when the chunk does not overshoot. */
  lemma AsWrittenCorrect(d: State, bytes: seq<Byte>)
    requires Valid(d)
    ensures AsWritten(d, bytes) == Feed(d, bytes) <==> !Overshoots(d, |bytes|)
    ensures Overshoots(d, |bytes|) ==> Stuck(AsWritten(d, bytes))
  {
    FeedValid(d, bytes);
  }

  /** A stuck decoder never completes a command again. */
  lemma {:induction false} StuckForever(d: State, chunks: seq<seq<Byte>>)
    requires Stuck(d)
    ensures Stuck(AsWrittenAll(d, chunks)) && AsWrittenAll(d, chunks).log == d.log
    decreases |chunks|
  {
    if chunks != [] {
      StuckForever(AsWritten(d, chunks[0]), chunks[1..]);
    }
  }

  /** Over a whole run: the stream is decoded correctly exactly when no chunk overshoots at its turn. */
  lemma {:induction false} AsWrittenAllCorrect(d: State, chunks: seq<seq<Byte>>)
    requires Valid(d)
    ensures AsWrittenAll(d, chunks) == Feed(d, Concat(chunks)) <==> NeverOvershoots(d, chunks)
    decreases |chunks|
  {
    if chunks != [] {
      var rest := chunks[1..];
      FeedValid(d, Concat(chunks));
      FeedValid(d, chunks[0]);
      FeedConcat(d, chunks[0], Concat(rest));
      AsWrittenCorrect(d, chunks[0]);
      if Overshoots(d, |chunks[0]|) {
        StuckForever(AsWritten(d, chunks[0]), rest);
      } else {
        AsWrittenAllCorrect(Feed(d, chunks[0]), rest);
      }
    }
  }

  lemma {:induction false} LogGrows(d: State, bytes: seq<Byte>)
    ensures |d.log| <= |Feed(d, bytes).log|
    decreases |bytes|
  {
    if bytes != [] {
      LogGrows(Step(d, bytes[0]), bytes[1..]);
    }
  }

  /** The command a chunk overshoots is in that chunk: the decoder completes it, the loop does not. */
  lemma OvershootLoses(d: State, bytes: seq<Byte>)
    requires Valid(d) && Overshoots(d, |bytes|)
    ensures |d.log| < |Feed(d, bytes).log|
  {
    var n := Total(d) - |d.data|;
    assert bytes == bytes[..n] + bytes[n..];
    FeedConcat(d, bytes[..n], bytes[n..]);
    FeedPayload(d, bytes[..n]);
    LogGrows(Feed(d, bytes[..n]), bytes[n..]);
  }

  /** A run that overshoots ends stuck, with commands of the stream missing. */
  lemma {:induction false} OvershootRunLoses(d: State, chunks: seq<seq<Byte>>)
    requires Valid(d) && !NeverOvershoots(d, chunks)
    ensures Stuck(AsWrittenAll(d, chunks))
    ensures |AsWrittenAll(d, chunks).log| < |Feed(d, Concat(chunks)).log|
    decreases |chunks|
  {
    var rest := chunks[1..];
    FeedConcat(d, chunks[0], Concat(rest));
    FeedValid(d, chunks[0]);
    if Overshoots(d, |chunks[0]|) {
      StuckForever(AsWritten(d, chunks[0]), rest);
      OvershootLoses(d, chunks[0]);
      LogGrows(Feed(d, chunks[0]), Concat(rest));
    } else {
      OvershootRunLoses(Feed(d, chunks[0]), rest);
    }
  }

  /** From a fresh session the loop as written receives the commands sent unless a chunk overshoots at its turn. */
  lemma DecodesUnlessOvershot(cmds: seq<Command>, chunks: seq<seq<Byte>>)
    requires Concat(chunks) == Encode(cmds)
    ensures Received(AsWrittenAll(START, chunks)) == cmds <==> NeverOvershoots(START, chunks)
  {
    RoundTrip(START, cmds);
    assert [] + cmds == cmds;
    AsWrittenAllCorrect(START, chunks);
    if !NeverOvershoots(START, chunks) {
      OvershootRunLoses(START, chunks);
    }
  }

  /** A payload split over two chunks is lost as soon as the second chunk goes one byte further. */
  lemma SplitPayloadIsLost(c: Command, k: nat, next: Byte)
    requires 0 < k < |c.data|
    ensures var chunks := [EncodeOne(c)[..5 + k], EncodeOne(c)[5 + k..] + [next]];
      && Feed(START, Concat(chunks)).log == [c]
      && AsWrittenAll(START, chunks).log == []
  {
    var a, b := EncodeOne(c)[..5 + k], EncodeOne(c)[5 + k..] + [next];
    ConcatTwo(a, b);
    assert a + b == EncodeOne(c) + [next];
    FeedConcat(START, EncodeOne(c), [next]);
    FeedOne(START, c);
    assert Received(START) + [c] == [c];
    SplitState(START, c, k);
    FieldOfBytes(|c.data|);
    var d := Feed(START, a);
    assert Overshoots(d, |b|);
    assert [a, b][1..] == [b] && [b][1..] == [];
    assert AsWrittenAll(d, [b]) == AsWritten(d, b);
  }

  /** A command cut inside its payload, or right in front of it. */
  lemma SplitState(d: State, c: Command, k: nat)
    requires Between(d) && k < |c.data|
    ensures Feed(d, EncodeOne(c)[..5 + k]) == State(ReadData, c.cmd, BigEndian(|c.data|), c.data[..k], Received(d))
  {
    var h := State(ReadData, c.cmd, BigEndian(|c.data|), [], Received(d));
    FieldOfBytes(|c.data|);
    assert EncodeOne(c)[..5 + k] == [c.cmd] + BigEndian(|c.data|) + c.data[..k];
    FeedHeader(d, c.cmd, |c.data|, c.data[..k]);
    FeedCopies(h, c.data[..k]);
    assert h.data + c.data[..k] == c.data[..k];
  }

  lemma ConcatTwo(a: seq<Byte>, b: seq<Byte>)
    ensures Concat([a, b]) == a + b
  {
    assert [a, b][1..] == [b] && [b][1..] == [];
    assert Concat([b]) == b + [];
  }

  /** For instance a two-byte command cut in the middle, with the next command byte behind it. */
  lemma SplitPayloadExample()
    ensures var c := Command(0x4f, [0xaa, 0xbb]);
      var chunks := [EncodeOne(c)[..6], EncodeOne(c)[6..] + [0x51]];
      && Feed(START, Concat(chunks)).log == [c]
      && AsWrittenAll(START, chunks).log == []
  {
    SplitPayloadIsLost(Command(0x4f, [0xaa, 0xbb]), 1, 0x51);
  }

  lemma {:induction false} AsWrittenSnoc(d: State, chunks: seq<seq<Byte>>, last: seq<Byte>)
    ensures AsWrittenAll(d, chunks + [last]) == AsWritten(AsWrittenAll(d, chunks), last)
    decreases |chunks|
  {
    if chunks == [] {
      assert chunks + [last] == [last] && [last][1..] == [];
    } else {
      AsWrittenSnoc(AsWritten(d, chunks[0]), chunks[1..], last);
      assert (chunks + [last])[1..] == chunks[1..] + [last];
    }
  }

  /** What the loop can start from and leaves: a decoder that works, or one that has overshot. */
  ghost predicate Usable(d: State) {
    Valid(d) || Stuck(d)
  }

  lemma AsWrittenUsable(d: State, bytes: seq<Byte>)
    requires Usable(d)
    ensures Usable(AsWritten(d, bytes))
  {
    if Valid(d) {
      FeedValid(d, bytes);
    }
  }

  /** No sequence of chunks takes a started session to SendReply, where the loop would spin. */
  lemma {:induction false} NeverSendReply(d: State, chunks: seq<seq<Byte>>)
    requires Usable(d)
    ensures Usable(AsWrittenAll(d, chunks)) && AsWrittenAll(d, chunks).phase != SendReply
    decreases |chunks|
  {
    if chunks != [] {
      AsWrittenUsable(d, chunks[0]);
      NeverSendReply(AsWritten(d, chunks[0]), chunks[1..]);
    }
  }

  /** The loop as written mis-frames what it has overshot, and still loses no byte of it. */
  lemma {:induction false} AsWrittenConserves(d: State, chunks: seq<seq<Byte>>)
    requires Usable(d)
    ensures var e := AsWrittenAll(d, chunks);
      Usable(e) && Encode(e.log) + Partial(e) == Encode(d.log) + Partial(d) + Concat(chunks)
    decreases |chunks|
  {
    if chunks == [] {
      ConcatNothing(Encode(d.log) + Partial(d));
    } else {
      var e := AsWritten(d, chunks[0]);
      ChunkConserves(d, chunks[0]);
      AsWrittenConserves(e, chunks[1..]);
      ConcatAssoc(Encode(d.log) + Partial(d), chunks[0], Concat(chunks[1..]));
    }
  }

  lemma ChunkConserves(d: State, bytes: seq<Byte>)
    requires Usable(d)
    ensures var e := AsWritten(d, bytes);
      Usable(e) && Encode(e.log) + Partial(e) == Encode(d.log) + Partial(d) + bytes
  {
    AsWrittenUsable(d, bytes);
    if Stuck(d) || Overshoots(d, |bytes|) {
      ConcatAssoc([d.cmd] + d.len, d.data, bytes);
      ConcatAssoc(Encode(d.log), Partial(d), bytes);
    } else {
      FeedConserves(d, bytes);
    }
  }

  // ----- Turns of the loop ---------------------------------------------------

  /** How many of the commands are empty. */
  function Empties(log: seq<Command>): nat {
    if log == [] then 0
    else Empties(log[..|log| - 1]) + if log[|log| - 1].data == [] then 1 else 0
  }

  lemma EmptiesSnoc(log: seq<Command>, c: Command)
    ensures Empties(log + [c]) == Empties(log) + if c.data == [] then 1 else 0
  {
    assert (log + [c])[..|log|] == log;
  }

  /** Payload bytes copied in bulk: short of the end they pile up, at the end they complete the command. */
  lemma {:induction false} FeedCopies(d: State, p: seq<Byte>)
    requires d.phase == ReadData && |d.len| == 4 && |d.data| + |p| < Total(d)
    ensures Feed(d, p) == d.(data := d.data + p)
    decreases |p|
  {
    if p == [] {
      assert d.data + p == d.data;
    } else {
      FeedCopies(d.(data := d.data + [p[0]]), p[1..]);
      assert d.data + p == d.data + [p[0]] + p[1..];
    }
  }

  /** What a payload turn that copies n bytes makes of the decoder. */
  function Copied(d: State, piece: seq<Byte>): State {
    var f := d.(data := d.data + piece);
    if Full(f) then Complete(f) else f
  }

  lemma HeaderTurn(d: State, rest: seq<Byte>)
    requires Valid(d) && d.phase != ReadData && rest != []
    ensures Valid(Step(d, rest[0])) && Step(d, rest[0]).log == d.log
    ensures AsWritten(d, rest) == AsWritten(Step(d, rest[0]), rest[1..])
    ensures Feed(d, rest) == Feed(Step(d, rest[0]), rest[1..])
  {
    StepValid(d, rest[0]);
  }

  lemma Slices(buf: seq<Byte>, p: nat, n: nat)
    requires p + n <= |buf|
    ensures buf[p..p + n] == buf[p..][..n] && buf[p + n..] == buf[p..][n..]
  {
  }

  lemma PendingTurn(d: State, rest: seq<Byte>)
    requires Pending(d) && rest != []
    ensures Valid(Copied(d, [])) && Feed(d, rest) == Feed(Copied(d, []), rest)
  {
    assert d.data + [] == [];
    assert Copied(d, []) == Complete(d);
    assert Step(d, rest[0]) == Step(Complete(d), rest[0]);
  }

  lemma PieceTurn(d: State, piece: seq<Byte>)
    requires Valid(d) && d.phase == ReadData && piece != [] && |piece| <= Total(d) - |d.data|
    ensures Valid(Copied(d, piece)) && Feed(d, piece) == Copied(d, piece)
  {
    if |piece| == Total(d) - |d.data| {
      FeedPayload(d, piece);
    } else {
      FeedCopies(d, piece);
    }
  }

  /** The bulk copy refines the byte-at-a-time decoder as long as it stays within the payload. */
  lemma CopyRefines(d: State, rest: seq<Byte>, n: nat)
    requires Valid(d) && d.phase == ReadData && rest != [] && n <= |rest|
    requires n <= Total(d) - |d.data| && (n == |rest| || n == Total(d) - |d.data|)
    ensures Valid(Copied(d, rest[..n])) && Feed(d, rest) == Feed(Copied(d, rest[..n]), rest[n..])
  {
    if n == 0 {
      PendingTurn(d, rest);
    } else {
      assert rest == rest[..n] + rest[n..];
      FeedConcat(d, rest[..n], rest[n..]);
      PieceTurn(d, rest[..n]);
    }
  }

  lemma OvershootTurn(d: State, rest: seq<Byte>, n: nat)
    requires Stuck(d) || Overshoots(d, |rest|)
    requires n == if Total(d) < |rest| then Total(d) else |rest|
    ensures Stuck(Copied(d, rest[..n]))
    ensures AsWritten(Copied(d, rest[..n]), rest[n..]) == d.(data := d.data + rest)
  {
    assert d.data + rest[..n] + rest[n..] == d.data + rest;
  }

  /** The copy of the loop as written, MIN(cmdlen, end - p) bytes. */
  lemma CopyAsWritten(d: State, rest: seq<Byte>, n: nat)
    requires (Valid(d) || Stuck(d)) && d.phase == ReadData && rest != []
    requires n == if Total(d) < |rest| then Total(d) else |rest|
    ensures Valid(Copied(d, rest[..n])) || Stuck(Copied(d, rest[..n]))
    ensures AsWritten(d, rest) == AsWritten(Copied(d, rest[..n]), rest[n..])
  {
    if Stuck(d) || Overshoots(d, |rest|) {
      OvershootTurn(d, rest, n);
    } else {
      CopyRefines(d, rest, n);
    }
  }

  /** A turn without progress completes an empty command; no other turn changes the number of those. */
  lemma CopyEmpties(d: State, piece: seq<Byte>)
    requires d.phase == ReadData && Usable(d)
    requires piece == [] ==> Pending(d)
    ensures Empties(Copied(d, piece).log) == Empties(d.log) + if piece == [] then 1 else 0
    ensures piece == [] ==> Copied(d, piece).phase == ReadCmd
  {
    if Full(d.(data := d.data + piece)) {
      EmptiesSnoc(d.log, Command(d.cmd, d.data + piece));
    }
  }

  /** The payload turn of the loop as written. */
  lemma CopyTurn(d: State, buf: seq<Byte>, p: nat, n: nat)
    requires Usable(d) && d.phase == ReadData && p < |buf| && p + n <= |buf|
    requires n == if Total(d) < |buf| - p then Total(d) else |buf| - p
    ensures var e := Copied(d, buf[p..p + n]);
      && Usable(e) && AsWritten(e, buf[p + n..]) == AsWritten(d, buf[p..])
      && Empties(e.log) == Empties(d.log) + (if n == 0 then 1 else 0)
      && (n == 0 ==> e.phase == ReadCmd)
  {
    Slices(buf, p, n);
    CopyAsWritten(d, buf[p..], n);
    CopyEmpties(d, buf[p..p + n]);
  }

  /** The payload turn of the loop with the bounded copy. */
  lemma BoundedCopyTurn(d: State, buf: seq<Byte>, p: nat, n: nat)
    requires Valid(d) && d.phase == ReadData && p < |buf| && p + n <= |buf|
    requires n == if Total(d) - |d.data| < |buf| - p then Total(d) - |d.data| else |buf| - p
    ensures var e := Copied(d, buf[p..p + n]);
      && Valid(e) && Feed(e, buf[p + n..]) == Feed(d, buf[p..])
      && Empties(e.log) == Empties(d.log) + (if n == 0 then 1 else 0)
      && (n == 0 ==> e.phase == ReadCmd)
  {
    Slices(buf, p, n);
    CopyRefines(d, buf[p..], n);
    CopyEmpties(d, buf[p..p + n]);
  }

  lemma HeaderByteTurn(d: State, buf: seq<Byte>, p: nat)
    requires Valid(d) && d.phase != ReadData && p < |buf|
    ensures var e := Step(d, buf[p]);
      && Valid(e) && e.log == d.log
      && AsWritten(e, buf[p + 1..]) == AsWritten(d, buf[p..])
      && Feed(e, buf[p + 1..]) == Feed(d, buf[p..])
  {
    Slices(buf, p, 1);
    HeaderTurn(d, buf[p..]);
  }

  // ----- The bits of the length field ----------------------------------------

  type Word32 = n: nat | n < WIDTH

  function Word(b1: Byte, b2: Byte, b3: Byte, b4: Byte): bv32 {
    ((((b1 as bv32) << 24) | ((b2 as bv32) << 16)) | ((b3 as bv32) << 8)) | (b4 as bv32)
  }

  lemma WordOfBytes(x: bv32)
    ensures x == Word((x >> 24) as Byte, ((x >> 16) & 0xff) as Byte, ((x >> 8) & 0xff) as Byte, (x & 0xff) as Byte)
  {
  }

  lemma WordValue(b1: Byte, b2: Byte, b3: Byte, b4: Byte)
    ensures Word(b1, b2, b3, b4) as nat == Value(b1) * 0x100_0000 + Value(b2) * 0x1_0000 + Value(b3) * 0x100 + Value(b4)
  {
    var x1: bv32 := (b1 as bv32) << 24;
    var x2 := x1 | ((b2 as bv32) << 16);
    var x3 := x2 | ((b3 as bv32) << 8);
    OrAdds1(b1);
    OrAdds2(x1, b2);
    OrAdds3(x2, b3);
    OrAdds4(x3, b4);
  }

  /** The four bytes of a 32-bit word, and its value in base 256. */
  lemma WordBytes(x: bv32) returns (b1: Byte, b2: Byte, b3: Byte, b4: Byte)
    ensures x == Word(b1, b2, b3, b4)
    ensures x as nat == Value(b1) * 0x100_0000 + Value(b2) * 0x1_0000 + Value(b3) * 0x100 + Value(b4)
  {
    b1, b2 := (x >> 24) as Byte, ((x >> 16) & 0xff) as Byte;
    b3, b4 := ((x >> 8) & 0xff) as Byte, (x & 0xff) as Byte;
    WordOfBytes(x);
    WordValue(b1, b2, b3, b4);
  }

  // Or-ing a shifted byte into clear bits adds its value at that place.

  lemma OrAdds1(b: Byte)
    ensures ((b as bv32) << 24) as nat == Value(b) * 0x100_0000
    ensures ((b as bv32) << 24) & 0x00ff_ffff == 0
  {
  }

  lemma OrAdds2(x: bv32, b: Byte)
    requires x & 0x00ff_ffff == 0
    ensures (x | ((b as bv32) << 16)) as nat == x as nat + Value(b) * 0x1_0000
    ensures (x | ((b as bv32) << 16)) & 0x0000_ffff == 0
  {
  }

  lemma OrAdds3(x: bv32, b: Byte)
    requires x & 0x0000_ffff == 0
    ensures (x | ((b as bv32) << 8)) as nat == x as nat + Value(b) * 0x100
    ensures (x | ((b as bv32) << 8)) & 0x0000_00ff == 0
  {
  }

  lemma OrAdds4(x: bv32, b: Byte)
    requires x & 0x0000_00ff == 0
    ensures (x | (b as bv32)) as nat == x as nat + Value(b)
  {
  }

  // A word divisible by a power of 256 has its low bytes clear.

  lemma ClearLow24(x: bv32)
    requires x as nat % 0x100_0000 == 0
    ensures x & 0x00ff_ffff == 0
  {
    var b1, b2, b3, b4 := WordBytes(x);
    LowDigits(Value(b1), Value(b2), Value(b3), Value(b4));
    SameValue(b2, 0);
    SameValue(b3, 0);
    SameValue(b4, 0);
  }

  lemma ClearLow16(x: bv32)
    requires x as nat % 0x1_0000 == 0
    ensures x & 0x0000_ffff == 0
  {
    var b1, b2, b3, b4 := WordBytes(x);
    LowDigits(Value(b1), Value(b2), Value(b3), Value(b4));
    SameValue(b3, 0);
    SameValue(b4, 0);
  }

  lemma ClearLow8(x: bv32)
    requires x as nat % 0x100 == 0
    ensures x & 0x0000_00ff == 0
  {
    var b1, b2, b3, b4 := WordBytes(x);
    LowDigits(Value(b1), Value(b2), Value(b3), Value(b4));
    SameValue(b4, 0);
  }

  lemma LowDigits(v1: nat, v2: nat, v3: nat, v4: nat)
    requires v1 < 256 && v2 < 256 && v3 < 256 && v4 < 256
    ensures var n := v1 * 0x100_0000 + v2 * 0x1_0000 + v3 * 0x100 + v4;
      && n % 0x100 == v4 && n % 0x1_0000 == v3 * 0x100 + v4
      && n % 0x100_0000 == v2 * 0x1_0000 + v3 * 0x100 + v4
  {
  }

  /** Every 32-bit value is the value of a word, and converting it yields that word. */
  lemma WordFor(n: nat) returns (x: bv32)
    requires n < WIDTH
    ensures x as nat == n && n as bv32 == x
  {
    var len := BigEndian(n);
    x := Word(len[0], len[1], len[2], len[3]);
    WordValue(len[0], len[1], len[2], len[3]);
    FieldOfBytes(n);
    WordBack(x);
  }

  lemma WordBack(x: bv32)
    ensures (x as nat) as bv32 == x
  {
  }

  method ToWord(n: Word32) returns (x: bv32)
    ensures x as nat == n
  {
    ghost var w := WordFor(n);
    x := n as bv32;
  }

  method FromWord(x: bv32) returns (n: Word32)
    ensures n == x as nat
  {
    n := x as nat;
  }

  // The four steps by which the length field is read: shifts and ors on a 32-bit word.

  method OrWord1(x: bv32, b: Byte) returns (y: bv32)
    requires x == 0
    ensures y as nat == x as nat + Value(b) * 0x100_0000
  {
    y := x | ((b as bv32) << 24);
  }

  method OrByte1(n: Word32, b: Byte) returns (r: Word32)
    requires n == 0
    ensures r == n + Value(b) * 0x100_0000
  {
    var x := ToWord(n);
    SameWord(x);
    var y := OrWord1(x, b);
    r := FromWord(y);
  }

  method OrWord2(x: bv32, b: Byte) returns (y: bv32)
    requires x & 0x00ff_ffff == 0
    ensures y as nat == x as nat + Value(b) * 0x1_0000
  {
    y := x | ((b as bv32) << 16);
  }

  method OrByte2(n: Word32, b: Byte) returns (r: Word32)
    requires n % 0x100_0000 == 0
    ensures r == n + Value(b) * 0x1_0000
  {
    var x := ToWord(n);
    ClearLow24(x);
    var y := OrWord2(x, b);
    r := FromWord(y);
  }

  method OrWord3(x: bv32, b: Byte) returns (y: bv32)
    requires x & 0x0000_ffff == 0
    ensures y as nat == x as nat + Value(b) * 0x100
  {
    y := x | ((b as bv32) << 8);
  }

  method OrByte3(n: Word32, b: Byte) returns (r: Word32)
    requires n % 0x1_0000 == 0
    ensures r == n + Value(b) * 0x100
  {
    var x := ToWord(n);
    ClearLow16(x);
    var y := OrWord3(x, b);
    r := FromWord(y);
  }

  method OrWord4(x: bv32, b: Byte) returns (y: bv32)
    requires x & 0x0000_00ff == 0
    ensures y as nat == x as nat + Value(b)
  {
    y := x | (b as bv32);
  }

  method OrByte4(n: Word32, b: Byte) returns (r: Word32)
    requires n % 0x100 == 0
    ensures r == n + Value(b)
  {
    var x := ToWord(n);
    ClearLow8(x);
    var y := OrWord4(x, b);
    r := FromWord(y);
  }

  lemma SameWord(x: bv32)
    requires x as nat == 0
    ensures x == 0
  {
    var b1, b2, b3, b4 := WordBytes(x);
    SameValue(b1, 0);
    SameValue(b2, 0);
    SameValue(b3, 0);
    SameValue(b4, 0);
  }

  /** One more length byte adds its value at its place, where the field is still clear. */
  lemma FieldGrows(len: seq<Byte>, b: Byte)
    ensures |len| == 0 ==> FieldValue(len) == 0 && FieldValue(len + [b]) == FieldValue(len) + Value(b) * 0x100_0000
    ensures |len| == 1 ==>
      FieldValue(len) % 0x100_0000 == 0 && FieldValue(len + [b]) == FieldValue(len) + Value(b) * 0x1_0000
    ensures |len| == 2 ==>
      FieldValue(len) % 0x1_0000 == 0 && FieldValue(len + [b]) == FieldValue(len) + Value(b) * 0x100
    ensures |len| == 3 ==> FieldValue(len) % 0x100 == 0 && FieldValue(len + [b]) == FieldValue(len) + Value(b)
  {
  }

  /** The fields of struct rmilter_session that the state machine works on. */
  datatype Core = Core(state: Phase, cmd: Byte, cmdlen: Word32, data: seq<Byte>)

  /** What those fields hold of a decoder: the value of the length bytes, and no completed command. */
  ghost function CoreOf(d: State): Core {
    Core(d.phase, d.cmd, if |d.len| <= 4 then FieldValue(d.len) else 0, d.data)
  }

  // ----- The session ---------------------------------------------------------

  class Session {
    var state: Phase
    var cmd: Byte
    var cmdlen: Word32
    var data: seq<Byte>
    // the length bytes read, and the commands completed, which the code discards
    ghost var lenBytes: seq<Byte>
    ghost var log: seq<Command>

    ghost function View(): State
      reads this
    {
      State(state, cmd, lenBytes, data, log)
    }

    /** The length field has the value of the bytes read for it. */
    ghost predicate Ok()
      reads this
    {
      |lenBytes| <= 4 && cmdlen == FieldValue(lenBytes)
    }

    /** A session fresh from g_slice_alloc0 and started by rmilter_session_start. */
    constructor ()
      ensures View() == START && Ok()
    {
      state, cmd, cmdlen, data, lenBytes, log := ReadCmd, 0, 0, [], [], [];
    }

    /** A session whose state machine goes on from where it was left. */
    constructor Resumed(core: Core, ghost d: State)
      requires |d.len| <= 4 && core == CoreOf(d)
      ensures View() == d && Ok()
    {
      state, cmd, cmdlen, data := core.state, core.cmd, core.cmdlen, core.data;
      lenBytes, log := d.len, d.log;
    }

    /** The cases of the switch for the command byte and the four length bytes. */
    method HeaderByte(b: Byte)
      requires state != ReadData && Valid(View()) && Ok()
      modifies this
      ensures View() == Step(old(View()), b) && Ok()
    {
      FieldGrows(lenBytes, b);
      match state
      case ReadCmd =>
        cmd := b;
        state := Len1;
        cmdlen := 0;
        data := [];
        lenBytes := [];
      case Len1 =>
        cmdlen := OrByte1(cmdlen, b);
        lenBytes := lenBytes + [b];
        state := Len2;
      case Len2 =>
        cmdlen := OrByte2(cmdlen, b);
        lenBytes := lenBytes + [b];
        state := Len3;
      case Len3 =>
        cmdlen := OrByte3(cmdlen, b);
        lenBytes := lenBytes + [b];
        state := Len4;
      case Len4 =>
        cmdlen := OrByte4(cmdlen, b);
        lenBytes := lenBytes + [b];
        state := ReadData;
    }

    /** The payload case of the switch: appends `piece`, then checks whether the command is complete. */
    method Payload(piece: seq<Byte>)
      requires state == ReadData && Ok() && |lenBytes| == 4
      modifies this
      ensures View() == Copied(old(View()), piece) && Ok()
    {
      if |piece| > 0 {
        data := data + piece;
      }
      assert data == old(data) + piece;
      if cmdlen == |data| {
        log := log + [Command(cmd, data)];
        data := [];
        state := ReadCmd;
      }
    }

    /** A turn of the loop below in the payload case: copies MIN(cmdlen, end - p) bytes. */
    method PayloadTurn(buf: seq<Byte>, p: nat) returns (p': nat)
      requires Usable(View()) && Ok() && state == ReadData && p < |buf|
      modifies this
      ensures p <= p' <= |buf| && Usable(View()) && Ok()
      ensures AsWritten(View(), buf[p'..]) == AsWritten(old(View()), buf[p..])
      ensures Empties(log) == Empties(old(log)) + if p' == p then 1 else 0
      ensures p' == p ==> state == ReadCmd
    {
      var toCopy := if cmdlen < |buf| - p then cmdlen else |buf| - p;
      CopyTurn(View(), buf, p, toCopy);
      Payload(buf[p..p + toCopy]);
      p' := p + toCopy;
    }

    /** One turn of the loop below, from cursor p on. */
    method StateMachineTurn(buf: seq<Byte>, p: nat) returns (p': nat)
      requires Usable(View()) && Ok() && p < |buf|
      modifies this
      ensures p <= p' <= |buf| && Usable(View()) && Ok()
      ensures AsWritten(View(), buf[p'..]) == AsWritten(old(View()), buf[p..])
      ensures Empties(log) == Empties(old(log)) + if p' == p then 1 else 0
      ensures p' == p ==> old(state) == ReadData && state == ReadCmd
    {
      if state != ReadData {
        HeaderByteTurn(View(), buf, p);
        HeaderByte(buf[p]);
        p' := p + 1;
      } else {
        p' := PayloadTurn(buf, p);
      }
    }

    /**
     * rmilter_session_state_machine.  The loop ends although completing an empty command
     * consumes nothing: its turns are at most the bytes consumed and the empty commands completed.
     */
    method StateMachine(buf: seq<Byte>) returns (ghost turns: nat)
      requires Usable(View()) && Ok()
      modifies this
      ensures View() == AsWritten(old(View()), buf) && Usable(View()) && Ok()
      ensures turns <= |buf| + Empties(log) - Empties(old(log))
      ensures turns >= Empties(log) - Empties(old(log)) + if buf == [] then 0 else 1
    {
      var p := 0;
      turns := 0;
      assert buf[0..] == buf;
      while p < |buf|
        invariant p <= |buf| && Usable(View()) && Ok()
        invariant AsWritten(View(), buf[p..]) == AsWritten(old(View()), buf)
        invariant turns <= p + Empties(log) - Empties(old(log))
        invariant turns >= Empties(log) - Empties(old(log)) + if p == 0 then 0 else 1
        decreases |buf| - p, if state == ReadData then 1 else 0
      {
        p := StateMachineTurn(buf, p);
        turns := turns + 1;
      }
      assert buf[p..] == [];
    }

    /** A turn of the loop below in the payload case: copies what is left of the payload, or of the chunk. */
    method PayloadBoundedTurn(buf: seq<Byte>, p: nat) returns (p': nat)
      requires Valid(View()) && Ok() && state == ReadData && p < |buf|
      modifies this
      ensures p <= p' <= |buf| && Valid(View()) && Ok()
      ensures Feed(View(), buf[p'..]) == Feed(old(View()), buf[p..])
      ensures Empties(log) == Empties(old(log)) + if p' == p then 1 else 0
      ensures p' == p ==> state == ReadCmd
    {
      var left := cmdlen - |data|;
      var toCopy := if left < |buf| - p then left else |buf| - p;
      BoundedCopyTurn(View(), buf, p, toCopy);
      Payload(buf[p..p + toCopy]);
      p' := p + toCopy;
    }

    /** One turn of the loop below, from cursor p on. */
    method StateMachineBoundedTurn(buf: seq<Byte>, p: nat) returns (p': nat)
      requires Valid(View()) && Ok() && p < |buf|
      modifies this
      ensures p <= p' <= |buf| && Valid(View()) && Ok()
      ensures Feed(View(), buf[p'..]) == Feed(old(View()), buf[p..])
      ensures Empties(log) == Empties(old(log)) + if p' == p then 1 else 0
      ensures p' == p ==> old(state) == ReadData && state == ReadCmd
    {
      if state != ReadData {
        HeaderByteTurn(View(), buf, p);
        HeaderByte(buf[p]);
        p' := p + 1;
      } else {
        p' := PayloadBoundedTurn(buf, p);
      }
    }

    /** The same loop with the copy bounded by what is left of the payload: the decoder itself. */
    method StateMachineBounded(buf: seq<Byte>) returns (ghost turns: nat)
      requires Valid(View()) && Ok()
      modifies this
      ensures View() == Feed(old(View()), buf) && Valid(View()) && Ok()
      ensures turns <= |buf| + Empties(log) - Empties(old(log))
      ensures turns >= Empties(log) - Empties(old(log)) + if buf == [] then 0 else 1
    {
      var p := 0;
      turns := 0;
      assert buf[0..] == buf;
      while p < |buf|
        invariant p <= |buf| && Valid(View()) && Ok()
        invariant Feed(View(), buf[p..]) == Feed(old(View()), buf)
        invariant turns <= p + Empties(log) - Empties(old(log))
        invariant turns >= Empties(log) - Empties(old(log)) + if p == 0 then 0 else 1
        decreases |buf| - p, if state == ReadData then 1 else 0
      {
        p := StateMachineBoundedTurn(buf, p);
        turns := turns + 1;
      }
      assert buf[p..] == [];
    }
  }
}
