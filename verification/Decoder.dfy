/**
 * The milter command decoder: a command byte, a four-byte big-endian length, the payload.
 *
 * `Step` is the decoder fed one byte at a time, and `Feed` its iteration.  This module
 * gives their meaning; the loop of the session's state machine is proved against them in
 * module SessionMachine.
 */
module Decoder {
  type Byte = bv8

  /** One more than the largest value of the 32-bit length field. */
  const WIDTH := 0x1_0000_0000

  type Payload = s: seq<Byte> | |s| < WIDTH
  datatype Command = Command(cmd: Byte, data: Payload)

  datatype Phase = ReadCmd | Len1 | Len2 | Len3 | Len4 | ReadData | SendReply

  /**
   * The decoder's part of a session, with the log of the commands it has completed.  `len` holds
   * the length bytes read so far; the session's `cmdlen` is their `FieldValue`.
   */
  datatype State = State(phase: Phase, cmd: Byte, len: seq<Byte>, data: seq<Byte>, log: seq<Command>)

  /** A zeroed session, as rmilter_session_start leaves it. */
  const START := State(ReadCmd, 0, [], [], [])

  function Value(b: Byte): (n: nat)
    ensures n < 256
  {
    b as nat
  }

  /** The length field with the bytes read so far in their places, most significant first. */
  function FieldValue(len: seq<Byte>): (n: nat)
    requires |len| <= 4
    ensures n < WIDTH
  {
    (if |len| > 0 then Value(len[0]) * 0x100_0000 else 0) +
    (if |len| > 1 then Value(len[1]) * 0x1_0000 else 0) +
    (if |len| > 2 then Value(len[2]) * 0x100 else 0) +
    (if |len| > 3 then Value(len[3]) else 0)
  }

  /** The payload length of the command in progress. */
  function Total(d: State): nat
    requires |d.len| <= 4
  {
    FieldValue(d.len)
  }

  /** What holds between any two bytes: a command is completed as soon as its payload is full. */
  ghost predicate Valid(d: State) {
    && |d.len| <= 4
    && (d.phase != ReadData ==> d.data == [])
    && match d.phase
       case ReadCmd => true
       case Len1 => |d.len| == 0
       case Len2 => |d.len| == 1
       case Len3 => |d.len| == 2
       case Len4 => |d.len| == 3
       case ReadData => |d.len| == 4 && (|d.data| < Total(d) || Pending(d))
       case SendReply => false
  }

  /** An empty command has been read in full but not been completed: that takes one more byte. */
  predicate Pending(d: State) {
    d.phase == ReadData && |d.len| == 4 && Total(d) == 0 && d.data == []
  }

  function Complete(d: State): State
    requires |d.data| < WIDTH
  {
    d.(phase := ReadCmd, data := [], log := d.log + [Command(d.cmd, d.data)])
  }

  /** The payload is as long as announced. */
  predicate Full(d: State) {
    |d.len| == 4 && |d.data| == Total(d)
  }

  function Step(d: State, b: Byte): State {
    match d.phase
    case ReadCmd => d.(phase := Len1, cmd := b, len := [], data := [])
    case Len1 => d.(phase := Len2, len := d.len + [b])
    case Len2 => d.(phase := Len3, len := d.len + [b])
    case Len3 => d.(phase := Len4, len := d.len + [b])
    case Len4 => d.(phase := ReadData, len := d.len + [b])
    case ReadData =>
      if Pending(d) then
        Complete(d).(phase := Len1, cmd := b, len := [], data := [])
      else
        var more := d.(data := d.data + [b]);
        if Full(more) then Complete(more) else more
    case SendReply => d
  }

  function Feed(d: State, bytes: seq<Byte>): State
    decreases |bytes|
  {
    if bytes == [] then d else Feed(Step(d, bytes[0]), bytes[1..])
  }

  // ----- Chunking ------------------------------------------------------------

  /** Feeding in two pieces is feeding the whole, wherever the cut falls. */
  lemma {:induction false} FeedConcat(d: State, a: seq<Byte>, b: seq<Byte>)
    ensures Feed(d, a + b) == Feed(Feed(d, a), b)
    decreases |a|
  {
    if a == [] {
      assert a + b == b;
    } else {
      FeedConcat(Step(d, a[0]), a[1..], b);
      assert (a + b)[1..] == a[1..] + b;
    }
  }

  lemma StepValid(d: State, b: Byte)
    requires Valid(d)
    ensures Valid(Step(d, b))
  {
    if d.phase == ReadData {
      DataValid(d, b);
    } else {
      HeaderGrows(d, b);
    }
  }

  lemma DataValid(d: State, b: Byte)
    requires Valid(d) && d.phase == ReadData
    ensures Valid(Step(d, b))
  {
  }

  /** No stream of bytes takes the decoder out of its valid states; in particular not to SendReply. */
  lemma {:induction false} FeedValid(d: State, bytes: seq<Byte>)
    requires Valid(d)
    ensures Valid(Feed(d, bytes))
    decreases |bytes|
  {
    if bytes != [] {
      StepValid(d, bytes[0]);
      FeedValid(Step(d, bytes[0]), bytes[1..]);
    }
  }

  function Concat(chunks: seq<seq<Byte>>): seq<Byte> {
    if chunks == [] then [] else chunks[0] + Concat(chunks[1..])
  }

  /** One call of the state machine per chunk. */
  function FeedAll(d: State, chunks: seq<seq<Byte>>): State
    decreases |chunks|
  {
    if chunks == [] then d else FeedAll(Feed(d, chunks[0]), chunks[1..])
  }

  /** Any chunking of a stream leaves the decoder as the stream in one piece does. */
  lemma {:induction false} FeedAllConcat(d: State, chunks: seq<seq<Byte>>)
    ensures FeedAll(d, chunks) == Feed(d, Concat(chunks))
    decreases |chunks|
  {
    if chunks != [] {
      FeedAllConcat(Feed(d, chunks[0]), chunks[1..]);
      FeedConcat(d, chunks[0], Concat(chunks[1..]));
    }
  }

  // ----- The encoder ---------------------------------------------------------

  /** The byte of a given value. */
  ghost function ByteFor(n: nat): (b: Byte)
    requires n < 256
    ensures Value(b) == n
  {
    ByteExists(n);
    var b: Byte :| Value(b) == n;
    b
  }

  lemma {:induction false} ByteExists(n: nat)
    requires n < 256
    ensures exists b: Byte :: Value(b) == n
  {
    if n == 0 {
      assert Value(0) == 0;
    } else {
      ByteExists(n - 1);
      var b: Byte :| Value(b) == n - 1;
      NextByte(b);
      assert Value(b + 1) == n;
    }
  }

  lemma NextByte(b: Byte)
    requires Value(b) < 255
    ensures Value(b + 1) == Value(b) + 1
  {
  }

  lemma ByteForValue(b: Byte)
    ensures ByteFor(Value(b)) == b
  {
    SameValue(ByteFor(Value(b)), b);
  }

  lemma SameValue(b: Byte, c: Byte)
    requires b as nat == c as nat
    ensures b == c
  {
  }

  /** The four bytes of a length, most significant first. */
  ghost function BigEndian(n: nat): seq<Byte>
    requires n < WIDTH
  {
    [ByteFor(n / 0x100_0000), ByteFor(n / 0x1_0000 % 0x100), ByteFor(n / 0x100 % 0x100), ByteFor(n % 0x100)]
  }

  /** Reading the length field undoes writing it. */
  lemma FieldOfBytes(n: nat)
    requires n < WIDTH
    ensures FieldValue(BigEndian(n)) == n
  {
    Quotient(n, 0x100);
    Quotient(n / 0x100, 0x100);
    Quotient(n / 0x1_0000, 0x100);
    assert n / 0x100 / 0x100 == n / 0x1_0000 && n / 0x1_0000 / 0x100 == n / 0x100_0000;
  }

  lemma Quotient(n: nat, k: nat)
    requires k > 0
    ensures n == n / k * k + n % k
  {
  }

  /** Writing the length field undoes reading it. */
  lemma BytesOfField(len: seq<Byte>)
    requires |len| == 4
    ensures BigEndian(FieldValue(len)) == len
  {
    var v1, v2, v3, v4 := Value(len[0]), Value(len[1]), Value(len[2]), Value(len[3]);
    FourBytes(v1, v2, v3, v4);
    FourAgain(v1, v2, v3, v4, len);
  }

  lemma FourAgain(v1: nat, v2: nat, v3: nat, v4: nat, len: seq<Byte>)
    requires |len| == 4 && v1 == Value(len[0]) && v2 == Value(len[1]) && v3 == Value(len[2]) && v4 == Value(len[3])
    ensures [ByteFor(v1), ByteFor(v2), ByteFor(v3), ByteFor(v4)] == len
  {
    ByteForValue(len[0]);
    ByteForValue(len[1]);
    ByteForValue(len[2]);
    ByteForValue(len[3]);
  }

  lemma FourBytes(v1: nat, v2: nat, v3: nat, v4: nat)
    requires v1 < 256 && v2 < 256 && v3 < 256 && v4 < 256
    ensures var n := v1 * 0x100_0000 + v2 * 0x1_0000 + v3 * 0x100 + v4;
      n < WIDTH && BigEndian(n) == [ByteFor(v1), ByteFor(v2), ByteFor(v3), ByteFor(v4)]
  {
    Digits(v1, v2, v3, v4);
  }

  lemma Digits(v1: nat, v2: nat, v3: nat, v4: nat)
    requires v1 < 256 && v2 < 256 && v3 < 256 && v4 < 256
    ensures var n := v1 * 0x100_0000 + v2 * 0x1_0000 + v3 * 0x100 + v4;
      n / 0x100_0000 == v1 && n / 0x1_0000 % 0x100 == v2 && n / 0x100 % 0x100 == v3 && n % 0x100 == v4
  {
    var n := v1 * 0x100_0000 + v2 * 0x1_0000 + v3 * 0x100 + v4;
    assert n / 0x100 == v1 * 0x1_0000 + v2 * 0x100 + v3;
    assert n / 0x1_0000 == v1 * 0x100 + v2;
  }

  ghost function EncodeOne(c: Command): seq<Byte> {
    [c.cmd] + BigEndian(|c.data|) + c.data
  }

  ghost function Encode(cmds: seq<Command>): seq<Byte> {
    if cmds == [] then [] else Encode(cmds[..|cmds| - 1]) + EncodeOne(cmds[|cmds| - 1])
  }

  /** The bytes of the command in progress, as they came in. */
  ghost function Partial(d: State): seq<Byte> {
    if d.phase == ReadCmd then [] else [d.cmd] + d.len + d.data
  }

  // ----- Byte conservation ---------------------------------------------------

  lemma EncodeSnoc(log: seq<Command>, c: Command)
    ensures Encode(log + [c]) == Encode(log) + EncodeOne(c)
  {
    assert (log + [c])[..|log|] == log;
  }

  /** What a completed command encodes to is what was held of it. */
  lemma CompleteEncodes(d: State)
    requires d.phase == ReadData && Full(d)
    ensures Encode(Complete(d).log) == Encode(d.log) + Partial(d)
  {
    BytesOfField(d.len);
    EncodeSnoc(d.log, Command(d.cmd, d.data));
  }

  lemma PayloadGrows(d: State, b: Byte)
    requires d.phase == ReadData
    ensures Partial(d.(data := d.data + [b])) == Partial(d) + [b]
  {
    var header := [d.cmd] + d.len;
    assert header + (d.data + [b]) == header + d.data + [b];
  }

  /** A header byte leaves the log alone and adds itself to the partial command. */
  lemma HeaderGrows(d: State, b: Byte)
    requires Valid(d) && d.phase != ReadData
    ensures Step(d, b).log == d.log && Partial(Step(d, b)) == Partial(d) + [b]
  {
    var e := Step(d, b);
    if d.phase == ReadCmd {
      assert Partial(e) == [b];
    } else {
      assert e.len == d.len + [b] && e.data == d.data == [];
      assert [d.cmd] + (d.len + [b]) + [] == [d.cmd] + d.len + [] + [b];
    }
  }

  lemma Reassociate<T>(a: seq<T>, p: seq<T>, b: T)
    ensures a + (p + [b]) == a + p + [b]
  {
  }

  lemma DataConserves(d: State, b: Byte)
    requires Valid(d) && d.phase == ReadData
    ensures Valid(Step(d, b))
    ensures Encode(Step(d, b).log) + Partial(Step(d, b)) == Encode(d.log) + Partial(d) + [b]
  {
    StepValid(d, b);
    Reassociate(Encode(d.log), Partial(d), b);
    if Pending(d) {
      CompleteEncodes(d);
    } else {
      PayloadGrows(d, b);
      var full := d.(data := d.data + [b]);
      if Full(full) {
        CompleteEncodes(full);
        assert Partial(Step(d, b)) == [];
      }
    }
  }

  /** One byte in, one byte more held: in the completed commands and the partial one together. */
  lemma StepConserves(d: State, b: Byte)
    requires Valid(d)
    ensures Valid(Step(d, b))
    ensures Encode(Step(d, b).log) + Partial(Step(d, b)) == Encode(d.log) + Partial(d) + [b]
  {
    if d.phase == ReadData {
      DataConserves(d, b);
    } else {
      HeaderGrows(d, b);
      Reassociate(Encode(d.log), Partial(d), b);
    }
  }

  lemma PeelByte<T>(held: seq<T>, bytes: seq<T>)
    requires bytes != []
    ensures held + [bytes[0]] + bytes[1..] == held + bytes
  {
  }

  /** No byte is lost, repeated or reordered, whatever the stream. */
  lemma {:induction false} FeedConserves(d: State, bytes: seq<Byte>)
    requires Valid(d)
    ensures Valid(Feed(d, bytes))
    ensures Encode(Feed(d, bytes).log) + Partial(Feed(d, bytes)) == Encode(d.log) + Partial(d) + bytes
    decreases |bytes|
  {
    if bytes != [] {
      StepConserves(d, bytes[0]);
      FeedConserves(Step(d, bytes[0]), bytes[1..]);
      PeelByte(Encode(d.log) + Partial(d), bytes);
    }
  }

  // ----- Round trip ----------------------------------------------------------

  /** The commands read in full, among them one that is empty and awaits the next byte. */
  function Received(d: State): seq<Command> {
    if Pending(d) then d.log + [Command(d.cmd, [])] else d.log
  }

  /** Between two commands. */
  predicate Between(d: State) {
    (d.phase == ReadCmd && d.data == []) || Pending(d)
  }

  lemma FeedCons(d: State, b: Byte, rest: seq<Byte>)
    ensures Feed(d, [b] + rest) == Feed(Step(d, b), rest)
  {
    assert ([b] + rest)[1..] == rest;
  }

  lemma FeedTwo(d: State, b: Byte, c: Byte, rest: seq<Byte>)
    ensures Feed(d, [b, c] + rest) == Feed(Step(Step(d, b), c), rest)
  {
    FeedCons(d, b, [c] + rest);
    FeedCons(Step(d, b), c, rest);
    assert [b, c] + rest == [b] + ([c] + rest);
  }

  lemma HeaderState(d: State, cmd: Byte, b1: Byte, b2: Byte, b3: Byte, b4: Byte)
    requires Between(d)
    ensures Step(Step(Step(Step(Step(d, cmd), b1), b2), b3), b4)
         == State(ReadData, cmd, [b1, b2, b3, b4], [], Received(d))
  {
    var log := Received(d);
    assert Step(d, cmd) == State(Len1, cmd, [], [], log);
    assert Step(State(Len1, cmd, [], [], log), b1) == State(Len2, cmd, [b1], [], log);
    assert Step(State(Len2, cmd, [b1], [], log), b2) == State(Len3, cmd, [b1, b2], [], log);
    assert Step(State(Len3, cmd, [b1, b2], [], log), b3) == State(Len4, cmd, [b1, b2, b3], [], log);
  }

  /** The five header bytes announce the command and its length. */
  lemma FeedHeader(d: State, cmd: Byte, n: nat, rest: seq<Byte>)
    requires Between(d) && n < WIDTH
    ensures Feed(d, [cmd] + BigEndian(n) + rest) == Feed(State(ReadData, cmd, BigEndian(n), [], Received(d)), rest)
  {
    var len := BigEndian(n);
    var b1, b2, b3, b4 := len[0], len[1], len[2], len[3];
    HeaderSplit(cmd, len, rest);
    FeedTwo(d, cmd, b1, [b2, b3] + ([b4] + rest));
    FeedTwo(Step(Step(d, cmd), b1), b2, b3, [b4] + rest);
    FeedCons(Step(Step(Step(Step(d, cmd), b1), b2), b3), b4, rest);
    HeaderState(d, cmd, b1, b2, b3, b4);
    assert len == [b1, b2, b3, b4];
  }

  lemma HeaderSplit(cmd: Byte, len: seq<Byte>, rest: seq<Byte>)
    requires |len| == 4
    ensures [cmd] + len + rest == [cmd, len[0]] + ([len[1], len[2]] + ([len[3]] + rest))
  {
  }

  /** The payload bytes fill the command up, and the last one completes it. */
  lemma {:induction false} FeedPayload(d: State, payload: seq<Byte>)
    requires d.phase == ReadData && |d.len| == 4 && payload != [] && |d.data| + |payload| == Total(d)
    ensures Feed(d, payload) == Complete(d.(data := d.data + payload))
    decreases |payload|
  {
    var d' := d.(data := d.data + [payload[0]]);
    assert d.data + payload == d.data + [payload[0]] + payload[1..];
    if |payload| == 1 {
      assert payload[1..] == [];
      assert d.data + [payload[0]] + [] == d.data + [payload[0]];
    } else {
      FeedPayload(d', payload[1..]);
    }
  }

  /** What a payload leaves behind: the command in the log, or pending when it is empty. */
  lemma FeedBody(h: State, payload: Payload)
    requires h.phase == ReadData && |h.len| == 4 && h.data == [] && Total(h) == |payload|
    ensures payload == [] ==> Feed(h, payload) == h
    ensures payload != [] ==> Feed(h, payload) == Complete(h.(data := payload))
  {
    assert h.data + payload == payload;
    if payload != [] {
      FeedPayload(h, payload);
    }
  }

  lemma FeedOne(d: State, c: Command)
    requires Between(d)
    ensures var e := Feed(d, EncodeOne(c));
      Between(e) && Received(e) == Received(d) + [c] && (Pending(e) <==> c.data == [])
  {
    FeedHeader(d, c.cmd, |c.data|, c.data);
    FieldOfBytes(|c.data|);
    FeedBody(State(ReadData, c.cmd, BigEndian(|c.data|), [], Received(d)), c.data);
  }

  /**
   * Decoding undoes encoding: exactly the encoded commands are received, and only a last one
   * that is empty is still pending.
   */
  lemma {:induction false} RoundTrip(d: State, cmds: seq<Command>)
    requires Between(d)
    ensures var e := Feed(d, Encode(cmds));
      && Between(e)
      && Received(e) == Received(d) + cmds
      && (Pending(e) <==> if cmds == [] then Pending(d) else cmds[|cmds| - 1].data == [])
  {
    if cmds != [] {
      var init, last := cmds[..|cmds| - 1], cmds[|cmds| - 1];
      RoundTrip(d, init);
      FeedConcat(d, Encode(init), EncodeOne(last));
      FeedOne(Feed(d, Encode(init)), last);
      assert cmds == init + [last];
    }
  }

  /** However the encoding is cut into chunks, the log is the list encoded, less a last empty command. */
  lemma RoundTripChunked(cmds: seq<Command>, chunks: seq<seq<Byte>>)
    requires Concat(chunks) == Encode(cmds)
    ensures var e := FeedAll(START, chunks);
      var pending := cmds != [] && cmds[|cmds| - 1].data == [];
      && e.log == (if pending then cmds[..|cmds| - 1] else cmds)
      && (if pending then Pending(e) && e.cmd == cmds[|cmds| - 1].cmd else e.phase == ReadCmd)
  {
    FeedAllConcat(START, chunks);
    RoundTrip(START, cmds);
    assert [] + cmds == cmds;
    var e := FeedAll(START, chunks);
    if Pending(e) {
      assert Received(e)[..|cmds| - 1] == e.log;
      assert Received(e)[|cmds| - 1] == Command(e.cmd, []);
    }
  }

  /** Different lists of commands have different encodings. */
  lemma EncodeInjective(a: seq<Command>, b: seq<Command>)
    requires Encode(a) == Encode(b)
    ensures a == b
  {
    RoundTrip(START, a);
    RoundTrip(START, b);
    assert [] + a == a && [] + b == b;
  }
}
