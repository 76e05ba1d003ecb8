/**
 The gRPC length-prefixed message format and its printers.
 Length-Prefixed-Message = Compressed-Flag (1 byte) Message-Length (4 bytes, big endian) Message.
 */
module GrpcWire {
  import opened Wrappers

  const PREFIX_LENGTH := 5

  const UINT32_LIMIT := 0x1_0000_0000

  function BigEndian(b: Bytes): (n: nat)
    requires |b| == 4
    ensures n < UINT32_LIMIT
  {
    b[0] as int * 0x100_0000 + b[1] as int * 0x1_0000 + b[2] as int * 0x100 + b[3] as int
  }

  function BigEndianBytes(n: nat): (b: Bytes)
    requires n < UINT32_LIMIT
    ensures |b| == 4 && BigEndian(b) == n
  {
    var high := n / 0x100;
    var higher := high / 0x100;
    var highest := higher / 0x100;
    [highest as byte, (higher % 0x100) as byte, (high % 0x100) as byte, (n % 0x100) as byte]
  }

  type Message = m: Bytes | |m| < UINT32_LIMIT

  /** One uncompressed frame. */
  function Frame(m: Message): (f: Bytes)
    ensures |f| == PREFIX_LENGTH + |m|
    ensures f[0] == 0 && BigEndian(f[1..5]) == |m| && f[5..] == m
  {
    var f := [0] + BigEndianBytes(|m|) + m;
    assert f[1..5] == BigEndianBytes(|m|);
    f
  }

  function Frames(ms: seq<Message>): Bytes {
    if ms == [] then [] else Frame(ms[0]) + Frames(ms[1..])
  }

  function Concat(chunks: seq<Bytes>): Bytes {
    if chunks == [] then [] else chunks[0] + Concat(chunks[1..])
  }

  /** A strict prefix of one frame: too short for a prefix, or for the message the prefix announces. */
  predicate Incomplete(b: Bytes) {
    |b| < PREFIX_LENGTH || |b| < PREFIX_LENGTH + BigEndian(b[1..5])
  }

  /** Every flag byte reached when reading whole frames from the front is zero. */
  predicate ZeroFlags(b: Bytes) {
    b == [] ||
    (b[0] == 0 && (Incomplete(b) || ZeroFlags(b[PREFIX_LENGTH + BigEndian(b[1..5])..])))
  }

  lemma Associative(a: Bytes, b: Bytes, c: Bytes)
    ensures a + (b + c) == a + b + c
  {
  }

  lemma FramesCons(m: Message, ms: seq<Message>)
    ensures Frames([m] + ms) == Frame(m) + Frames(ms)
  {
    hide Frame;
    assert ([m] + ms)[1..] == ms;
  }

  lemma {:induction false} FramesAppend(a: seq<Message>, b: seq<Message>)
    ensures Frames(a + b) == Frames(a) + Frames(b)
  {
    if a == [] {
      assert a + b == b;
    } else {
      hide Frame, Frames;
      var m, rest := a[0], a[1..];
      FramesAppend(rest, b);
      FramesCons(m, rest);
      FramesCons(m, rest + b);
      assert a == [m] + rest && a + b == [m] + (rest + b);
      Associative(Frame(m), Frames(rest), Frames(b));
    }
  }

  lemma {:induction false} ConcatAppend(a: seq<Bytes>, c: Bytes)
    ensures Concat(a + [c]) == Concat(a) + c
  {
    if a == [] {
      assert a + [c] == [c];
      assert Concat([c][1..]) == [];
    } else {
      ConcatAppend(a[1..], c);
      assert (a + [c])[1..] == a[1..] + [c];
    }
  }

  /** Frames can be read back: the frames and the incomplete rest are fixed by the bytes alone. */
  lemma {:induction false} UniqueDecomposition(ms: seq<Message>, r: Bytes, ms': seq<Message>, r': Bytes)
    requires Frames(ms) + r == Frames(ms') + r'
    requires Incomplete(r) && Incomplete(r')
    ensures ms == ms' && r == r'
  {
    if ms == [] && ms' == [] {
      assert [] + r == r && [] + r' == r';
    } else if ms == [] {
      CompleteFrame(ms', r');
    } else if ms' == [] {
      CompleteFrame(ms, r);
    } else {
      var b := Frames(ms) + r;
      CompleteFrame(ms, r);
      CompleteFrame(ms', r');
      UniqueDecomposition(ms[1..], r, ms'[1..], r');
      assert ms == [ms[0]] + ms[1..] && ms' == [ms'[0]] + ms'[1..];
    }
  }

  lemma CompleteFrame(ms: seq<Message>, r: Bytes)
    requires ms != []
    ensures var b := Frames(ms) + r;
            && !Incomplete(b)
            && b[0] == 0
            && BigEndian(b[1..5]) == |ms[0]|
            && b[PREFIX_LENGTH..PREFIX_LENGTH + |ms[0]|] == ms[0]
            && b[PREFIX_LENGTH + |ms[0]|..] == Frames(ms[1..]) + r
  {
    var tail := Frames(ms[1..]) + r;
    FrameFirst(ms[0], tail);
    hide Frame, Frames, BigEndian, Incomplete;
    FramesCons(ms[0], ms[1..]);
    assert ms == [ms[0]] + ms[1..];
    Associative(Frame(ms[0]), Frames(ms[1..]), r);
  }

  lemma FrameFirst(m: Message, tail: Bytes)
    ensures var b := Frame(m) + tail;
            && !Incomplete(b)
            && b[0] == 0
            && BigEndian(b[1..5]) == |m|
            && b[PREFIX_LENGTH..PREFIX_LENGTH + |m|] == m
            && b[PREFIX_LENGTH + |m|..] == tail
  {
    var f := Frame(m);
    hide Frame;
    var b := f + tail;
    assert b[1..5] == f[1..5];
    assert b[PREFIX_LENGTH..PREFIX_LENGTH + |m|] == f[5..];
  }

  /** Zero flags are what a printer produces, followed by the start of one more frame. */
  lemma {:induction false} FramesHaveZeroFlags(ms: seq<Message>, r: Bytes)
    requires Incomplete(r) && (r == [] || r[0] == 0)
    ensures ZeroFlags(Frames(ms) + r)
  {
    if ms == [] {
      assert Frames(ms) + r == r;
    } else {
      CompleteFrame(ms, r);
      FramesHaveZeroFlags(ms[1..], r);
    }
  }

  lemma {:induction false} ZeroFlagsPrefix(a: Bytes, b: Bytes)
    requires ZeroFlags(a + b)
    ensures ZeroFlags(a)
    decreases |a|
  {
    if a != [] {
      assert (a + b)[0] == a[0];
      if !Incomplete(a) {
        assert (a + b)[1..5] == a[1..5];
        var n := PREFIX_LENGTH + BigEndian(a[1..5]);
        assert (a + b)[n..] == a[n..] + b;
        ZeroFlagsPrefix(a[n..], b);
      }
    }
  }

  /** Bytes of a host word: the least significant byte comes first when littleEndian. */
  function HostBytes(n: nat, littleEndian: bool): (b: Bytes)
    requires n < UINT32_LIMIT
    ensures |b| == 4
  {
    var b := BigEndianBytes(n);
    if littleEndian then [b[3], b[2], b[1], b[0]] else b
  }

  function HostWord(b: Bytes, littleEndian: bool): (n: nat)
    requires |b| == 4
    ensures n < UINT32_LIMIT
  {
    if littleEndian then BigEndian([b[3], b[2], b[1], b[0]]) else BigEndian(b)
  }

  /** Swift's bigEndian property and CFSwapInt32BigToHost: swap on a little-endian host only. */
  function SwapOnLittleEndian(n: nat, littleEndian: bool): (r: nat)
    requires n < UINT32_LIMIT
    ensures r < UINT32_LIMIT
  {
    if littleEndian then HostWord(BigEndianBytes(n), true) else n
  }

  /** Both conversions meet the wire format on hosts of either byte order. */
  lemma SwapMeetsWireFormat(n: nat, b: Bytes, littleEndian: bool)
    requires n < UINT32_LIMIT && |b| == 4
    ensures HostBytes(SwapOnLittleEndian(n, littleEndian), littleEndian) == BigEndianBytes(n)
    ensures SwapOnLittleEndian(HostWord(b, littleEndian), littleEndian) == BigEndian(b)
  {
    BigEndianInjective(b);
    BigEndianInjective([b[3], b[2], b[1], b[0]]);
    var w := BigEndianBytes(n);
    BigEndianInjective([w[3], w[2], w[1], w[0]]);
  }

  lemma BigEndianInjective(b: Bytes)
    requires |b| == 4
    ensures BigEndianBytes(BigEndian(b)) == b
  {
    var n := BigEndian(b);
    var b0, b1, b2, b3 := b[0] as int, b[1] as int, b[2] as int, b[3] as int;
    DigitsOf(b0, b1, b2, b3);
  }

  lemma DigitsOf(b0: int, b1: int, b2: int, b3: int)
    requires 0 <= b0 < 256 && 0 <= b1 < 256 && 0 <= b2 < 256 && 0 <= b3 < 256
    ensures var n := b0 * 0x100_0000 + b1 * 0x1_0000 + b2 * 0x100 + b3;
            && n / 0x100 / 0x100 / 0x100 == b0 && n / 0x100 / 0x100 % 0x100 == b1
            && n / 0x100 % 0x100 == b2 && n % 0x100 == b3
  {
    var n := b0 * 0x100_0000 + b1 * 0x1_0000 + b2 * 0x100 + b3;
    assert n / 0x100 == b0 * 0x1_0000 + b1 * 0x100 + b2;
    assert n / 0x100 / 0x100 == b0 * 0x100 + b1;
  }

  // ---------- The byte order of the wire ----------

  /** Order of byte strings of the same length, first byte first. */
  predicate LexAtMost(a: Bytes, b: Bytes)
    requires |a| == |b|
  {
    a == [] || a[0] < b[0] || (a[0] == b[0] && LexAtMost(a[1..], b[1..]))
  }

  /** The four length bytes of a frame are ordered as the lengths are, and a short length is the last of them. */
  lemma LengthBytesAreOrdered(m: Message, m': Message)
    ensures |m| <= |m'| <==> LexAtMost(Frame(m)[1..5], Frame(m')[1..5])
    ensures |m| < 256 ==> Frame(m)[..5] == [0, 0, 0, 0, |m| as byte]
  {
    var a, b := Frame(m)[1..5], Frame(m')[1..5];
    LexOfFour(a, b);
    OrderOfFour(a, b);
    if |m| < 256 {
      SmallNumber(a);
      assert Frame(m)[..5] == [Frame(m)[0]] + a;
    }
  }

  lemma LexOfFour(a: Bytes, b: Bytes)
    requires |a| == |b| == 4
    ensures LexAtMost(a, b) <==>
            a[0] < b[0] || (a[0] == b[0] && (a[1] < b[1] || (a[1] == b[1] &&
            (a[2] < b[2] || (a[2] == b[2] && a[3] <= b[3])))))
  {
    assert LexAtMost(a, b) <==> a[0] < b[0] || (a[0] == b[0] && LexAtMost(a[1..], b[1..]));
    assert LexAtMost(a[1..], b[1..]) <==> a[1] < b[1] || (a[1] == b[1] && LexAtMost(a[1..][1..], b[1..][1..]));
    assert a[1..][1..] == [a[2], a[3]] && b[1..][1..] == [b[2], b[3]];
    assert [a[2], a[3]][1..] == [a[3]] && [b[2], b[3]][1..] == [b[3]] && [a[3]][1..] == [] && [b[3]][1..] == [];
    assert LexAtMost([a[3]], [b[3]]) <==> a[3] <= b[3];
    assert LexAtMost([a[2], a[3]], [b[2], b[3]]) <==> a[2] < b[2] || (a[2] == b[2] && a[3] <= b[3]);
  }

  lemma OrderOfFour(a: Bytes, b: Bytes)
    requires |a| == |b| == 4
    ensures BigEndian(a) <= BigEndian(b) <==>
            a[0] < b[0] || (a[0] == b[0] && (a[1] < b[1] || (a[1] == b[1] &&
            (a[2] < b[2] || (a[2] == b[2] && a[3] <= b[3])))))
  {
  }

  lemma SmallNumber(a: Bytes)
    requires |a| == 4 && BigEndian(a) < 256
    ensures a == [0, 0, 0, BigEndian(a) as byte]
  {
  }

  /** A little-endian host keeps the lowest byte of a word first, a big-endian one last. */
  lemma HostOrder(n: nat)
    requires n < UINT32_LIMIT
    ensures HostBytes(n, true)[0] as int == n % 256 && HostBytes(n, false)[3] as int == n % 256
    ensures HostBytes(n, true)[3] as int == n / 0x100_0000 && HostBytes(n, false)[0] as int == n / 0x100_0000
  {
    assert n / 0x100 / 0x100 / 0x100 == n / 0x100_0000;
  }

  /** The sending half of a gRPC stream; sent is what the underlying stream was given, in order. */
  class GrpcStream {
    var sent: seq<Bytes>

    constructor ()
      ensures sent == []
    {
      sent := [];
    }

    /** The Swift printer. Converting the count to UInt32 traps on longer messages. */
    method SendMessageSwift(messageData: Bytes, littleEndian: bool)
      requires |messageData| < UINT32_LIMIT
      modifies this
      ensures |sent| == |old(sent)| + 2 && sent[..|old(sent)|] == old(sent) && sent[|old(sent)| + 1] == messageData
      ensures Concat(sent) == Concat(old(sent)) + Frame(messageData)
    {
      var prefixData := [];
      prefixData := prefixData + [0];
      var length := SwapOnLittleEndian(|messageData|, littleEndian);
      prefixData := prefixData + HostBytes(length, littleEndian);
      SwapMeetsWireFormat(|messageData|, HostBytes(length, littleEndian), littleEndian);
      ConcatAppend(sent, prefixData);
      sent := sent + [prefixData];
      ConcatAppend(sent, messageData);
      sent := sent + [messageData];
      assert prefixData + messageData == Frame(messageData);
    }

    /** The Kotlin printer. remaining() is a non-negative Int. */
    method SendMessageKotlin(messageData: Bytes)
      requires |messageData| < 0x8000_0000
      modifies this
      ensures |sent| == |old(sent)| + 2 && sent[..|old(sent)|] == old(sent) && sent[|old(sent)| + 1] == messageData
      ensures Concat(sent) == Concat(old(sent)) + Frame(messageData)
    {
      var byteBuffer := new byte[PREFIX_LENGTH];
      byteBuffer[0] := 0;
      var messageLength := BigEndianBytes(|messageData|);
      byteBuffer[1], byteBuffer[2], byteBuffer[3], byteBuffer[4] :=
        messageLength[0], messageLength[1], messageLength[2], messageLength[3];
      assert byteBuffer[..] == [0] + messageLength;
      ConcatAppend(sent, byteBuffer[..]);
      sent := sent + [byteBuffer[..]];
      ConcatAppend(sent, messageData);
      sent := sent + [messageData];
      assert byteBuffer[..] + messageData == Frame(messageData);
    }
  }
}
