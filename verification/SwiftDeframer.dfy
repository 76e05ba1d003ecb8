/**
 The Swift gRPC response deframer: an incremental parser that keeps a buffer and a phase
 between the chunks it is fed.
 */
module SwiftDeframer {
  import opened Wrappers
  import opened GrpcWire

  datatype State =
    | ExpectingCompressionFlag
    | ExpectingMessageLength
    | ExpectingMessage(messageLength: UInt32)

  /** The closure's captured variables, and the messages handed to onMessage so far. */
  datatype Progress = Progress(buffer: Bytes, state: State, messages: seq<Message>)

  const INITIAL := Progress([], ExpectingCompressionFlag, [])

  function Rank(state: State): nat {
    match state
    case ExpectingCompressionFlag => 2
    case ExpectingMessageLength => 1
    case ExpectingMessage(_) => 0
  }

  /** What one call of processBuffer does. */
  function ProcessBuffer(buffer: Bytes, state: State): Progress
    decreases |buffer|, Rank(state)
  {
    match state
    case ExpectingCompressionFlag =>
      if |buffer| < 1 then Progress(buffer, state, [])
      else if buffer[0] != 0 then Progress([], ExpectingCompressionFlag, [])
      else ProcessBuffer(buffer, ExpectingMessageLength)
    case ExpectingMessageLength =>
      if |buffer| < PREFIX_LENGTH then Progress(buffer, state, [])
      else ProcessBuffer(buffer, ExpectingMessage(BigEndian(buffer[1..5])))
    case ExpectingMessage(n) =>
      if |buffer| < PREFIX_LENGTH + n then Progress(buffer, state, [])
      else
        var rest := ProcessBuffer(buffer[PREFIX_LENGTH + n..], ExpectingCompressionFlag);
        rest.(messages := [buffer[PREFIX_LENGTH..PREFIX_LENGTH + n]] + rest.messages)
  }

  function Feed(p: Progress, chunk: Bytes): Progress {
    var q := ProcessBuffer(p.buffer + chunk, p.state);
    q.(messages := p.messages + q.messages)
  }

  function FeedAll(chunks: seq<Bytes>): Progress {
    if chunks == [] then INITIAL
    else Feed(FeedAll(chunks[..|chunks| - 1]), chunks[|chunks| - 1])
  }

  /** The phase agrees with the bytes at the front of the buffer. */
  predicate InSync(buffer: Bytes, state: State) {
    match state
    case ExpectingCompressionFlag => true
    case ExpectingMessageLength => |buffer| >= 1 && buffer[0] == 0
    case ExpectingMessage(n) => |buffer| >= PREFIX_LENGTH && buffer[0] == 0 && n == BigEndian(buffer[1..5])
  }

  /** The phase in which the parser waits for more bytes, as a function of the bytes it holds. */
  function WaitingState(buffer: Bytes): State {
    if buffer == [] then ExpectingCompressionFlag
    else if |buffer| < PREFIX_LENGTH then ExpectingMessageLength
    else ExpectingMessage(BigEndian(buffer[1..5]))
  }

  /** One call splits a zero-flag buffer into whole frames and one incomplete frame, and stops only there. */
  lemma {:induction false} ProcessDecomposes(buffer: Bytes, state: State)
    requires InSync(buffer, state) && ZeroFlags(buffer)
    ensures var p := ProcessBuffer(buffer, state);
            && buffer == Frames(p.messages) + p.buffer
            && Incomplete(p.buffer) && (p.buffer == [] || p.buffer[0] == 0)
            && p.state == WaitingState(p.buffer)
    decreases |buffer|, Rank(state)
  {
    match state
    case ExpectingCompressionFlag =>
      if |buffer| >= 1 {
        ProcessDecomposes(buffer, ExpectingMessageLength);
      }
    case ExpectingMessageLength =>
      if |buffer| >= PREFIX_LENGTH {
        ProcessDecomposes(buffer, ExpectingMessage(BigEndian(buffer[1..5])));
      }
    case ExpectingMessage(n) =>
      if |buffer| >= PREFIX_LENGTH + n {
        var m: Message, tail := buffer[PREFIX_LENGTH..PREFIX_LENGTH + n], buffer[PREFIX_LENGTH + n..];
        ProcessDecomposes(tail, ExpectingCompressionFlag);
        var rest := ProcessBuffer(tail, ExpectingCompressionFlag);
        FrontFrame(buffer);
        hide BigEndian, Frame, ZeroFlags;
        assert ([m] + rest.messages)[1..] == rest.messages;
        Associative(Frame(m), Frames(rest.messages), rest.buffer);
      }
  }

  lemma FrontFrame(buffer: Bytes)
    requires !Incomplete(buffer) && buffer[0] == 0
    ensures var n := BigEndian(buffer[1..5]);
            buffer == Frame(buffer[PREFIX_LENGTH..PREFIX_LENGTH + n]) + buffer[PREFIX_LENGTH + n..]
  {
    var n := BigEndian(buffer[1..5]);
    BigEndianInjective(buffer[1..5]);
    assert buffer[1..5] == BigEndianBytes(n);
    assert buffer[..5] == [0] + buffer[1..5];
  }

  /** No call makes bytes up, and a call loses bytes exactly when it reaches a non-zero flag. */
  lemma {:induction false} ProcessLoss(buffer: Bytes, state: State)
    requires InSync(buffer, state)
    ensures var p := ProcessBuffer(buffer, state);
            && InSync(p.buffer, p.state)
            && |Frames(p.messages)| + |p.buffer| <= |buffer|
            && (|Frames(p.messages)| + |p.buffer| == |buffer| <==> ZeroFlags(buffer))
    decreases |buffer|, Rank(state)
  {
    match state
    case ExpectingCompressionFlag =>
      if |buffer| >= 1 && buffer[0] == 0 {
        ProcessLoss(buffer, ExpectingMessageLength);
      }
    case ExpectingMessageLength =>
      if |buffer| >= PREFIX_LENGTH {
        ProcessLoss(buffer, ExpectingMessage(BigEndian(buffer[1..5])));
      }
    case ExpectingMessage(n) =>
      if |buffer| >= PREFIX_LENGTH + n {
        var m: Message, tail := buffer[PREFIX_LENGTH..PREFIX_LENGTH + n], buffer[PREFIX_LENGTH + n..];
        ProcessLoss(tail, ExpectingCompressionFlag);
        var rest := ProcessBuffer(tail, ExpectingCompressionFlag);
        assert ([m] + rest.messages)[1..] == rest.messages;
      }
  }

  /** Skipping whole frames does not change whether the remaining flags are zero. */
  lemma {:induction false} ZeroFlagsAfterFrames(ms: seq<Message>, x: Bytes)
    ensures ZeroFlags(Frames(ms) + x) == ZeroFlags(x)
  {
    if ms == [] {
      assert Frames(ms) + x == x;
    } else {
      CompleteFrame(ms, x);
      ZeroFlagsAfterFrames(ms[1..], x);
    }
  }

  lemma LastChunk(chunks: seq<Bytes>)
    requires chunks != []
    ensures Concat(chunks) == Concat(chunks[..|chunks| - 1]) + chunks[|chunks| - 1]
  {
    ConcatAppend(chunks[..|chunks| - 1], chunks[|chunks| - 1]);
    assert chunks == chunks[..|chunks| - 1] + [chunks[|chunks| - 1]];
  }

  /**
   The parser accounts for the bytes received: whole frames became messages, and the buffer is the strict
   prefix of one more frame, held in the phase that prefix fixes.
   */
  ghost predicate Explains(p: Progress, received: Bytes) {
    && received == Frames(p.messages) + p.buffer
    && Incomplete(p.buffer) && (p.buffer == [] || p.buffer[0] == 0)
    && p.state == WaitingState(p.buffer)
  }

  lemma FeedExplains(p: Progress, received: Bytes, chunk: Bytes)
    requires Explains(p, received) && ZeroFlags(received + chunk)
    ensures Explains(Feed(p, chunk), received + chunk)
  {
    hide ZeroFlags, Incomplete, BigEndian, WaitingState, Frames, ProcessBuffer;
    var whole := p.buffer + chunk;
    assert received + chunk == Frames(p.messages) + whole;
    ZeroFlagsAfterFrames(p.messages, whole);
    assert InSync(whole, p.state) by {
      WaitingInSync(p.buffer, chunk);
    }
    ProcessDecomposes(whole, p.state);
    var q := ProcessBuffer(whole, p.state);
    FramesAppend(p.messages, q.messages);
    Associative(Frames(p.messages), Frames(q.messages), q.buffer);
  }

  lemma WaitingInSync(buffer: Bytes, chunk: Bytes)
    requires buffer == [] || buffer[0] == 0
    ensures InSync(buffer + chunk, WaitingState(buffer))
  {
    if |buffer| >= PREFIX_LENGTH {
      assert (buffer + chunk)[1..5] == buffer[1..5];
    }
  }

  /** On a zero-flag stream nothing is lost, incomplete last frames included. */
  lemma {:induction false} Lossless(chunks: seq<Bytes>)
    requires ZeroFlags(Concat(chunks))
    ensures Explains(FeedAll(chunks), Concat(chunks))
  {
    if chunks != [] {
      var front, last := chunks[..|chunks| - 1], chunks[|chunks| - 1];
      LastChunk(chunks);
      ZeroFlagsPrefix(Concat(front), last);
      Lossless(front);
      FeedExplains(FeedAll(front), Concat(front), last);
    }
  }

  /** Bytes accounted for: those in emitted frames and those still buffered. */
  function Kept(p: Progress): nat {
    |Frames(p.messages)| + |p.buffer|
  }

  lemma InSyncExtends(buffer: Bytes, state: State, chunk: Bytes)
    requires InSync(buffer, state)
    ensures InSync(buffer + chunk, state)
  {
    if |buffer| >= PREFIX_LENGTH {
      assert (buffer + chunk)[1..5] == buffer[1..5];
    }
  }

  lemma FeedLoss(p: Progress, chunk: Bytes)
    requires InSync(p.buffer, p.state)
    ensures InSync(Feed(p, chunk).buffer, Feed(p, chunk).state)
    ensures Kept(Feed(p, chunk)) <= Kept(p) + |chunk|
    ensures Kept(Feed(p, chunk)) == Kept(p) + |chunk| <==> ZeroFlags(p.buffer + chunk)
  {
    InSyncExtends(p.buffer, p.state, chunk);
    hide ZeroFlags, BigEndian, Frames, ProcessBuffer, InSync;
    ProcessLoss(p.buffer + chunk, p.state);
    FramesAppend(p.messages, ProcessBuffer(p.buffer + chunk, p.state).messages);
  }

  lemma NothingReceived()
    ensures ZeroFlags([]) && Kept(INITIAL) == 0
  {
  }

  /** For every chunking of any bytes: the byte count is conserved if and only if every flag reached is zero. */
  lemma {:induction false} LosslessExactlyOnZeroFlags(chunks: seq<Bytes>)
    ensures InSync(FeedAll(chunks).buffer, FeedAll(chunks).state)
    ensures Kept(FeedAll(chunks)) <= |Concat(chunks)|
    ensures Kept(FeedAll(chunks)) == |Concat(chunks)| <==> ZeroFlags(Concat(chunks))
  {
    hide ZeroFlags, Incomplete, BigEndian, WaitingState, Frames, ProcessBuffer;
    if chunks == [] {
      NothingReceived();
    } else {
      var front, last := chunks[..|chunks| - 1], chunks[|chunks| - 1];
      var p := FeedAll(front);
      LastChunk(chunks);
      LosslessExactlyOnZeroFlags(front);
      FeedLoss(p, last);
      if ZeroFlags(Concat(front)) {
        Lossless(front);
        assert Concat(chunks) == Frames(p.messages) + (p.buffer + last);
        ZeroFlagsAfterFrames(p.messages, p.buffer + last);
      } else if ZeroFlags(Concat(chunks)) {
        ZeroFlagsPrefix(Concat(front), last);
      }
    }
  }

  /** However the bytes are cut, the messages, the buffer and the phase depend only on the bytes. */
  lemma ChunkingIrrelevant(chunks: seq<Bytes>, ms: seq<Message>, r: Bytes)
    requires Concat(chunks) == Frames(ms) + r
    requires Incomplete(r) && (r == [] || r[0] == 0)
    ensures FeedAll(chunks) == Progress(r, WaitingState(r), ms)
  {
    FramesHaveZeroFlags(ms, r);
    Lossless(chunks);
    var p := FeedAll(chunks);
    UniqueDecomposition(p.messages, p.buffer, ms, r);
  }

  /** Printed messages are read back in order, with nothing left over. */
  lemma RoundTrip(chunks: seq<Bytes>, ms: seq<Message>)
    requires Concat(chunks) == Frames(ms)
    ensures FeedAll(chunks) == INITIAL.(messages := ms)
  {
    assert Frames(ms) + [] == Frames(ms);
    ChunkingIrrelevant(chunks, ms, []);
  }

  // ---------- Exactly which bytes may be cut anywhere ----------

  /** The bytes from the first non-zero flag on; none when every flag reached is zero. */
  function FromBadFlag(b: Bytes): Bytes {
    if b == [] || (b[0] == 0 && Incomplete(b)) then []
    else if b[0] != 0 then b
    else FromBadFlag(b[PREFIX_LENGTH + BigEndian(b[1..5])..])
  }

  /** The result of feeding the bytes in one chunk. */
  function Whole(b: Bytes): Progress {
    ProcessBuffer(b, ExpectingCompressionFlag)
  }

  lemma {:induction false} BadFlagExactly(b: Bytes)
    ensures FromBadFlag(b) == [] <==> ZeroFlags(b)
  {
    if b != [] && b[0] == 0 && !Incomplete(b) {
      BadFlagExactly(b[PREFIX_LENGTH + BigEndian(b[1..5])..]);
    }
  }

  lemma OneChunk(b: Bytes)
    ensures FeedAll([b]) == Whole(b)
  {
    assert [b][..0] == [] && [] + b == b && FeedAll([b]) == Feed(INITIAL, b);
    assert [] + Whole(b).messages == Whole(b).messages;
  }

  /** Processing what comes after whole frames emits their messages first. */
  lemma {:induction false} WholeAfterFrames(ms: seq<Message>, x: Bytes)
    ensures Whole(Frames(ms) + x) == Whole(x).(messages := ms + Whole(x).messages)
    ensures FromBadFlag(Frames(ms) + x) == FromBadFlag(x)
  {
    if ms == [] {
      assert Frames(ms) + x == x && ms + Whole(x).messages == Whole(x).messages;
    } else {
      var b := Frames(ms) + x;
      CompleteFrame(ms, x);
      WholeFrame(b);
      WholeAfterFrames(ms[1..], x);
      hide *;
      FirstThenRest(ms, Whole(x).messages);
    }
  }

  lemma FirstThenRest(ms: seq<Message>, more: seq<Message>)
    requires ms != []
    ensures [ms[0]] + (ms[1..] + more) == ms + more
  {
  }

  lemma WholeFrame(b: Bytes)
    requires !Incomplete(b) && b[0] == 0
    ensures var n := PREFIX_LENGTH + BigEndian(b[1..5]);
            && Whole(b) == Whole(b[n..]).(messages := [b[PREFIX_LENGTH..n]] + Whole(b[n..]).messages)
            && FromBadFlag(b) == FromBadFlag(b[n..])
  {
    assert ProcessBuffer(b, ExpectingCompressionFlag) == ProcessBuffer(b, ExpectingMessageLength);
    assert ProcessBuffer(b, ExpectingMessageLength) == ProcessBuffer(b, ExpectingMessage(BigEndian(b[1..5])));
  }

  /** Resuming in the phase in which the parser waits is starting over with the bytes it held. */
  lemma WaitingCatchesUp(r: Bytes, chunk: Bytes)
    requires r == [] || r[0] == 0
    ensures ProcessBuffer(r + chunk, WaitingState(r)) == Whole(r + chunk)
  {
    var b := r + chunk;
    if r != [] {
      assert ProcessBuffer(b, ExpectingCompressionFlag) == ProcessBuffer(b, ExpectingMessageLength);
      if |r| >= PREFIX_LENGTH {
        assert b[1..5] == r[1..5];
        assert ProcessBuffer(b, ExpectingMessageLength) == ProcessBuffer(b, ExpectingMessage(BigEndian(r[1..5])));
      }
    }
  }

  /** Bytes with a bad flag are whole frames and then that flag; the messages are emitted and nothing is kept. */
  lemma {:induction false} BadFlagDrops(b: Bytes)
    requires FromBadFlag(b) != []
    ensures Frames(Whole(b).messages) + FromBadFlag(b) == b && FromBadFlag(b)[0] != 0
    ensures Whole(b) == INITIAL.(messages := Whole(b).messages)
  {
    if b[0] != 0 {
      assert [] + b == b;
    } else {
      var n := PREFIX_LENGTH + BigEndian(b[1..5]);
      var m: Message := b[PREFIX_LENGTH..n];
      WholeFrame(b);
      BadFlagDrops(b[n..]);
      FrontFrame(b);
      hide Frame, BigEndian, ProcessBuffer, Incomplete, FromBadFlag;
      FramesCons(m, Whole(b[n..]).messages);
      Associative(Frame(m), Frames(Whole(b[n..]).messages), FromBadFlag(b[n..]));
    }
  }

  /** One more chunk after the whole of the earlier bytes. */
  lemma FeedAfterWhole(a: Bytes, chunk: Bytes)
    ensures ZeroFlags(a) ==> Feed(Whole(a), chunk) == Whole(a + chunk)
    ensures !ZeroFlags(a) ==> FromBadFlag(a + chunk) == FromBadFlag(a) + chunk
    ensures !ZeroFlags(a) ==> Whole(a + chunk) == Whole(a)
    ensures !ZeroFlags(a) ==> Feed(Whole(a), chunk) == Whole(chunk).(messages := Whole(a).messages + Whole(chunk).messages)
  {
    BadFlagExactly(a);
    if ZeroFlags(a) {
      FeedAfterZeroFlags(a, chunk);
    } else {
      FeedAfterBadFlag(a, chunk);
    }
  }

  lemma FeedAfterBadFlag(a: Bytes, chunk: Bytes)
    requires FromBadFlag(a) != []
    ensures FromBadFlag(a + chunk) == FromBadFlag(a) + chunk && Whole(a + chunk) == Whole(a)
    ensures Feed(Whole(a), chunk) == Whole(chunk).(messages := Whole(a).messages + Whole(chunk).messages)
  {
    var p, bad := Whole(a), FromBadFlag(a);
    BadFlagDrops(a);
    hide Frames, ZeroFlags, ProcessBuffer, Incomplete, BigEndian;
    Associative(Frames(p.messages), bad, chunk);
    WholeAfterFrames(p.messages, bad + chunk);
    WholeOfNonZero(bad + chunk);
    NonZeroIsBad(bad + chunk);
    hide FromBadFlag;
    assert p.messages + [] == p.messages && [] + chunk == chunk;
  }

  lemma NonZeroIsBad(b: Bytes)
    requires b != [] && b[0] != 0
    ensures FromBadFlag(b) == b
  {
  }

  lemma FeedAfterZeroFlags(a: Bytes, chunk: Bytes)
    requires ZeroFlags(a)
    ensures Feed(Whole(a), chunk) == Whole(a + chunk)
  {
    var p := Whole(a);
    ProcessDecomposes(a, ExpectingCompressionFlag);
    WaitingCatchesUp(p.buffer, chunk);
    hide ZeroFlags, Incomplete, BigEndian, Frames, ProcessBuffer, WaitingState;
    Associative(Frames(p.messages), p.buffer, chunk);
    WholeAfterFrames(p.messages, p.buffer + chunk);
  }

  /** A chunk that starts with a zero byte leaves something behind. */
  lemma ZeroByteShows(chunk: Bytes)
    requires chunk != [] && chunk[0] == 0
    ensures Whole(chunk).buffer != [] || Whole(chunk).messages != []
  {
    assert ProcessBuffer(chunk, ExpectingCompressionFlag) == ProcessBuffer(chunk, ExpectingMessageLength);
    if |chunk| >= PREFIX_LENGTH {
      assert ProcessBuffer(chunk, ExpectingMessageLength) == ProcessBuffer(chunk, ExpectingMessage(BigEndian(chunk[1..5])));
    }
  }

  lemma {:induction false} AnyCutOfHarmlessBytes(chunks: seq<Bytes>)
    requires 0 !in FromBadFlag(Concat(chunks))
    ensures FeedAll(chunks) == Whole(Concat(chunks))
  {
    if chunks != [] {
      var front, last := chunks[..|chunks| - 1], chunks[|chunks| - 1];
      var a := Concat(front);
      LastChunk(chunks);
      hide ZeroFlags, FromBadFlag, Whole, Frames, Concat;
      FeedHarmless(a, last);
      AnyCutOfHarmlessBytes(front);
    }
  }

  lemma InNeitherPart(x: byte, a: Bytes, b: Bytes)
    requires x !in a + b
    ensures x !in a && (b != [] ==> b[0] != x)
  {
    assert forall k :: 0 <= k < |a| ==> a[k] == (a + b)[k];
    assert b != [] ==> (a + b)[|a|] == b[0];
  }

  lemma WholeOfNonZero(b: Bytes)
    requires b != [] ==> b[0] != 0
    ensures Whole(b) == INITIAL
  {
  }

  lemma FeedHarmless(a: Bytes, last: Bytes)
    requires 0 !in FromBadFlag(a + last)
    ensures 0 !in FromBadFlag(a) && Feed(Whole(a), last) == Whole(a + last)
  {
    FeedAfterWhole(a, last);
    BadFlagExactly(a);
    hide ZeroFlags, FromBadFlag, Whole, Feed;
    if !ZeroFlags(a) {
      InNeitherPart(0, FromBadFlag(a), last);
      WholeOfNonZero(last);
      BadFlagDrops(a);
      assert Whole(a).messages + [] == Whole(a).messages;
    }
  }

  lemma TwoChunks(a: Bytes, rest: Bytes)
    ensures Concat([a, rest]) == a + rest && FeedAll([a, rest]) == Feed(Whole(a), rest)
  {
    assert [a, rest][1..] == [rest] && [rest][1..] == [] && rest + [] == rest;
    assert Concat([a, rest]) == a + Concat([rest]) == a + (rest + Concat([]));
    assert [a, rest][..1] == [a];
    OneChunk(a);
  }

  /** Cutting just before a zero byte behind the bad flag gives another result than not cutting. */
  lemma CutBeforeZeroByte(b: Bytes, k: nat) returns (chunks: seq<Bytes>)
    requires k < |FromBadFlag(b)| && FromBadFlag(b)[k] == 0
    ensures Concat(chunks) == b && FeedAll(chunks) != Whole(b)
  {
    var bad, ms := FromBadFlag(b), Whole(b).messages;
    BadFlagDrops(b);
    hide *;
    var start, rest := CutBehindFirst(bad, k);
    var a := Frames(ms) + start;
    chunks := [a, rest];
    TwoChunks(a, rest);
    CutShows(ms, start, rest);
    Associative(Frames(ms), start, rest);
  }

  lemma CutBehindFirst(bad: Bytes, k: nat) returns (start: Bytes, rest: Bytes)
    requires k < |bad| && bad[k] == 0 && bad[0] != 0
    ensures start + rest == bad && start != [] && start[0] != 0 && rest != [] && rest[0] == 0
  {
    start, rest := bad[..k], bad[k..];
  }

  lemma CutShows(ms: seq<Message>, start: Bytes, rest: Bytes)
    requires start != [] && start[0] != 0 && rest != [] && rest[0] == 0
    ensures Feed(Whole(Frames(ms) + start), rest) != INITIAL.(messages := ms)
  {
    FirstPart(ms, start);
    FeedAfterWhole(Frames(ms) + start, rest);
    ZeroByteShows(rest);
    hide Frames, ZeroFlags, Whole, Feed, FromBadFlag;
    assert |ms + Whole(rest).messages| == |ms| + |Whole(rest).messages|;
  }

  lemma FirstPart(ms: seq<Message>, start: Bytes)
    requires start != [] && start[0] != 0
    ensures var a := Frames(ms) + start; !ZeroFlags(a) && Whole(a).messages == ms
  {
    WholeAfterFrames(ms, start);
    WholeOfNonZero(start);
    BadFlagExactly(Frames(ms) + start);
    assert FromBadFlag(start) == start && ms + [] == ms;
  }

  /**
   For any bytes: all ways of cutting them give the same messages, buffer and phase if and only if no zero byte
   follows the first non-zero flag, as when every flag reached is zero.
   */
  lemma ChunkingIrrelevantExactly(b: Bytes)
    ensures (forall chunks | Concat(chunks) == b :: FeedAll(chunks) == FeedAll([b])) <==> 0 !in FromBadFlag(b)
    ensures FromBadFlag(b) == [] <==> ZeroFlags(b)
  {
    BadFlagExactly(b);
    OneChunk(b);
    forall chunks | Concat(chunks) == b && 0 !in FromBadFlag(b) ensures FeedAll(chunks) == FeedAll([b]) {
      AnyCutOfHarmlessBytes(chunks);
    }
    if 0 in FromBadFlag(b) {
      var k: nat :| k < |FromBadFlag(b)| && FromBadFlag(b)[k] == 0;
      var chunks := CutBeforeZeroByte(b, k);
    }
  }

  /** An instance: the bytes dropped are those at hand when the flag is read. */
  lemma ChunkingMattersAfterNonZeroFlag()
    ensures var bytes: Bytes := [1] + Frame([]);
            && Concat([bytes]) == Concat([[1], Frame([])])
            && FeedAll([bytes]).messages == []
            && FeedAll([[1], Frame([])]).messages == [[]]
  {
    var f: Bytes := Frame([]);
    var bytes := [1] + f;
    assert [bytes][..0] == [] && FeedAll([bytes]) == Feed(INITIAL, bytes) && [] + bytes == bytes;
    assert [[1], f][..1] == [[1]] && [[1]][..0] == [];
    assert [] + [1] == [1];
    assert FeedAll([[1]]) == Feed(INITIAL, [1]) == INITIAL;
    assert [] + f == f;
    var ms: seq<Message> := [[]];
    assert ms[1..] == [] && f + [] == f && [f][1..] == [];
    RoundTrip([f], ms);
    assert [f][..0] == [] && FeedAll([f]) == Feed(INITIAL, f);
    assert FeedAll([[1], f]) == Feed(FeedAll([[1]]), f);
    assert [[1], f][1..] == [f] && [f][1..] == [] && [bytes][1..] == [];
  }

  /** The bounds-checked fixed-width read: copies size bytes from index, or nothing when data is too small. */
  method IntegerAtIndex(data: Bytes, index: nat, size: nat) returns (value: Option<Bytes>)
    ensures value == if |data| >= index + size then Some(data[index..index + size]) else None
  {
    if !(|data| >= index + size) {
      return None;
    }
    var copied: Bytes := [];
    for i := 0 to size
      invariant copied == data[index..index + i]
    {
      copied := copied + [data[index + i]];
    }
    value := Some(copied);
  }

  /** The variables captured by the response-data closure, updated in place for each chunk. */
  class ResponseReader {
    var buffer: Bytes
    var state: State
    var messages: seq<Message>

    ghost function View(): Progress
      reads this
    {
      Progress(buffer, state, messages)
    }

    constructor ()
      ensures View() == INITIAL
    {
      buffer, state, messages := [], ExpectingCompressionFlag, [];
    }

    method OnResponseData(chunk: Bytes, littleEndian: bool)
      modifies this
      ensures View() == Feed(old(View()), chunk)
    {
      buffer := buffer + chunk;
      Process(littleEndian);
    }

    method Process(littleEndian: bool)
      modifies this
      ensures buffer == ProcessBuffer(old(buffer), old(state)).buffer
      ensures state == ProcessBuffer(old(buffer), old(state)).state
      ensures messages == old(messages) + ProcessBuffer(old(buffer), old(state)).messages
      decreases |buffer|, Rank(state)
    {
      match state {
        case ExpectingCompressionFlag =>
          var compressionFlag := IntegerAtIndex(buffer, 0, 1);
          if compressionFlag.None? {
            return;
          }
          if compressionFlag.value[0] != 0 {
            buffer := [];
            state := ExpectingCompressionFlag;
            return;
          }
          state := ExpectingMessageLength;
        case ExpectingMessageLength =>
          var messageLength := IntegerAtIndex(buffer, 1, 4);
          if messageLength.None? {
            return;
          }
          SwapMeetsWireFormat(0, messageLength.value, littleEndian);
          state := ExpectingMessage(SwapOnLittleEndian(HostWord(messageLength.value, littleEndian), littleEndian));
        case ExpectingMessage(messageLength) =>
          var prefixedLength := PREFIX_LENGTH + messageLength;
          if |buffer| < prefixedLength {
            return;
          }
          if messageLength > 0 {
            messages := messages + [buffer[PREFIX_LENGTH..prefixedLength]];
          } else {
            messages := messages + [[]];
          }
          buffer := buffer[prefixedLength..];
          state := ExpectingCompressionFlag;
      }
      Process(littleEndian);
    }
  }
}
