/**
 The Kotlin gRPC response deframer, whose lengths are 32-bit signed integers, and how far it agrees
 with the Swift one.
 */
module KotlinDeframer {
  import opened Wrappers
  import opened GrpcWire
  import Swift = SwiftDeframer

  type Int32 = i: int | -0x8000_0000 <= i < 0x8000_0000

  /** Two's complement wrap-around, for the values that a 4-byte read or the sum with the prefix length can take. */
  function Wrap(i: int): (w: Int32)
    requires -0x8000_0000 <= i < UINT32_LIMIT
    ensures (w - i) % 4294967296 == 0
  {
    if i < 0x8000_0000 then i else i - UINT32_LIMIT
  }

  /** The largest length whose sum with the prefix length still is an Int. */
  const MAX_LENGTH := 0x7FFF_FFFA

  datatype ProcessState =
    | CompressionFlag
    | MessageLength
    | Message(messageLength: Int32)

  /**
   A call returns, throws out of a slice, or recurses without consuming anything. messages were delivered before;
   an endless call goes on with empty ones.
   */
  datatype Outcome =
    | Done(buffer: Bytes, state: ProcessState, messages: seq<Bytes>)
    | Thrown(messages: seq<Bytes>)
    | Endless(messages: seq<Bytes>)

  const INITIAL := Done([], CompressionFlag, [])

  /** sliceArray(start until end): an empty range gives an empty array, otherwise the bounds are checked. */
  function SliceUntil(b: Bytes, start: int, end: int): Option<Bytes> {
    if end <= start then Some([])
    else if start < 0 || end > |b| then None
    else Some(b[start..end])
  }

  predicate InSync(buffer: Bytes, state: ProcessState) {
    state.Message? ==> |buffer| >= PREFIX_LENGTH && state.messageLength == Wrap(BigEndian(buffer[1..5]))
  }

  function Rank(state: ProcessState): nat {
    match state
    case CompressionFlag => 2
    case MessageLength => 1
    case Message(_) => 0
  }

  function Emit(m: Bytes, o: Outcome): Outcome {
    o.(messages := [m] + o.messages)
  }

  /** What one call of processData does. */
  function ProcessData(buffer: Bytes, state: ProcessState): Outcome
    requires InSync(buffer, state)
    decreases |buffer|, Rank(state)
  {
    match state
    case CompressionFlag =>
      if buffer == [] then Done(buffer, CompressionFlag, [])
      else ProcessData(if buffer[0] != 0 then [] else buffer, MessageLength)
    case MessageLength =>
      if |buffer| < PREFIX_LENGTH then Done(buffer, MessageLength, [])
      else ProcessData(buffer, Message(Wrap(BigEndian(buffer[1..5]))))
    case Message(n) =>
      var end := Wrap(n + PREFIX_LENGTH);
      if |buffer| < end then Done(buffer, state, [])
      else
        match (SliceUntil(buffer, PREFIX_LENGTH, end), SliceUntil(buffer, end, |buffer|))
        case (Some(m), Some(rest)) =>
          if rest == [] then Done([], CompressionFlag, [m])
          // With end 0 nothing was consumed: the call comes back to this point unless the flag clears the buffer.
          else if end == 0 then (if buffer[0] == 0 then Endless([m]) else Done([], MessageLength, [m]))
          else Emit(m, ProcessData(rest, CompressionFlag))
        case (Some(m), None) => Thrown([m])
        case _ => Thrown([])
  }

  // ---------- The recursion itself ----------

  /** One activation of processData: it recurses on what it leaves, returns, or throws. */
  datatype Activation =
    | Recurses(buffer: Bytes, state: ProcessState, messages: seq<Bytes>)
    | Returns(buffer: Bytes, state: ProcessState, messages: seq<Bytes>)
    | Throws(messages: seq<Bytes>)

  function Activate(buffer: Bytes, state: ProcessState): Activation {
    match state
    case CompressionFlag =>
      if buffer == [] then Returns(buffer, CompressionFlag, [])
      else Recurses(if buffer[0] != 0 then [] else buffer, MessageLength, [])
    case MessageLength =>
      if |buffer| < PREFIX_LENGTH then Returns(buffer, MessageLength, [])
      else Recurses(buffer, Message(Wrap(BigEndian(buffer[1..5]))), [])
    case Message(n) =>
      var end := Wrap(n + PREFIX_LENGTH);
      if |buffer| < end then Returns(buffer, state, [])
      else
        match (SliceUntil(buffer, PREFIX_LENGTH, end), SliceUntil(buffer, end, |buffer|))
        case (Some(m), Some(rest)) =>
          if rest == [] then Returns([], CompressionFlag, [m]) else Recurses(rest, CompressionFlag, [m])
        case (Some(m), None) => Throws([m])
        case _ => Throws([])
  }

  /** At most n nested activations. */
  function Nested(buffer: Bytes, state: ProcessState, n: nat): Activation
    decreases n
  {
    if n == 0 then Recurses(buffer, state, [])
    else
      var a := Activate(buffer, state);
      if !a.Recurses? then a
      else
        var rest := Nested(a.buffer, a.state, n - 1);
        rest.(messages := a.messages + rest.messages)
  }

  predicate Ends(a: Activation, o: Outcome) {
    match o
    case Done(buffer, state, messages) => a == Returns(buffer, state, messages)
    case Thrown(messages) => a == Throws(messages)
    case Endless(_) => false
  }

  predicate ConsumesNothing(state: ProcessState) {
    state.Message? && Wrap(state.messageLength + PREFIX_LENGTH) == 0
  }

  lemma {:induction false} RecursionEnds(buffer: Bytes, state: ProcessState) returns (n: nat)
    requires InSync(buffer, state) && !ProcessData(buffer, state).Endless?
    ensures Ends(Nested(buffer, state, n), ProcessData(buffer, state))
    decreases |buffer|, Rank(state)
  {
    var a := Activate(buffer, state);
    if !a.Recurses? {
      n := 1;
    } else if ConsumesNothing(state) {
      FlagEndsIt(buffer, state);
      n := 3;
    } else {
      n := RecursionEnds(a.buffer, a.state);
      OneMore(buffer, state, n);
      n := n + 1;
    }
  }

  lemma OneMore(buffer: Bytes, state: ProcessState, n: nat)
    requires InSync(buffer, state) && !ConsumesNothing(state) && Activate(buffer, state).Recurses?
    requires var a := Activate(buffer, state);
             InSync(a.buffer, a.state) && Ends(Nested(a.buffer, a.state, n), ProcessData(a.buffer, a.state))
    ensures Ends(Nested(buffer, state, n + 1), ProcessData(buffer, state))
  {
    var a := Activate(buffer, state);
    NextOutcome(buffer, state);
    hide ProcessData, Activate;
    var rest := Nested(a.buffer, a.state, n);
    assert [] + rest.messages == rest.messages;
  }

  /** The outcome of a call that recurses is that of the inner call, after the messages delivered before it. */
  lemma NextOutcome(buffer: Bytes, state: ProcessState)
    requires InSync(buffer, state) && !ConsumesNothing(state) && Activate(buffer, state).Recurses?
    ensures var a := Activate(buffer, state);
            && InSync(a.buffer, a.state) && |a.messages| <= 1
            && ProcessData(buffer, state) ==
               ProcessData(a.buffer, a.state).(messages := a.messages + ProcessData(a.buffer, a.state).messages)
  {
    var a := Activate(buffer, state);
    assert InSync(a.buffer, a.state);
    if !state.Message? {
      assert ProcessData(buffer, state) == ProcessData(a.buffer, a.state);
      hide ProcessData;
      assert [] + ProcessData(a.buffer, a.state).messages == ProcessData(a.buffer, a.state).messages;
    }
  }

  /** A length whose sum is 0 leaves the whole buffer; a non-zero flag at its front then clears it. */
  lemma FlagEndsIt(buffer: Bytes, state: ProcessState)
    requires InSync(buffer, state) && ConsumesNothing(state) && !ProcessData(buffer, state).Endless?
    ensures Ends(Nested(buffer, state, 3), ProcessData(buffer, state))
  {
    assert buffer[0..|buffer|] == buffer;
    assert ProcessData(buffer, state) == Done([], MessageLength, [[]]);
    assert Activate(buffer, state) == Recurses(buffer, CompressionFlag, [[]]);
    assert Activate(buffer, CompressionFlag) == Recurses([], MessageLength, []);
    assert Nested([], MessageLength, 1) == Returns([], MessageLength, []);
    hide Activate;
    assert Nested(buffer, CompressionFlag, 2) == Returns([], MessageLength, []);
  }

  function Empties(n: nat): seq<Bytes> {
    seq(n, _ => [])
  }

  /** Following a call that never ends shows its messages and then only empty ones. */
  lemma {:induction false} RecursionGoesOn(buffer: Bytes, state: ProcessState, n: nat)
    requires InSync(buffer, state) && ProcessData(buffer, state).Endless?
    ensures var a := Nested(buffer, state, n);
            a.Recurses? && a.messages <= ProcessData(buffer, state).messages + Empties(n)
    decreases n
  {
    if n > 0 {
      var a := Activate(buffer, state);
      if ConsumesNothing(state) {
        GoesRound(buffer, state);
        RecursionGoesOn(buffer, CompressionFlag, n - 1);
        OneEmptyMore(Nested(buffer, CompressionFlag, n - 1).messages, n);
      } else {
        NextOutcome(buffer, state);
        RecursionGoesOn(a.buffer, a.state, n - 1);
        hide ProcessData, Activate;
        var o := ProcessData(a.buffer, a.state);
        PrefixAfter(a.messages, Nested(a.buffer, a.state, n - 1).messages, o.messages, n);
      }
    }
  }

  lemma GoesRound(buffer: Bytes, state: ProcessState)
    requires InSync(buffer, state) && ConsumesNothing(state) && ProcessData(buffer, state).Endless?
    ensures Activate(buffer, state) == Recurses(buffer, CompressionFlag, [[]])
    ensures ProcessData(buffer, state) == ProcessData(buffer, CompressionFlag) == Endless([[]])
  {
    assert buffer[0..|buffer|] == buffer;
    assert ProcessData(buffer, MessageLength) == Endless([[]]);
  }

  lemma OneEmptyMore(shown: seq<Bytes>, n: nat)
    requires n > 0 && shown <= [[]] + Empties(n - 1)
    ensures [[]] + shown <= [[]] + Empties(n)
  {
    assert [[]] + Empties(n - 1) == Empties(n);
  }

  lemma PrefixAfter(first: seq<Bytes>, shown: seq<Bytes>, all: seq<Bytes>, n: nat)
    requires n > 0 && shown <= all + Empties(n - 1)
    ensures first + shown <= first + all + Empties(n)
  {
    assert Empties(n - 1) + [[]] == Empties(n);
    assert first + all + Empties(n) == first + (all + Empties(n - 1)) + [[]];
  }

  /** All the messages that precede the endless empty ones are delivered. */
  lemma {:induction false} RecursionDelivers(buffer: Bytes, state: ProcessState) returns (n: nat)
    requires InSync(buffer, state) && ProcessData(buffer, state).Endless?
    ensures ProcessData(buffer, state).messages <= Nested(buffer, state, n).messages
    decreases |buffer|, Rank(state)
  {
    if ConsumesNothing(state) {
      GoesRound(buffer, state);
      assert Nested(buffer, CompressionFlag, 0).messages == [];
      n := 1;
    } else {
      var a := Activate(buffer, state);
      NextOutcome(buffer, state);
      n := RecursionDelivers(a.buffer, a.state);
      n := n + 1;
    }
  }

  /**
   The outcome is that of the nested activations; it is Endless exactly when they never end, and then they deliver
   its messages followed by empty ones.
   */
  lemma OutcomeIsThatOfTheRecursion(buffer: Bytes, state: ProcessState)
    requires InSync(buffer, state)
    ensures var o := ProcessData(buffer, state);
            && (o.Endless? <==> forall n: nat :: Nested(buffer, state, n).Recurses?)
            && (!o.Endless? ==> exists n: nat :: Ends(Nested(buffer, state, n), o))
            && (o.Endless? ==> forall n: nat :: Nested(buffer, state, n).messages <= o.messages + Empties(n))
            && (o.Endless? ==> exists n: nat :: o.messages <= Nested(buffer, state, n).messages)
  {
    if ProcessData(buffer, state).Endless? {
      forall n: nat
        ensures Nested(buffer, state, n).Recurses?
        ensures Nested(buffer, state, n).messages <= ProcessData(buffer, state).messages + Empties(n)
      {
        RecursionGoesOn(buffer, state, n);
      }
      var n := RecursionDelivers(buffer, state);
    } else {
      var n := RecursionEnds(buffer, state);
      assert !Nested(buffer, state, n).Recurses?;
    }
  }

  // ---------- Chunks ----------

  function Feed(o: Outcome, chunk: Bytes): Outcome
    requires o.Done? ==> InSync(o.buffer + chunk, o.state)
  {
    if !o.Done? then o
    else
      var q := ProcessData(o.buffer + chunk, o.state);
      q.(messages := o.messages + q.messages)
  }

  lemma {:induction false} StaysInSync(buffer: Bytes, state: ProcessState, more: Bytes)
    requires InSync(buffer, state)
    ensures var o := ProcessData(buffer, state); o.Done? ==> InSync(o.buffer + more, o.state)
    decreases |buffer|, Rank(state)
  {
    match state
    case CompressionFlag =>
      if buffer != [] {
        StaysInSync(if buffer[0] != 0 then [] else buffer, MessageLength, more);
      }
    case MessageLength =>
      if |buffer| >= PREFIX_LENGTH {
        StaysInSync(buffer, Message(Wrap(BigEndian(buffer[1..5]))), more);
      }
    case Message(n) =>
      var end := Wrap(n + PREFIX_LENGTH);
      if |buffer| < end {
        assert (buffer + more)[1..5] == buffer[1..5];
      } else if 0 < end < |buffer| {
        assert buffer[end..] == buffer[end..|buffer|];
        StaysInSync(buffer[end..], CompressionFlag, more);
      }
  }

  /** Every length reached when reading whole frames from the front stays within the Int sum. */
  predicate ShortFrames(b: Bytes) {
    |b| < PREFIX_LENGTH ||
    (BigEndian(b[1..5]) <= MAX_LENGTH && (Incomplete(b) || ShortFrames(b[PREFIX_LENGTH + BigEndian(b[1..5])..])))
  }

  function FromSwift(state: Swift.State): ProcessState {
    match state
    case ExpectingCompressionFlag => CompressionFlag
    case ExpectingMessageLength => MessageLength
    case ExpectingMessage(n) => Message(Wrap(n))
  }

  predicate Agrees(o: Outcome, p: Swift.Progress) {
    o == Done(p.buffer, FromSwift(p.state), p.messages)
  }

  /** One call on a zero-flag buffer agrees with Swift's if and only if every length reached is short enough. */
  lemma {:induction false} AgreeExactlyOnShortFrames(buffer: Bytes, state: Swift.State)
    requires Swift.InSync(buffer, state) && ZeroFlags(buffer)
    ensures InSync(buffer, FromSwift(state))
    ensures Agrees(ProcessData(buffer, FromSwift(state)), Swift.ProcessBuffer(buffer, state)) <==>
            ShortFrames(buffer)
    decreases |buffer|, Swift.Rank(state)
  {
    match state
    case ExpectingCompressionFlag =>
      if buffer != [] {
        AgreeExactlyOnShortFrames(buffer, Swift.ExpectingMessageLength);
      }
    case ExpectingMessageLength =>
      if |buffer| >= PREFIX_LENGTH {
        AgreeExactlyOnShortFrames(buffer, Swift.ExpectingMessage(BigEndian(buffer[1..5])));
      }
    case ExpectingMessage(n) =>
      if n > MAX_LENGTH {
        LongLength(buffer, n);
      } else if |buffer| > PREFIX_LENGTH + n {
        AgreeExactlyOnShortFrames(buffer[PREFIX_LENGTH + n..], Swift.ExpectingCompressionFlag);
        ShortLength(buffer, n);
        var tail := buffer[PREFIX_LENGTH + n..];
        var o, p := ProcessData(tail, CompressionFlag), Swift.ProcessBuffer(tail, Swift.ExpectingCompressionFlag);
        if o.Done? {
          assert ([buffer[PREFIX_LENGTH..PREFIX_LENGTH + n]] + o.messages)[1..] == o.messages;
          assert ([buffer[PREFIX_LENGTH..PREFIX_LENGTH + n]] + p.messages)[1..] == p.messages;
        }
      } else if |buffer| == PREFIX_LENGTH + n {
        assert buffer[PREFIX_LENGTH + n..] == [];
      }
  }

  lemma ShortLength(buffer: Bytes, n: nat)
    requires PREFIX_LENGTH + n < |buffer| && n <= MAX_LENGTH && n == BigEndian(buffer[1..5])
    ensures var tail := buffer[PREFIX_LENGTH + n..];
            && ProcessData(buffer, Message(n)) ==
               Emit(buffer[PREFIX_LENGTH..PREFIX_LENGTH + n], ProcessData(tail, CompressionFlag))
  {
    var end := n + PREFIX_LENGTH;
    var tail := buffer[end..];
    assert Wrap(n) == n && Wrap(end) == end;
    assert tail == buffer[end..|buffer|] && tail != [];
    assert SliceUntil(buffer, PREFIX_LENGTH, end).value == buffer[PREFIX_LENGTH..end];
    hide BigEndian;
  }

  /** Beyond the limit the call reports an empty message that was not sent, and then may throw or never return. */
  lemma LongLength(buffer: Bytes, n: UInt32)
    requires |buffer| >= PREFIX_LENGTH && n == BigEndian(buffer[1..5]) && n > MAX_LENGTH && buffer[0] == 0
    ensures var o := ProcessData(buffer, Message(Wrap(n)));
            && (n < UINT32_LIMIT - PREFIX_LENGTH ==> o == Thrown([[]]))
            && (n == UINT32_LIMIT - PREFIX_LENGTH ==> o == Endless([[]]))
            && o.messages != [] && o.messages[0] == []
  {
  }

  function FeedAll(chunks: seq<Bytes>): (o: Outcome)
    ensures o.Done? ==> forall more: Bytes {:trigger o.buffer + more} :: InSync(o.buffer + more, o.state)
  {
    if chunks == [] then INITIAL
    else
      var o := FeedAll(chunks[..|chunks| - 1]);
      var r := Feed(o, chunks[|chunks| - 1]);
      assert r.Done? ==> forall more: Bytes {:trigger r.buffer + more} :: InSync(r.buffer + more, r.state) by {
        if r.Done? {
          forall more: Bytes
            ensures InSync(r.buffer + more, r.state)
          {
            StaysInSync(o.buffer + chunks[|chunks| - 1], o.state, more);
          }
        }
      }
      r
  }

  lemma {:induction false} ShortFramesPrefix(a: Bytes, b: Bytes)
    requires ShortFrames(a + b)
    ensures ShortFrames(a)
    decreases |a|
  {
    if |a| >= PREFIX_LENGTH {
      assert (a + b)[1..5] == a[1..5];
      if !Incomplete(a) {
        var n := PREFIX_LENGTH + BigEndian(a[1..5]);
        assert (a + b)[n..] == a[n..] + b;
        ShortFramesPrefix(a[n..], b);
      }
    }
  }

  lemma {:induction false} ShortFramesAfterFrames(ms: seq<GrpcWire.Message>, x: Bytes)
    requires ShortFrames(Frames(ms) + x)
    ensures ShortFrames(x)
  {
    if ms == [] {
      assert Frames(ms) + x == x;
    } else {
      CompleteFrame(ms, x);
      ShortFramesAfterFrames(ms[1..], x);
    }
  }

  /** On every chunking of zero-flag, short frames the two deframers emit and keep the same bytes. */
  lemma {:induction false} AgreeOnEveryChunking(chunks: seq<Bytes>)
    requires ZeroFlags(Concat(chunks)) && ShortFrames(Concat(chunks))
    ensures Agrees(FeedAll(chunks), Swift.FeedAll(chunks))
  {
    if chunks != [] {
      var front, last := chunks[..|chunks| - 1], chunks[|chunks| - 1];
      Swift.LastChunk(chunks);
      ZeroFlagsPrefix(Concat(front), last);
      ShortFramesPrefix(Concat(front), last);
      AgreeOnEveryChunking(front);
      AgreeOnNextChunk(front, last);
    }
  }

  lemma AgreeOnNextChunk(front: seq<Bytes>, last: Bytes)
    requires ZeroFlags(Concat(front)) && ZeroFlags(Concat(front) + last) && ShortFrames(Concat(front) + last)
    requires Agrees(FeedAll(front), Swift.FeedAll(front))
    ensures Agrees(Feed(FeedAll(front), last), Swift.Feed(Swift.FeedAll(front), last))
  {
    hide ZeroFlags, ShortFrames, Incomplete, BigEndian, Swift.WaitingState, Frames, Swift.ProcessBuffer, ProcessData;
    var p := Swift.FeedAll(front);
    var whole := p.buffer + last;
    Swift.Lossless(front);
    assert Concat(front) + last == Frames(p.messages) + whole;
    Swift.ZeroFlagsAfterFrames(p.messages, whole);
    ShortFramesAfterFrames(p.messages, whole);
    Swift.WaitingInSync(p.buffer, last);
    AgreeExactlyOnShortFrames(whole, p.state);
  }

  /** Whole frames of printable lengths come first, then a length beyond the limit. */
  predicate LongAfter(b: Bytes, ms: seq<GrpcWire.Message>, x: Bytes) {
    b == Frames(ms) + x && |x| >= PREFIX_LENGTH && BigEndian(x[1..5]) > MAX_LENGTH
  }

  /** At such a length one call delivers the messages before it and then an empty one. */
  lemma {:induction false} OneCallStrays(buffer: Bytes, state: Swift.State)
    returns (ms: seq<GrpcWire.Message>, x: Bytes)
    requires Swift.InSync(buffer, state) && ZeroFlags(buffer) && !ShortFrames(buffer)
    ensures InSync(buffer, FromSwift(state)) && LongAfter(buffer, ms, x)
    ensures ms + [[]] <= ProcessData(buffer, FromSwift(state)).messages
    decreases |buffer|, Swift.Rank(state)
  {
    match state
    case ExpectingCompressionFlag =>
      ms, x := OneCallStrays(buffer, Swift.ExpectingMessageLength);
    case ExpectingMessageLength =>
      ms, x := OneCallStrays(buffer, Swift.ExpectingMessage(BigEndian(buffer[1..5])));
    case ExpectingMessage(n) =>
      if n > MAX_LENGTH {
        LongLength(buffer, n);
        ms, x := [], buffer;
        assert [] + buffer == buffer;
      } else {
        var m: GrpcWire.Message, tail := buffer[PREFIX_LENGTH..PREFIX_LENGTH + n], buffer[PREFIX_LENGTH + n..];
        var later;
        later, x := OneCallStrays(tail, Swift.ExpectingCompressionFlag);
        ms := [m] + later;
        ShortLength(buffer, n);
        Swift.FrontFrame(buffer);
        hide *;
        StraysLater(buffer, m, tail, later, x);
        FirstIsKept(m, later, ProcessData(tail, CompressionFlag).messages);
      }
  }

  lemma StraysLater(buffer: Bytes, m: GrpcWire.Message, tail: Bytes, later: seq<GrpcWire.Message>, x: Bytes)
    requires buffer == Frame(m) + tail && LongAfter(tail, later, x)
    ensures LongAfter(buffer, [m] + later, x)
  {
    hide Frame, BigEndian;
    FramesCons(m, later);
    Associative(Frame(m), Frames(later), x);
  }

  lemma FirstIsKept(m: GrpcWire.Message, later: seq<GrpcWire.Message>, delivered: seq<Bytes>)
    requires later + [[]] <= delivered
    ensures [m] + later + [[]] <= [m] + delivered
  {
    assert [m] + (later + [[]]) == [m] + later + [[]];
  }

  lemma {:induction false} ShortBeforeFrames(ms: seq<GrpcWire.Message>, x: Bytes, y: Bytes)
    requires ShortFrames(Frames(ms) + x) && ShortFrames(y)
    ensures ShortFrames(Frames(ms) + y)
  {
    if ms == [] {
      assert Frames(ms) + y == y;
    } else {
      CompleteFrame(ms, x);
      CompleteFrame(ms, y);
      ShortBeforeFrames(ms[1..], x, y);
    }
  }

  /** Once a length beyond the limit has arrived, an empty message has been delivered in its place. */
  lemma {:induction false} Strays(chunks: seq<Bytes>) returns (ms: seq<GrpcWire.Message>, x: Bytes)
    requires ZeroFlags(Concat(chunks)) && !ShortFrames(Concat(chunks))
    ensures LongAfter(Concat(chunks), ms, x) && ms + [[]] <= FeedAll(chunks).messages
  {
    if chunks != [] {
      var front, last := chunks[..|chunks| - 1], chunks[|chunks| - 1];
      Swift.LastChunk(chunks);
      ZeroFlagsPrefix(Concat(front), last);
      hide ZeroFlags, ShortFrames;
      if ShortFrames(Concat(front)) {
        AgreeOnEveryChunking(front);
        ms, x := NextChunkStrays(front, last);
      } else {
        var x0;
        ms, x0 := Strays(front);
        x := x0 + last;
        Associative(Frames(ms), x0, last);
        assert x[1..5] == x0[1..5];
      }
    }
  }

  lemma NextChunkStrays(front: seq<Bytes>, last: Bytes) returns (ms: seq<GrpcWire.Message>, x: Bytes)
    requires ZeroFlags(Concat(front)) && ZeroFlags(Concat(front) + last)
    requires ShortFrames(Concat(front)) && !ShortFrames(Concat(front) + last)
    requires Agrees(FeedAll(front), Swift.FeedAll(front))
    ensures LongAfter(Concat(front) + last, ms, x) && ms + [[]] <= Feed(FeedAll(front), last).messages
  {
    hide ZeroFlags, ShortFrames, Incomplete, BigEndian, Swift.WaitingState, Frames, Swift.ProcessBuffer, ProcessData;
    var p := Swift.FeedAll(front);
    var whole := p.buffer + last;
    Swift.Lossless(front);
    Associative(Frames(p.messages), p.buffer, last);
    Swift.ZeroFlagsAfterFrames(p.messages, whole);
    if ShortFrames(whole) {
      ShortBeforeFrames(p.messages, p.buffer, whole);
    }
    Swift.WaitingInSync(p.buffer, last);
    var later;
    later, x := OneCallStrays(whole, p.state);
    ms := p.messages + later;
    FramesAppend(p.messages, later);
    Associative(Frames(p.messages), Frames(later), x);
    assert p.messages + (later + [[]]) == ms + [[]];
  }

  /** No message list accounts for the bytes once it has an empty message where a long one is announced. */
  lemma {:induction false} EmptyIsNotLong(ms: seq<GrpcWire.Message>, x: Bytes, all: seq<GrpcWire.Message>, r: Bytes)
    requires Frames(ms) + x == Frames(all) + r && ms + [[]] <= all
    requires |x| >= PREFIX_LENGTH
    ensures BigEndian(x[1..5]) == 0
  {
    CompleteFrame(all, r);
    if ms == [] {
      assert [] + x == x && all[0] == [];
    } else {
      CompleteFrame(ms, x);
      assert ms[0] == (ms + [[]])[0] == all[0];
      assert ms[1..] + [[]] == (ms + [[]])[1..] <= all[1..];
      EmptyIsNotLong(ms[1..], x, all[1..], r);
    }
  }

  /** For every chunking of zero-flag bytes, the two deframers agree if and only if every length reached is short. */
  lemma AgreeOnChunkingExactly(chunks: seq<Bytes>)
    requires ZeroFlags(Concat(chunks))
    ensures Agrees(FeedAll(chunks), Swift.FeedAll(chunks)) <==> ShortFrames(Concat(chunks))
  {
    if ShortFrames(Concat(chunks)) {
      AgreeOnEveryChunking(chunks);
    } else {
      var ms, x := Strays(chunks);
      Swift.Lossless(chunks);
      var p := Swift.FeedAll(chunks);
      hide BigEndian, ZeroFlags, ShortFrames, Frames, Concat, Incomplete;
      if Agrees(FeedAll(chunks), p) {
        EmptyIsNotLong(ms, x, p.messages, p.buffer);
      }
    }
  }

  /** On zero-flag, short frames nothing is lost, however they are cut. */
  lemma Lossless(chunks: seq<Bytes>)
    requires ZeroFlags(Concat(chunks)) && ShortFrames(Concat(chunks))
    ensures var o := FeedAll(chunks);
            && o.Done? && Swift.Explains(Swift.FeedAll(chunks), Concat(chunks))
            && (forall m :: m in o.messages ==> |m| < UINT32_LIMIT)
            && Concat(chunks) == Frames(o.messages) + o.buffer && Incomplete(o.buffer)
  {
    AgreeOnEveryChunking(chunks);
    Swift.Lossless(chunks);
  }

  /** Printed messages of at most 2^31 - 6 bytes are read back in order, with nothing left over. */
  lemma RoundTrip(chunks: seq<Bytes>, ms: seq<GrpcWire.Message>)
    requires Concat(chunks) == Frames(ms) && forall m :: m in ms ==> |m| <= MAX_LENGTH
    ensures FeedAll(chunks) == INITIAL.(messages := ms)
  {
    assert Frames(ms) + [] == Frames(ms);
    FramesHaveZeroFlags(ms, []);
    ShortMessages(ms);
    AgreeOnEveryChunking(chunks);
    Swift.RoundTrip(chunks, ms);
  }

  lemma {:induction false} ShortMessages(ms: seq<GrpcWire.Message>)
    requires forall m :: m in ms ==> |m| <= MAX_LENGTH
    ensures ShortFrames(Frames(ms))
  {
    if ms != [] {
      assert ms[0] in ms;
      CompleteFrame(ms, []);
      assert Frames(ms) + [] == Frames(ms) && Frames(ms[1..]) + [] == Frames(ms[1..]);
      ShortMessages(ms[1..]);
    }
  }

  /** The variables captured by the response-data closure, updated in place for each chunk. */
  class ResponseReader {
    var bufferedStream: Bytes
    var processState: ProcessState
    var messages: seq<Bytes>

    ghost function View(): Outcome
      reads this
    {
      Done(bufferedStream, processState, messages)
    }

    constructor ()
      ensures View() == INITIAL
    {
      bufferedStream, processState, messages := [], CompressionFlag, [];
    }

    method OnResponseData(chunk: Bytes) returns (returned: bool)
      requires InSync(bufferedStream + chunk, processState)
      modifies this
      ensures returned == Feed(old(View()), chunk).Done? && messages == Feed(old(View()), chunk).messages
      ensures returned ==> View() == Feed(old(View()), chunk)
    {
      bufferedStream := bufferedStream + chunk;
      returned, processState := Process(processState);
    }

    /** returned is false when the call throws or would recurse forever. */
    method Process(state: ProcessState) returns (returned: bool, next: ProcessState)
      requires InSync(bufferedStream, state)
      modifies this
      ensures processState == old(processState)
      ensures var o := ProcessData(old(bufferedStream), state);
              && returned == o.Done? && messages == old(messages) + o.messages
              && (returned ==> bufferedStream == o.buffer && next == o.state)
              && (o.Thrown? ==> bufferedStream == [])
      decreases |bufferedStream|, Rank(state)
    {
      next := state;
      match state {
        case CompressionFlag =>
          if bufferedStream == [] {
            return true, CompressionFlag;
          }
          if bufferedStream[0] != 0 {
            bufferedStream := [];
          }
          next := MessageLength;
        case MessageLength =>
          if |bufferedStream| < PREFIX_LENGTH {
            return true, MessageLength;
          }
          next := Message(Wrap(BigEndian(bufferedStream[1..5])));
        case Message(messageLength) =>
          var end := Wrap(messageLength + PREFIX_LENGTH);
          if |bufferedStream| < end {
            return true, state;
          }
          var byteArray := bufferedStream;
          var message := SliceUntil(byteArray, PREFIX_LENGTH, end);
          messages := messages + [message.value];
          bufferedStream := [];
          var rest := SliceUntil(byteArray, end, |byteArray|);
          if rest.None? {
            return false, state;
          }
          bufferedStream := rest.value;
          if rest.value == [] {
            return true, CompressionFlag;
          }
          if end == 0 {
            if byteArray[0] == 0 {
              return false, state;
            }
            bufferedStream := [];
            return true, MessageLength;
          }
          next := CompressionFlag;
      }
      returned, next := Process(next);
    }
  }

  // ---------- A non-zero flag ----------

  /** A non-zero flag drops the bytes at hand without a message, and the next bytes are read as a prefix, flag unseen. */
  lemma BadFlagIsSkipped(o: Outcome, chunk: Bytes, next: Bytes)
    requires o.Done? && o.state == CompressionFlag && o.buffer == [] && chunk != [] && chunk[0] != 0
    ensures Feed(o, chunk) == Done([], MessageLength, o.messages)
    ensures |next| >= PREFIX_LENGTH ==>
              Feed(Feed(o, chunk), next).messages ==
              o.messages + ProcessData(next, Message(Wrap(BigEndian(next[1..5])))).messages
  {
    assert [] + chunk == chunk && [] + next == next;
    assert ProcessData(chunk, CompressionFlag) == ProcessData([], MessageLength) == Done([], MessageLength, []);
    assert o.messages + [] == o.messages;
  }
}
