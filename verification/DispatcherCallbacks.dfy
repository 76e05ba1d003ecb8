/** What the platform is told about each stream, and what the counters count, in every run of the HTTP dispatcher. */
module DispatcherCallbacks {
  import opened Wrappers
  import opened DispatcherSpec
  import opened DispatcherLifecycle

  /** The calls made to the platform. */
  function Callbacks(calls: seq<Call>): seq<Call> {
    if calls == [] then []
    else
      var front, last := Callbacks(calls[..|calls| - 1]), calls[|calls| - 1];
      if last.ToDecoder() then front else front + [last]
  }

  lemma CallbacksAppend(calls: seq<Call>, c: Call)
    ensures Callbacks(calls + [c]) == Callbacks(calls) + if c.ToDecoder() then [] else [c]
  {
    assert (calls + [c])[..|calls|] == calls;
    assert Callbacks(calls) + [] == Callbacks(calls);
  }

  // ---------- The reference: the callbacks as a function of what reached the stream ----------

  function LocalAttempts(headers: ResponseHeaders): int {
    if headers.attemptCount.Some? then ToInt32(headers.attemptCount.value) else -1
  }

  function LocalError(headers: ResponseHeaders, message: Bytes): Call {
    OnError(LocalErrorCode(headers), message, LocalAttempts(headers))
  }

  /** Pass-through of what follows the headers of an ordinary response. */
  function PassOn(cause: Cause): seq<Call> {
    match cause
    case Headers(headers, end) => [OnHeaders(headers, end)] + if end then [OnComplete] else []
    case Data(data, end) => [OnData(data, end)] + if end then [OnComplete] else []
    case Trailers(trailers) => [OnTrailers(trailers), OnComplete]
    case Reset => [OnError(StreamReset, [], -1)]
    case Cancelled => [OnCancel]
  }

  function PassAllOn(causes: seq<Cause>): seq<Call> {
    if causes == [] then [] else PassAllOn(causes[..|causes| - 1]) + PassOn(causes[|causes| - 1])
  }

  /**
   A local error reply yields a single error unless trailers follow its headers, which are passed on and complete it;
   any other response is passed on event by event.
   */
  function Expected(causes: seq<Cause>): seq<Call> {
    if causes == [] || !causes[0].Headers? || !IsLocalError(causes[0].headers) then PassAllOn(causes)
    else if causes[0].endStream then [LocalError(causes[0].headers, [])]
    else if |causes| == 1 then []
    else
      match causes[1]
      case Data(data, _) => [LocalError(causes[0].headers, data)]
      case Trailers(trailers) => [OnTrailers(trailers), OnComplete]
      case Cancelled => [OnCancel]
      case _ => [LocalError(causes[0].headers, [])]
  }

  /** Response order: headers once and first. */
  predicate Ordered(causes: seq<Cause>) {
    forall k :: 0 <= k < |causes| ==>
      (causes[k].Headers? ==> k == 0) && (k == 0 ==> !causes[k].Data? && !causes[k].Trailers?)
  }

  /** A local error reply is a single error exactly when it ends there, or neither trailers nor a cancellation follow. */
  lemma SingleErrorExactly(causes: seq<Cause>)
    requires causes != [] && causes[0].Headers? && IsLocalError(causes[0].headers)
    ensures |Expected(causes)| == 1 && Expected(causes)[0].OnError? <==>
            causes[0].endStream || (|causes| > 1 && !causes[1].Trailers? && !causes[1].Cancelled?)
  {
  }

  // ---------- Outcomes ----------

  datatype Verdict = Success | Failure | Cancellation

  function LastHeadersAre2xx(causes: seq<Cause>): bool {
    if causes == [] then false
    else
      var last := causes[|causes| - 1];
      if last.Headers? then Is2xx(last.headers.status) else LastHeadersAre2xx(causes[..|causes| - 1])
  }

  predicate HasLocalError(causes: seq<Cause>) {
    exists c :: c in causes && c.Headers? && IsLocalError(c.headers)
  }

  /** A response that runs to its end succeeds when its status is 2xx; errors and resets fail. */
  function VerdictOf(causes: seq<Cause>): Verdict {
    if causes == [] then Failure
    else
      var last := causes[|causes| - 1];
      if last.Cancelled? then Cancellation
      else if last.Reset? then Failure
      else if last.Data? && HasLocalError(causes) then Failure
      else if LastHeadersAre2xx(causes) then Success
      else Failure
  }

  function Count(finished: seq<Handle>, causes: seq<(Handle, Cause)>, v: Verdict): nat {
    if finished == [] then 0
    else
      Count(finished[..|finished| - 1], causes, v) +
      if VerdictOf(Of(causes, finished[|finished| - 1])) == v then 1 else 0
  }

  lemma {:induction false} CountFrame(finished: seq<Handle>, causes: seq<(Handle, Cause)>, h: Handle, c: Cause, v: Verdict)
    requires h !in finished
    ensures Count(finished, causes + [(h, c)], v) == Count(finished, causes, v)
  {
    if finished != [] {
      CountFrame(finished[..|finished| - 1], causes, h, c, v);
      var x := finished[|finished| - 1];
      OfAppend(causes, h, c, x);
      assert Of(causes, x) + [] == Of(causes, x);
    }
  }

  // ---------- The invariant ----------

  predicate Tracks(b: Bookkeeping, causes: seq<Cause>) {
    if causes == [] then b == FRESH
    else if !causes[0].Headers? || causes[0].endStream then false
    else if IsLocalError(causes[0].headers) then
      |causes| == 1 && b.errorMessage.None? &&
      b.errorCode == Some(LocalErrorCode(causes[0].headers)) &&
      b.attemptCount.GetOr(-1) == LocalAttempts(causes[0].headers)
    else b.errorCode.None? && b.errorMessage.None? && b.attemptCount.None?
  }

  ghost predicate StreamTold(w: World, h: Handle) {
    var causes := Of(w.causes, h);
    && (Ordered(causes) ==> Callbacks(Of(w.log, h)) == Expected(causes))
    && (h in w.streams ==>
          && w.streams[h].success == LastHeadersAre2xx(causes)
          && w.streams[h].errorCode.Some? == HasLocalError(causes)
          && (Ordered(causes) ==> Tracks(w.streams[h], causes)))
    && (Start(h) !in w.executed ==> causes == [])
  }

  predicate Counted(w: World) {
    && w.stats.success == Count(Finished(w), w.causes, Success)
    && w.stats.failure == Count(Finished(w), w.causes, Failure)
    && w.stats.cancel == Count(Finished(w), w.causes, Cancellation)
  }

  ghost predicate Told(w: World) {
    Counted(w) && forall h :: StreamTold(w, h)
  }

  /** From w to w', one cause reached live stream h and led to some calls; all else stayed. */
  ghost predicate Reached(w: World, w': World, h: Handle, c: Cause, calls: seq<Call>) {
    && h in w.streams && w'.causes == w.causes + [(h, c)] && w'.executed == w.executed
    && (forall x :: Callbacks(Of(w'.log, x)) == Callbacks(Of(w.log, x)) + if x == h then calls else [])
    && (forall x :: x != h ==> (x in w'.streams <==> x in w.streams))
    && (forall x :: x != h && x in w.streams && x in w'.streams ==> w'.streams[x] == w.streams[x])
    && Finished(w') == Finished(w) + if h in w'.streams then [] else [h]
  }

  function Bump(s: Stats, v: Verdict): Stats {
    match v
    case Success => s.(success := s.success + 1)
    case Failure => s.(failure := s.failure + 1)
    case Cancellation => s.(cancel := s.cancel + 1)
  }

  /** What the event must have done to its own stream and to the counters. */
  ghost predicate Consistent(w: World, w': World, h: Handle, c: Cause, calls: seq<Call>) {
    var causes := Of(w.causes, h) + [c];
    && (Ordered(causes) ==> Expected(causes) == Expected(Of(w.causes, h)) + calls)
    && (h in w'.streams ==>
          && w'.streams[h].success == LastHeadersAre2xx(causes)
          && w'.streams[h].errorCode.Some? == HasLocalError(causes)
          && (Ordered(causes) ==> Tracks(w'.streams[h], causes)))
    && w'.stats == if h in w'.streams then w.stats else Bump(w.stats, VerdictOf(causes))
  }

  lemma OrderedPrefix(causes: seq<Cause>, c: Cause)
    requires Ordered(causes + [c])
    ensures Ordered(causes)
  {
    assert forall k :: 0 <= k < |causes| ==> (causes + [c])[k] == causes[k];
  }

  lemma OtherToldKept(w: World, w': World, h: Handle, c: Cause, calls: seq<Call>, x: Handle)
    requires Reached(w, w', h, c, calls) && StreamTold(w, x) && x != h
    ensures StreamTold(w', x)
  {
    OfAppend(w.causes, h, c, x);
    assert Of(w.causes, x) + [] == Of(w.causes, x);
    assert Callbacks(Of(w.log, x)) + [] == Callbacks(Of(w.log, x));
    hide Expected, Ordered, Tracks, LastHeadersAre2xx, HasLocalError, Callbacks;
  }

  lemma OwnToldKept(w: World, w': World, h: Handle, c: Cause, calls: seq<Call>)
    requires Reached(w, w', h, c, calls) && StreamTold(w, h) && Consistent(w, w', h, c, calls)
    requires Start(h) in w.executed
    ensures StreamTold(w', h)
  {
    hide Expected, Ordered, Tracks, LastHeadersAre2xx, HasLocalError, Callbacks;
    OfAppend(w.causes, h, c, h);
    var causes := Of(w.causes, h) + [c];
    assert Of(w'.causes, h) == causes;
    if Ordered(causes) {
      OrderedPrefix(Of(w.causes, h), c);
    }
  }

  lemma ReachedKeeps(w: World, w': World, h: Handle, c: Cause, calls: seq<Call>)
    requires Inv(w) && Told(w) && Reached(w, w', h, c, calls) && Consistent(w, w', h, c, calls)
    ensures Told(w')
  {
    hide Expected, Ordered, Tracks, LastHeadersAre2xx, HasLocalError, Callbacks, VerdictOf, Count;
    assert StreamOk(w, h) && StreamTold(w, h);
    forall x ensures StreamTold(w', x) {
      assert StreamTold(w, x);
      if x == h {
        OwnToldKept(w, w', h, c, calls);
      } else {
        OtherToldKept(w, w', h, c, calls, x);
      }
    }
    OfAppend(w.causes, h, c, h);
    CountsKept(w, w', h, c);
  }

  lemma CountsKept(w: World, w': World, h: Handle, c: Cause)
    requires h !in Finished(w) && Counted(w) && w'.causes == w.causes + [(h, c)]
    requires Finished(w') == Finished(w) + if h in w'.streams then [] else [h]
    requires w'.stats == if h in w'.streams then w.stats else Bump(w.stats, VerdictOf(Of(w'.causes, h)))
    ensures Counted(w')
  {
    hide VerdictOf, Of;
    var f := Finished(w);
    CountFrame(f, w.causes, h, c, Success);
    CountFrame(f, w.causes, h, c, Failure);
    CountFrame(f, w.causes, h, c, Cancellation);
    if h in w'.streams {
      assert Finished(w') == f;
    } else {
      assert Finished(w')[..|f|] == f;
    }
  }

  // ---------- Each event ----------

  lemma HistoryAppend(causes: seq<Cause>, c: Cause)
    ensures LastHeadersAre2xx(causes + [c]) ==
            if c.Headers? then Is2xx(c.headers.status) else LastHeadersAre2xx(causes)
    ensures HasLocalError(causes + [c]) == (HasLocalError(causes) || (c.Headers? && IsLocalError(c.headers)))
    ensures PassAllOn(causes + [c]) == PassAllOn(causes) + PassOn(c)
  {
    assert (causes + [c])[..|causes|] == causes;
    assert forall k :: 0 <= k < |causes| ==> (causes + [c])[k] == causes[k];
    assert (causes + [c])[|causes|] == c;
  }

  /** The calls that the next cause leads to, given the bookkeeping so far. */
  function NextCalls(b: Bookkeeping, c: Cause): seq<Call> {
    match c
    case Headers(headers, end) =>
      if !IsLocalError(headers) then PassOn(c)
      else if end then
        var m := MapLocalResponse(b, headers);
        [OnError(LocalErrorCode(headers), m.errorMessage.GetOr([]), m.attemptCount.GetOr(-1))]
      else []
    case Data(data, _) =>
      if b.errorCode.Some? then [OnError(b.errorCode.value, data, b.attemptCount.GetOr(-1))] else PassOn(c)
    case Reset => [OnError(b.errorCode.GetOr(StreamReset), b.errorMessage.GetOr([]), b.attemptCount.GetOr(-1))]
    case _ => PassOn(c)
  }

  lemma ExpectedAppend(b: Bookkeeping, causes: seq<Cause>, c: Cause)
    requires Ordered(causes + [c]) && Tracks(b, causes)
    ensures Expected(causes + [c]) == Expected(causes) + NextCalls(b, c)
    ensures c.Headers? ==> causes == []
  {
    if causes == [] {
      FirstExpected(c);
    } else {
      assert (causes + [c])[|causes|] == c;
      if IsLocalError(causes[0].headers) {
        LocalExpected(b, causes, c);
      } else {
        HistoryAppend(causes, c);
        hide PassAllOn, Ordered;
        assert (causes + [c])[0] == causes[0];
      }
    }
  }

  lemma PassOneOn(c: Cause)
    ensures PassAllOn([c]) == PassOn(c)
  {
    hide PassOn;
    assert [c][..0] == [];
    assert [] + PassOn(c) == PassOn(c);
  }

  lemma FirstExpected(c: Cause)
    requires !c.Data? && !c.Trailers?
    ensures Expected([] + [c]) == Expected([]) + NextCalls(FRESH, c)
  {
    assert [] + [c] == [c];
    PassOneOn(c);
    assert Expected([]) == [] by { assert PassAllOn([]) == []; }
    assert [] + NextCalls(FRESH, c) == NextCalls(FRESH, c);
    hide PassAllOn;
    if c.Headers? && IsLocalError(c.headers) {
      FirstLocalExpected(c);
    } else {
      assert NextCalls(FRESH, c) == PassOn(c) == Expected([c]);
    }
  }

  lemma FirstLocalExpected(c: Cause)
    requires c.Headers? && IsLocalError(c.headers)
    ensures Expected([c]) == NextCalls(FRESH, c)
  {
    hide PassAllOn, PassOn;
  }

  lemma LocalExpected(b: Bookkeeping, causes: seq<Cause>, c: Cause)
    requires Ordered(causes + [c]) && Tracks(b, causes)
    requires causes != [] && IsLocalError(causes[0].headers)
    ensures Expected(causes + [c]) == Expected(causes) + NextCalls(b, c)
  {
    var all := causes + [c];
    assert all[0] == causes[0] && all[1] == c && |all| == 2;
  }

  lemma EmitTold(w: World, h: Handle, call: Call, x: Handle)
    ensures Callbacks(Of(Emit(w, h, call).log, x)) ==
            Callbacks(Of(w.log, x)) + if x == h && !call.ToDecoder() then [call] else []
  {
    OfAppend(w.log, h, call, x);
    CallbacksAppend(Of(w.log, x), call);
    assert Of(w.log, x) + [] == Of(w.log, x) && Callbacks(Of(w.log, x)) + [] == Callbacks(Of(w.log, x));
  }

  lemma FinishedAppend(w: World, h: Handle)
    ensures Finished(Remove(w, h)) == Finished(w) + [h]
  {
  }

  lemma ReachedQuietly(w: World, w': World, h: Handle, c: Cause)
    requires h in w.streams && w' == Note(w, h, c).(streams := w'.streams) && w'.streams.Keys == w.streams.Keys
    requires forall x :: x != h && x in w.streams ==> w'.streams[x] == w.streams[x]
    ensures Reached(w, w', h, c, [])
  {
    forall x ensures Callbacks(Of(w.log, x)) == Callbacks(Of(w.log, x)) + if x == h then [] else [] {
      assert Callbacks(Of(w.log, x)) + [] == Callbacks(Of(w.log, x));
    }
    assert Finished(w) + [] == Finished(w);
  }

  lemma ReachedWithCall(w: World, v: World, h: Handle, c: Cause, calls: seq<Call>, call: Call, stats: Stats)
    requires Reached(w, v, h, c, calls) && !call.ToDecoder()
    ensures Reached(w, Emit(v.(stats := stats), h, call), h, c, calls + [call])
  {
    var w' := Emit(v.(stats := stats), h, call);
    forall x ensures Callbacks(Of(w'.log, x)) == Callbacks(Of(w.log, x)) + if x == h then calls + [call] else [] {
      EmitTold(v, h, call, x);
      assert Callbacks(Of(v.log, x)) + [] == Callbacks(Of(v.log, x));
      assert Callbacks(Of(w.log, x)) + calls + [call] == Callbacks(Of(w.log, x)) + (calls + [call]);
    }
  }

  lemma ReachedByRemoval(w: World, h: Handle, c: Cause)
    requires h in w.streams
    ensures Reached(w, Remove(Note(w, h, c), h), h, c, [])
  {
    forall x ensures Callbacks(Of(w.log, x)) == Callbacks(Of(w.log, x)) + [] {
    }
    FinishedAppend(Note(w, h, c), h);
  }

  lemma HeadersReached(w: World, h: Handle, headers: ResponseHeaders, end: bool)
    requires h in w.streams
    ensures var c := Headers(headers, end);
            Reached(w, EncodeHeadersOn(w, h, headers, end), h, c, NextCalls(w.streams[h], c))
  {
    hide Callbacks, Of, Reached;
    var c := Headers(headers, end);
    var b := w.streams[h].(success := Is2xx(headers.status));
    var b' := if IsLocalError(headers) then MapLocalResponse(b, headers) else b;
    var w', call := EncodeHeadersOn(w, h, headers, end), OnHeaders(headers, end);
    var k := Note(w, h, c).(streams := w.streams[h := b']);
    var r := Remove(Note(w, h, c), h);
    assert [] + [call] == [call] && [call] + [OnComplete] == [call, OnComplete] && [call] + [] == [call];
    if end {
      ReachedByRemoval(w, h, c);
      if IsLocalError(headers) {
        var e := NextCalls(w.streams[h], c)[0];
        assert [] + [e] == [e] == NextCalls(w.streams[h], c);
        ReachedWithCall(w, r, h, c, [], e, w'.stats);
      } else {
        ReachedWithCall(w, r, h, c, [], call, r.stats);
        ReachedWithCall(w, Emit(r, h, call), h, c, [call], OnComplete, w'.stats);
      }
    } else {
      ReachedQuietly(w, k, h, c);
      if !IsLocalError(headers) {
        ReachedWithCall(w, k, h, c, [], call, k.stats);
      }
    }
  }

  function AfterHeaders(b: Bookkeeping, headers: ResponseHeaders): Bookkeeping {
    var m := b.(success := Is2xx(headers.status));
    if IsLocalError(headers) then MapLocalResponse(m, headers) else m
  }

  lemma HeadersTracked(b: Bookkeeping, causes: seq<Cause>, headers: ResponseHeaders)
    requires causes == [] && b == FRESH
    ensures Tracks(AfterHeaders(b, headers), causes + [Headers(headers, false)])
  {
    assert causes + [Headers(headers, false)] == [Headers(headers, false)];
  }

  lemma HeadersVerdict(causes: seq<Cause>, headers: ResponseHeaders, end: bool)
    ensures VerdictOf(causes + [Headers(headers, end)]) == if Is2xx(headers.status) then Success else Failure
  {
    HistoryAppend(causes, Headers(headers, end));
  }

  lemma HeadersEffect(w: World, h: Handle, headers: ResponseHeaders, end: bool)
    requires h in w.streams
    ensures var w' := EncodeHeadersOn(w, h, headers, end);
            && (h in w'.streams <==> !end) && (!end ==> w'.streams[h] == AfterHeaders(w.streams[h], headers))
            && w'.stats == if end then Bump(w.stats, if Is2xx(headers.status) then Success else Failure) else w.stats
  {
  }

  lemma HeadersConsistent(w: World, h: Handle, headers: ResponseHeaders, end: bool)
    requires h in w.streams && StreamTold(w, h)
    ensures var c := Headers(headers, end);
            Consistent(w, EncodeHeadersOn(w, h, headers, end), h, c, NextCalls(w.streams[h], c))
  {
    var b, c, causes := w.streams[h], Headers(headers, end), Of(w.causes, h);
    HeadersEffect(w, h, headers, end);
    hide Callbacks, Of, Expected, NextCalls, EncodeHeadersOn, Bump, VerdictOf, LastHeadersAre2xx, HasLocalError;
    HistoryAppend(causes, c);
    HeadersVerdict(causes, headers, end);
    if Ordered(causes + [c]) {
      OrderedPrefix(causes, c);
      ExpectedAppend(b, causes, c);
      HeadersTracked(b, causes, headers);
    }
    hide Ordered, Tracks;
  }

  lemma HeadersTold(w: World, h: Handle, headers: ResponseHeaders, end: bool)
    requires Inv(w) && Told(w) && h in w.streams
    ensures Told(EncodeHeadersOn(w, h, headers, end))
  {
    assert StreamTold(w, h);
    hide *;
    var c := Headers(headers, end);
    HeadersReached(w, h, headers, end);
    HeadersConsistent(w, h, headers, end);
    ReachedKeeps(w, EncodeHeadersOn(w, h, headers, end), h, c, NextCalls(w.streams[h], c));
  }

  lemma DataReached(w: World, h: Handle, data: Bytes, end: bool)
    requires h in w.streams && (w.streams[h].errorCode.Some? ==> end)
    ensures var c := Data(data, end);
            Reached(w, EncodeDataOn(w, h, data, end), h, c, NextCalls(w.streams[h], c))
  {
    hide Callbacks, Of, Reached;
    var c, d, b, w' := Data(data, end), OnData(data, end), w.streams[h], EncodeDataOn(w, h, data, end);
    var r := if end then Remove(Note(w, h, c), h) else Note(w, h, c);
    assert [] + [d] == [d] && [d] + [OnComplete] == [d, OnComplete] && [d] + [] == [d];
    if end {
      ReachedByRemoval(w, h, c);
    } else {
      ReachedQuietly(w, r, h, c);
    }
    if b.errorCode.Some? {
      var e := NextCalls(b, c)[0];
      assert [] + [e] == [e];
      ReachedWithCall(w, r, h, c, [], e, w'.stats);
    } else {
      ReachedWithCall(w, r, h, c, [], d, r.stats);
      if end {
        ReachedWithCall(w, Emit(r, h, d), h, c, [d], OnComplete, w'.stats);
      }
    }
  }

  lemma DataVerdict(b: Bookkeeping, causes: seq<Cause>, c: Cause)
    requires c.Data? && b.success == LastHeadersAre2xx(causes) && b.errorCode.Some? == HasLocalError(causes)
    ensures VerdictOf(causes + [c]) == if b.errorCode.None? && b.success then Success else Failure
  {
    HistoryAppend(causes, c);
  }

  lemma DataTracked(b: Bookkeeping, causes: seq<Cause>, c: Cause)
    requires Ordered(causes + [c]) && Tracks(b, causes) && c.Data? && b.errorCode.None?
    ensures Tracks(b, causes + [c])
  {
    assert (causes + [c])[0] == if causes == [] then c else causes[0];
  }

  lemma DataEffect(w: World, h: Handle, data: Bytes, end: bool)
    requires h in w.streams && (w.streams[h].errorCode.Some? ==> end)
    ensures var w', b := EncodeDataOn(w, h, data, end), w.streams[h];
            && (h in w'.streams <==> !end) && (!end ==> w'.streams[h] == b)
            && w'.stats ==
               if end then Bump(w.stats, if b.errorCode.None? && b.success then Success else Failure) else w.stats
  {
  }

  lemma DataConsistent(w: World, h: Handle, data: Bytes, end: bool)
    requires h in w.streams && StreamTold(w, h) && (w.streams[h].errorCode.Some? ==> end)
    ensures var c := Data(data, end);
            Consistent(w, EncodeDataOn(w, h, data, end), h, c, NextCalls(w.streams[h], c))
  {
    var b, c, causes := w.streams[h], Data(data, end), Of(w.causes, h);
    DataEffect(w, h, data, end);
    hide Callbacks, Of, Expected, NextCalls, EncodeDataOn, Bump, VerdictOf, LastHeadersAre2xx, HasLocalError;
    HistoryAppend(causes, c);
    DataVerdict(b, causes, c);
    if Ordered(causes + [c]) {
      OrderedPrefix(causes, c);
      ExpectedAppend(b, causes, c);
      if b.errorCode.None? {
        DataTracked(b, causes, c);
      }
    }
    hide Ordered, Tracks;
  }

  lemma DataTold(w: World, h: Handle, data: Bytes, end: bool)
    requires Inv(w) && Told(w) && h in w.streams && (w.streams[h].errorCode.Some? ==> end)
    ensures Told(EncodeDataOn(w, h, data, end))
  {
    assert StreamTold(w, h);
    hide *;
    var c := Data(data, end);
    DataReached(w, h, data, end);
    DataConsistent(w, h, data, end);
    ReachedKeeps(w, EncodeDataOn(w, h, data, end), h, c, NextCalls(w.streams[h], c));
  }

  /** A cause that takes the stream out of the map with one or two calls. */
  function Removal(w: World, h: Handle, c: Cause, stats: Stats, calls: seq<Call>): World
    requires 1 <= |calls| <= 2
  {
    var r := Remove(Note(w, h, c), h);
    if |calls| == 1 then Emit(r.(stats := stats), h, calls[0])
    else Emit(Emit(r, h, calls[0]).(stats := stats), h, calls[1])
  }

  lemma RemovalReached(w: World, h: Handle, c: Cause, stats: Stats, calls: seq<Call>)
    requires h in w.streams && 1 <= |calls| <= 2 && forall k :: 0 <= k < |calls| ==> !calls[k].ToDecoder()
    ensures Reached(w, Removal(w, h, c, stats, calls), h, c, calls)
  {
    hide Callbacks, Of, Reached;
    var r := Remove(Note(w, h, c), h);
    ReachedByRemoval(w, h, c);
    assert [] + [calls[0]] == [calls[0]];
    if |calls| == 1 {
      ReachedWithCall(w, r, h, c, [], calls[0], stats);
      assert calls == [calls[0]];
    } else {
      ReachedWithCall(w, r, h, c, [], calls[0], r.stats);
      ReachedWithCall(w, Emit(r, h, calls[0]), h, c, [calls[0]], calls[1], stats);
      assert calls == [calls[0]] + [calls[1]];
    }
  }

  lemma RemovalConsistent(w: World, h: Handle, c: Cause, stats: Stats)
    requires h in w.streams && StreamTold(w, h) && !c.Headers? && !c.Data?
    requires stats == Bump(w.stats, VerdictOf(Of(w.causes, h) + [c]))
    requires var calls := NextCalls(w.streams[h], c); 1 <= |calls| <= 2
    ensures var calls := NextCalls(w.streams[h], c);
            Consistent(w, Removal(w, h, c, stats, calls), h, c, calls)
  {
    var causes := Of(w.causes, h);
    hide Callbacks, Of, VerdictOf, Bump, LastHeadersAre2xx, HasLocalError;
    if Ordered(causes + [c]) {
      OrderedPrefix(causes, c);
      ExpectedAppend(w.streams[h], causes, c);
    }
    hide Expected, Ordered, NextCalls;
  }

  lemma RemovalTold(w: World, h: Handle, c: Cause, stats: Stats)
    requires Inv(w) && Told(w) && h in w.streams && !c.Headers? && !c.Data?
    requires stats == Bump(w.stats, VerdictOf(Of(w.causes, h) + [c]))
    requires var calls := NextCalls(w.streams[h], c);
             1 <= |calls| <= 2 && forall k :: 0 <= k < |calls| ==> !calls[k].ToDecoder()
    ensures Told(Removal(w, h, c, stats, NextCalls(w.streams[h], c)))
  {
    assert StreamTold(w, h);
    hide *;
    var calls := NextCalls(w.streams[h], c);
    RemovalReached(w, h, c, stats, calls);
    RemovalConsistent(w, h, c, stats);
    ReachedKeeps(w, Removal(w, h, c, stats, calls), h, c, calls);
  }

  lemma EndVerdict(b: Bookkeeping, causes: seq<Cause>, c: Cause)
    requires c.Trailers? && b.success == LastHeadersAre2xx(causes)
    ensures VerdictOf(causes + [c]) == if b.success then Success else Failure
  {
    HistoryAppend(causes, c);
  }

  lemma TrailersTold(w: World, h: Handle, trailers: Fields)
    requires Inv(w) && Told(w) && h in w.streams
    ensures Told(EncodeTrailersOn(w, h, trailers))
  {
    var w', c := EncodeTrailersOn(w, h, trailers), Trailers(trailers);
    assert StreamTold(w, h);
    EndVerdict(w.streams[h], Of(w.causes, h), c);
    hide Callbacks, Of, Told, Inv, StreamTold, LastHeadersAre2xx, HasLocalError, VerdictOf;
    assert w' == Removal(w, h, c, w'.stats, NextCalls(w.streams[h], c));
    RemovalTold(w, h, c, w'.stats);
  }

  lemma ResetTold(w: World, h: Handle)
    requires Inv(w) && Told(w)
    ensures Told(FinishReset(w, h))
  {
    if h in w.streams {
      CutShortVerdict(Of(w.causes, h), Reset);
      hide Callbacks, Of, Told, Inv, VerdictOf;
      RemovalTold(w, h, Reset, FinishReset(w, h).stats);
    }
  }

  lemma CutShortVerdict(causes: seq<Cause>, c: Cause)
    requires c.Reset? || c.Cancelled?
    ensures VerdictOf(causes + [c]) == if c.Reset? then Failure else Cancellation
  {
  }

  lemma CancelTold(w: World, h: Handle)
    requires Inv(w) && Told(w)
    ensures Told(Execute(w, Cancel(h)))
  {
    if h in w.streams {
      CutShortVerdict(Of(w.causes, h), Cancelled);
      hide Callbacks, Of, Told, Inv, VerdictOf;
      RemovalTold(w, h, Cancelled, Execute(w, Cancel(h)).stats);
    }
  }

  /** Steps in which nothing reaches a stream. */
  lemma UntouchedKeeps(w: World, w': World)
    requires Told(w) && w'.streams == w.streams && w'.causes == w.causes && w'.stats == w.stats
    requires Finished(w') == Finished(w)
    requires forall x :: Start(x) in w.executed ==> Start(x) in w'.executed
    requires forall x :: Callbacks(Of(w'.log, x)) == Callbacks(Of(w.log, x))
    ensures Told(w')
  {
    forall x ensures StreamTold(w', x) {
      assert StreamTold(w, x);
    }
  }

  lemma StartTold(w: World)
    requires Inv(w) && Told(w) && w.loop != [] && w.loop[0].Start?
    ensures Told(Execute(Dequeue(w), w.loop[0]))
  {
    var h, w' := w.loop[0].handle, Execute(Dequeue(w), w.loop[0]);
    NextOpIsPosted(w);
    assert StreamOk(w, h) && StreamTold(w, h);
    forall x ensures StreamTold(w', x) {
      assert StreamTold(w, x);
      assert Start(x) in w.executed ==> Start(x) in w'.executed;
    }
  }

  lemma ExecuteTold(w: World)
    requires Inv(w) && Told(w) && w.loop != []
    ensures Told(Execute(Dequeue(w), w.loop[0]))
  {
    var op, d := w.loop[0], Dequeue(w);
    match op {
      case Start(h) => StartTold(w);
      case Send(h, call) =>
        var w' := Execute(d, op);
        forall x ensures Callbacks(Of(w'.log, x)) == Callbacks(Of(w.log, x)) {
          EmitTold(w, h, call, x);
          assert Callbacks(Of(w.log, x)) + [] == Callbacks(Of(w.log, x));
        }
        UntouchedKeeps(w, w');
      case Cancel(h) =>
        UntouchedKeeps(w, d);
        DequeueKeeps(w);
        CancelTold(d, h);
    }
  }

  // ---------- Every event and every run ----------

  lemma {:induction false} ExecTold(w: World, ev: Event)
    requires Inv(w) && Told(w) && Legal(w, ev)
    ensures Told(Exec(w, ev))
    decreases ev, 1
  {
    match ev
    case RunNext(inner) =>
      ExecuteTold(w);
      ExecuteKeeps(w);
      ExecAllTold(Execute(Dequeue(w), w.loop[0]), inner);
    case EncodeHeaders(h, headers, end) => HeadersTold(w, h, headers, end);
    case EncodeData(h, data, end) => DataTold(w, h, data, end);
    case EncodeTrailers(h, trailers) => TrailersTold(w, h, trailers);
    case ResetStream(h, inner) =>
      ExecAllTold(w, inner);
      ExecAllKeeps(w, inner);
      ResetTold(ExecAll(w, inner), h);
    case ClearDeferred =>
      assert Finished(Clear(w)) == Finished(w);
      UntouchedKeeps(w, Clear(w));
    case _ => UntouchedKeeps(w, Exec(w, ev));
  }

  lemma {:induction false} ExecAllTold(w: World, evs: seq<Event>)
    requires Inv(w) && Told(w) && LegalAll(w, evs)
    ensures Told(ExecAll(w, evs))
    decreases evs, 0
  {
    if evs != [] {
      ExecTold(w, evs[0]);
      ExecKeeps(w, evs[0]);
      ExecAllTold(Exec(w, evs[0]), evs[1..]);
    }
  }

  lemma {:induction false} RunTold(w: World, evs: seq<Event>)
    requires Inv(w) && Told(w) && LegalRun(w, evs)
    ensures Told(Run(w, evs))
    decreases |evs|
  {
    if evs != [] {
      ExecTold(w, evs[0]);
      ExecKeeps(w, evs[0]);
      RunTold(Exec(w, evs[0]), evs[1..]);
    }
  }

  /**
   In every run, what the platform was told about a stream is the reference function of what reached it: a local
   error reply gives one error with its code, body and attempt count, unless trailers or a cancellation follow its
   headers; any other response is passed on event by event and closed by completion, or cut short by the reset error
   or the cancellation.
   */
  lemma CallbackLogRefines(evs: seq<Event>, h: Handle)
    requires LegalRun(EMPTY, evs) && Ordered(Of(Run(EMPTY, evs).causes, h))
    ensures var w := Run(EMPTY, evs);
            Callbacks(Of(w.log, h)) == Expected(Of(w.causes, h))
  {
    EmptyInv();
    assert Told(EMPTY);
    RunTold(EMPTY, evs);
    assert StreamTold(Run(EMPTY, evs), h);
  }

  /** In every run, each counter is the number of finished streams with that verdict. */
  lemma CountersCountVerdicts(evs: seq<Event>)
    requires LegalRun(EMPTY, evs)
    ensures var w := Run(EMPTY, evs);
            && w.stats.success == Count(w.deleted + w.deferred, w.causes, Success)
            && w.stats.failure == Count(w.deleted + w.deferred, w.causes, Failure)
            && w.stats.cancel == Count(w.deleted + w.deferred, w.causes, Cancellation)
  {
    EmptyInv();
    assert Told(EMPTY);
    RunTold(EMPTY, evs);
  }

  // ---------- What a status code means to the platform ----------

  /** The attempt count, an unsigned number stored in 32 bits with sign, or -1 when there is none. */
  function AttemptsTold(count: Option<UInt32>): int {
    match count
    case None => -1
    case Some(n) => if n <= 2147483647 then n else n - 4294967296
  }

  /**
   In every run: a reply outside 200 to 299 without the upstream-service-time header is told as one error, a connection
   failure if its status is 503 and an undefined error otherwise, with its body and attempt count.
   */
  lemma LocalReplyIsTold(evs: seq<Event>, h: Handle)
    requires LegalRun(EMPTY, evs)
    requires var causes := Of(Run(EMPTY, evs).causes, h);
             && Ordered(causes) && causes != [] && causes[0].Headers?
             && (causes[0].headers.status < 200 || causes[0].headers.status > 299)
             && !causes[0].headers.hasUpstreamServiceTime
    ensures var w := Run(EMPTY, evs);
            var causes, told := Of(w.causes, h), Callbacks(Of(w.log, h));
            var code := if causes[0].headers.status == 503 then ConnectionFailure else UndefinedError;
            var attempts := AttemptsTold(causes[0].headers.attemptCount);
            if causes[0].endStream then told == [OnError(code, [], attempts)]
            else if |causes| == 1 then told == []
            else
              match causes[1]
              case Data(data, _) => told == [OnError(code, data, attempts)]
              case Trailers(trailers) => told == [OnTrailers(trailers), OnComplete]
              case Cancelled => told == [OnCancel]
              case _ => told == [OnError(code, [], attempts)]
  {
    CallbackLogRefines(evs, h);
  }

  /** In every run: a reply from 200 to 299, or one with that header, is told event by event, resets as stream resets. */
  lemma OrdinaryReplyIsTold(evs: seq<Event>, h: Handle)
    requires LegalRun(EMPTY, evs)
    requires var causes := Of(Run(EMPTY, evs).causes, h);
             && Ordered(causes) && causes != []
             && (causes[0].Headers? ==>
                   200 <= causes[0].headers.status <= 299 || causes[0].headers.hasUpstreamServiceTime)
    ensures var w := Run(EMPTY, evs);
            Callbacks(Of(w.log, h)) == PassAllOn(Of(w.causes, h))
  {
    CallbackLogRefines(evs, h);
  }

  lemma {:induction false} OnlyFirstHasHeaders(causes: seq<Cause>)
    requires Ordered(causes) && causes != [] && causes[0].Headers?
    ensures LastHeadersAre2xx(causes) <==> 200 <= causes[0].headers.status <= 299
    ensures HasLocalError(causes) <==> IsLocalError(causes[0].headers)
  {
    if |causes| > 1 {
      var front := causes[..|causes| - 1];
      OnlyFirstHasHeaders(front);
      assert causes == front + [causes[|causes| - 1]];
      HistoryAppend(front, causes[|causes| - 1]);
    } else {
      assert causes == [causes[0]] && causes[..0] == [];
      assert causes[0] in causes;
    }
  }

  /** A response that ran to its end counts as a success exactly when its status is from 200 to 299. */
  lemma OutcomeOfResponse(causes: seq<Cause>)
    requires Ordered(causes) && causes != [] && causes[0].Headers?
    ensures var last := causes[|causes| - 1];
            VerdictOf(causes) ==
            if last.Cancelled? then Cancellation
            else if !last.Reset? && 200 <= causes[0].headers.status <= 299 then Success
            else Failure
  {
    OnlyFirstHasHeaders(causes);
    hide LastHeadersAre2xx, HasLocalError, Ordered;
  }
}
