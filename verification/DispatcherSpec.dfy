/**
 The HTTP dispatcher's streams as values: what each closure, encode call and reset does to the stream map, the
 error and success bookkeeping, the counters, the deferred deletions, and the calls made to the platform and to
 the request decoder.
 */
module DispatcherSpec {
  import opened Wrappers

  type Handle = int

  type Fields = seq<(Bytes, Bytes)>

  /** attemptCount is the value of the attempt-count header when it parses as an unsigned 32-bit integer. */
  datatype ResponseHeaders =
    ResponseHeaders(status: nat, hasUpstreamServiceTime: bool, attemptCount: Option<UInt32>, fields: Fields)

  datatype ErrorCode = UndefinedError | StreamReset | ConnectionFailure

  /** Calls made on behalf of one stream: to the platform's callbacks, and to the request decoder. */
  datatype Call =
    | OnHeaders(headers: ResponseHeaders, endStream: bool)
    | OnData(data: Bytes, endStream: bool)
    | OnTrailers(trailers: Fields)
    | OnComplete
    | OnError(code: ErrorCode, message: Bytes, attempts: int)
    | OnCancel
    | DecodeHeaders(requestHeaders: Fields, endStream: bool)
    | DecodeData(requestData: Bytes, endStream: bool)
    | DecodeTrailers(requestTrailers: Fields)
  {
    predicate Terminal() {
      OnComplete? || OnError? || OnCancel?
    }

    predicate ToDecoder() {
      DecodeHeaders? || DecodeData? || DecodeTrailers?
    }
  }

  type RequestCall = c: Call | c.ToDecoder() witness DecodeTrailers([])

  /** Closures posted by the platform. */
  datatype Op =
    | Start(handle: Handle)
    | Send(handle: Handle, request: RequestCall)
    | Cancel(handle: Handle)

  /** Bookkeeping of one stream's callbacks object. */
  datatype Bookkeeping =
    Bookkeeping(errorCode: Option<ErrorCode>, errorMessage: Option<Bytes>, attemptCount: Option<int>, success: bool)

  const FRESH := Bookkeeping(None, None, None, false)

  /** What reached a live stream from the connection manager or from a cancellation. */
  datatype Cause =
    | Headers(headers: ResponseHeaders, endStream: bool)
    | Data(data: Bytes, endStream: bool)
    | Trailers(trailers: Fields)
    | Reset
    | Cancelled

  datatype Stats = Stats(success: nat, failure: nat, cancel: nat)

  /** posted, executed and causes are histories; the rest is the dispatcher, its event loop and its callers' logs. */
  datatype World = World(
    ready: bool, initQueue: seq<Op>, loop: seq<Op>, streams: map<Handle, Bookkeeping>,
    deferred: seq<Handle>, deleted: seq<Handle>, stats: Stats, log: seq<(Handle, Call)>,
    posted: seq<Op>, executed: seq<Op>, causes: seq<(Handle, Cause)>)

  const EMPTY := World(false, [], [], map[], [], [], Stats(0, 0, 0), [], [], [], [])

  /** Events on the loop thread and posts from any thread. inner is what runs while reset callbacks run. */
  datatype Event =
    | Post(op: Op)
    | Ready
    | RunNext(inner: seq<Event>)
    | EncodeHeaders(handle: Handle, headers: ResponseHeaders, endStream: bool)
    | EncodeData(handle: Handle, data: Bytes, endStream: bool)
    | EncodeTrailers(handle: Handle, trailers: Fields)
    | ResetStream(handle: Handle, inner: seq<Event>)
    | ClearDeferred

  predicate Is2xx(status: nat) {
    200 <= status < 300
  }

  /** A reply made up by the local proxy: not successful, and without the upstream-service-time header. */
  predicate IsLocalError(headers: ResponseHeaders) {
    !Is2xx(headers.status) && !headers.hasUpstreamServiceTime
  }

  function LocalErrorCode(headers: ResponseHeaders): ErrorCode {
    if headers.status == 503 then ConnectionFailure else UndefinedError
  }

  /** An unsigned 32-bit count stored in a signed 32-bit field. */
  function ToInt32(n: UInt32): int {
    if n < 0x8000_0000 then n else n - 0x1_0000_0000
  }

  function Emit(w: World, h: Handle, call: Call): World {
    w.(log := w.log + [(h, call)])
  }

  function Remove(w: World, h: Handle): World {
    w.(streams := w.streams - {h}, deferred := w.deferred + [h])
  }

  function Complete(w: World, h: Handle, b: Bookkeeping): World {
    Emit(w.(stats := if b.success then w.stats.(success := w.stats.success + 1)
                     else w.stats.(failure := w.stats.failure + 1)), h, OnComplete)
  }

  function Fail(w: World, h: Handle, b: Bookkeeping): World {
    Emit(w.(stats := w.stats.(failure := w.stats.failure + 1)), h,
         OnError(b.errorCode.GetOr(StreamReset), b.errorMessage.GetOr([]), b.attemptCount.GetOr(-1)))
  }

  function MapLocalResponse(b: Bookkeeping, headers: ResponseHeaders): Bookkeeping {
    b.(errorCode := Some(LocalErrorCode(headers)),
       attemptCount := if headers.attemptCount.Some? then Some(ToInt32(headers.attemptCount.value)) else b.attemptCount)
  }

  function Note(w: World, h: Handle, cause: Cause): World {
    w.(causes := w.causes + [(h, cause)])
  }

  function EncodeHeadersOn(w: World, h: Handle, headers: ResponseHeaders, end: bool): World
    requires h in w.streams
  {
    var n := Note(w, h, Headers(headers, end));
    var b := w.streams[h].(success := Is2xx(headers.status));
    var local := IsLocalError(headers);
    var b' := if local then MapLocalResponse(b, headers) else b;
    if end then
      var r := Remove(n, h);
      if local then Fail(r, h, b') else Complete(Emit(r, h, OnHeaders(headers, end)), h, b')
    else
      var k := n.(streams := w.streams[h := b']);
      if local then k else Emit(k, h, OnHeaders(headers, end))
  }

  function EncodeDataOn(w: World, h: Handle, data: Bytes, end: bool): World
    requires h in w.streams
  {
    var n := Note(w, h, Data(data, end));
    var b := w.streams[h];
    var r := if end then Remove(n, h) else n;
    if b.errorCode.Some? then Fail(r, h, b.(errorMessage := Some(data)))
    else
      var e := Emit(r, h, OnData(data, end));
      if end then Complete(e, h, b) else e
  }

  function EncodeTrailersOn(w: World, h: Handle, trailers: Fields): World
    requires h in w.streams
  {
    Complete(Emit(Remove(Note(w, h, Trailers(trailers)), h), h, OnTrailers(trailers)), h, w.streams[h])
  }

  /** What resetStream does once the reset callbacks have run. */
  function FinishReset(w: World, h: Handle): World {
    if h !in w.streams then w else Fail(Remove(Note(w, h, Reset), h), h, w.streams[h])
  }

  /** One closure, up to the reset callbacks that end a cancellation. */
  function Execute(w: World, op: Op): World {
    match op
    case Start(h) => if h in w.streams then w else w.(streams := w.streams[h := FRESH])
    case Send(h, call) => if h in w.streams then Emit(w, h, call) else w
    case Cancel(h) =>
      if h !in w.streams then w
      else
        var r := Remove(Note(w, h, Cancelled), h);
        Emit(r.(stats := r.stats.(cancel := r.stats.cancel + 1)), h, OnCancel)
  }

  function Dequeue(w: World): World
    requires w.loop != []
  {
    w.(loop := w.loop[1..], executed := w.executed + [w.loop[0]])
  }

  function PostOp(w: World, op: Op): World {
    var p := w.(posted := w.posted + [op]);
    if w.ready then p.(loop := w.loop + [op]) else p.(initQueue := w.initQueue + [op])
  }

  function MakeReady(w: World): World {
    w.(ready := true, loop := w.loop + w.initQueue)
  }

  function Clear(w: World): World {
    w.(deferred := [], deleted := w.deleted + w.deferred)
  }

  /** The stream object exists: it is in the map or awaits deferred deletion. */
  predicate Alive(w: World, h: Handle) {
    h in w.streams || h in w.deferred
  }

  /** What may run inside reset callbacks. */
  predicate Reentrant(ev: Event) {
    ev.Post? || ev.EncodeHeaders? || ev.EncodeData? || ev.EncodeTrailers? || ev.ResetStream?
  }

  /**
   Encode calls only reach present streams, a local reply ends with one data frame, a stream object that was
   deleted is not reset; handles are started once and ready is called once.
   */
  predicate Legal(w: World, ev: Event)
    decreases ev, 0
  {
    match ev
    case Post(op) => op.Start? ==> op !in w.posted
    case Ready => !w.ready
    case RunNext(inner) =>
      && w.loop != []
      && (inner == [] ||
          (w.loop[0].Cancel? && w.loop[0].handle in w.streams && LegalAll(Execute(Dequeue(w), w.loop[0]), inner)))
    case EncodeHeaders(h, _, _) => h in w.streams
    case EncodeData(h, _, end) => h in w.streams && (w.streams[h].errorCode.Some? ==> end)
    case EncodeTrailers(h, _) => h in w.streams
    case ResetStream(h, inner) => Alive(w, h) && LegalAll(w, inner)
    case ClearDeferred => true
  }

  predicate LegalAll(w: World, evs: seq<Event>)
    decreases evs, 0
  {
    evs == [] || (Reentrant(evs[0]) && Legal(w, evs[0]) && LegalAll(Exec(w, evs[0]), evs[1..]))
  }

  function Exec(w: World, ev: Event): World
    requires Legal(w, ev)
    decreases ev, 1
  {
    match ev
    case Post(op) => PostOp(w, op)
    case Ready => MakeReady(w)
    case RunNext(inner) => ExecAll(Execute(Dequeue(w), w.loop[0]), inner)
    case EncodeHeaders(h, headers, end) => EncodeHeadersOn(w, h, headers, end)
    case EncodeData(h, data, end) => EncodeDataOn(w, h, data, end)
    case EncodeTrailers(h, trailers) => EncodeTrailersOn(w, h, trailers)
    case ResetStream(h, inner) => FinishReset(ExecAll(w, inner), h)
    case ClearDeferred => Clear(w)
  }

  function ExecAll(w: World, evs: seq<Event>): World
    requires LegalAll(w, evs)
    decreases evs, 1
  {
    if evs == [] then w else ExecAll(Exec(w, evs[0]), evs[1..])
  }

  predicate LegalRun(w: World, evs: seq<Event>)
    decreases |evs|
  {
    evs == [] || (Legal(w, evs[0]) && LegalRun(Exec(w, evs[0]), evs[1..]))
  }

  function Run(w: World, evs: seq<Event>): World
    requires LegalRun(w, evs)
    decreases |evs|
  {
    if evs == [] then w else Run(Exec(w, evs[0]), evs[1..])
  }
}
