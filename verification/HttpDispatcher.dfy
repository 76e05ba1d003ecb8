/**
 The HTTP dispatcher as the source keeps it: a map of stream objects whose bookkeeping fields are set step by step,
 an initial queue drained by ready, and the event loop it posts to. Every method is proved against the value
 function of its effect. posted, executed and causes are histories.
 */
module HttpDispatcher {
  import opened Wrappers
  import opened DispatcherSpec

  /** A stream and its callbacks object, which it owns. */
  class DirectStream {
    const handle: Handle
    var errorCode: Option<ErrorCode>
    var errorMessage: Option<Bytes>
    var attemptCount: Option<int>
    var success: bool

    function State(): Bookkeeping
      reads this
    {
      Bookkeeping(errorCode, errorMessage, attemptCount, success)
    }

    constructor (handle: Handle)
      ensures this.handle == handle && State() == FRESH
    {
      this.handle := handle;
      errorCode, errorMessage, attemptCount, success := None, None, None, false;
    }

    method MapLocalResponseToError(headers: ResponseHeaders)
      modifies this
      ensures State() == MapLocalResponse(old(State()), headers)
    {
      if headers.status == 503 {
        errorCode := Some(ConnectionFailure);
      } else {
        errorCode := Some(UndefinedError);
      }
      if headers.attemptCount.Some? {
        attemptCount := Some(ToInt32(headers.attemptCount.value));
      }
    }
  }

  function Handles(streams: seq<DirectStream>): seq<Handle> {
    seq(|streams|, i requires 0 <= i < |streams| => streams[i].handle)
  }

  lemma HandlesAppend(streams: seq<DirectStream>, s: DirectStream)
    ensures Handles(streams + [s]) == Handles(streams) + [s.handle]
  {
  }

  class Dispatcher {
    var eventDispatcherSet: bool
    var initQueue: seq<Op>
    var streams: map<Handle, DirectStream>
    var stats: Stats
    var loop: seq<Op>
    var deferred: seq<DirectStream>
    var log: seq<(Handle, Call)>
    ghost var deleted: seq<Handle>
    ghost var posted: seq<Op>
    ghost var executed: seq<Op>
    ghost var causes: seq<(Handle, Cause)>

    ghost predicate Valid()
      reads this
    {
      forall h :: h in streams ==> streams[h].handle == h
    }

    ghost function States(): map<Handle, Bookkeeping>
      reads this`streams, streams.Values
    {
      map h | h in streams :: streams[h].State()
    }

    ghost function View(): World
      reads this, streams.Values
    {
      World(eventDispatcherSet, initQueue, loop, States(),
            Handles(deferred), deleted, stats, log, posted, executed, causes)
    }

    constructor ()
      ensures Valid() && View() == EMPTY && fresh(streams.Values)
    {
      eventDispatcherSet, initQueue, streams, stats := false, [], map[], Stats(0, 0, 0);
      loop, deferred, log, deleted, posted, executed, causes := [], [], [], [], [], [], [];
    }

    method OnReady()
      requires Valid()
      modifies this
      ensures Valid() && View() == MakeReady(old(View())) && streams == old(streams)
    {
      label before:
      for i := 0 to |initQueue|
        invariant unchanged@before(`eventDispatcherSet, `initQueue, `streams, `stats, `deferred, `log, `deleted)
        invariant unchanged@before(`posted, `executed, `causes)
        invariant loop == old(loop) + initQueue[..i]
      {
        loop := loop + [initQueue[i]];
      }
      eventDispatcherSet := true;
      assert initQueue[..|initQueue|] == initQueue;
    }

    method PostClosure(op: Op)
      requires Valid()
      modifies this
      ensures Valid() && View() == PostOp(old(View()), op) && streams == old(streams)
    {
      posted := posted + [op];
      if eventDispatcherSet {
        loop := loop + [op];
        return;
      }
      initQueue := initQueue + [op];
    }

    method RemoveStream(h: Handle)
      requires Valid() && h in streams
      modifies this`streams, this`deferred
      ensures Valid() && View() == Remove(old(View()), h) && streams == old(streams) - {h}
    {
      var stream := streams[h];
      HandlesAppend(deferred, stream);
      deferred := deferred + [stream];
      streams := streams - {h};
      assert States() == old(States()) - {h};
    }

    method CallBack(h: Handle, call: Call)
      modifies this`log
      ensures View() == Emit(old(View()), h, call)
    {
      log := log + [(h, call)];
    }

    ghost method Record(h: Handle, cause: Cause)
      modifies this`causes
      ensures View() == Note(old(View()), h, cause)
    {
      causes := causes + [(h, cause)];
    }

    method OnCompleteCallback(stream: DirectStream)
      modifies this`stats, this`log
      ensures View() == Complete(old(View()), stream.handle, stream.State())
    {
      if stream.success {
        stats := stats.(success := stats.success + 1);
      } else {
        stats := stats.(failure := stats.failure + 1);
      }
      log := log + [(stream.handle, OnComplete)];
    }

    method OnErrorCallback(stream: DirectStream)
      requires stream.handle !in streams
      modifies this`stats, this`log
      ensures View() == Fail(old(View()), stream.handle, stream.State())
    {
      var code := stream.errorCode.GetOr(StreamReset);
      var message := stream.errorMessage.GetOr([]);
      var attempts := stream.attemptCount.GetOr(-1);
      stats := stats.(failure := stats.failure + 1);
      log := log + [(stream.handle, OnError(code, message, attempts))];
    }

    method OnCancelCallback(stream: DirectStream)
      modifies this`stats, this`log
      ensures var w := old(View());
              View() == Emit(w.(stats := w.stats.(cancel := w.stats.cancel + 1)), stream.handle, OnCancel)
    {
      stats := stats.(cancel := stats.cancel + 1);
      log := log + [(stream.handle, OnCancel)];
    }

    /** Only the given stream's bookkeeping changed. */
    twostate lemma OneStreamChanged(stream: DirectStream)
      requires Valid() && old(Valid()) && streams == old(streams)
      requires forall x :: x in streams && x != stream.handle ==> streams[x].State() == old(streams[x].State())
      requires stream.handle in streams ==> streams[stream.handle] == stream
      ensures States() ==
              if stream.handle in streams then old(States())[stream.handle := stream.State()] else old(States())
    {
      var before := old(States());
      forall x | x in streams && x != stream.handle ensures States()[x] == before[x] {
        assert streams[x].State() == old(streams[x].State());
      }
    }

    method SetSuccess(stream: DirectStream, status: nat)
      requires Valid() && stream.handle in streams && streams[stream.handle] == stream
      modifies stream`success
      ensures Valid()
      ensures var w := old(View());
              View() == w.(streams := w.streams[stream.handle := old(stream.State()).(success := Is2xx(status))])
      ensures stream.State() == old(stream.State()).(success := Is2xx(status))
    {
      stream.success := Is2xx(status);
      OneStreamChanged(stream);
    }

    method MapResponse(stream: DirectStream, headers: ResponseHeaders)
      requires Valid() && (stream.handle in streams ==> streams[stream.handle] == stream)
      modifies stream
      ensures Valid() && stream.State() == MapLocalResponse(old(stream.State()), headers)
      ensures var w := old(View());
              View() == if stream.handle in streams then w.(streams := w.streams[stream.handle := stream.State()]) else w
    {
      stream.MapLocalResponseToError(headers);
      OneStreamChanged(stream);
    }

    /** A local reply becomes an error, reported at once when the reply has no body. */
    method InterceptLocalReply(stream: DirectStream, headers: ResponseHeaders, end: bool)
      requires Valid() && end == (stream.handle !in streams) && (!end ==> streams[stream.handle] == stream)
      modifies this`stats, this`log, stream
      ensures Valid()
      ensures var w, b := old(View()), MapLocalResponse(old(stream.State()), headers);
              View() == if end then Fail(w, stream.handle, b) else w.(streams := w.streams[stream.handle := b])
    {
      MapResponse(stream, headers);
      if end {
        OnErrorCallback(stream);
      }
    }

    method SurfaceHeaders(stream: DirectStream, headers: ResponseHeaders, end: bool)
      requires Valid()
      modifies this`stats, this`log
      ensures Valid()
      ensures var e := Emit(old(View()), stream.handle, OnHeaders(headers, end));
              View() == if end then Complete(e, stream.handle, stream.State()) else e
    {
      CallBack(stream.handle, OnHeaders(headers, end));
      if end {
        OnCompleteCallback(stream);
      }
    }

    /** The bookkeeping of encodeHeaders, and the removal of a stream that ends with its headers. */
    method TakeHeaders(stream: DirectStream, headers: ResponseHeaders, end: bool)
      requires Valid() && stream.handle in streams && streams[stream.handle] == stream
      modifies this, stream`success
      ensures Valid() && streams.Values <= old(streams.Values)
      ensures end == (stream.handle !in streams) && (!end ==> streams[stream.handle] == stream)
      ensures stream.State() == old(stream.State()).(success := Is2xx(headers.status))
      ensures var n := Note(old(View()), stream.handle, Headers(headers, end));
              View() == if end then Remove(n, stream.handle)
                        else n.(streams := n.streams[stream.handle := stream.State()])
    {
      ghost var n := Note(View(), stream.handle, Headers(headers, end));
      Record(stream.handle, Headers(headers, end));
      SetSuccess(stream, headers.status);
      if end {
        RemoveStream(stream.handle);
        assert n.streams[stream.handle := stream.State()] - {stream.handle} == n.streams - {stream.handle};
      }
    }

    method EncodeHeadersCall(stream: DirectStream, headers: ResponseHeaders, end: bool)
      requires Valid() && stream.handle in streams && streams[stream.handle] == stream
      modifies this, stream
      ensures Valid() && View() == EncodeHeadersOn(old(View()), stream.handle, headers, end)
      ensures streams.Values <= old(streams.Values)
    {
      ghost var n := Note(View(), stream.handle, Headers(headers, end));
      ghost var b := stream.State().(success := Is2xx(headers.status));
      TakeHeaders(stream, headers, end);
      hide Complete, Fail, Emit, MapLocalResponse, Remove;
      if !stream.success && !headers.hasUpstreamServiceTime {
        InterceptLocalReply(stream, headers, end);
        assert n.streams[stream.handle := b][stream.handle := MapLocalResponse(b, headers)] ==
               n.streams[stream.handle := MapLocalResponse(b, headers)];
      } else {
        SurfaceHeaders(stream, headers, end);
      }
    }

    method EncodeDataCall(stream: DirectStream, data: Bytes, end: bool)
      requires Valid() && stream.handle in streams && streams[stream.handle] == stream
      requires stream.errorCode.Some? ==> end
      modifies this, stream
      ensures Valid() && View() == EncodeDataOn(old(View()), stream.handle, data, end)
      ensures streams.Values <= old(streams.Values)
    {
      Record(stream.handle, Data(data, end));
      if end {
        RemoveStream(stream.handle);
      }
      if stream.errorCode.Some? {
        assert forall x :: x in streams ==> streams[x] != stream;
        stream.errorMessage := Some(data);
        assert States() == old(States()) - {stream.handle};
        OnErrorCallback(stream);
        return;
      }
      CallBack(stream.handle, OnData(data, end));
      if end {
        OnCompleteCallback(stream);
      }
    }

    method EncodeTrailersCall(stream: DirectStream, trailers: Fields)
      requires Valid() && stream.handle in streams && streams[stream.handle] == stream
      modifies this
      ensures Valid() && View() == EncodeTrailersOn(old(View()), stream.handle, trailers)
      ensures streams.Values <= old(streams.Values)
    {
      Record(stream.handle, Trailers(trailers));
      RemoveStream(stream.handle);
      hide Note, Remove, Emit, Complete;
      CallBack(stream.handle, OnTrailers(trailers));
      OnCompleteCallback(stream);
    }

    /** The reset callbacks run first and may call back into any stream, this one included. */
    method Reset(h: Handle, inner: seq<Event>)
      requires Valid() && LegalAll(View(), inner)
      modifies this, streams.Values
      ensures Valid() && View() == FinishReset(ExecAll(old(View()), inner), h)
      ensures streams.Values <= old(streams.Values)
      decreases inner, 1
    {
      RunResetCallbacks(inner);
      FailIfPresent(h);
    }

    /** The end of resetStream: a stream that is still present is removed and reported as an error. */
    method FailIfPresent(h: Handle)
      requires Valid()
      modifies this
      ensures Valid() && View() == FinishReset(old(View()), h)
      ensures streams.Values <= old(streams.Values)
    {
      if h !in streams {
        return;
      }
      var stream := streams[h];
      Record(h, DispatcherSpec.Reset);
      RemoveStream(h);
      hide Note, Remove, Fail;
      OnErrorCallback(stream);
    }

    method RunResetCallbacks(inner: seq<Event>)
      requires Valid() && LegalAll(View(), inner)
      modifies this, streams.Values
      ensures Valid() && View() == ExecAll(old(View()), inner)
      ensures streams.Values <= old(streams.Values)
      decreases inner, 0
    {
      if inner == [] {
        return;
      }
      match inner[0] {
        case Post(op) => PostClosure(op);
        case EncodeHeaders(h, headers, end) => EncodeHeadersCall(streams[h], headers, end);
        case EncodeData(h, data, end) => EncodeDataCall(streams[h], data, end);
        case EncodeTrailers(h, trailers) => EncodeTrailersCall(streams[h], trailers);
        case ResetStream(h, nested) => Reset(h, nested);
      }
      RunResetCallbacks(inner[1..]);
    }

    method StartStream(h: Handle)
      requires Valid()
      modifies this`streams
      ensures Valid() && View() == Execute(old(View()), Start(h))
      ensures fresh(streams.Values - old(streams.Values))
    {
      var stream := new DirectStream(h);
      if h !in streams {
        streams := streams[h := stream];
      }
      assert States() == Execute(old(View()), Start(h)).streams;
    }

    method SendToDecoder(h: Handle, call: RequestCall)
      requires Valid()
      modifies this`log
      ensures View() == Execute(old(View()), Send(h, call))
    {
      if h in streams {
        log := log + [(h, call)];
      }
    }

    /** A cancellation, up to its reset callbacks. */
    method CancelStream(h: Handle)
      requires Valid()
      modifies this
      ensures Valid() && View() == Execute(old(View()), Cancel(h))
      ensures streams.Values <= old(streams.Values)
    {
      if h in streams {
        var stream := streams[h];
        Record(h, Cancelled);
        RemoveStream(h);
        OnCancelCallback(stream);
      }
    }

    /** The event loop takes the next closure. inner is what a cancellation's reset callbacks do. */
    method RunClosure(inner: seq<Event>)
      requires Valid() && Legal(View(), RunNext(inner))
      modifies this, streams.Values
      ensures Valid() && View() == Exec(old(View()), RunNext(inner))
    {
      ghost var w := View();
      var op := loop[0];
      loop := loop[1..];
      executed := executed + [op];
      assert View() == Dequeue(w);
      match op {
        case Start(h) =>
          StartStream(h);
        case Send(h, call) =>
          SendToDecoder(h, call);
        case Cancel(h) =>
          var present := h in streams;
          CancelStream(h);
          if present {
            RunResetCallbacks(inner);
          }
      }
    }

    method ClearDeferredList()
      requires Valid()
      modifies this`deferred, this`deleted
      ensures Valid() && View() == Clear(old(View())) && streams == old(streams)
    {
      deleted := deleted + Handles(deferred);
      deferred := [];
    }
  }
}
