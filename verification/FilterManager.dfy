/**
 The filter manager around the bridge filter: it owns the entities of both directions, calls the filter, and acts on
 the returned status. Its methods and the filter's together take exactly the steps of the runs.
 */
module FilterManager {
  import opened Wrappers
  import opened BridgeTypes
  import opened PlatformBridge
  import Calls = BridgeCalls
  import Runs = BridgeRuns

  /** A flow with what the filter knows of it. */
  function With(f: Runs.Flow, headersPending: bool, trailersPending: bool, complete: bool): Runs.Flow {
    f.(headersPending := headersPending, trailersPending := trailersPending, complete := complete)
  }

  // The filter manager's actions leave that alone.

  lemma HeadersCommute(f: Runs.Flow, h: bool, t: bool, c: bool, status: Status)
    ensures Runs.AfterHeaders(With(f, h, t, c), status) == With(Runs.AfterHeaders(f, status), h, t, c)
  {
  }

  lemma DataCommutes(f: Runs.Flow, h: bool, t: bool, c: bool, status: Status, left: Bytes)
    ensures Runs.AfterData(With(f, h, t, c), status, left) == With(Runs.AfterData(f, status, left), h, t, c)
  {
  }

  lemma TrailersCommute(f: Runs.Flow, h: bool, t: bool, c: bool, status: Status)
    ensures Runs.AfterTrailers(With(f, h, t, c), status) == With(Runs.AfterTrailers(f, status), h, t, c)
  {
  }

  lemma ReleaseCommutes(f: Runs.Flow, h: bool, t: bool, c: bool)
    ensures Runs.Release(With(f, h, t, c)) == With(Runs.Release(f), h, t, c)
  {
  }

  /** Pending headers are only replaced when there are some. */
  lemma RepliesArePending(iteration: IterationState, buffer: Option<Bytes>, chunk: Bytes, pending: bool,
                          answer: Option<DataAnswer>)
    ensures var o := Calls.OnData(iteration, buffer, chunk, pending, answer);
            o.Returned? && o.value.replaced.Some? ==> pending
  {
  }

  lemma TrailerRepliesArePending(iteration: IterationState, buffer: Option<Bytes>, t: Headers, pending: bool,
                                 answer: Option<TrailersAnswer>)
    ensures var o := Calls.OnTrailers(iteration, buffer, t, pending, answer);
            o.Returned? && o.value.replaced.Some? ==> pending
  {
  }

  /** Data is only injected when there is no buffer. */
  lemma InjectsWithoutBuffer(direction: Direction, iteration: IterationState, f: Runs.Flow, answer: ResumeAnswer)
    ensures var o := Calls.OnResume(direction, iteration, Runs.PendingHeaders(f), f.buffer, Runs.PendingTrailers(f), answer);
            o.Returned? && o.value.injected.Some? ==> o.value.buffer.None?
  {
  }

  /** What the filter manager keeps for one direction. */
  class Side {
    const callbacks: StreamCallbacks
    var headers: HeaderMap?
    var trailers: HeaderMap?
    var held: bool
    var ended: bool
    var forwarded: Runs.Forwarded
    var seen: seq<Seen>
    ghost var Repr: set<object>

    constructor ()
      ensures Valid() && View() == Runs.EMPTY_FLOW && fresh(Repr)
    {
      callbacks := new StreamCallbacks();
      headers, trailers, held, ended := null, null, false, false;
      forwarded, seen := Runs.Forwarded(None, [], None), [];
      Repr := {this, callbacks};
    }

    ghost predicate Valid()
      reads this, Repr
    {
      && this in Repr && callbacks in Repr
      && (callbacks.buffer != null ==> callbacks.buffer in Repr)
      && (headers != null ==> headers in Repr)
      && (trailers != null ==> trailers in Repr && headers != null && headers != trailers && ended)
    }

    /** The flow, but for what the filter knows of it: pending pointers and completion. */
    ghost function View(): Runs.Flow
      reads this, Repr
      requires Valid()
    {
      Runs.Flow(false, false, false, Entries(headers), Entries(trailers), Contents(callbacks.buffer), held, ended,
                forwarded, seen)
    }

    method ReceiveHeaders(h: Headers, end: bool) returns (received: HeaderMap)
      requires Valid() && headers == null
      modifies this
      ensures Valid() && headers == received && fresh(received) && received.entries == h && trailers == null
      ensures Repr == old(Repr) + {received} && callbacks.buffer == old(callbacks.buffer)
      ensures View() == old(View()).(headers := Some(h), ended := end)
    {
      received := new HeaderMap(h);
      headers, ended, Repr := received, end, Repr + {received};
    }

    method ReceiveTrailers(t: Headers) returns (received: HeaderMap)
      requires Valid() && headers != null && trailers == null
      modifies this
      ensures Valid() && trailers == received && fresh(received) && received.entries == t
      ensures headers == old(headers) && Repr == old(Repr) + {received} && callbacks.buffer == old(callbacks.buffer)
      ensures View() == old(View()).(trailers := Some(t), ended := true)
    {
      received := new HeaderMap(t);
      trailers, ended, Repr := received, true, Repr + {received};
    }

    method Saw(entries: seq<Seen>)
      requires Valid()
      modifies this`seen
      ensures Valid() && View() == old(View()).(seen := old(seen) + entries)
    {
      seen := seen + entries;
    }

    method Append(data: Bytes)
      requires Valid()
      modifies this`Repr, callbacks`buffer, BufferObjects(callbacks.buffer)
      ensures Valid() && fresh(Repr - old(Repr)) && callbacks.buffer != null
      ensures if old(callbacks.buffer) == null then fresh(callbacks.buffer) else callbacks.buffer == old(callbacks.buffer)
      ensures View() == old(View()).(buffer := Some(old(View()).Buffered() + data))
    {
      if callbacks.buffer == null {
        callbacks.buffer := new Buffer([]);
        Repr := Repr + {callbacks.buffer};
      }
      callbacks.buffer.Append(data);
    }

    /** Continues out of a stop. */
    method Release()
      requires Valid()
      modifies this`held, this`forwarded, BufferObjects(callbacks.buffer)
      ensures Valid() && View() == Runs.Release(old(View()))
    {
      held := false;
      var body := forwarded.body + if callbacks.buffer == null then [] else callbacks.buffer.bytes;
      if callbacks.buffer != null {
        callbacks.buffer.Drain();
      }
      forwarded := Runs.Forwarded(if forwarded.headers.Some? then forwarded.headers else Entries(headers), body,
                                  if forwarded.trailers.Some? then forwarded.trailers else Entries(trailers));
    }

    method AfterHeaders(status: Status)
      requires Valid()
      modifies this`held, this`forwarded
      ensures Valid() && View() == Runs.AfterHeaders(old(View()), status)
    {
      if status == Continue {
        forwarded := forwarded.(headers := Entries(headers));
      } else {
        held := true;
      }
    }

    method AfterData(status: Status, left: Bytes)
      requires Valid()
      modifies this`held, this`forwarded, this`Repr, callbacks`buffer, BufferObjects(callbacks.buffer)
      ensures Valid() && fresh(Repr - old(Repr)) && View() == Runs.AfterData(old(View()), status, left)
    {
      match status {
        case Continue =>
          if held {
            Append(left);
            Release();
          } else {
            forwarded := forwarded.(body := forwarded.body + left);
          }
        case StopIterationAndBuffer =>
          Append(left);
          held := true;
        case StopIteration =>
          held := true;
        case StopIterationNoBuffer =>
          held := true;
      }
    }

    method AfterTrailers(status: Status)
      requires Valid()
      modifies this`held, this`forwarded, BufferObjects(callbacks.buffer)
      ensures Valid() && View() == Runs.AfterTrailers(old(View()), status)
    {
      if status != Continue {
        held := true;
      } else if held {
        Release();
      } else {
        forwarded := forwarded.(trailers := Entries(trailers));
      }
    }

    method Reshape(present: bool)
      requires Valid() && View().Buffered() == []
      modifies this`Repr, callbacks`buffer
      ensures Valid() && fresh(Repr - old(Repr))
      ensures View() == old(View()).(buffer := if present then Some([]) else None)
    {
      if present {
        callbacks.buffer := new Buffer([]);
        Repr := Repr + {callbacks.buffer};
      } else {
        callbacks.buffer := null;
      }
    }
  }

  /** One direction of one filter. */
  class Half {
    const filter: PlatformBridgeFilter
    const direction: Direction
    const side: Side

    constructor (filter: PlatformBridgeFilter, direction: Direction, side: Side)
      ensures this.filter == filter && this.direction == direction && this.side == side
    {
      this.filter, this.direction, this.side := filter, direction, side;
    }

    function PendingHeaders(): HeaderMap?
      reads filter
    {
      if direction == Decoding then filter.pendingRequestHeaders else filter.pendingResponseHeaders
    }

    function PendingTrailers(): HeaderMap?
      reads filter
    {
      if direction == Decoding then filter.pendingRequestTrailers else filter.pendingResponseTrailers
    }

    function Complete(): bool
      reads filter
    {
      if direction == Decoding then filter.requestComplete else filter.responseComplete
    }

    /** What the filter keeps for the other direction is unchanged. */
    twostate predicate OtherStays()
      reads filter
    {
      if direction == Decoding then
        unchanged(filter`pendingResponseHeaders, filter`pendingResponseTrailers, filter`responseComplete)
      else
        unchanged(filter`pendingRequestHeaders, filter`pendingRequestTrailers, filter`requestComplete)
    }

    ghost predicate Valid()
      reads this, filter, side, side.Repr
    {
      && side.Valid() && filter !in side.Repr && side.callbacks == (if direction == Decoding then filter.decoderCallbacks else filter.encoderCallbacks)
      && (PendingHeaders() == null || PendingHeaders() == side.headers)
      && (PendingTrailers() == null || PendingTrailers() == side.trailers)
    }

    ghost function View(): Runs.Flow
      requires Valid()
      reads this, filter, side, side.Repr
    {
      With(side.View(), PendingHeaders() != null, PendingTrailers() != null,
           Complete())
    }

    method ActOnHeaders(status: Status)
      requires Valid()
      modifies side`held, side`forwarded
      ensures Valid() && View() == Runs.AfterHeaders(old(View()), status)
    {
      HeadersCommute(side.View(), PendingHeaders() != null, PendingTrailers() != null,
                     Complete(), status);
      hide Runs.AfterHeaders;
      side.AfterHeaders(status);
    }

    method ActOnData(status: Status, left: Bytes)
      requires Valid()
      modifies side`held, side`forwarded, side`Repr, side.callbacks`buffer, BufferObjects(side.callbacks.buffer)
      ensures Valid() && fresh(side.Repr - old(side.Repr)) && View() == Runs.AfterData(old(View()), status, left)
    {
      DataCommutes(side.View(), PendingHeaders() != null, PendingTrailers() != null,
                   Complete(), status, left);
      hide Runs.AfterData;
      side.AfterData(status, left);
    }

    method ActOnTrailers(status: Status)
      requires Valid()
      modifies side`held, side`forwarded, BufferObjects(side.callbacks.buffer)
      ensures Valid() && View() == Runs.AfterTrailers(old(View()), status)
    {
      TrailersCommute(side.View(), PendingHeaders() != null, PendingTrailers() != null,
                      Complete(), status);
      hide Runs.AfterTrailers;
      side.AfterTrailers(status);
    }

    method Resume()
      requires Valid()
      modifies side`held, side`forwarded, BufferObjects(side.callbacks.buffer)
      ensures Valid() && View() == Runs.Release(old(View()))
    {
      ReleaseCommutes(side.View(), PendingHeaders() != null, PendingTrailers() != null,
                      Complete());
      hide Runs.Release;
      side.Release();
    }

    /** The filter is called; the filter manager has not acted on the status yet. */
    method RunHeaders(received: HeaderMap, end: bool, answer: Option<HeadersAnswer>)
      returns (o: Outcome<Status>, news: seq<Seen>)
      requires Valid() && side.headers == received && PendingHeaders() == null
      modifies filter, received
      ensures OtherStays()
      ensures var effect := Calls.OnHeaders(old(filter.iterationState), old(received.entries), answer);
              && o.Returned? == effect.Returned?
              && (o.Returned? ==>
                    && Valid() && o.value == effect.value.status && filter.iterationState == effect.value.iteration
                    && received.entries == effect.value.headers && Complete() == end
                    && (PendingHeaders() != null <==> o.value == StopIteration)
                    && PendingTrailers() == old(PendingTrailers()))
      ensures news == if answer.None? then [] else [SeenHeaders(old(received.entries), end)]
    {
      hide Calls.OnHeaders;
      var shown := |filter.shown|;
      if direction == Decoding {
        o := filter.DecodeHeaders(received, end, answer);
      } else {
        o := filter.EncodeHeaders(received, end, answer);
      }
      news := filter.shown[shown..];
    }

    method CallHeaders(h: Headers, end: bool, answer: Option<HeadersAnswer>) returns (o: Outcome<Status>)
      requires Valid() && side.headers == null
      modifies filter, side
      ensures OtherStays()
      ensures var c := Runs.CallHeaders(old(filter.iterationState), old(View()), h, end, answer);
              && o.Returned? == c.Returned?
              && (o.Returned? ==>
                    Valid() && o.value == c.value.status && filter.iterationState == c.value.iteration
                    && View() == c.value.flow && fresh(side.Repr - old(side.Repr)))
    {
      hide Calls.OnHeaders;
      var received := side.ReceiveHeaders(h, end);
      var news;
      o, news := RunHeaders(received, end, answer);
      side.Saw(news);
    }

    method HandleHeaders(h: Headers, end: bool, answer: Option<HeadersAnswer>) returns (ok: bool)
      requires Valid() && side.headers == null
      modifies filter, side
      ensures OtherStays()
      ensures var o := Runs.Step(direction, old(filter.iterationState), old(View()), Runs.HeadersArrive(h, end, answer));
              && ok == o.Returned?
              && (ok ==> Valid() && filter.iterationState == o.value.iteration && View() == o.value.flow
                         && fresh(side.Repr - old(side.Repr)))
    {
      var o := CallHeaders(h, end, answer);
      ok := o.Returned?;
      if ok {
        hide Runs.CallHeaders;
        ActOnHeaders(o.value);
      }
    }

    method FilterData(data: Buffer, end: bool, answer: Option<DataAnswer>) returns (o: Outcome<Status>)
      requires Valid() && side.callbacks.buffer != data
      modifies filter, data, BufferObjects(side.callbacks.buffer), Objects(side.headers)
      ensures OtherStays() && PendingTrailers() == old(PendingTrailers())
      ensures var effect := Calls.OnData(old(filter.iterationState), old(Contents(side.callbacks.buffer)), old(data.bytes),
                                         old(PendingHeaders()) != null, answer);
              && o.Returned? == effect.Returned?
              && (o.Returned? ==>
                    && o.value == effect.value.status && filter.iterationState == effect.value.iteration
                    && Contents(side.callbacks.buffer) == effect.value.buffer && data.bytes == effect.value.data
                    && Complete() == end
                    && PendingHeaders() == (if effect.value.replaced.Some? then null else old(PendingHeaders()))
                    && (old(PendingHeaders()) != null ==>
                          old(PendingHeaders()).entries == effect.value.replaced.GetOr(old(side.headers.entries))))
      ensures old(PendingHeaders()) == null ==> Entries(side.headers) == old(Entries(side.headers))
      ensures filter.shown == old(filter.shown) + if answer.None? then [] else
        [SeenData(Calls.ShownData(old(filter.iterationState), old(Contents(side.callbacks.buffer)), old(data.bytes)), end)]
    {
      hide Calls.OnData, Calls.ShownData;
      if direction == Decoding {
        o := filter.DecodeData(data, end, answer);
      } else {
        o := filter.EncodeData(data, end, answer);
      }
    }

    method RunData(chunk: Bytes, end: bool, answer: Option<DataAnswer>)
      returns (o: Outcome<Status>, left: Bytes, news: seq<Seen>)
      requires Valid()
      modifies filter
      modifies BufferObjects(side.callbacks.buffer), Objects(side.headers)
      ensures OtherStays()
      ensures var f := old(View());
              var effect := Calls.OnData(old(filter.iterationState), f.buffer, chunk, f.headersPending, answer);
              && o.Returned? == effect.Returned?
              && (o.Returned? ==>
                    && Valid() && o.value == effect.value.status && filter.iterationState == effect.value.iteration
                    && left == effect.value.data && Contents(side.callbacks.buffer) == effect.value.buffer
                    && Entries(side.headers) == (if effect.value.replaced.Some? then effect.value.replaced else f.headers)
                    && (PendingHeaders() != null <==> f.headersPending && effect.value.replaced.None?)
                    && Entries(side.trailers) == f.trailers && Complete() == end)
      ensures news == if answer.None? then [] else
        [SeenData(Calls.ShownData(old(filter.iterationState), old(View()).buffer, chunk), end)]
    {
      RepliesArePending(old(filter.iterationState), View().buffer, chunk, View().headersPending, answer);
      hide Calls.OnData, Calls.ShownData, OtherStays;
      var data := new Buffer(chunk);
      var shown := |filter.shown|;
      o := FilterData(data, end, answer);
      news := filter.shown[shown..];
      left := data.bytes;
    }

    method CallData(chunk: Bytes, end: bool, answer: Option<DataAnswer>) returns (o: Outcome<Status>, left: Bytes)
      requires Valid() && side.trailers == null
      modifies filter, side
      modifies BufferObjects(side.callbacks.buffer), Objects(side.headers)
      ensures OtherStays()
      ensures var c := Runs.CallData(old(filter.iterationState), old(View()), chunk, end, answer);
              && o.Returned? == c.Returned?
              && (o.Returned? ==>
                    Valid() && o.value == c.value.status && left == c.value.left
                    && filter.iterationState == c.value.iteration
                    && View() == c.value.flow && side.Repr == old(side.Repr))
    {
      hide Calls.OnData, Calls.ShownData;
      var news;
      o, left, news := RunData(chunk, end, answer);
      side.ended := end;
      side.Saw(news);
    }

    method HandleData(chunk: Bytes, end: bool, answer: Option<DataAnswer>) returns (ok: bool)
      requires Valid() && side.trailers == null
      modifies filter, side.Repr
      ensures OtherStays()
      ensures var o := Runs.Step(direction, old(filter.iterationState), old(View()), Runs.DataArrives(chunk, end, answer));
              && ok == o.Returned?
              && (ok ==> Valid() && filter.iterationState == o.value.iteration && View() == o.value.flow
                         && fresh(side.Repr - old(side.Repr)))
    {
      var o, left := CallData(chunk, end, answer);
      ok := o.Returned?;
      if ok {
        hide Runs.CallData;
        ActOnData(o.value, left);
      }
    }

    method RunTrailers(received: HeaderMap, answer: Option<TrailersAnswer>)
      returns (o: Outcome<Status>, news: seq<Seen>)
      requires Valid() && side.headers != null && side.trailers == received && PendingTrailers() == null
      modifies filter
      modifies received, BufferObjects(side.callbacks.buffer), Objects(side.headers)
      ensures OtherStays()
      ensures var f := old(View());
              var effect := Calls.OnTrailers(old(filter.iterationState), f.buffer, old(received.entries), f.headersPending,
                                             answer);
              && o.Returned? == effect.Returned?
              && (o.Returned? ==>
                    && Valid() && o.value == effect.value.status && filter.iterationState == effect.value.iteration
                    && Contents(side.callbacks.buffer) == effect.value.buffer
                    && received.entries == effect.value.trailers
                    && Entries(side.headers) == (if effect.value.replaced.Some? then effect.value.replaced else f.headers)
                    && (PendingHeaders() != null <==> f.headersPending && effect.value.replaced.None?)
                    && (PendingTrailers() != null <==> o.value == StopIteration) && Complete())
      ensures news == if answer.None? then [] else [SeenTrailers(old(received.entries))]
    {
      TrailerRepliesArePending(filter.iterationState, View().buffer, received.entries, View().headersPending, answer);
      hide Calls.OnTrailers;
      var shown := |filter.shown|;
      if direction == Decoding {
        o := filter.DecodeTrailers(received, answer);
      } else {
        o := filter.EncodeTrailers(received, answer);
      }
      news := filter.shown[shown..];
    }

    method CallTrailers(t: Headers, answer: Option<TrailersAnswer>) returns (o: Outcome<Status>)
      requires Valid() && side.headers != null && side.trailers == null
      modifies filter
      modifies side, BufferObjects(side.callbacks.buffer), Objects(side.headers)
      ensures OtherStays()
      ensures var c := Runs.CallTrailers(old(filter.iterationState), old(View()), t, answer);
              && o.Returned? == c.Returned?
              && (o.Returned? ==>
                    Valid() && o.value == c.value.status && filter.iterationState == c.value.iteration
                    && View() == c.value.flow && fresh(side.Repr - old(side.Repr)))
    {
      hide Calls.OnTrailers;
      var received := side.ReceiveTrailers(t);
      var news;
      o, news := RunTrailers(received, answer);
      side.Saw(news);
    }

    method HandleTrailers(t: Headers, answer: Option<TrailersAnswer>) returns (ok: bool)
      requires Valid() && side.headers != null && side.trailers == null
      modifies filter
      modifies side.Repr
      ensures OtherStays()
      ensures var o := Runs.Step(direction, old(filter.iterationState), old(View()), Runs.TrailersArrive(t, answer));
              && ok == o.Returned?
              && (ok ==> Valid() && filter.iterationState == o.value.iteration && View() == o.value.flow
                         && fresh(side.Repr - old(side.Repr)))
    {
      var o := CallTrailers(t, answer);
      ok := o.Returned?;
      if ok {
        hide Runs.CallTrailers;
        ActOnTrailers(o.value);
      }
    }

    /** A posted resume runs in the filter. */
    method ResumeFilter(answer: ResumeAnswer) returns (o: Outcome<bool>)
      requires Valid()
      modifies filter, side.callbacks`added, side.callbacks`continues, BufferObjects(side.callbacks.buffer)
      modifies Objects(side.headers), Objects(side.trailers)
      ensures OtherStays() && Complete() == old(Complete())
      ensures var effect := Calls.OnResume(direction, old(filter.iterationState), old(Entries(PendingHeaders())),
                                           old(Contents(side.callbacks.buffer)), old(Entries(PendingTrailers())), answer);
              && o.Returned? == effect.Returned?
              && (o.Returned? ==>
                    && o.value == effect.value.continued && filter.iterationState == effect.value.iteration
                    && Contents(side.callbacks.buffer) == effect.value.buffer
                    && Entries(old(PendingHeaders())) == effect.value.headers
                    && Entries(old(PendingTrailers())) == effect.value.trailers
                    && side.callbacks.added ==
                       old(side.callbacks.added) +
                       (if effect.value.injected.Some? then [effect.value.injected.value] else [])
                    && PendingHeaders() == (if o.value then null else old(PendingHeaders()))
                    && PendingTrailers() == (if o.value then null else old(PendingTrailers())))
      ensures old(PendingHeaders()) == null ==> Entries(side.headers) == old(Entries(side.headers))
      ensures old(PendingTrailers()) == null ==> Entries(side.trailers) == old(Entries(side.trailers))
      ensures filter.shown == old(filter.shown) + if old(filter.iterationState) == Ongoing then [] else
        [SeenResume(old(Entries(PendingHeaders())), old(Contents(side.callbacks.buffer)),
                    old(Entries(PendingTrailers())), old(Complete()))]
    {
      hide Calls.OnResume;
      if direction == Decoding {
        o := filter.OnResumeDecoding(answer);
      } else {
        o := filter.OnResumeEncoding(answer);
      }
    }

    /** injected is what a resume handed over without a buffer, and news what it showed. */
    method RunOnResume(answer: ResumeAnswer) returns (o: Outcome<bool>, injected: Option<Bytes>, news: seq<Seen>)
      requires Valid()
      modifies filter, side.callbacks`added, side.callbacks`continues, BufferObjects(side.callbacks.buffer)
      modifies Objects(side.headers), Objects(side.trailers)
      ensures OtherStays() && Complete() == old(Complete())
      ensures var f := old(View());
              var effect := Calls.OnResume(direction, old(filter.iterationState), Runs.PendingHeaders(f), f.buffer,
                                           Runs.PendingTrailers(f), answer);
              && o.Returned? == effect.Returned?
              && (o.Returned? ==>
                    && Valid() && o.value == effect.value.continued && filter.iterationState == effect.value.iteration
                    && injected == effect.value.injected && Contents(side.callbacks.buffer) == effect.value.buffer
                    && Entries(side.headers) == (if f.headersPending then effect.value.headers else f.headers)
                    && Entries(side.trailers) == (if f.trailersPending then effect.value.trailers else f.trailers)
                    && (PendingHeaders() != null <==> f.headersPending && !o.value)
                    && (PendingTrailers() != null <==> f.trailersPending && !o.value)
                    && old(side.seen) + news == Runs.Resumed(old(filter.iterationState), f, effect.value).seen)
    {
      assert Entries(PendingHeaders()) == Runs.PendingHeaders(View());
      assert Entries(PendingTrailers()) == Runs.PendingTrailers(View());
      hide Calls.OnResume, OtherStays;
      var shown, added := |filter.shown|, |side.callbacks.added|;
      o := ResumeFilter(answer);
      news := filter.shown[shown..];
      injected := if |side.callbacks.added| > added then Some(side.callbacks.added[added]) else None;
    }

    method CallOnResume(answer: ResumeAnswer) returns (o: Outcome<bool>, injected: Option<Bytes>)
      requires Valid()
      modifies filter
      modifies side, side.callbacks, BufferObjects(side.callbacks.buffer), Objects(side.headers), Objects(side.trailers)
      ensures OtherStays()
      ensures var f := old(View());
              var effect := Calls.OnResume(direction, old(filter.iterationState), Runs.PendingHeaders(f), f.buffer,
                                           Runs.PendingTrailers(f), answer);
              && o.Returned? == effect.Returned?
              && (o.Returned? ==>
                    && Valid() && o.value == effect.value.continued && filter.iterationState == effect.value.iteration
                    && injected == effect.value.injected && side.Repr == old(side.Repr)
                    && View() == Runs.Resumed(old(filter.iterationState), f, effect.value).(buffer := effect.value.buffer))
    {
      hide Calls.OnResume, Runs.PendingHeaders, Runs.PendingTrailers;
      var news;
      o, injected, news := RunOnResume(answer);
      side.Saw(news);
    }

    /** Data handed over without a buffer makes one. */
    method Inject(data: Bytes)
      requires Valid() && View().buffer.None?
      modifies side`Repr, side.callbacks`buffer
      ensures Valid() && fresh(side.Repr - old(side.Repr)) && View() == old(View()).(buffer := Some(data))
    {
      assert [] + data == data;
      side.Append(data);
    }

    method CallResume(answer: ResumeAnswer) returns (o: Outcome<bool>)
      requires Valid()
      modifies filter
      modifies side, side.callbacks, BufferObjects(side.callbacks.buffer), Objects(side.headers), Objects(side.trailers)
      ensures OtherStays()
      ensures var c := Runs.CallResume(direction, old(filter.iterationState), old(View()), answer);
              && o.Returned? == c.Returned?
              && (o.Returned? ==>
                    Valid() && o.value == (c.value.status == Continue) && filter.iterationState == c.value.iteration
                    && View() == c.value.flow && fresh(side.Repr - old(side.Repr)))
    {
      InjectsWithoutBuffer(direction, filter.iterationState, View(), answer);
      hide Calls.OnResume, Runs.PendingHeaders, Runs.PendingTrailers, OtherStays;
      var injected;
      o, injected := CallOnResume(answer);
      if o.Returned? && injected.Some? {
        Inject(injected.value);
      }
    }

    method HandleResume(answer: ResumeAnswer) returns (ok: bool)
      requires Valid()
      modifies filter, side.Repr
      ensures OtherStays()
      ensures var o := Runs.Step(direction, old(filter.iterationState), old(View()), Runs.RunResume(answer));
              && ok == o.Returned?
              && (ok ==> Valid() && filter.iterationState == o.value.iteration && View() == o.value.flow
                         && fresh(side.Repr - old(side.Repr)))
    {
      var o := CallResume(answer);
      ok := o.Returned?;
      if ok {
        hide Runs.CallResume;
        if o.value {
          Resume();
        }
      }
    }

    /** Any event of this direction. */
    method Handle(ev: Runs.Event) returns (ok: bool)
      requires Valid() && Runs.Legal(View(), ev)
      modifies filter
      modifies side.Repr
      ensures OtherStays()
      ensures var o := Runs.Step(direction, old(filter.iterationState), old(View()), ev);
              && ok == o.Returned?
              && (ok ==> Valid() && filter.iterationState == o.value.iteration && View() == o.value.flow
                         && fresh(side.Repr - old(side.Repr)))
    {
      hide Runs.CallHeaders, Runs.CallData, Runs.CallTrailers, Runs.CallResume;
      hide Runs.AfterHeaders, Runs.AfterData, Runs.AfterTrailers, Runs.Release;
      match ev {
        case HeadersArrive(h, end, answer) => ok := HandleHeaders(h, end, answer);
        case DataArrives(chunk, end, answer) => ok := HandleData(chunk, end, answer);
        case TrailersArrive(t, answer) => ok := HandleTrailers(t, answer);
        case RunResume(answer) => ok := HandleResume(answer);
        case ReshapeEmptyBuffer(present) =>
          side.Reshape(present);
          ok := true;
      }
    }
  }

  /** Both directions around one filter. */
  class FilterManager {
    const filter: PlatformBridgeFilter
    const decoder: Half
    const encoder: Half

    constructor ()
      ensures Valid() && View() == Runs.START
      ensures fresh(filter) && fresh(decoder.side.Repr) && fresh(encoder.side.Repr)
    {
      var d := new Side();
      var e := new Side();
      var f := new PlatformBridgeFilter(d.callbacks, e.callbacks);
      filter := f;
      decoder := new Half(f, Decoding, d);
      encoder := new Half(f, Encoding, e);
    }

    ghost predicate Valid()
      reads this, filter, decoder, decoder.filter, decoder.side, decoder.side.Repr
      reads encoder, encoder.filter, encoder.side, encoder.side.Repr
    {
      && decoder.Valid() && encoder.Valid() && decoder.filter == filter && encoder.filter == filter
      && decoder.direction == Decoding && encoder.direction == Encoding && decoder.side.Repr !! encoder.side.Repr
    }

    ghost function View(): Runs.State
      requires Valid()
      reads this, filter, decoder, decoder.filter, decoder.side, decoder.side.Repr
      reads encoder, encoder.filter, encoder.side, encoder.side.Repr
    {
      Runs.State(filter.iterationState, decoder.View(), encoder.View())
    }

    method HandleDecoding(ev: Runs.Event) returns (ok: bool)
      requires Valid() && Runs.Legal(View().decoding, ev)
      modifies filter, decoder.side.Repr
      ensures var o := Runs.Step(Decoding, old(View()).iteration, old(View()).decoding, ev);
              && ok == o.Returned?
              && (ok ==> Valid() && View() == Runs.State(o.value.iteration, o.value.flow, old(View()).encoding)
                         && fresh(decoder.side.Repr - old(decoder.side.Repr))
                         && encoder.side.Repr == old(encoder.side.Repr))
    {
      hide Runs.Step, Runs.Legal;
      ok := decoder.Handle(ev);
    }

    method HandleEncoding(ev: Runs.Event) returns (ok: bool)
      requires Valid() && Runs.Legal(View().encoding, ev)
      modifies filter, encoder.side.Repr
      ensures var o := Runs.Step(Encoding, old(View()).iteration, old(View()).encoding, ev);
              && ok == o.Returned?
              && (ok ==> Valid() && View() == Runs.State(o.value.iteration, old(View()).decoding, o.value.flow)
                         && fresh(encoder.side.Repr - old(encoder.side.Repr))
                         && decoder.side.Repr == old(decoder.side.Repr))
    {
      hide Runs.Step, Runs.Legal;
      ok := encoder.Handle(ev);
    }

    /** One event of either direction is exactly one step of a run. */
    method Handle(x: Runs.Input) returns (ok: bool)
      requires Valid() && Runs.Legal(View().Of(x.direction), x.event)
      modifies filter, decoder.side.Repr, encoder.side.Repr
      ensures ok == Runs.StepState(old(View()), x).Returned?
      ensures ok ==> Valid() && View() == Runs.StepState(old(View()), x).value
      ensures ok ==> fresh(decoder.side.Repr - old(decoder.side.Repr)) && fresh(encoder.side.Repr - old(encoder.side.Repr))
    {
      hide Runs.Step, Runs.Legal;
      match x.direction {
        case Decoding => ok := HandleDecoding(x.event);
        case Encoding => ok := HandleEncoding(x.event);
      }
    }

    /** A legal run: the filter and the filter manager end where the run ends. */
    method HandleAll(xs: seq<Runs.Input>)
      requires Valid() && Runs.LegalRun(View(), xs)
      modifies filter, decoder.side.Repr, encoder.side.Repr
      ensures Valid() && Runs.Run(old(View()), xs) == Returned(View())
    {
      hide Runs.StepState, Runs.Legal;
      ghost var start := View();
      for i := 0 to |xs|
        invariant Valid() && Runs.LegalRun(View(), xs[i..]) && Runs.Run(start, xs) == Runs.Run(View(), xs[i..])
        invariant fresh(decoder.side.Repr - old(decoder.side.Repr)) && fresh(encoder.side.Repr - old(encoder.side.Repr))
      {
        assert xs[i..][0] == xs[i] && xs[i..][1..] == xs[i + 1..];
        var ok := Handle(xs[i]);
      }
      assert xs[|xs|..] == [];
    }
  }
}
