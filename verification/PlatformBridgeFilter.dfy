/**
 The platform bridge filter itself: shared iteration state, pending header map pointers, completion flags,
 and buffers drained and refilled in place. Each method is proved against the effect function of its call.
 The platform filter's answer is a parameter; what it was shown is recorded.
 */
module PlatformBridge {
  import opened Wrappers
  import opened BridgeTypes
  import Calls = BridgeCalls

  class Buffer {
    var bytes: seq<byte>

    constructor (bytes: Bytes)
      ensures this.bytes == bytes
    {
      this.bytes := bytes;
    }

    method Drain()
      modifies this
      ensures bytes == []
    {
      bytes := [];
    }

    method Append(fragment: Bytes)
      modifies this
      ensures bytes == old(bytes) + fragment
      ensures old(bytes) == [] ==> bytes == fragment
    {
      bytes := bytes + fragment;
    }

    method Move(source: Buffer)
      requires source != this
      modifies this, source
      ensures bytes == old(bytes) + old(source.bytes) && source.bytes == []
    {
      bytes := bytes + source.bytes;
      source.bytes := [];
    }
  }

  class HeaderMap {
    var entries: Headers

    constructor (entries: Headers)
      ensures this.entries == entries
    {
      this.entries := entries;
    }

    method Clear()
      modifies this
      ensures entries == []
    {
      entries := [];
    }

    method AddCopy(entry: (Bytes, Bytes))
      modifies this
      ensures entries == old(entries) + [entry]
    {
      entries := entries + [entry];
    }
  }

  method ReplaceHeaders(headers: HeaderMap, replacement: Headers)
    modifies headers
    ensures headers.entries == LowerNames(replacement)
  {
    headers.Clear();
    for i := 0 to |replacement|
      invariant headers.entries == LowerNames(replacement)[..i]
    {
      headers.AddCopy((LowerName(replacement[i].0), replacement[i].1));
    }
  }

  /** The filter manager's side of one direction: the buffer it may lend out, and the calls it received. */
  class StreamCallbacks {
    var buffer: Buffer?
    var added: seq<Bytes>
    var continues: nat

    constructor ()
      ensures buffer == null && added == [] && continues == 0
    {
      buffer, added, continues := null, [], 0;
    }

    method AddData(data: Bytes)
      modifies this`added
      ensures added == old(added) + [data]
    {
      added := added + [data];
    }

    method ContinueIteration()
      modifies this`continues
      ensures continues == old(continues) + 1
    {
      continues := continues + 1;
    }
  }

  function Contents(buffer: Buffer?): Option<Bytes>
    reads if buffer == null then {} else {buffer}
  {
    if buffer == null then None else Some(buffer.bytes)
  }

  function Entries(headers: HeaderMap?): Option<Headers>
    reads if headers == null then {} else {headers}
  {
    if headers == null then None else Some(headers.entries)
  }

  function Objects(headers: HeaderMap?): set<object> {
    if headers == null then {} else {headers}
  }

  function BufferObjects(buffer: Buffer?): set<object> {
    if buffer == null then {} else {buffer}
  }

  class PlatformBridgeFilter {
    var pendingRequestHeaders: HeaderMap?
    var pendingResponseHeaders: HeaderMap?
    var pendingRequestTrailers: HeaderMap?
    var pendingResponseTrailers: HeaderMap?
    var iterationState: IterationState
    var requestComplete: bool
    var responseComplete: bool
    const decoderCallbacks: StreamCallbacks
    const encoderCallbacks: StreamCallbacks
    var shown: seq<Seen>

    constructor (decoderCallbacks: StreamCallbacks, encoderCallbacks: StreamCallbacks)
      ensures this.decoderCallbacks == decoderCallbacks && this.encoderCallbacks == encoderCallbacks
      ensures iterationState == Ongoing && !requestComplete && !responseComplete && shown == []
      ensures pendingRequestHeaders == null && pendingRequestTrailers == null
      ensures pendingResponseHeaders == null && pendingResponseTrailers == null
    {
      this.decoderCallbacks, this.encoderCallbacks := decoderCallbacks, encoderCallbacks;
      pendingRequestHeaders, pendingResponseHeaders := null, null;
      pendingRequestTrailers, pendingResponseTrailers := null, null;
      iterationState, requestComplete, responseComplete, shown := Ongoing, false, false, [];
    }

    method OnHeaders(headers: HeaderMap, endStream: bool, answer: Option<HeadersAnswer>) returns (o: Outcome<Status>)
      modifies this`iterationState, this`shown, headers
      ensures var effect := Calls.OnHeaders(old(iterationState), old(headers.entries), answer);
              && o.Returned? == effect.Returned?
              && (o.Returned? ==>
                    o.value == effect.value.status && iterationState == effect.value.iteration
                    && headers.entries == effect.value.headers)
      ensures shown == old(shown) + if answer.None? then [] else [SeenHeaders(old(headers.entries), endStream)]
    {
      if answer.None? {
        return Returned(Continue);
      }
      shown := shown + [SeenHeaders(headers.entries, endStream)];
      match answer.value {
        case HeadersContinue(h) =>
          ReplaceHeaders(headers, h);
          return Returned(Continue);
        case HeadersStop =>
          iterationState := Stopped;
          return Returned(StopIteration);
        case HeadersUnsupported =>
          return Aborted;
      }
    }

    /** The pending header map pointer is passed in and its new value returned. */
    method OnData(data: Buffer, endStream: bool, internalBuffer: Buffer?, pendingHeaders: HeaderMap?,
                  answer: Option<DataAnswer>) returns (o: Outcome<Status>, stillPending: HeaderMap?)
      requires internalBuffer != data
      modifies this`iterationState, this`shown, data, BufferObjects(internalBuffer), Objects(pendingHeaders)
      ensures var effect := Calls.OnData(old(iterationState), old(Contents(internalBuffer)), old(data.bytes),
                                         pendingHeaders != null, answer);
              && o.Returned? == effect.Returned?
              && (o.Returned? ==>
                    && o.value == effect.value.status && iterationState == effect.value.iteration
                    && Contents(internalBuffer) == effect.value.buffer && data.bytes == effect.value.data
                    && stillPending == (if effect.value.replaced.Some? then null else pendingHeaders)
                    && (pendingHeaders != null ==>
                          pendingHeaders.entries == effect.value.replaced.GetOr(old(pendingHeaders.entries))))
      ensures shown == old(shown) + if answer.None? then [] else
        [SeenData(Calls.ShownData(old(iterationState), old(Contents(internalBuffer)), old(data.bytes)), endStream)]
    {
      stillPending := pendingHeaders;
      if answer.None? {
        return Returned(Continue), stillPending;
      }
      var alreadyBuffering := iterationState == Stopped && internalBuffer != null && |internalBuffer.bytes| > 0;
      var inData;
      if alreadyBuffering {
        internalBuffer.Move(data);
        inData := internalBuffer.bytes;
      } else {
        inData := data.bytes;
      }
      shown := shown + [SeenData(inData, endStream)];
      match answer.value {
        case DataContinue(d) =>
          if iterationState == Stopped {
            return Aborted, stillPending;
          }
          data.Drain();
          data.Append(d);
          return Returned(Continue), stillPending;
        case DataStopAndBuffer =>
          if alreadyBuffering {
            return Returned(StopIterationNoBuffer), stillPending;
          }
          iterationState := Stopped;
          return Returned(StopIterationAndBuffer), stillPending;
        case DataStopNoBuffer =>
          if internalBuffer != null {
            internalBuffer.Drain();
          }
          iterationState := Stopped;
          return Returned(StopIterationNoBuffer), stillPending;
        case DataResume(d, pending) =>
          if iterationState != Stopped || (pending.Some? && pendingHeaders == null) {
            return Aborted, stillPending;
          }
          if pending.Some? {
            ReplaceHeaders(pendingHeaders, pending.value);
            stillPending := null;
          }
          if internalBuffer != null {
            internalBuffer.Drain();
            internalBuffer.Append(d);
          } else {
            data.Drain();
            data.Append(d);
          }
          iterationState := Ongoing;
          return Returned(Continue), stillPending;
        case DataUnsupported =>
          return Aborted, stillPending;
      }
    }

    method OnTrailers(trailers: HeaderMap, internalBuffer: Buffer?, pendingHeaders: HeaderMap?,
                      answer: Option<TrailersAnswer>) returns (o: Outcome<Status>, stillPending: HeaderMap?)
      requires pendingHeaders != trailers
      modifies this`iterationState, this`shown, trailers, BufferObjects(internalBuffer), Objects(pendingHeaders)
      ensures var effect := Calls.OnTrailers(old(iterationState), old(Contents(internalBuffer)), old(trailers.entries),
                                             pendingHeaders != null, answer);
              && o.Returned? == effect.Returned?
              && (o.Returned? ==>
                    && o.value == effect.value.status && iterationState == effect.value.iteration
                    && Contents(internalBuffer) == effect.value.buffer && trailers.entries == effect.value.trailers
                    && stillPending == (if effect.value.replaced.Some? then null else pendingHeaders)
                    && (pendingHeaders != null ==>
                          pendingHeaders.entries == effect.value.replaced.GetOr(old(pendingHeaders.entries))))
      ensures shown == old(shown) + if answer.None? then [] else [SeenTrailers(old(trailers.entries))]
    {
      stillPending := pendingHeaders;
      if answer.None? {
        return Returned(Continue), stillPending;
      }
      shown := shown + [SeenTrailers(trailers.entries)];
      match answer.value {
        case TrailersContinue(t) =>
          if iterationState == Stopped {
            return Aborted, stillPending;
          }
          ReplaceHeaders(trailers, t);
          return Returned(Continue), stillPending;
        case TrailersStop =>
          iterationState := Stopped;
          return Returned(StopIteration), stillPending;
        case TrailersResume(t, pending, pendingData) =>
          if iterationState != Stopped || (pending.Some? && pendingHeaders == null)
             || (pendingData.Some? && internalBuffer == null) {
            return Aborted, stillPending;
          }
          if pending.Some? {
            ReplaceHeaders(pendingHeaders, pending.value);
            stillPending := null;
          }
          if pendingData.Some? {
            internalBuffer.Drain();
            internalBuffer.Append(pendingData.value);
          }
          ReplaceHeaders(trailers, t);
          iterationState := Ongoing;
          return Returned(Continue), stillPending;
        case TrailersUnsupported =>
          return Aborted, stillPending;
      }
    }

    method DecodeHeaders(headers: HeaderMap, endStream: bool, answer: Option<HeadersAnswer>) returns (o: Outcome<Status>)
      modifies this`iterationState, this`shown, this`pendingRequestHeaders, this`requestComplete, headers
      ensures var effect := Calls.OnHeaders(old(iterationState), old(headers.entries), answer);
              && o.Returned? == effect.Returned?
              && (o.Returned? ==>
                    && o.value == effect.value.status && iterationState == effect.value.iteration
                    && headers.entries == effect.value.headers && requestComplete == endStream
                    && pendingRequestHeaders ==
                       (if o.value == StopIteration then headers else old(pendingRequestHeaders)))
      ensures shown == old(shown) + if answer.None? then [] else [SeenHeaders(old(headers.entries), endStream)]
    {
      o := OnHeaders(headers, endStream, answer);
      if o.Returned? {
        if o.value == StopIteration {
          pendingRequestHeaders := headers;
        }
        requestComplete := endStream;
      }
    }

    method EncodeHeaders(headers: HeaderMap, endStream: bool, answer: Option<HeadersAnswer>) returns (o: Outcome<Status>)
      modifies this`iterationState, this`shown, this`pendingResponseHeaders, this`responseComplete, headers
      ensures var effect := Calls.OnHeaders(old(iterationState), old(headers.entries), answer);
              && o.Returned? == effect.Returned?
              && (o.Returned? ==>
                    && o.value == effect.value.status && iterationState == effect.value.iteration
                    && headers.entries == effect.value.headers && responseComplete == endStream
                    && pendingResponseHeaders ==
                       (if o.value == StopIteration then headers else old(pendingResponseHeaders)))
      ensures shown == old(shown) + if answer.None? then [] else [SeenHeaders(old(headers.entries), endStream)]
    {
      o := OnHeaders(headers, endStream, answer);
      if o.Returned? {
        if o.value == StopIteration {
          pendingResponseHeaders := headers;
        }
        responseComplete := endStream;
      }
    }

    method DecodeData(data: Buffer, endStream: bool, answer: Option<DataAnswer>) returns (o: Outcome<Status>)
      requires decoderCallbacks.buffer != data
      modifies this`iterationState, this`shown, this`pendingRequestHeaders, this`requestComplete
      modifies data, BufferObjects(decoderCallbacks.buffer), Objects(pendingRequestHeaders)
      ensures var effect := Calls.OnData(old(iterationState), old(Contents(decoderCallbacks.buffer)), old(data.bytes),
                                         old(pendingRequestHeaders) != null, answer);
              && o.Returned? == effect.Returned?
              && (o.Returned? ==>
                    && o.value == effect.value.status && iterationState == effect.value.iteration
                    && Contents(decoderCallbacks.buffer) == effect.value.buffer && data.bytes == effect.value.data
                    && requestComplete == endStream
                    && pendingRequestHeaders ==
                       (if effect.value.replaced.Some? then null else old(pendingRequestHeaders))
                    && (old(pendingRequestHeaders) != null ==>
                          old(pendingRequestHeaders).entries ==
                          effect.value.replaced.GetOr(old(pendingRequestHeaders.entries))))
      ensures shown == old(shown) + if answer.None? then [] else
        [SeenData(Calls.ShownData(old(iterationState), old(Contents(decoderCallbacks.buffer)), old(data.bytes)), endStream)]
    {
      var pending;
      o, pending := OnData(data, endStream, decoderCallbacks.buffer, pendingRequestHeaders, answer);
      if o.Returned? {
        pendingRequestHeaders := pending;
        requestComplete := endStream;
      }
    }

    method EncodeData(data: Buffer, endStream: bool, answer: Option<DataAnswer>) returns (o: Outcome<Status>)
      requires encoderCallbacks.buffer != data
      modifies this`iterationState, this`shown, this`pendingResponseHeaders, this`responseComplete
      modifies data, BufferObjects(encoderCallbacks.buffer), Objects(pendingResponseHeaders)
      ensures var effect := Calls.OnData(old(iterationState), old(Contents(encoderCallbacks.buffer)), old(data.bytes),
                                         old(pendingResponseHeaders) != null, answer);
              && o.Returned? == effect.Returned?
              && (o.Returned? ==>
                    && o.value == effect.value.status && iterationState == effect.value.iteration
                    && Contents(encoderCallbacks.buffer) == effect.value.buffer && data.bytes == effect.value.data
                    && responseComplete == endStream
                    && pendingResponseHeaders ==
                       (if effect.value.replaced.Some? then null else old(pendingResponseHeaders))
                    && (old(pendingResponseHeaders) != null ==>
                          old(pendingResponseHeaders).entries ==
                          effect.value.replaced.GetOr(old(pendingResponseHeaders.entries))))
      ensures shown == old(shown) + if answer.None? then [] else
        [SeenData(Calls.ShownData(old(iterationState), old(Contents(encoderCallbacks.buffer)), old(data.bytes)), endStream)]
    {
      var pending;
      o, pending := OnData(data, endStream, encoderCallbacks.buffer, pendingResponseHeaders, answer);
      if o.Returned? {
        pendingResponseHeaders := pending;
        responseComplete := endStream;
      }
    }

    method DecodeTrailers(trailers: HeaderMap, answer: Option<TrailersAnswer>) returns (o: Outcome<Status>)
      requires pendingRequestHeaders != trailers
      modifies this`iterationState, this`shown, this`pendingRequestHeaders, this`pendingRequestTrailers
      modifies this`requestComplete, trailers, BufferObjects(decoderCallbacks.buffer), Objects(pendingRequestHeaders)
      ensures var effect := Calls.OnTrailers(old(iterationState), old(Contents(decoderCallbacks.buffer)),
                                             old(trailers.entries), old(pendingRequestHeaders) != null, answer);
              && o.Returned? == effect.Returned?
              && (o.Returned? ==>
                    && o.value == effect.value.status && iterationState == effect.value.iteration
                    && Contents(decoderCallbacks.buffer) == effect.value.buffer
                    && trailers.entries == effect.value.trailers && requestComplete
                    && pendingRequestTrailers ==
                       (if o.value == StopIteration then trailers else old(pendingRequestTrailers))
                    && pendingRequestHeaders ==
                       (if effect.value.replaced.Some? then null else old(pendingRequestHeaders))
                    && (old(pendingRequestHeaders) != null ==>
                          old(pendingRequestHeaders).entries ==
                          effect.value.replaced.GetOr(old(pendingRequestHeaders.entries))))
      ensures shown == old(shown) + if answer.None? then [] else [SeenTrailers(old(trailers.entries))]
    {
      var pending;
      o, pending := OnTrailers(trailers, decoderCallbacks.buffer, pendingRequestHeaders, answer);
      if o.Returned? {
        pendingRequestHeaders := pending;
        if o.value == StopIteration {
          pendingRequestTrailers := trailers;
        }
        requestComplete := true;
      }
    }

    method EncodeTrailers(trailers: HeaderMap, answer: Option<TrailersAnswer>) returns (o: Outcome<Status>)
      requires pendingResponseHeaders != trailers
      modifies this`iterationState, this`shown, this`pendingResponseHeaders, this`pendingResponseTrailers
      modifies this`responseComplete, trailers, BufferObjects(encoderCallbacks.buffer), Objects(pendingResponseHeaders)
      ensures var effect := Calls.OnTrailers(old(iterationState), old(Contents(encoderCallbacks.buffer)),
                                             old(trailers.entries), old(pendingResponseHeaders) != null, answer);
              && o.Returned? == effect.Returned?
              && (o.Returned? ==>
                    && o.value == effect.value.status && iterationState == effect.value.iteration
                    && Contents(encoderCallbacks.buffer) == effect.value.buffer
                    && trailers.entries == effect.value.trailers && responseComplete
                    && pendingResponseTrailers ==
                       (if o.value == StopIteration then trailers else old(pendingResponseTrailers))
                    && pendingResponseHeaders ==
                       (if effect.value.replaced.Some? then null else old(pendingResponseHeaders))
                    && (old(pendingResponseHeaders) != null ==>
                          old(pendingResponseHeaders).entries ==
                          effect.value.replaced.GetOr(old(pendingResponseHeaders.entries))))
      ensures shown == old(shown) + if answer.None? then [] else [SeenTrailers(old(trailers.entries))]
    {
      var pending;
      o, pending := OnTrailers(trailers, encoderCallbacks.buffer, pendingResponseHeaders, answer);
      if o.Returned? {
        pendingResponseHeaders := pending;
        if o.value == StopIteration {
          pendingResponseTrailers := trailers;
        }
        responseComplete := true;
      }
    }

    /** Runs when a posted decoding resume reaches the event loop. */
    method OnResumeDecoding(answer: ResumeAnswer) returns (o: Outcome<bool>)
      requires pendingRequestHeaders == null || pendingRequestHeaders != pendingRequestTrailers
      modifies this`iterationState, this`shown, this`pendingRequestHeaders, this`pendingRequestTrailers
      modifies decoderCallbacks`added, decoderCallbacks`continues, BufferObjects(decoderCallbacks.buffer)
      modifies Objects(pendingRequestHeaders), Objects(pendingRequestTrailers)
      ensures var effect := Calls.OnResume(Decoding, old(iterationState), old(Entries(pendingRequestHeaders)),
                                           old(Contents(decoderCallbacks.buffer)), old(Entries(pendingRequestTrailers)),
                                           answer);
              && o.Returned? == effect.Returned?
              && (o.Returned? ==>
                    && o.value == effect.value.continued && iterationState == effect.value.iteration
                    && Contents(decoderCallbacks.buffer) == effect.value.buffer
                    && Entries(old(pendingRequestHeaders)) == effect.value.headers
                    && Entries(old(pendingRequestTrailers)) == effect.value.trailers
                    && decoderCallbacks.continues == old(decoderCallbacks.continues) + (if o.value then 1 else 0)
                    && decoderCallbacks.added ==
                       old(decoderCallbacks.added) +
                       (if effect.value.injected.Some? then [effect.value.injected.value] else [])
                    && pendingRequestHeaders == (if o.value then null else old(pendingRequestHeaders))
                    && pendingRequestTrailers == (if o.value then null else old(pendingRequestTrailers)))
      ensures shown == old(shown) + if old(iterationState) == Ongoing then [] else
        [SeenResume(old(Entries(pendingRequestHeaders)), old(Contents(decoderCallbacks.buffer)),
                    old(Entries(pendingRequestTrailers)), old(requestComplete))]
    {
      if iterationState == Ongoing {
        return Returned(false);
      }
      var internalBuffer := decoderCallbacks.buffer;
      shown := shown + [SeenResume(Entries(pendingRequestHeaders), Contents(internalBuffer),
                                   Entries(pendingRequestTrailers), requestComplete)];
      if !answer.resume {
        return Returned(false);
      }
      if pendingRequestHeaders != null {
        if answer.pendingHeaders.None? {
          return Aborted;
        }
        ReplaceHeaders(pendingRequestHeaders, answer.pendingHeaders.value);
        pendingRequestHeaders := null;
      }
      if internalBuffer != null {
        if answer.pendingData.None? {
          return Aborted;
        }
        internalBuffer.Drain();
        internalBuffer.Append(answer.pendingData.value);
      } else if answer.pendingData.Some? {
        decoderCallbacks.AddData(answer.pendingData.value);
      }
      if pendingRequestTrailers != null {
        if answer.pendingTrailers.None? {
          return Aborted;
        }
        ReplaceHeaders(pendingRequestTrailers, answer.pendingTrailers.value);
        pendingRequestTrailers := null;
      }
      iterationState := Ongoing;
      decoderCallbacks.ContinueIteration();
      return Returned(true);
    }

    /** Runs when a posted encoding resume reaches the event loop. The status of the answer is not read. */
    method OnResumeEncoding(answer: ResumeAnswer) returns (o: Outcome<bool>)
      requires pendingResponseHeaders == null || pendingResponseHeaders != pendingResponseTrailers
      modifies this`iterationState, this`shown, this`pendingResponseHeaders, this`pendingResponseTrailers
      modifies encoderCallbacks`added, encoderCallbacks`continues, BufferObjects(encoderCallbacks.buffer)
      modifies Objects(pendingResponseHeaders), Objects(pendingResponseTrailers)
      ensures var effect := Calls.OnResume(Encoding, old(iterationState), old(Entries(pendingResponseHeaders)),
                                           old(Contents(encoderCallbacks.buffer)), old(Entries(pendingResponseTrailers)),
                                           answer);
              && o.Returned? == effect.Returned?
              && (o.Returned? ==>
                    && o.value == effect.value.continued && iterationState == effect.value.iteration
                    && Contents(encoderCallbacks.buffer) == effect.value.buffer
                    && Entries(old(pendingResponseHeaders)) == effect.value.headers
                    && Entries(old(pendingResponseTrailers)) == effect.value.trailers
                    && encoderCallbacks.continues == old(encoderCallbacks.continues) + (if o.value then 1 else 0)
                    && encoderCallbacks.added ==
                       old(encoderCallbacks.added) +
                       (if effect.value.injected.Some? then [effect.value.injected.value] else [])
                    && pendingResponseHeaders == (if o.value then null else old(pendingResponseHeaders))
                    && pendingResponseTrailers == (if o.value then null else old(pendingResponseTrailers)))
      ensures shown == old(shown) + if old(iterationState) == Ongoing then [] else
        [SeenResume(old(Entries(pendingResponseHeaders)), old(Contents(encoderCallbacks.buffer)),
                    old(Entries(pendingResponseTrailers)), old(responseComplete))]
    {
      if iterationState == Ongoing {
        return Returned(false);
      }
      var internalBuffer := encoderCallbacks.buffer;
      shown := shown + [SeenResume(Entries(pendingResponseHeaders), Contents(internalBuffer),
                                   Entries(pendingResponseTrailers), responseComplete)];
      if pendingResponseHeaders != null {
        if answer.pendingHeaders.None? {
          return Aborted;
        }
        ReplaceHeaders(pendingResponseHeaders, answer.pendingHeaders.value);
        pendingResponseHeaders := null;
      }
      if internalBuffer != null {
        if answer.pendingData.None? {
          return Aborted;
        }
        internalBuffer.Drain();
        internalBuffer.Append(answer.pendingData.value);
      } else if answer.pendingData.Some? {
        encoderCallbacks.AddData(answer.pendingData.value);
      }
      if pendingResponseTrailers != null {
        if answer.pendingTrailers.None? {
          return Aborted;
        }
        ReplaceHeaders(pendingResponseTrailers, answer.pendingTrailers.value);
        pendingResponseTrailers := null;
      }
      iterationState := Ongoing;
      encoderCallbacks.ContinueIteration();
      return Returned(true);
    }
  }
}
