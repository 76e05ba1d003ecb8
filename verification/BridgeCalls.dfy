/**
 The effect of each call on the platform bridge filter, as functions of the values it reads. A missing
 platform callback is an answer of None; a null internal buffer or header map pointer is None.
 */
module BridgeCalls {
  import opened Wrappers
  import opened BridgeTypes

  datatype HeadersEffect = HeadersEffect(status: Status, iteration: IterationState, headers: Headers)

  function OnHeaders(iteration: IterationState, headers: Headers, answer: Option<HeadersAnswer>): Outcome<HeadersEffect> {
    match answer
    case None => Returned(HeadersEffect(Continue, iteration, headers))
    case Some(HeadersContinue(h)) => Returned(HeadersEffect(Continue, iteration, LowerNames(h)))
    case Some(HeadersStop) => Returned(HeadersEffect(StopIteration, Stopped, headers))
    case Some(HeadersUnsupported) => Aborted
  }

  predicate AlreadyBuffering(iteration: IterationState, buffer: Option<Bytes>) {
    iteration == Stopped && buffer.Some? && |buffer.value| > 0
  }

  /** The bytes shown to the platform: the buffered bytes too, but only when there are any. */
  function ShownData(iteration: IterationState, buffer: Option<Bytes>, data: Bytes): Bytes {
    if AlreadyBuffering(iteration, buffer) then buffer.value + data else data
  }

  /** pending is the header map still pending after the call; replaced is what was written to the one pending before. */
  datatype DataEffect = DataEffect(
    status: Status, iteration: IterationState, buffer: Option<Bytes>, data: Bytes,
    replaced: Option<Headers>)

  function OnData(iteration: IterationState, buffer: Option<Bytes>, data: Bytes, headersPending: bool,
                  answer: Option<DataAnswer>): Outcome<DataEffect>
  {
    var buffering := AlreadyBuffering(iteration, buffer);
    var moved := if buffering then Some(buffer.value + data) else buffer;
    var left := if buffering then [] else data;
    match answer
    case None => Returned(DataEffect(Continue, iteration, buffer, data, None))
    case Some(DataContinue(d)) =>
      if iteration == Stopped then Aborted
      else Returned(DataEffect(Continue, iteration, moved, d, None))
    case Some(DataStopAndBuffer) =>
      if buffering then Returned(DataEffect(StopIterationNoBuffer, iteration, moved, left, None))
      else Returned(DataEffect(StopIterationAndBuffer, Stopped, moved, left, None))
    case Some(DataStopNoBuffer) =>
      Returned(DataEffect(StopIterationNoBuffer, Stopped, if buffer.Some? then Some([]) else None, left, None))
    case Some(DataResume(d, pendingHeaders)) =>
      if iteration == Ongoing || (pendingHeaders.Some? && !headersPending) then Aborted
      else if buffer.Some? then Returned(DataEffect(Continue, Ongoing, Some(d), left, LowerPending(pendingHeaders)))
      else Returned(DataEffect(Continue, Ongoing, None, d, LowerPending(pendingHeaders)))
    case Some(DataUnsupported) => Aborted
  }

  datatype TrailersEffect = TrailersEffect(
    status: Status, iteration: IterationState, buffer: Option<Bytes>, trailers: Headers,
    replaced: Option<Headers>)

  function OnTrailers(iteration: IterationState, buffer: Option<Bytes>, trailers: Headers, headersPending: bool,
                      answer: Option<TrailersAnswer>): Outcome<TrailersEffect>
  {
    match answer
    case None => Returned(TrailersEffect(Continue, iteration, buffer, trailers, None))
    case Some(TrailersContinue(t)) =>
      if iteration == Stopped then Aborted
      else Returned(TrailersEffect(Continue, iteration, buffer, LowerNames(t), None))
    case Some(TrailersStop) => Returned(TrailersEffect(StopIteration, Stopped, buffer, trailers, None))
    case Some(TrailersResume(t, pendingHeaders, pendingData)) =>
      if iteration == Ongoing || (pendingHeaders.Some? && !headersPending) || (pendingData.Some? && buffer.None?) then
        Aborted
      else
        Returned(TrailersEffect(Continue, Ongoing, if pendingData.Some? then pendingData else buffer, LowerNames(t),
                                LowerPending(pendingHeaders)))
    case Some(TrailersUnsupported) => Aborted
  }

  /** injected is data handed to the filter manager to buffer when it had no buffer. */
  datatype ResumeEffect = ResumeEffect(
    continued: bool, iteration: IterationState, buffer: Option<Bytes>, injected: Option<Bytes>,
    headers: Option<Headers>, trailers: Option<Headers>)

  /** A posted resume. Only the decoding direction looks at the status of the answer. */
  function OnResume(direction: Direction, iteration: IterationState, headers: Option<Headers>, buffer: Option<Bytes>,
                    trailers: Option<Headers>, answer: ResumeAnswer): Outcome<ResumeEffect>
  {
    if iteration == Ongoing || (direction == Decoding && !answer.resume) then
      Returned(ResumeEffect(false, iteration, buffer, None, headers, trailers))
    else if (headers.Some? && answer.pendingHeaders.None?) || (buffer.Some? && answer.pendingData.None?)
         || (trailers.Some? && answer.pendingTrailers.None?) then
      Aborted
    else
      Returned(ResumeEffect(true, Ongoing,
                            if buffer.Some? then answer.pendingData else None,
                            if buffer.Some? then None else answer.pendingData,
                            if headers.Some? then LowerPending(answer.pendingHeaders) else None,
                            if trailers.Some? then LowerPending(answer.pendingTrailers) else None))
  }
}
