/**
 Runs of the platform bridge filter between a filter manager and a platform filter.

 The filter manager is modelled by its contract: a stop with buffering appends the rest of the chunk to the
 internal buffer, a stop without buffering keeps nothing more, a continue while ongoing forwards, and a continue
 out of a stop appends the rest of the chunk and forwards headers, buffer and trailers. After forwarding, the
 buffer object stays, empty; the environment may create or drop an empty buffer at any time.
 */
module BridgeRuns {
  import opened Wrappers
  import opened BridgeTypes
  import opened BridgeCalls

  datatype Forwarded = Forwarded(headers: Option<Headers>, body: Bytes, trailers: Option<Headers>)

  /** One direction: the filter's pending pointers and completion flag, then what the filter manager holds. */
  datatype Flow = Flow(
    headersPending: bool, trailersPending: bool, complete: bool,
    headers: Option<Headers>, trailers: Option<Headers>, buffer: Option<Bytes>,
    held: bool, ended: bool, forwarded: Forwarded, seen: seq<Seen>)
  {
    function Buffered(): Bytes {
      buffer.GetOr([])
    }
  }

  const EMPTY_FLOW :=
    Flow(false, false, false, None, None, None, false, false, Forwarded(None, [], None), [])

  datatype Event =
    | HeadersArrive(headers: Headers, endStream: bool, headersAnswer: Option<HeadersAnswer>)
    | DataArrives(chunk: Bytes, endStream: bool, dataAnswer: Option<DataAnswer>)
    | TrailersArrive(trailers: Headers, trailersAnswer: Option<TrailersAnswer>)
    | RunResume(answer: ResumeAnswer)
    | ReshapeEmptyBuffer(present: bool)

  /** Headers come first and once; nothing follows the end of the stream; only empty buffers are reshaped. */
  predicate Legal(f: Flow, ev: Event) {
    match ev
    case HeadersArrive(_, _, _) => f.headers.None?
    case DataArrives(_, _, _) => f.headers.Some? && !f.ended
    case TrailersArrive(_, _) => f.headers.Some? && !f.ended
    case RunResume(_) => true
    case ReshapeEmptyBuffer(_) => f.Buffered() == []
  }

  /** The filter manager continues out of a stop. */
  function Release(f: Flow): Flow {
    f.(held := false,
       buffer := if f.buffer.Some? then Some([]) else None,
       forwarded := Forwarded(if f.forwarded.headers.Some? then f.forwarded.headers else f.headers,
                              f.forwarded.body + f.Buffered(),
                              if f.forwarded.trailers.Some? then f.forwarded.trailers else f.trailers))
  }

  function AfterHeaders(f: Flow, status: Status): Flow {
    if status == Continue then f.(forwarded := f.forwarded.(headers := f.headers)) else f.(held := true)
  }

  function AfterData(f: Flow, status: Status, left: Bytes): Flow {
    match status
    case Continue =>
      if f.held then Release(f.(buffer := Some(f.Buffered() + left)))
      else f.(forwarded := f.forwarded.(body := f.forwarded.body + left))
    case StopIterationAndBuffer => f.(held := true, buffer := Some(f.Buffered() + left))
    case _ => f.(held := true)
  }

  function AfterTrailers(f: Flow, status: Status): Flow {
    if status != Continue then f.(held := true)
    else if f.held then Release(f)
    else f.(forwarded := f.forwarded.(trailers := f.trailers))
  }

  /** What a call of the filter leaves to the filter manager: a status, and what is left of a chunk. */
  datatype Called = Called(status: Status, left: Bytes, iteration: IterationState, flow: Flow)

  function CallHeaders(iteration: IterationState, f: Flow, h: Headers, end: bool, answer: Option<HeadersAnswer>):
    Outcome<Called>
  {
    match OnHeaders(iteration, h, answer)
    case Aborted => Aborted
    case Returned(e) =>
      Returned(Called(e.status, [], e.iteration,
                      f.(headers := Some(e.headers), ended := end, complete := end,
                         headersPending := f.headersPending || e.status == StopIteration,
                         seen := f.seen + if answer.None? then [] else [SeenHeaders(h, end)])))
  }

  function CallData(iteration: IterationState, f: Flow, chunk: Bytes, end: bool, answer: Option<DataAnswer>):
    Outcome<Called>
  {
    match OnData(iteration, f.buffer, chunk, f.headersPending, answer)
    case Aborted => Aborted
    case Returned(e) =>
      Returned(Called(e.status, e.data, e.iteration,
                      f.(buffer := e.buffer, ended := end, complete := end,
                         headers := if e.replaced.Some? then e.replaced else f.headers,
                         headersPending := f.headersPending && e.replaced.None?,
                         seen := f.seen +
                           if answer.None? then [] else [SeenData(ShownData(iteration, f.buffer, chunk), end)])))
  }

  function CallTrailers(iteration: IterationState, f: Flow, t: Headers, answer: Option<TrailersAnswer>):
    Outcome<Called>
  {
    match OnTrailers(iteration, f.buffer, t, f.headersPending, answer)
    case Aborted => Aborted
    case Returned(e) =>
      Returned(Called(e.status, [], e.iteration,
                      f.(buffer := e.buffer, trailers := Some(e.trailers), ended := true, complete := true,
                         headers := if e.replaced.Some? then e.replaced else f.headers,
                         headersPending := f.headersPending && e.replaced.None?,
                         trailersPending := f.trailersPending || e.status == StopIteration,
                         seen := f.seen + if answer.None? then [] else [SeenTrailers(t)])))
  }

  function PendingHeaders(f: Flow): Option<Headers> {
    if f.headersPending then f.headers else None
  }

  function PendingTrailers(f: Flow): Option<Headers> {
    if f.trailersPending then f.trailers else None
  }

  /** The flow after a posted resume with the given effect. */
  function Resumed(iteration: IterationState, f: Flow, e: ResumeEffect): Flow {
    f.(headers := if f.headersPending then e.headers else f.headers,
       trailers := if f.trailersPending then e.trailers else f.trailers,
       headersPending := f.headersPending && !e.continued, trailersPending := f.trailersPending && !e.continued,
       buffer := if e.injected.Some? then e.injected else e.buffer,
       seen := f.seen + if iteration == Ongoing then []
                        else [SeenResume(PendingHeaders(f), f.buffer, PendingTrailers(f), f.complete)])
  }

  /** A posted resume; the status is Continue exactly when the filter asks to continue. */
  function CallResume(direction: Direction, iteration: IterationState, f: Flow, answer: ResumeAnswer): Outcome<Called> {
    match OnResume(direction, iteration, PendingHeaders(f), f.buffer, PendingTrailers(f), answer)
    case Aborted => Aborted
    case Returned(e) =>
      Returned(Called(if e.continued then Continue else StopIteration, [], e.iteration, Resumed(iteration, f, e)))
  }

  datatype Position = Position(iteration: IterationState, flow: Flow)

  /** The filter is called, and the filter manager acts on the outcome. */
  function Step(direction: Direction, iteration: IterationState, f: Flow, ev: Event): Outcome<Position> {
    match ev
    case HeadersArrive(h, end, answer) =>
      (match CallHeaders(iteration, f, h, end, answer)
       case Aborted => Aborted
       case Returned(c) => Returned(Position(c.iteration, AfterHeaders(c.flow, c.status))))
    case DataArrives(chunk, end, answer) =>
      (match CallData(iteration, f, chunk, end, answer)
       case Aborted => Aborted
       case Returned(c) => Returned(Position(c.iteration, AfterData(c.flow, c.status, c.left))))
    case TrailersArrive(t, answer) =>
      (match CallTrailers(iteration, f, t, answer)
       case Aborted => Aborted
       case Returned(c) => Returned(Position(c.iteration, AfterTrailers(c.flow, c.status))))
    case RunResume(answer) =>
      (match CallResume(direction, iteration, f, answer)
       case Aborted => Aborted
       case Returned(c) =>
         Returned(Position(c.iteration, if c.status == Continue then Release(c.flow) else c.flow)))
    case ReshapeEmptyBuffer(present) =>
      Returned(Position(iteration, f.(buffer := if present then Some([]) else None)))
  }

  // ---------- Runs over both directions, which share the iteration state ----------

  datatype State = State(iteration: IterationState, decoding: Flow, encoding: Flow) {
    function Of(direction: Direction): Flow {
      if direction == Decoding then decoding else encoding
    }
  }

  const START := State(Ongoing, EMPTY_FLOW, EMPTY_FLOW)

  datatype Input = Input(direction: Direction, event: Event)

  function StepState(s: State, x: Input): Outcome<State> {
    match Step(x.direction, s.iteration, s.Of(x.direction), x.event)
    case Aborted => Aborted
    case Returned(p) =>
      Returned(if x.direction == Decoding then State(p.iteration, p.flow, s.encoding)
               else State(p.iteration, s.decoding, p.flow))
  }

  function Run(s: State, xs: seq<Input>): Outcome<State>
    decreases |xs|
  {
    if xs == [] then Returned(s)
    else
      match StepState(s, xs[0])
      case Aborted => Aborted
      case Returned(s') => Run(s', xs[1..])
  }

  /** A run of legal events, of both directions in any interleaving, none of which aborts. */
  predicate LegalRun(s: State, xs: seq<Input>)
    decreases |xs|
  {
    xs == [] ||
    (&& Legal(s.Of(xs[0].direction), xs[0].event)
     && StepState(s, xs[0]).Returned?
     && LegalRun(StepState(s, xs[0]).value, xs[1..]))
  }

  /** The platform filter's answer breaks the rules of the bridge. */
  predicate Violates(direction: Direction, iteration: IterationState, f: Flow, ev: Event) {
    match ev
    case HeadersArrive(_, _, answer) => answer == Some(HeadersUnsupported)
    case DataArrives(_, _, Some(DataContinue(_))) => iteration == Stopped
    case DataArrives(_, _, Some(DataResume(_, h))) => iteration == Ongoing || (h.Some? && !f.headersPending)
    case DataArrives(_, _, answer) => answer == Some(DataUnsupported)
    case TrailersArrive(_, Some(TrailersContinue(_))) => iteration == Stopped
    case TrailersArrive(_, Some(TrailersResume(_, h, d))) =>
      iteration == Ongoing || (h.Some? && !f.headersPending) || (d.Some? && f.buffer.None?)
    case TrailersArrive(_, answer) => answer == Some(TrailersUnsupported)
    case RunResume(a) =>
      iteration == Stopped && (direction == Encoding || a.resume) &&
      ((PendingHeaders(f).Some? && a.pendingHeaders.None?) || (f.buffer.Some? && a.pendingData.None?) ||
       (PendingTrailers(f).Some? && a.pendingTrailers.None?))
    case ReshapeEmptyBuffer(_) => false
  }

  /**
   A step aborts exactly on such an answer: an unsupported one, continuing a stop, resuming no stop, a synchronous
   resume with an entity that is not there, or a posted resume without one that is.
   */
  lemma AbortsExactly(direction: Direction, iteration: IterationState, f: Flow, ev: Event)
    ensures Step(direction, iteration, f, ev).Aborted? <==> Violates(direction, iteration, f, ev)
  {
  }

  /** The answer stops an ongoing iteration or resumes a stopped one. */
  predicate Turns(iteration: IterationState, x: Input) {
    match x.event
    case HeadersArrive(_, _, answer) => iteration == Ongoing && answer == Some(HeadersStop)
    case DataArrives(_, _, Some(DataResume(_, _))) => iteration == Stopped
    case DataArrives(_, _, answer) =>
      iteration == Ongoing && (answer == Some(DataStopAndBuffer) || answer == Some(DataStopNoBuffer))
    case TrailersArrive(_, Some(TrailersResume(_, _, _))) => iteration == Stopped
    case TrailersArrive(_, answer) => iteration == Ongoing && answer == Some(TrailersStop)
    case RunResume(answer) => iteration == Stopped && (x.direction == Encoding || answer.resume)
    case ReshapeEmptyBuffer(_) => false
  }

  /** The iteration state changes exactly on such an answer. */
  lemma TurnsExactly(s: State, x: Input)
    requires StepState(s, x).Returned?
    ensures Turns(s.iteration, x) <==> StepState(s, x).value.iteration != s.iteration
  {
    hide Release;
    match x.event
    case HeadersArrive(_, _, _) =>
    case DataArrives(_, _, _) =>
    case TrailersArrive(_, _) =>
    case RunResume(_) =>
    case ReshapeEmptyBuffer(_) =>
  }

  lemma OtherFlowStays(active: Direction, s: State, x: Input)
    requires x.direction != active && StepState(s, x).Returned?
    ensures StepState(s, x).value.Of(active) == s.Of(active)
  {
  }

  // ---------- Stops and resumes ----------

  /** The call resumed iteration: a synchronous resume was accepted, or continueDecoding/Encoding was called. */
  predicate Resumes(s: State, x: Input) {
    match x.event
    case DataArrives(_, _, Some(DataResume(_, _))) => StepState(s, x).Returned?
    case TrailersArrive(_, Some(TrailersResume(_, _, _))) => StepState(s, x).Returned?
    case RunResume(answer) =>
      var f := s.Of(x.direction);
      var o := OnResume(x.direction, s.iteration, PendingHeaders(f), f.buffer, PendingTrailers(f), answer);
      o.Returned? && o.value.continued
    case _ => false
  }

  function CountResumes(s: State, xs: seq<Input>): nat
    decreases |xs|
  {
    if xs == [] || StepState(s, xs[0]).Aborted? then 0
    else (if Resumes(s, xs[0]) then 1 else 0) + CountResumes(StepState(s, xs[0]).value, xs[1..])
  }

  /** Transitions of the iteration state from one value to the other. */
  function CountTurns(from: IterationState, s: State, xs: seq<Input>): nat
    decreases |xs|
  {
    if xs == [] || StepState(s, xs[0]).Aborted? then 0
    else
      var s' := StepState(s, xs[0]).value;
      (if s.iteration == from && s'.iteration != from then 1 else 0) + CountTurns(from, s', xs[1..])
  }

  lemma ResumesExactlyWhenItTurns(s: State, x: Input)
    requires StepState(s, x).Returned?
    ensures Resumes(s, x) <==> s.iteration == Stopped && StepState(s, x).value.iteration == Ongoing
  {
    var f := s.Of(x.direction);
    match x.event
    case HeadersArrive(_, _, _) =>
    case DataArrives(_, _, _) =>
    case TrailersArrive(_, _) =>
    case RunResume(_) => hide Release;
    case ReshapeEmptyBuffer(_) =>
  }

  /** In every run of both directions, resumes are the Stopped-to-Ongoing transitions and alternate with stops. */
  lemma {:induction false} StopsAndResumesAlternate(s: State, xs: seq<Input>)
    requires Run(s, xs).Returned?
    ensures CountResumes(s, xs) == CountTurns(Stopped, s, xs)
    ensures CountTurns(Ongoing, s, xs) + (if s.iteration == Stopped then 1 else 0) ==
            CountResumes(s, xs) + (if Run(s, xs).value.iteration == Stopped then 1 else 0)
    decreases |xs|
  {
    if xs != [] {
      var s' := StepState(s, xs[0]).value;
      ResumesExactlyWhenItTurns(s, xs[0]);
      hide Resumes, StepState;
      StopsAndResumesAlternate(s', xs[1..]);
    }
  }

  /** A posted resume that runs after iteration has resumed changes nothing and shows nothing. */
  lemma StaleResumeChangesNothing(s: State, direction: Direction, answer: ResumeAnswer)
    requires s.iteration == Ongoing
    ensures StepState(s, Input(direction, RunResume(answer))) == Returned(s)
  {
    var f := s.Of(direction);
    assert f.seen + [] == f.seen;
  }

  // ---------- Buffering in two places ----------

  /**
   While stopped, a data call shows exactly the bytes held so far followed by the chunk; buffering extends what is
   held to those bytes, not buffering empties it, and neither forwards anything.
   */
  lemma StoppedDataAccumulates(direction: Direction, f: Flow, chunk: Bytes, end: bool, answer: DataAnswer)
    requires var ev := DataArrives(chunk, end, Some(answer));
             Legal(f, ev) && Step(direction, Stopped, f, ev).Returned?
    ensures var p := Step(direction, Stopped, f, DataArrives(chunk, end, Some(answer))).value;
            && p.flow.seen == f.seen + [SeenData(f.Buffered() + chunk, end)]
            && (answer.DataStopAndBuffer? ==>
                  p.iteration == Stopped && p.flow.Buffered() == f.Buffered() + chunk && p.flow.forwarded == f.forwarded)
            && (answer.DataStopNoBuffer? ==>
                  p.iteration == Stopped && p.flow.Buffered() == [] && p.flow.forwarded == f.forwarded)
  {
    assert [] + chunk == chunk && f.Buffered() + chunk + [] == f.Buffered() + chunk;
  }
}
