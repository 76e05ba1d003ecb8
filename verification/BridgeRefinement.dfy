/**
 The bridge filter refined to one accumulator: received entities wait in one place until they are let through.
 Which steps and which runs of both directions agree with it, exactly, and a run into each departure.
 */
module BridgeRefinement {
  import opened Wrappers
  import opened BridgeTypes
  import opened BridgeRuns

  // ---------- The reference: received entities wait in one place until they are let through ----------

  datatype Ideal = Ideal(
    headers: Option<Headers>, body: Bytes, trailers: Option<Headers>,
    stopped: bool, ended: bool, forwarded: Forwarded, seen: seq<Seen>)

  const EMPTY_IDEAL := Ideal(None, [], None, false, false, Forwarded(None, [], None), [])

  /** Nothing waits any more; the given entities go on. */
  function Pass(i: Ideal, h: Option<Headers>, b: Bytes, t: Option<Headers>): Ideal {
    Ideal(None, [], None, false, i.ended,
          Forwarded(if h.Some? then h else i.forwarded.headers, i.forwarded.body + b,
                    if t.Some? then t else i.forwarded.trailers),
          i.seen)
  }

  function Modified(held: Option<Headers>, answer: Option<Headers>): Option<Headers> {
    if answer.Some? then LowerPending(answer) else held
  }

  /** present: whether the filter manager has a buffer object, which a resume shows even when it is empty. */
  function IdealStep(i: Ideal, present: bool, ev: Event): Ideal {
    match ev
    case HeadersArrive(h, end, answer) =>
      var j := i.(ended := end);
      if answer.None? then Pass(j, Some(h), i.body, i.trailers)
      else
        var k := j.(seen := i.seen + [SeenHeaders(h, end)]);
        if answer.value.HeadersContinue? then Pass(k, Some(LowerNames(answer.value.headers)), i.body, i.trailers)
        else k.(headers := Some(h), stopped := true)
    case DataArrives(chunk, end, answer) =>
      var j := i.(ended := end);
      if answer.None? then Pass(j, i.headers, i.body + chunk, i.trailers)
      else
        var k := j.(seen := i.seen + [SeenData(i.body + chunk, end)]);
        (match answer.value
         case DataContinue(d) => Pass(k, i.headers, d, i.trailers)
         case DataResume(d, h) => Pass(k, Modified(i.headers, h), d, i.trailers)
         case DataStopAndBuffer => k.(body := i.body + chunk, stopped := true)
         case _ => k.(body := [], stopped := true))
    case TrailersArrive(t, answer) =>
      var j := i.(ended := true);
      if answer.None? then Pass(j, i.headers, i.body, Some(t))
      else
        var k := j.(seen := i.seen + [SeenTrailers(t)]);
        (match answer.value
         case TrailersContinue(t') => Pass(k, i.headers, i.body, Some(LowerNames(t')))
         case TrailersResume(t', h, d) => Pass(k, Modified(i.headers, h), d.GetOr(i.body), Some(LowerNames(t')))
         case _ => k.(trailers := Some(t), stopped := true))
    case RunResume(answer) =>
      if !i.stopped then i
      else
        var k := i.(seen := i.seen + [SeenResume(i.headers, if present then Some(i.body) else None, i.trailers, i.ended)]);
        if !answer.resume then k
        else
          Pass(k, if i.headers.Some? then LowerPending(answer.pendingHeaders) else None, answer.pendingData.GetOr([]),
               if i.trailers.Some? then LowerPending(answer.pendingTrailers) else None)
    case ReshapeEmptyBuffer(_) => i
  }

  /** The reference holds exactly what was received and not forwarded, and both logs agree. */
  ghost predicate Refines(iteration: IterationState, f: Flow, i: Ideal) {
    && (iteration == Stopped <==> i.stopped) && f.held == i.stopped
    && f.ended == f.complete == i.ended
    && f.Buffered() == i.body
    && (!i.stopped ==> i.headers.None? && i.body == [] && i.trailers.None?)
    && i.headers == (if f.headersPending then f.headers else None)
    && i.trailers == (if f.trailersPending then f.trailers else None)
    && (f.headers.Some? <==> f.headersPending || f.forwarded.headers.Some?)
    && !(f.headersPending && f.forwarded.headers.Some?)
    && (f.trailers.Some? <==> f.trailersPending || f.forwarded.trailers.Some?)
    && !(f.trailersPending && f.forwarded.trailers.Some?)
    && (f.trailers.Some? ==> f.ended) && (i.stopped || f.trailers.Some? ==> f.headers.Some?)
    && f.forwarded == i.forwarded && f.seen == i.seen
  }

  // ---------- The four ways in which a step departs from the reference ----------

  /** A missing platform callback lets the filter manager continue while the filter still counts as stopped. */
  predicate Unanswered(iteration: IterationState, ev: Event) {
    iteration == Stopped &&
    ((ev.DataArrives? && ev.dataAnswer.None?) || (ev.TrailersArrive? && ev.trailersAnswer.None?))
  }

  /** The chunk is neither moved nor drained when an empty internal buffer is refilled, so it is sent again. */
  predicate Duplicates(f: Flow, ev: Event) {
    ev.DataArrives? && ev.dataAnswer.Some? && ev.dataAnswer.value.DataResume? &&
    f.buffer == Some([]) && ev.chunk != []
  }

  /** A synchronous resume that does not return the pending headers leaves their pointer set. */
  predicate LeavesHeaders(f: Flow, ev: Event) {
    f.headersPending &&
    ((ev.DataArrives? && ev.dataAnswer.Some? && ev.dataAnswer.value.DataResume? &&
      ev.dataAnswer.value.pendingHeaders.None?) ||
     (ev.TrailersArrive? && ev.trailersAnswer.Some? && ev.trailersAnswer.value.TrailersResume? &&
      ev.trailersAnswer.value.pendingHeaders.None?))
  }

  /** Encoding resumes although the platform filter answered a posted resume with a stop. */
  predicate IgnoresStop(direction: Direction, iteration: IterationState, ev: Event) {
    direction == Encoding && iteration == Stopped && ev.RunResume? && !ev.answer.resume
  }

  predicate Clean(direction: Direction, iteration: IterationState, f: Flow, ev: Event) {
    !Unanswered(iteration, ev) && !Duplicates(f, ev) && !LeavesHeaders(f, ev) && !IgnoresStop(direction, iteration, ev)
  }

  /** Every step that returns keeps the refinement if and only if it is none of those four. */
  lemma StepRefinesExactly(direction: Direction, iteration: IterationState, f: Flow, i: Ideal, ev: Event)
    requires Refines(iteration, f, i) && Legal(f, ev)
    requires Step(direction, iteration, f, ev).Returned?
    ensures var p := Step(direction, iteration, f, ev).value;
            Refines(p.iteration, p.flow, IdealStep(i, f.buffer.Some?, ev)) <==> Clean(direction, iteration, f, ev)
  {
    match ev
    case HeadersArrive(_, _, _) => HeadersRefineExactly(direction, iteration, f, i, ev);
    case DataArrives(chunk, end, answer) => DataRefinesExactly(direction, iteration, f, i, chunk, end, answer);
    case TrailersArrive(_, _) => TrailersRefineExactly(direction, iteration, f, i, ev);
    case RunResume(answer) => ResumeRefinesExactly(direction, iteration, f, i, answer);
    case ReshapeEmptyBuffer(_) =>
  }

  lemma HeadersRefineExactly(direction: Direction, iteration: IterationState, f: Flow, i: Ideal, ev: Event)
    requires Refines(iteration, f, i) && Legal(f, ev) && ev.HeadersArrive?
    requires Step(direction, iteration, f, ev).Returned?
    ensures var p := Step(direction, iteration, f, ev).value;
            Refines(p.iteration, p.flow, IdealStep(i, f.buffer.Some?, ev)) <==> Clean(direction, iteration, f, ev)
  {
    assert f.forwarded.body + [] == f.forwarded.body && f.seen + [] == f.seen;
  }

  lemma TrailersRefineExactly(direction: Direction, iteration: IterationState, f: Flow, i: Ideal, ev: Event)
    requires Refines(iteration, f, i) && Legal(f, ev) && ev.TrailersArrive?
    requires Step(direction, iteration, f, ev).Returned?
    ensures var p := Step(direction, iteration, f, ev).value;
            Refines(p.iteration, p.flow, IdealStep(i, f.buffer.Some?, ev)) <==> Clean(direction, iteration, f, ev)
  {
    assert f.forwarded.body + [] == f.forwarded.body && f.seen + [] == f.seen;
    match ev.trailersAnswer
    case None =>
    case Some(answer) =>
      if answer.TrailersResume? {
        TrailersResumeRefinesExactly(direction, f, i, ev);
      }
  }

  lemma TrailersResumeRefinesExactly(direction: Direction, f: Flow, i: Ideal, ev: Event)
    requires Refines(Stopped, f, i) && Legal(f, ev) && ev.TrailersArrive?
    requires ev.trailersAnswer.Some? && ev.trailersAnswer.value.TrailersResume?
    requires Step(direction, Stopped, f, ev).Returned?
    ensures var p := Step(direction, Stopped, f, ev).value;
            Refines(p.iteration, p.flow, IdealStep(i, f.buffer.Some?, ev)) <==> Clean(direction, Stopped, f, ev)
  {
  }

  lemma ResumeRefinesExactly(direction: Direction, iteration: IterationState, f: Flow, i: Ideal, answer: ResumeAnswer)
    requires Refines(iteration, f, i) && Step(direction, iteration, f, RunResume(answer)).Returned?
    ensures var p := Step(direction, iteration, f, RunResume(answer)).value;
            Refines(p.iteration, p.flow, IdealStep(i, f.buffer.Some?, RunResume(answer))) <==>
            Clean(direction, iteration, f, RunResume(answer))
  {
    assert f.seen + [] == f.seen;
    if iteration == Stopped && (direction == Encoding || answer.resume) {
      ReleaseRefinesExactly(direction, f, i, answer);
    }
  }

  lemma ReleaseRefinesExactly(direction: Direction, f: Flow, i: Ideal, answer: ResumeAnswer)
    requires Refines(Stopped, f, i) && (direction == Encoding || answer.resume)
    requires Step(direction, Stopped, f, RunResume(answer)).Returned?
    ensures var p := Step(direction, Stopped, f, RunResume(answer)).value;
            Refines(p.iteration, p.flow, IdealStep(i, f.buffer.Some?, RunResume(answer))) <==> answer.resume
  {
  }

  lemma DataRefinesExactly(direction: Direction, iteration: IterationState, f: Flow, i: Ideal,
                           chunk: Bytes, end: bool, answer: Option<DataAnswer>)
    requires var ev := DataArrives(chunk, end, answer);
             Refines(iteration, f, i) && Legal(f, ev) && Step(direction, iteration, f, ev).Returned?
    ensures var ev := DataArrives(chunk, end, answer);
            var p := Step(direction, iteration, f, ev).value;
            Refines(p.iteration, p.flow, IdealStep(i, f.buffer.Some?, ev)) <==> Clean(direction, iteration, f, ev)
  {
    assert [] + chunk == chunk && i.body + [] == i.body;
    if answer.Some? && answer.value.DataResume? {
      DataResumeRefinesExactly(direction, f, i, chunk, end, answer.value.data, answer.value.pendingHeaders);
    }
  }

  lemma DataResumeRefinesExactly(direction: Direction, f: Flow, i: Ideal, chunk: Bytes, end: bool, d: Bytes,
                                 h: Option<Headers>)
    requires var ev := DataArrives(chunk, end, Some(DataResume(d, h)));
             Refines(Stopped, f, i) && Legal(f, ev) && Step(direction, Stopped, f, ev).Returned?
    ensures var ev := DataArrives(chunk, end, Some(DataResume(d, h)));
            var p := Step(direction, Stopped, f, ev).value;
            Refines(p.iteration, p.flow, IdealStep(i, f.buffer.Some?, ev)) <==> Clean(direction, Stopped, f, ev)
  {
    var ev := DataArrives(chunk, end, Some(DataResume(d, h)));
    assert i.body == [] ==> i.body + chunk == chunk;
    assert [] + d == d && d + [] == d;
    if Duplicates(f, ev) {
      assert |f.forwarded.body + (d + chunk)| != |f.forwarded.body + d|;
    }
  }

  // ---------- Runs of both directions, which share the iteration state ----------

  function Move(active: Direction, s: State, i: Ideal, x: Input): Ideal {
    if x.direction == active then IdealStep(i, s.Of(active).buffer.Some?, x.event) else i
  }

  /** The refinement of one direction holds now and after every step of the run. */
  ghost predicate AlwaysRefines(active: Direction, s: State, i: Ideal, xs: seq<Input>)
    requires LegalRun(s, xs)
    decreases |xs|
  {
    Refines(s.iteration, s.Of(active), i) &&
    (xs == [] || AlwaysRefines(active, StepState(s, xs[0]).value, Move(active, s, i, xs[0]), xs[1..]))
  }

  /** No step of the direction departs, and no step of the other one stops or resumes the shared iteration. */
  predicate NeverDeparts(active: Direction, s: State, xs: seq<Input>)
    requires LegalRun(s, xs)
    decreases |xs|
  {
    xs == [] ||
    (&& (if xs[0].direction == active then Clean(active, s.iteration, s.Of(active), xs[0].event)
         else !Turns(s.iteration, xs[0]))
     && NeverDeparts(active, StepState(s, xs[0]).value, xs[1..]))
  }

  lemma OtherStepRefinesExactly(active: Direction, s: State, i: Ideal, x: Input)
    requires x.direction != active && StepState(s, x).Returned? && Refines(s.iteration, s.Of(active), i)
    ensures var s' := StepState(s, x).value;
            Refines(s'.iteration, s'.Of(active), i) <==> !Turns(s.iteration, x)
  {
    TurnsExactly(s, x);
    OtherFlowStays(active, s, x);
    hide StepState, Turns;
  }

  /**
   For every legal run of both directions, the filter, its two buffering places and the filter manager behave in one
   direction as the reference after every step if and only if no step of that direction is one of the four departures
   and no step of the other direction stops or resumes.
   */
  lemma {:induction false} RunRefinesExactly(active: Direction, s: State, i: Ideal, xs: seq<Input>)
    requires LegalRun(s, xs) && Refines(s.iteration, s.Of(active), i)
    ensures AlwaysRefines(active, s, i, xs) <==> NeverDeparts(active, s, xs)
    decreases |xs|
  {
    if xs != [] {
      var x, s' := xs[0], StepState(s, xs[0]).value;
      if x.direction == active {
        StepRefinesExactly(active, s.iteration, s.Of(active), i, x.event);
      } else {
        OtherStepRefinesExactly(active, s, i, x);
      }
      hide Refines, Clean, Turns, StepState, IdealStep;
      if Refines(s'.iteration, s'.Of(active), Move(active, s, i, x)) {
        RunRefinesExactly(active, s', Move(active, s, i, x), xs[1..]);
      }
    }
  }

  lemma StartRefines(active: Direction)
    ensures Refines(START.iteration, START.Of(active), EMPTY_IDEAL)
  {
  }

  // ---------- Each departure is reached from the start ----------

  /** The state after a run from the start, when every event is legal and none aborts. */
  ghost predicate Leads(xs: seq<Input>, s: State) {
    LegalRun(START, xs) && Run(START, xs) == Returned(s)
  }

  lemma LeadsOn(xs: seq<Input>, s: State, x: Input)
    requires Leads(xs, s) && Legal(s.Of(x.direction), x.event) && StepState(s, x).Returned?
    ensures Leads(xs + [x], StepState(s, x).value)
  {
    RunSnoc(START, xs, x);
  }

  lemma {:induction false} RunSnoc(s: State, xs: seq<Input>, x: Input)
    requires LegalRun(s, xs) && Run(s, xs).Returned?
    requires var t := Run(s, xs).value; Legal(t.Of(x.direction), x.event) && StepState(t, x).Returned?
    ensures LegalRun(s, xs + [x]) && Run(s, xs + [x]) == StepState(Run(s, xs).value, x)
    decreases |xs|
  {
    hide StepState, Legal;
    if xs == [] {
      assert [] + [x] == [x] && [x][1..] == [];
      assert Run(StepState(s, x).value, []) == StepState(s, x) && LegalRun(StepState(s, x).value, []);
    } else {
      RunSnoc(StepState(s, xs[0]).value, xs[1..], x);
      assert (xs + [x])[0] == xs[0] && (xs + [x])[1..] == xs[1..] + [x];
    }
  }

  function StopOnHeaders(direction: Direction, h: Headers): Input {
    Input(direction, HeadersArrive(h, false, Some(HeadersStop)))
  }

  lemma StoppedOnHeaders(direction: Direction, h: Headers) returns (s: State)
    ensures Leads([StopOnHeaders(direction, h)], s) && s.iteration == Stopped
    ensures s.Of(direction) ==
            EMPTY_FLOW.(headersPending := true, headers := Some(h), held := true, seen := [SeenHeaders(h, false)])
    ensures if direction == Decoding then s.encoding == EMPTY_FLOW else s.decoding == EMPTY_FLOW
  {
    var x := StopOnHeaders(direction, h);
    s := StepState(START, x).value;
    assert Leads([], START);
    LeadsOn([], START, x);
    assert [] + [x] == [x] && [] + [SeenHeaders(h, false)] == [SeenHeaders(h, false)];
  }

  /** A legal run from the start, and the step that comes next. */
  ghost predicate Reaches(xs: seq<Input>, s: State, x: Input) {
    Leads(xs, s) && Legal(s.Of(x.direction), x.event) && StepState(s, x).Returned?
  }

  /** Without a data callback, the body and the pending headers are forwarded while the filter stays stopped. */
  lemma UnansweredReached(direction: Direction, h: Headers, chunk: Bytes)
    returns (xs: seq<Input>, s: State, x: Input)
    ensures Reaches(xs, s, x) && x.direction == direction && Unanswered(s.iteration, x.event)
    ensures var s' := StepState(s, x).value;
            && s'.iteration == Stopped && s'.Of(direction).headersPending
            && s'.Of(direction).forwarded == Forwarded(Some(h), chunk, None)
  {
    xs := [StopOnHeaders(direction, h)];
    s := StoppedOnHeaders(direction, h);
    x := Input(direction, DataArrives(chunk, false, None));
    assert [] + chunk == chunk;
  }

  /** After buffering and dropping, a data call that resumes with its chunk has the chunk forwarded twice. */
  lemma DuplicatesReached(direction: Direction, h: Headers, chunk: Bytes)
    returns (xs: seq<Input>, s: State, x: Input)
    requires chunk != []
    ensures Reaches(xs, s, x) && x.direction == direction && Duplicates(s.Of(direction), x.event)
    ensures x.event == DataArrives(chunk, false, Some(DataResume(chunk, Some(h)))) && s.Of(direction).forwarded.body == []
    ensures StepState(s, x).value.Of(direction).forwarded == Forwarded(Some(LowerNames(h)), chunk + chunk, None)
  {
    var s0 := StoppedOnHeaders(direction, h);
    xs := [StopOnHeaders(direction, h)];
    var keep := Input(direction, DataArrives([1], false, Some(DataStopAndBuffer)));
    LeadsOn(xs, s0, keep);
    var s1 := StepState(s0, keep).value;
    var drop := Input(direction, DataArrives([], false, Some(DataStopNoBuffer)));
    LeadsOn(xs + [keep], s1, drop);
    xs := xs + [keep] + [drop];
    s := StepState(s1, drop).value;
    x := Input(direction, DataArrives(chunk, false, Some(DataResume(chunk, Some(h)))));
    assert s.Of(direction).buffer == Some([]);
    assert [] + (chunk + chunk) == chunk + chunk;
  }

  /** A data call that resumes without the headers leaves them pending in an ongoing state. */
  lemma LeavesHeadersReached(direction: Direction, h: Headers, chunk: Bytes)
    returns (xs: seq<Input>, s: State, x: Input)
    ensures Reaches(xs, s, x) && x.direction == direction && LeavesHeaders(s.Of(direction), x.event)
    ensures var s' := StepState(s, x).value;
            s'.iteration == Ongoing && s'.Of(direction).headersPending
  {
    xs := [StopOnHeaders(direction, h)];
    s := StoppedOnHeaders(direction, h);
    x := Input(direction, DataArrives(chunk, false, Some(DataResume(chunk, None))));
  }

  /** The encoding direction forwards the headers although the platform filter answered with a stop. */
  lemma IgnoresStopReached(h: Headers) returns (xs: seq<Input>, s: State, x: Input)
    ensures Reaches(xs, s, x) && x.direction == Encoding && IgnoresStop(Encoding, s.iteration, x.event)
    ensures var s' := StepState(s, x).value;
            s'.iteration == Ongoing && s'.encoding.forwarded.headers == Some(LowerNames(h))
  {
    xs := [StopOnHeaders(Encoding, h)];
    s := StoppedOnHeaders(Encoding, h);
    x := Input(Encoding, RunResume(ResumeAnswer(false, Some(h), None, None)));
  }
}
