/**
 Pending entities of the bridge filter in every legal run of both directions: exactly when an ongoing state has no
 pending headers or trailers and no buffered bytes, and what a resume of the wrong direction leaves behind.
 */
module BridgePending {
  import opened Wrappers
  import opened BridgeTypes
  import opened BridgeRuns
  import Refinement = BridgeRefinement

  predicate NothingPending(iteration: IterationState, f: Flow) {
    iteration == Ongoing ==> !f.headersPending && !f.trailersPending
  }

  /** A pending pointer points to an entity that arrived. */
  predicate PointersOk(f: Flow) {
    (f.headersPending ==> f.headers.Some?) && (f.trailersPending ==> f.ended && f.headers.Some?)
  }

  /** A step keeps an ongoing state free of pending entities unless a synchronous resume leaves the headers. */
  lemma StepLeavesNothingExactly(direction: Direction, iteration: IterationState, f: Flow, ev: Event)
    requires Legal(f, ev) && Step(direction, iteration, f, ev).Returned?
    requires NothingPending(iteration, f) && PointersOk(f)
    ensures var p := Step(direction, iteration, f, ev).value;
            && (NothingPending(p.iteration, p.flow) <==> !Refinement.LeavesHeaders(f, ev))
            && PointersOk(p.flow)
  {
    match ev
    case DataArrives(_, _, _) => LeavesData(direction, iteration, f, ev);
    case TrailersArrive(_, _) => LeavesTrailers(direction, iteration, f, ev);
    case _ => LeavesOther(direction, iteration, f, ev);
  }

  lemma LeavesData(direction: Direction, iteration: IterationState, f: Flow, ev: Event)
    requires ev.DataArrives? && Legal(f, ev) && Step(direction, iteration, f, ev).Returned?
    requires NothingPending(iteration, f) && PointersOk(f)
    ensures var p := Step(direction, iteration, f, ev).value;
            && (NothingPending(p.iteration, p.flow) <==> !Refinement.LeavesHeaders(f, ev))
            && PointersOk(p.flow)
  {
  }

  lemma LeavesTrailers(direction: Direction, iteration: IterationState, f: Flow, ev: Event)
    requires ev.TrailersArrive? && Legal(f, ev) && Step(direction, iteration, f, ev).Returned?
    requires NothingPending(iteration, f) && PointersOk(f)
    ensures var p := Step(direction, iteration, f, ev).value;
            && (NothingPending(p.iteration, p.flow) <==> !Refinement.LeavesHeaders(f, ev))
            && PointersOk(p.flow)
  {
  }

  lemma LeavesOther(direction: Direction, iteration: IterationState, f: Flow, ev: Event)
    requires !ev.DataArrives? && !ev.TrailersArrive? && Legal(f, ev) && Step(direction, iteration, f, ev).Returned?
    requires NothingPending(iteration, f) && PointersOk(f)
    ensures var p := Step(direction, iteration, f, ev).value;
            && (NothingPending(p.iteration, p.flow) <==> !Refinement.LeavesHeaders(f, ev))
            && PointersOk(p.flow)
  {
  }

  /** A step of the other direction resumes the shared iteration while this one's headers or trailers are pending. */
  predicate Strands(active: Direction, s: State, x: Input) {
    s.iteration == Stopped && Turns(s.iteration, x) && (s.Of(active).headersPending || s.Of(active).trailersPending)
  }

  predicate NeverLeaves(active: Direction, s: State, xs: seq<Input>)
    requires LegalRun(s, xs)
    decreases |xs|
  {
    xs == [] ||
    (&& (if xs[0].direction == active then !Refinement.LeavesHeaders(s.Of(active), xs[0].event)
         else !Strands(active, s, xs[0]))
     && NeverLeaves(active, StepState(s, xs[0]).value, xs[1..]))
  }

  predicate AlwaysNothingPending(active: Direction, s: State, xs: seq<Input>)
    requires LegalRun(s, xs)
    decreases |xs|
  {
    NothingPending(s.iteration, s.Of(active)) &&
    (xs == [] || AlwaysNothingPending(active, StepState(s, xs[0]).value, xs[1..]))
  }

  /** In every legal run: an ongoing state never has pending entities if and only if no step leaves or strands them. */
  lemma {:induction false} OngoingHasNothingPendingExactly(active: Direction, s: State, xs: seq<Input>)
    requires LegalRun(s, xs) && NothingPending(s.iteration, s.Of(active)) && PointersOk(s.Of(active))
    ensures AlwaysNothingPending(active, s, xs) <==> NeverLeaves(active, s, xs)
    decreases |xs|
  {
    if xs != [] {
      var x, s' := xs[0], StepState(s, xs[0]).value;
      if x.direction == active {
        StepLeavesNothingExactly(active, s.iteration, s.Of(active), x.event);
      } else {
        TurnsExactly(s, x);
        OtherFlowStays(active, s, x);
      }
      hide StepState, Turns, Refinement.LeavesHeaders;
      if NothingPending(s'.iteration, s'.Of(active)) {
        OngoingHasNothingPendingExactly(active, s', xs[1..]);
      }
    }
  }

  // ---------- Buffered bytes ----------

  predicate NothingBuffered(iteration: IterationState, f: Flow) {
    iteration == Ongoing ==> f.Buffered() == []
  }

  /** The filter manager only holds bytes while it is stopped. */
  predicate Settled(f: Flow) {
    !f.held ==> f.Buffered() == []
  }

  /** A synchronous resume puts bytes into the buffer of a direction in which the filter manager is not stopped. */
  predicate Refills(f: Flow, ev: Event) {
    !f.held && f.buffer.Some? &&
    ((ev.DataArrives? && ev.dataAnswer.Some? && ev.dataAnswer.value.DataResume? && ev.dataAnswer.value.data != []) ||
     (ev.TrailersArrive? && ev.trailersAnswer.Some? && ev.trailersAnswer.value.TrailersResume? &&
      ev.trailersAnswer.value.pendingData.GetOr([]) != []))
  }

  lemma StepBuffersNothingExactly(direction: Direction, iteration: IterationState, f: Flow, ev: Event)
    requires Legal(f, ev) && Step(direction, iteration, f, ev).Returned?
    requires NothingBuffered(iteration, f) && Settled(f)
    ensures var p := Step(direction, iteration, f, ev).value;
            && (NothingBuffered(p.iteration, p.flow) && Settled(p.flow) <==> !Refills(f, ev))
            && (Refills(f, ev) ==> !NothingBuffered(p.iteration, p.flow))
  {
    match ev
    case DataArrives(_, _, _) => BuffersData(direction, iteration, f, ev);
    case TrailersArrive(_, _) => BuffersTrailers(direction, iteration, f, ev);
    case _ => BuffersOther(direction, iteration, f, ev);
  }

  lemma BuffersData(direction: Direction, iteration: IterationState, f: Flow, ev: Event)
    requires ev.DataArrives? && Legal(f, ev) && Step(direction, iteration, f, ev).Returned?
    requires NothingBuffered(iteration, f) && Settled(f)
    ensures var p := Step(direction, iteration, f, ev).value;
            && (NothingBuffered(p.iteration, p.flow) && Settled(p.flow) <==> !Refills(f, ev))
            && (Refills(f, ev) ==> !NothingBuffered(p.iteration, p.flow))
  {
  }

  lemma BuffersTrailers(direction: Direction, iteration: IterationState, f: Flow, ev: Event)
    requires ev.TrailersArrive? && Legal(f, ev) && Step(direction, iteration, f, ev).Returned?
    requires NothingBuffered(iteration, f) && Settled(f)
    ensures var p := Step(direction, iteration, f, ev).value;
            && (NothingBuffered(p.iteration, p.flow) && Settled(p.flow) <==> !Refills(f, ev))
            && (Refills(f, ev) ==> !NothingBuffered(p.iteration, p.flow))
  {
  }

  lemma BuffersOther(direction: Direction, iteration: IterationState, f: Flow, ev: Event)
    requires !ev.DataArrives? && !ev.TrailersArrive? && Legal(f, ev) && Step(direction, iteration, f, ev).Returned?
    requires NothingBuffered(iteration, f) && Settled(f)
    ensures var p := Step(direction, iteration, f, ev).value;
            && (NothingBuffered(p.iteration, p.flow) && Settled(p.flow) <==> !Refills(f, ev))
            && (Refills(f, ev) ==> !NothingBuffered(p.iteration, p.flow))
  {
  }

  /** Every step buffers properly, and no step of the other direction resumes over this one's buffered bytes. */
  predicate NeverStrandsBytes(active: Direction, s: State, xs: seq<Input>)
    requires LegalRun(s, xs)
    decreases |xs|
  {
    xs == [] ||
    (&& (if xs[0].direction == active then !Refills(s.Of(active), xs[0].event)
         else !(s.iteration == Stopped && Turns(s.iteration, xs[0]) && s.Of(active).Buffered() != []))
     && NeverStrandsBytes(active, StepState(s, xs[0]).value, xs[1..]))
  }

  predicate AlwaysNothingBuffered(active: Direction, s: State, xs: seq<Input>)
    requires LegalRun(s, xs)
    decreases |xs|
  {
    NothingBuffered(s.iteration, s.Of(active)) &&
    (xs == [] || AlwaysNothingBuffered(active, StepState(s, xs[0]).value, xs[1..]))
  }

  /** In every legal run, an ongoing state never has buffered bytes if and only if no step strands or refills them. */
  lemma {:induction false} OngoingHasNothingBufferedExactly(active: Direction, s: State, xs: seq<Input>)
    requires LegalRun(s, xs) && NothingBuffered(s.iteration, s.Of(active)) && Settled(s.Of(active))
    ensures AlwaysNothingBuffered(active, s, xs) <==> NeverStrandsBytes(active, s, xs)
    decreases |xs|
  {
    if xs != [] {
      var x, s' := xs[0], StepState(s, xs[0]).value;
      if x.direction == active {
        StepBuffersNothingExactly(active, s.iteration, s.Of(active), x.event);
      } else {
        TurnsExactly(s, x);
        OtherFlowStays(active, s, x);
      }
      hide StepState, Turns, Refills;
      if NothingBuffered(s'.iteration, s'.Of(active)) {
        OngoingHasNothingBufferedExactly(active, s', xs[1..]);
      }
    }
  }

  /** From the start: the encoding direction resumes over bytes that the decoding direction has buffered. */
  lemma StrandedBytesReached(h: Headers, chunk: Bytes) returns (xs: seq<Input>, s: State, x: Input)
    requires chunk != []
    ensures Refinement.Reaches(xs, s, x) && x.direction == Encoding && Turns(s.iteration, x)
    ensures var s' := StepState(s, x).value;
            s'.iteration == Ongoing && s'.decoding.Buffered() == chunk && s'.decoding.forwarded.body == []
  {
    var s0 := Refinement.StoppedOnHeaders(Decoding, h);
    xs := [Refinement.StopOnHeaders(Decoding, h)];
    var keep := Input(Decoding, DataArrives(chunk, false, Some(DataStopAndBuffer)));
    Refinement.LeadsOn(xs, s0, keep);
    xs, s := xs + [keep], StepState(s0, keep).value;
    x := Input(Encoding, RunResume(ResumeAnswer(true, None, None, None)));
    assert [] + chunk == chunk;
  }

  /** From the start: a resume that fills the empty buffer of a direction that the filter manager never stopped. */
  lemma RefillsReached(h: Headers, chunk: Bytes) returns (xs: seq<Input>, s: State, x: Input)
    requires chunk != []
    ensures Refinement.Reaches(xs, s, x) && x.direction == Decoding && Refills(s.decoding, x.event)
    ensures var s' := StepState(s, x).value;
            s'.iteration == Ongoing && s'.decoding.Buffered() == chunk
  {
    var s0 := Refinement.StoppedOnHeaders(Encoding, h);
    xs := [Refinement.StopOnHeaders(Encoding, h)];
    var pass := Input(Decoding, HeadersArrive(h, false, None));
    Refinement.LeadsOn(xs, s0, pass);
    var s1 := StepState(s0, pass).value;
    var lend := Input(Decoding, ReshapeEmptyBuffer(true));
    Refinement.LeadsOn(xs + [pass], s1, lend);
    xs, s := xs + [pass] + [lend], StepState(s1, lend).value;
    x := Input(Decoding, DataArrives(chunk, false, Some(DataResume(chunk, None))));
  }

  // ---------- The wrong direction ----------

  /** Posted resumes of one direction, with any answers, between steps of the other one that leave it ongoing. */
  predicate OnlyStale(direction: Direction, xs: seq<Input>) {
    forall x :: x in xs ==> if x.direction == direction then x.event.RunResume? else !Turns(Ongoing, x)
  }

  lemma {:induction false} StaleResumes(direction: Direction, s: State, xs: seq<Input>)
    requires s.iteration == Ongoing && OnlyStale(direction, xs) && Run(s, xs).Returned?
    ensures var s' := Run(s, xs).value; s'.iteration == Ongoing && s'.Of(direction) == s.Of(direction)
    decreases |xs|
  {
    if xs != [] {
      var x, s1 := xs[0], StepState(s, xs[0]).value;
      assert x in xs;
      TurnsExactly(s, x);
      if x.direction == direction {
        assert x == Input(direction, RunResume(x.event.answer));
        StaleResumeChangesNothing(s, direction, x.event.answer);
      } else {
        OtherFlowStays(direction, s, x);
      }
      hide StepState, Turns;
      StaleResumes(direction, s1, xs[1..]);
    }
  }

  /**
   A step of the other direction ends a stop if and only if it resumes; then this direction stays as it was through
   any number of its own posted resumes, between any steps of the other direction that do not stop again.
   */
  lemma WrongDirectionStrandsExactly(active: Direction, s: State, x: Input, later: seq<Input>)
    requires s.iteration == Stopped && x.direction != active && StepState(s, x).Returned?
    ensures var s' := StepState(s, x).value;
            && (s'.iteration == Ongoing <==> Turns(s.iteration, x))
            && s'.Of(active) == s.Of(active)
            && (Turns(s.iteration, x) && OnlyStale(active, later) && Run(s', later).Returned? ==>
                  Run(s', later).value.iteration == Ongoing && Run(s', later).value.Of(active) == s.Of(active))
  {
    var s' := StepState(s, x).value;
    TurnsExactly(s, x);
    OtherFlowStays(active, s, x);
    if Turns(s.iteration, x) && OnlyStale(active, later) && Run(s', later).Returned? {
      hide StepState, Turns, Run;
      StaleResumes(active, s', later);
    }
  }

  /** A run from the start into such a state: the stopped direction's headers stay pending and are not forwarded. */
  lemma WrongDirectionResumeStrands(h: Headers)
    ensures var stop := Input(Decoding, HeadersArrive(h, false, Some(HeadersStop)));
            var other := Input(Encoding, RunResume(ResumeAnswer(true, None, None, None)));
            var own := Input(Decoding, RunResume(ResumeAnswer(true, Some(h), None, None)));
            var o := Run(START, [stop, other, own]);
            && LegalRun(START, [stop, other, own])
            && o.Returned? && o.value.iteration == Ongoing
            && o.value.decoding.headersPending && o.value.decoding.forwarded.headers.None?
  {
    var stop := Input(Decoding, HeadersArrive(h, false, Some(HeadersStop)));
    var other := Input(Encoding, RunResume(ResumeAnswer(true, None, None, None)));
    var own := Input(Decoding, RunResume(ResumeAnswer(true, Some(h), None, None)));
    var s1 := StepState(START, stop).value;
    var s2 := StepState(s1, other).value;
    StaleResumeChangesNothing(s2, Decoding, own.event.answer);
    assert [stop, other, own][1..] == [other, own] && [other, own][1..] == [own] && [own][1..] == [];
    assert LegalRun(s2, [own]) && LegalRun(s1, [other, own]);
    assert Run(START, [stop, other, own]) == Run(s1, [other, own]) == Run(s2, [own]) == Run(s2, []);
  }
}
