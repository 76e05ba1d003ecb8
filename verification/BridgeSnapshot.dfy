/**
 The snapshot given to a platform filter that resumes: exactly when it is all HTTP state received and not yet
 forwarded, in every legal run of both directions.
 */
module BridgeSnapshot {
  import opened Wrappers
  import opened BridgeTypes
  import opened BridgeRuns
  import Refinement = BridgeRefinement

  /** The pending pointers are the entities received and not forwarded, and the completion flag is the end of stream. */
  predicate SnapshotOk(f: Flow) {
    && (f.headersPending <==> f.headers.Some? && f.forwarded.headers.None?)
    && (f.trailersPending <==> f.trailers.Some? && f.forwarded.trailers.None?)
    && f.complete == f.ended
  }

  /** What the filter manager guarantees beside it. */
  predicate ManagerOk(f: Flow) {
    && (f.headersPending || f.trailersPending ==> f.held)
    && (f.held || f.ended ==> f.headers.Some?)
    && (f.trailers.Some? ==> f.ended)
    && (f.forwarded.headers.Some? ==> f.headers.Some?)
    && (f.forwarded.trailers.Some? ==> f.trailers.Some?)
  }

  /** A data or trailers call lets iteration go on without returning the headers that are still pending. */
  predicate Overtakes(f: Flow, ev: Event) {
    f.headersPending &&
    match ev
    case DataArrives(_, _, None) => true
    case DataArrives(_, _, Some(DataContinue(_))) => true
    case DataArrives(_, _, Some(DataResume(_, h))) => h.None?
    case TrailersArrive(_, None) => true
    case TrailersArrive(_, Some(TrailersContinue(_))) => true
    case TrailersArrive(_, Some(TrailersResume(_, h, _))) => h.None?
    case _ => false
  }

  lemma StepSnapshotExactly(direction: Direction, iteration: IterationState, f: Flow, ev: Event)
    requires Legal(f, ev) && Step(direction, iteration, f, ev).Returned? && SnapshotOk(f) && ManagerOk(f)
    ensures var g := Step(direction, iteration, f, ev).value.flow;
            && (SnapshotOk(g) <==> !Overtakes(f, ev))
            && (!Overtakes(f, ev) ==> ManagerOk(g))
  {
    match ev
    case DataArrives(_, _, _) => DataSnapshotExactly(direction, iteration, f, ev);
    case TrailersArrive(_, _) => TrailersSnapshotExactly(direction, iteration, f, ev);
    case _ => OtherSnapshots(direction, iteration, f, ev);
  }

  lemma DataSnapshotExactly(direction: Direction, iteration: IterationState, f: Flow, ev: Event)
    requires Legal(f, ev) && Step(direction, iteration, f, ev).Returned? && SnapshotOk(f) && ManagerOk(f)
    requires ev.DataArrives?
    ensures var g := Step(direction, iteration, f, ev).value.flow;
            && (SnapshotOk(g) <==> !Overtakes(f, ev))
            && (!Overtakes(f, ev) ==> ManagerOk(g))
  {
  }

  lemma TrailersSnapshotExactly(direction: Direction, iteration: IterationState, f: Flow, ev: Event)
    requires Legal(f, ev) && Step(direction, iteration, f, ev).Returned? && SnapshotOk(f) && ManagerOk(f)
    requires ev.TrailersArrive?
    ensures var g := Step(direction, iteration, f, ev).value.flow;
            && (SnapshotOk(g) <==> !Overtakes(f, ev))
            && (!Overtakes(f, ev) ==> ManagerOk(g))
  {
  }

  lemma OtherSnapshots(direction: Direction, iteration: IterationState, f: Flow, ev: Event)
    requires Legal(f, ev) && Step(direction, iteration, f, ev).Returned? && SnapshotOk(f) && ManagerOk(f)
    requires !ev.DataArrives? && !ev.TrailersArrive?
    ensures var g := Step(direction, iteration, f, ev).value.flow;
            SnapshotOk(g) && ManagerOk(g)
  {
  }

  predicate NeverOvertakes(active: Direction, s: State, xs: seq<Input>)
    requires LegalRun(s, xs)
    decreases |xs|
  {
    xs == [] ||
    ((xs[0].direction == active ==> !Overtakes(s.Of(active), xs[0].event)) &&
     NeverOvertakes(active, StepState(s, xs[0]).value, xs[1..]))
  }

  predicate AlwaysSnapshot(active: Direction, s: State, xs: seq<Input>)
    requires LegalRun(s, xs)
    decreases |xs|
  {
    SnapshotOk(s.Of(active)) && (xs == [] || AlwaysSnapshot(active, StepState(s, xs[0]).value, xs[1..]))
  }

  /**
   In every legal run, whatever the other direction does: the pending entities are at every point those received and
   not forwarded, with the true end of stream, if and only if no step of this direction overtakes its pending headers.
   */
  lemma {:induction false} SnapshotExactly(active: Direction, s: State, xs: seq<Input>)
    requires LegalRun(s, xs) && SnapshotOk(s.Of(active)) && ManagerOk(s.Of(active))
    ensures AlwaysSnapshot(active, s, xs) <==> NeverOvertakes(active, s, xs)
    decreases |xs|
  {
    if xs != [] {
      var x, s' := xs[0], StepState(s, xs[0]).value;
      if x.direction == active {
        StepSnapshotExactly(active, s.iteration, s.Of(active), x.event);
        hide SnapshotOk, ManagerOk, Overtakes, Step, Legal;
        if !Overtakes(s.Of(active), x.event) {
          SnapshotExactly(active, s', xs[1..]);
        }
      } else {
        OtherFlowStays(active, s, x);
        hide StepState, SnapshotOk, ManagerOk, Overtakes;
        SnapshotExactly(active, s', xs[1..]);
      }
    }
  }

  lemma StartSnapshot(active: Direction)
    ensures SnapshotOk(START.Of(active)) && ManagerOk(START.Of(active))
  {
  }

  /** All HTTP state of a direction that has not been forwarded; the data pointer is null without a buffer. */
  function NotForwarded(f: Flow): Seen {
    SeenResume(if f.forwarded.headers.Some? then None else f.headers, f.buffer,
               if f.forwarded.trailers.Some? then None else f.trailers, f.ended)
  }

  /** What a posted resume shows while stopped is that state if and only if the pending entities are as above. */
  lemma ShownExactly(active: Direction, s: State, answer: ResumeAnswer)
    requires s.iteration == Stopped && StepState(s, Input(active, RunResume(answer))).Returned?
    requires var f := s.Of(active);
             (f.headersPending ==> f.headers.Some?) && (f.trailersPending ==> f.trailers.Some?)
    ensures var f, g := s.Of(active), StepState(s, Input(active, RunResume(answer))).value.Of(active);
            g.seen == f.seen + [NotForwarded(f)] <==> SnapshotOk(f)
  {
    var f := s.Of(active);
    var shown := SeenResume(PendingHeaders(f), f.buffer, PendingTrailers(f), f.complete);
    var g := StepState(s, Input(active, RunResume(answer))).value.Of(active);
    assert g.seen == f.seen + [shown];
    assert (f.seen + [shown])[|f.seen|] == shown && (f.seen + [NotForwarded(f)])[|f.seen|] == NotForwarded(f);
  }

  /** Every resume of the run that is shown a snapshot is shown all HTTP state not forwarded. */
  predicate ShowsNotForwarded(active: Direction, s: State, xs: seq<Input>)
    requires LegalRun(s, xs)
    decreases |xs|
  {
    xs == [] ||
    (&& (xs[0].direction == active && xs[0].event.RunResume? && s.iteration == Stopped ==>
           StepState(s, xs[0]).value.Of(active).seen == s.Of(active).seen + [NotForwarded(s.Of(active))])
     && ShowsNotForwarded(active, StepState(s, xs[0]).value, xs[1..]))
  }

  /** In runs without overtaking, every snapshot shown is all HTTP state received and not yet forwarded. */
  lemma {:induction false} SnapshotsAreTrue(active: Direction, s: State, xs: seq<Input>)
    requires LegalRun(s, xs) && SnapshotOk(s.Of(active)) && ManagerOk(s.Of(active)) && NeverOvertakes(active, s, xs)
    ensures ShowsNotForwarded(active, s, xs)
    decreases |xs|
  {
    if xs != [] {
      var x := xs[0];
      if x.direction == active {
        StepSnapshotExactly(active, s.iteration, s.Of(active), x.event);
        if x.event.RunResume? && s.iteration == Stopped {
          assert x == Input(active, RunResume(x.event.answer));
          ShownExactly(active, s, x.event.answer);
        }
        hide SnapshotOk, ManagerOk, Overtakes, Step, Legal, NotForwarded;
      } else {
        OtherFlowStays(active, s, x);
        hide StepState, SnapshotOk, ManagerOk, Overtakes, NotForwarded;
      }
      SnapshotsAreTrue(active, StepState(s, x).value, xs[1..]);
    }
  }

  /** From the start: a stopped filter is shown as pending the headers that were already forwarded. */
  lemma OvertakenReached(direction: Direction, h: Headers, chunk: Bytes)
    returns (xs: seq<Input>, s: State, x: Input)
    ensures Refinement.Reaches(xs, s, x) && x.direction == direction && x.event.RunResume?
    ensures s.iteration == Stopped && s.Of(direction).forwarded.headers == Some(h)
    ensures StepState(s, x).value.Of(direction).seen ==
            s.Of(direction).seen + [SeenResume(Some(h), s.Of(direction).buffer, None, false)]
  {
    var s0 := Refinement.StoppedOnHeaders(direction, h);
    var step := Input(direction, DataArrives(chunk, false, None));
    xs := [Refinement.StopOnHeaders(direction, h)];
    Refinement.LeadsOn(xs, s0, step);
    xs, s := xs + [step], StepState(s0, step).value;
    x := Input(direction, RunResume(ResumeAnswer(true, Some(h), Some([]), None)));
  }
}
