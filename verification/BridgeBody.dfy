/** Conservation of the body through the bridge filter, in every legal run of both directions. */
module BridgeBody {
  import opened Wrappers
  import opened BridgeTypes
  import opened BridgeCalls
  import opened BridgeRuns
  import opened BridgePending
  import opened BridgeRefinement

  /** The platform filter returns the bytes it is given and never drops the buffer. */
  predicate Echoes(direction: Direction, iteration: IterationState, f: Flow, ev: Event) {
    match ev
    case DataArrives(chunk, _, Some(DataContinue(d))) => d == ShownData(iteration, f.buffer, chunk)
    case DataArrives(chunk, _, Some(DataResume(d, _))) => d == ShownData(iteration, f.buffer, chunk)
    case DataArrives(_, _, Some(DataStopNoBuffer)) => false
    case TrailersArrive(_, Some(TrailersResume(_, _, Some(d)))) => Some(d) == f.buffer
    case RunResume(answer) =>
      iteration == Stopped && (direction == Encoding || answer.resume) ==> answer.pendingData == f.buffer
    case _ => true
  }

  function Account(f: Flow): Bytes {
    f.forwarded.body + f.Buffered()
  }

  function Arrived(ev: Event): Bytes {
    if ev.DataArrives? then ev.chunk else []
  }

  /**
   Forwarded bytes followed by held bytes grow by exactly the chunk unless the step sends the chunk twice, and only
   such a step can leave bytes in the buffer of a filter manager that is not stopped.
   */
  lemma StepConservesExactly(direction: Direction, iteration: IterationState, f: Flow, ev: Event)
    requires Settled(f) && Legal(f, ev)
    requires Echoes(direction, iteration, f, ev) && Step(direction, iteration, f, ev).Returned?
    ensures var p := Step(direction, iteration, f, ev).value;
            && (Account(p.flow) == Account(f) + Arrived(ev) <==> !Duplicates(f, ev))
            && (Duplicates(f, ev) ==> Account(p.flow) == Account(f) + Arrived(ev) + Arrived(ev))
            && (!Duplicates(f, ev) ==> Settled(p.flow))
  {
    match ev
    case DataArrives(chunk, end, answer) =>
      DataConservesExactly(direction, iteration, f, chunk, end, answer);
    case TrailersArrive(t, answer) =>
      TrailersConserve(direction, iteration, f, t, answer);
      NothingArrived(f);
    case _ =>
      OthersConserve(direction, iteration, f, ev);
      NothingArrived(f);
  }

  lemma NothingArrived(f: Flow)
    ensures Account(f) + [] == Account(f)
  {
  }

  lemma OthersConserve(direction: Direction, iteration: IterationState, f: Flow, ev: Event)
    requires Settled(f) && Legal(f, ev) && (ev.HeadersArrive? || ev.RunResume? || ev.ReshapeEmptyBuffer?)
    requires Echoes(direction, iteration, f, ev) && Step(direction, iteration, f, ev).Returned?
    ensures var p := Step(direction, iteration, f, ev).value;
            Account(p.flow) == Account(f) && Settled(p.flow)
  {
    var b, h := f.forwarded.body, f.Buffered();
    assert b + h + [] == b + h && b + [] == b;
  }

  lemma TrailersConserve(direction: Direction, iteration: IterationState, f: Flow, t: Headers,
                         answer: Option<TrailersAnswer>)
    requires var ev := TrailersArrive(t, answer);
             && Settled(f) && Legal(f, ev) && Echoes(direction, iteration, f, ev)
             && Step(direction, iteration, f, ev).Returned?
    ensures var p := Step(direction, iteration, f, TrailersArrive(t, answer)).value;
            Account(p.flow) == Account(f) && Settled(p.flow)
  {
    var b, h := f.forwarded.body, f.Buffered();
    assert b + h + [] == b + h && b + [] == b;
  }

  lemma DataConservesExactly(direction: Direction, iteration: IterationState, f: Flow, chunk: Bytes, end: bool,
                             answer: Option<DataAnswer>)
    requires var ev := DataArrives(chunk, end, answer);
             && Settled(f) && Legal(f, ev) && Echoes(direction, iteration, f, ev)
             && Step(direction, iteration, f, ev).Returned?
    ensures var ev := DataArrives(chunk, end, answer);
            var p := Step(direction, iteration, f, ev).value;
            && (Account(p.flow) == Account(f) + chunk <==> !Duplicates(f, ev))
            && (Duplicates(f, ev) ==> Account(p.flow) == Account(f) + chunk + chunk)
            && (!Duplicates(f, ev) ==> Settled(p.flow))
  {
    Rearrangements(f.forwarded.body, f.Buffered(), chunk);
    if answer.Some? && answer.value.DataResume? {
      DataResumeConservesExactly(direction, f, chunk, end, answer.value.data, answer.value.pendingHeaders);
    }
  }

  lemma DataResumeConservesExactly(direction: Direction, f: Flow, chunk: Bytes, end: bool, d: Bytes,
                                   h: Option<Headers>)
    requires var ev := DataArrives(chunk, end, Some(DataResume(d, h)));
             && Settled(f) && Legal(f, ev) && Echoes(direction, Stopped, f, ev)
             && Step(direction, Stopped, f, ev).Returned?
    ensures var ev := DataArrives(chunk, end, Some(DataResume(d, h)));
            var p := Step(direction, Stopped, f, ev).value;
            && (Account(p.flow) == Account(f) + chunk <==> !Duplicates(f, ev))
            && (Duplicates(f, ev) ==> Account(p.flow) == Account(f) + chunk + chunk)
            && (!Duplicates(f, ev) ==> Settled(p.flow))
  {
    Rearrangements(f.forwarded.body, f.Buffered(), chunk);
    if f.buffer == Some([]) {
      RefillSendsTwice(direction, f, chunk, end, h);
    }
  }

  /** With an empty buffer, the chunk goes into the buffer and is left in place. */
  lemma RefillSendsTwice(direction: Direction, f: Flow, chunk: Bytes, end: bool, h: Option<Headers>)
    requires var ev := DataArrives(chunk, end, Some(DataResume(chunk, h)));
             f.buffer == Some([]) && Legal(f, ev) && Step(direction, Stopped, f, ev).Returned?
    ensures var p := Step(direction, Stopped, f, DataArrives(chunk, end, Some(DataResume(chunk, h)))).value;
            && Account(p.flow) == Account(f) + chunk + chunk
            && (Account(p.flow) == Account(f) + chunk <==> chunk == [])
            && (chunk == [] ==> Settled(p.flow))
  {
    var b := f.forwarded.body;
    Rearrangements(b, [], chunk);
    assert |b + [] + chunk + chunk| == |b + [] + chunk| + |chunk|;
  }

  lemma Rearrangements(b: Bytes, h: Bytes, c: Bytes)
    ensures b + [] == b && h + [] == h && [] + c == c && c + [] == c
    ensures b + (h + c) == b + h + c && b + h + c + [] == b + h + c && h + c + [] == h + c
    ensures b + (c + c) == b + c + c && b + [] + c == b + c && b + (h + c) + [] == b + h + c
    ensures b + [] + c + c == b + c + c
  {
  }

  predicate AllEcho(active: Direction, s: State, xs: seq<Input>)
    requires LegalRun(s, xs)
    decreases |xs|
  {
    xs == [] ||
    (&& (xs[0].direction == active ==> Echoes(active, s.iteration, s.Of(active), xs[0].event))
     && AllEcho(active, StepState(s, xs[0]).value, xs[1..]))
  }

  predicate NeverDuplicates(active: Direction, s: State, xs: seq<Input>)
    requires LegalRun(s, xs)
    decreases |xs|
  {
    xs == [] ||
    ((xs[0].direction == active ==> !Duplicates(s.Of(active), xs[0].event)) &&
     NeverDuplicates(active, StepState(s, xs[0]).value, xs[1..]))
  }

  /** After every step, forwarded followed by held bytes are the bytes received. */
  predicate AlwaysConserved(active: Direction, s: State, received: Bytes, xs: seq<Input>)
    requires LegalRun(s, xs)
    decreases |xs|
  {
    Account(s.Of(active)) == received &&
    (xs == [] ||
     AlwaysConserved(active, StepState(s, xs[0]).value,
                     if xs[0].direction == active then received + Arrived(xs[0].event) else received, xs[1..]))
  }

  /**
   Body conservation over every legal run of both directions, whatever the other direction does, with a platform
   filter that echoes in this one; and exactly when it fails.
   */
  lemma {:induction false} BodyConservedExactly(active: Direction, s: State, received: Bytes, xs: seq<Input>)
    requires LegalRun(s, xs) && AllEcho(active, s, xs)
    requires Settled(s.Of(active)) && Account(s.Of(active)) == received
    ensures AlwaysConserved(active, s, received, xs) <==> NeverDuplicates(active, s, xs)
    decreases |xs|
  {
    if xs != [] {
      var x, s' := xs[0], StepState(s, xs[0]).value;
      if x.direction == active {
        StepConservesExactly(active, s.iteration, s.Of(active), x.event);
        if !Duplicates(s.Of(active), x.event) {
          hide Settled, Account, Echoes, Duplicates, Step, Legal;
          BodyConservedExactly(active, s', received + Arrived(x.event), xs[1..]);
        }
      } else {
        OtherFlowStays(active, s, x);
        hide StepState, Settled, Account, Echoes, Duplicates;
        BodyConservedExactly(active, s', received, xs[1..]);
      }
    }
  }
}
