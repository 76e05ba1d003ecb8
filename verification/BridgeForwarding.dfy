/** The headers and trailers that the bridge forwards are those answered, in order, with names in lower case. */
module BridgeForwarding {
  import opened Wrappers
  import opened BridgeTypes
  import opened BridgeRuns

  /** The same entries in the same order, every value unchanged, and every name in lower case byte by byte. */
  predicate SameButLower(answered: Headers, stored: Headers) {
    && |stored| == |answered|
    && forall i :: 0 <= i < |answered| ==>
         && stored[i].1 == answered[i].1
         && |stored[i].0| == |answered[i].0|
         && forall k :: 0 <= k < |answered[i].0| ==>
              stored[i].0[k] as int == var c := answered[i].0[k] as int; if 65 <= c <= 90 then c + 32 else c
  }

  predicate LowerAlready(h: Headers) {
    forall i, k :: 0 <= i < |h| && 0 <= k < |h[i].0| ==> !(65 <= h[i].0[k] as int <= 90)
  }

  lemma StoredIsAnswered(h: Headers)
    ensures SameButLower(h, LowerNames(h))
    ensures LowerAlready(h) ==> LowerNames(h) == h
  {
    if LowerAlready(h) {
      forall i | 0 <= i < |h| ensures LowerNames(h)[i] == h[i] {
        assert LowerName(h[i].0) == h[i].0;
      }
    }
  }

  /** One entity went on as it was answered. */
  predicate WentOn(answered: Headers, forwarded: Option<Headers>) {
    && forwarded.Some? && SameButLower(answered, forwarded.value)
    && (LowerAlready(answered) ==> forwarded == Some(answered))
  }

  /** A headers call that continues forwards the headers answered. */
  lemma ContinueForwardsHeaders(direction: Direction, iteration: IterationState, f: Flow, h: Headers, end: bool, g: Headers)
    ensures var o := Step(direction, iteration, f, HeadersArrive(h, end, Some(HeadersContinue(g))));
            o.Returned? && WentOn(g, o.value.flow.forwarded.headers)
  {
    StoredIsAnswered(g);
    hide SameButLower, LowerAlready, LowerNames;
  }

  /** A trailers call that continues forwards the trailers answered. */
  lemma ContinueForwardsTrailers(direction: Direction, f: Flow, t: Headers, g: Headers)
    requires f.forwarded.trailers.None?
    ensures var o := Step(direction, Ongoing, f, TrailersArrive(t, Some(TrailersContinue(g))));
            o.Returned? && WentOn(g, o.value.flow.forwarded.trailers)
  {
    StoredIsAnswered(g);
    hide SameButLower, LowerAlready, LowerNames;
  }

  /** A data call that resumes forwards the pending headers as answered. */
  lemma DataResumeForwardsHeaders(direction: Direction, f: Flow, chunk: Bytes, end: bool, d: Bytes, g: Headers)
    requires f.headersPending && f.held && f.forwarded.headers.None?
    ensures var o := Step(direction, Stopped, f, DataArrives(chunk, end, Some(DataResume(d, Some(g)))));
            o.Returned? && WentOn(g, o.value.flow.forwarded.headers)
  {
    StoredIsAnswered(g);
    hide SameButLower, LowerAlready, LowerNames;
  }

  /** A trailers call that resumes forwards the pending headers and the trailers as answered. */
  lemma TrailersResumeForwardsBoth(direction: Direction, f: Flow, t: Headers, g: Headers, g': Headers)
    requires f.headersPending && f.held && f.forwarded.headers.None? && f.forwarded.trailers.None?
    ensures var o := Step(direction, Stopped, f, TrailersArrive(t, Some(TrailersResume(g', Some(g), None))));
            o.Returned? && WentOn(g, o.value.flow.forwarded.headers) && WentOn(g', o.value.flow.forwarded.trailers)
  {
    StoredIsAnswered(g);
    StoredIsAnswered(g');
    hide SameButLower, LowerAlready, LowerNames;
  }

  /** A posted resume forwards the pending headers and trailers as answered. */
  lemma PostedResumeForwardsBoth(direction: Direction, f: Flow, g: Headers, d: Option<Bytes>, g': Headers)
    requires f.headersPending && f.headers.Some? && f.forwarded.headers.None?
    requires f.trailersPending && f.trailers.Some? && f.forwarded.trailers.None? && (f.buffer.Some? ==> d.Some?)
    ensures var o := Step(direction, Stopped, f, RunResume(ResumeAnswer(true, Some(g), d, Some(g'))));
            o.Returned? && WentOn(g, o.value.flow.forwarded.headers) && WentOn(g', o.value.flow.forwarded.trailers)
  {
    StoredIsAnswered(g);
    StoredIsAnswered(g');
    hide SameButLower, LowerAlready, LowerNames;
  }
}
