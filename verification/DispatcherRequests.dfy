/** What reaches a stream's request decoder, in every run of the HTTP dispatcher. */
module DispatcherRequests {
  import opened Wrappers
  import opened DispatcherSpec
  import opened DispatcherLifecycle

  function Decoded(calls: seq<Call>): seq<Call> {
    if calls == [] then []
    else
      var front, last := Decoded(calls[..|calls| - 1]), calls[|calls| - 1];
      if last.ToDecoder() then front + [last] else front
  }

  /** The requests of one stream among the operations, in order. */
  function Sends(ops: seq<Op>, h: Handle): seq<Call> {
    if ops == [] then []
    else
      var front, last := Sends(ops[..|ops| - 1], h), ops[|ops| - 1];
      if last.Send? && last.handle == h then front + [last.request] else front
  }

  lemma DecodedAppend(calls: seq<Call>, c: Call)
    ensures Decoded(calls + [c]) == Decoded(calls) + if c.ToDecoder() then [c] else []
  {
    assert (calls + [c])[..|calls|] == calls;
    assert Decoded(calls) + [] == Decoded(calls);
  }

  lemma SendsAppend(ops: seq<Op>, op: Op, h: Handle)
    ensures Sends(ops + [op], h) == Sends(ops, h) + if op.Send? && op.handle == h then [op.request] else []
  {
    assert (ops + [op])[..|ops|] == ops;
    assert Sends(ops, h) + [] == Sends(ops, h);
  }

  lemma {:induction false} NoSends(ops: seq<Op>, h: Handle)
    requires forall op :: op in ops ==> !(op.Send? && op.handle == h)
    ensures Sends(ops, h) == []
  {
    if ops != [] {
      NoSends(ops[..|ops| - 1], h);
    }
  }

  /** The stream is started before anything is sent on it. */
  predicate StartedFirst(posted: seq<Op>, h: Handle) {
    forall i, j :: 0 <= i < j < |posted| && posted[j] == Start(h) ==> !(posted[i].Send? && posted[i].handle == h)
  }

  /** The decoder of a live stream has had every send executed so far; that of a finished one a prefix of them. */
  ghost predicate DecoderOk(w: World, h: Handle) {
    StartedFirst(w.posted, h) ==>
      var decoded, sends := Decoded(Of(w.log, h)), Sends(w.executed, h);
      decoded <= sends && (h in w.streams ==> decoded == sends)
  }

  /** Nothing reaches a decoder, nothing is executed or started, and posts are only added. */
  ghost predicate Quiet(w: World, w': World) {
    && w'.executed == w.executed && w.posted <= w'.posted && w'.streams.Keys <= w.streams.Keys
    && forall h :: Decoded(Of(w'.log, h)) == Decoded(Of(w.log, h))
  }

  lemma QuietKeeps(w: World, w': World)
    requires Quiet(w, w') && forall h :: DecoderOk(w, h)
    ensures forall h :: DecoderOk(w', h)
  {
    forall h ensures DecoderOk(w', h) {
      assert DecoderOk(w, h);
      if StartedFirst(w'.posted, h) {
        assert forall k :: 0 <= k < |w.posted| ==> w.posted[k] == w'.posted[k];
      }
    }
  }

  lemma EmitQuiet(w: World, h: Handle, call: Call)
    requires !call.ToDecoder()
    ensures Quiet(w, Emit(w, h, call))
  {
    forall x ensures Decoded(Of(Emit(w, h, call).log, x)) == Decoded(Of(w.log, x)) {
      OfAppend(w.log, h, call, x);
      DecodedAppend(Of(w.log, x), call);
      assert Of(w.log, x) + [] == Of(w.log, x) && Decoded(Of(w.log, x)) + [] == Decoded(Of(w.log, x));
    }
  }

  lemma EncodeHeadersQuiet(w: World, h: Handle, headers: ResponseHeaders, end: bool)
    requires h in w.streams
    ensures Quiet(w, EncodeHeadersOn(w, h, headers, end))
  {
    var w' := EncodeHeadersOn(w, h, headers, end);
    if IsLocalError(headers) {
      if end {
        EmitQuiet(w, h, w'.log[|w.log|].1);
      }
    } else {
      TwoCallsQuiet(w, h, OnHeaders(headers, end));
    }
  }

  /** A call, alone or followed by completion. */
  lemma TwoCallsQuiet(w: World, h: Handle, call: Call)
    requires !call.ToDecoder()
    ensures Quiet(w, Emit(w, h, call)) && Quiet(w, Emit(Emit(w, h, call), h, OnComplete))
  {
    EmitQuiet(w, h, call);
    EmitQuiet(Emit(w, h, call), h, OnComplete);
    hide Decoded, Of;
  }

  lemma EncodeDataQuiet(w: World, h: Handle, data: Bytes, end: bool)
    requires h in w.streams
    ensures Quiet(w, EncodeDataOn(w, h, data, end))
  {
    if w.streams[h].errorCode.Some? {
      EmitQuiet(w, h, EncodeDataOn(w, h, data, end).log[|w.log|].1);
    } else {
      TwoCallsQuiet(w, h, OnData(data, end));
    }
  }

  lemma FinishResetQuiet(w: World, h: Handle)
    ensures Quiet(w, FinishReset(w, h))
  {
    if h in w.streams {
      EmitQuiet(w, h, FinishReset(w, h).log[|w.log|].1);
    }
  }

  lemma QuietTwice(w: World, v: World, w': World)
    requires Quiet(w, v) && Quiet(v, w')
    ensures Quiet(w, w')
  {
    hide Decoded, Of;
  }

  lemma {:induction false} ExecQuiet(w: World, ev: Event)
    requires Legal(w, ev) && !ev.RunNext?
    ensures Quiet(w, Exec(w, ev))
    decreases ev, 1
  {
    match ev
    case EncodeHeaders(h, headers, end) => EncodeHeadersQuiet(w, h, headers, end);
    case EncodeData(h, data, end) => EncodeDataQuiet(w, h, data, end);
    case EncodeTrailers(h, trailers) => TwoCallsQuiet(w, h, OnTrailers(trailers));
    case ResetStream(h, inner) =>
      ExecAllQuiet(w, inner);
      FinishResetQuiet(ExecAll(w, inner), h);
      QuietTwice(w, ExecAll(w, inner), Exec(w, ev));
    case _ =>
  }

  lemma {:induction false} ExecAllQuiet(w: World, evs: seq<Event>)
    requires LegalAll(w, evs)
    ensures Quiet(w, ExecAll(w, evs))
    decreases evs, 0
  {
    if evs != [] {
      ExecQuiet(w, evs[0]);
      ExecAllQuiet(Exec(w, evs[0]), evs[1..]);
    }
  }

  lemma ExecuteKeepsDecoder(w: World, h: Handle)
    requires Inv(w) && w.loop != [] && DecoderOk(w, h)
    ensures DecoderOk(Execute(Dequeue(w), w.loop[0]), h)
  {
    NextOpIsPosted(w);
    SendsAppend(w.executed, w.loop[0], h);
    assert Sends(w.executed, h) + [] == Sends(w.executed, h);
    match w.loop[0] {
      case Start(x) => StartKeepsDecoder(w, x, h);
      case Send(x, call) => SendKeepsDecoder(w, x, call, h);
      case Cancel(x) => CancelKeepsDecoder(w, x, h);
    }
  }

  lemma StartKeepsDecoder(w: World, x: Handle, h: Handle)
    requires Inv(w) && w.loop != [] && w.loop[0] == Start(x) && DecoderOk(w, h)
    requires w.posted[|w.executed|] == Start(x) && Start(x) !in w.executed
    requires Sends(Dequeue(w).executed, h) == Sends(w.executed, h)
    ensures DecoderOk(Execute(Dequeue(w), w.loop[0]), h)
  {
    assert StreamOk(w, h);
    if StartedFirst(w.posted, h) && x == h {
      assert forall k :: 0 <= k < |w.executed| ==> w.executed[k] == w.posted[k];
      NoSends(w.executed, h);
    }
  }

  lemma SendKeepsDecoder(w: World, x: Handle, call: RequestCall, h: Handle)
    requires Inv(w) && w.loop != [] && w.loop[0] == Send(x, call) && DecoderOk(w, h)
    requires Sends(Dequeue(w).executed, h) == Sends(w.executed, h) + if x == h then [call] else []
    ensures DecoderOk(Execute(Dequeue(w), w.loop[0]), h)
  {
    assert Sends(w.executed, h) + [] == Sends(w.executed, h);
    if x in w.streams {
      OfAppend(w.log, x, call, h);
      DecodedAppend(Of(w.log, h), call);
      assert Of(w.log, h) + [] == Of(w.log, h);
    }
  }

  lemma CancelKeepsDecoder(w: World, x: Handle, h: Handle)
    requires Inv(w) && w.loop != [] && w.loop[0] == Cancel(x) && DecoderOk(w, h)
    requires Sends(Dequeue(w).executed, h) == Sends(w.executed, h)
    ensures DecoderOk(Execute(Dequeue(w), w.loop[0]), h)
  {
    if x in w.streams {
      EmitQuiet(w, x, OnCancel);
    }
  }

  lemma {:induction false} RunKeepsDecoder(w: World, evs: seq<Event>)
    requires LegalRun(w, evs) && Inv(w) && forall h :: DecoderOk(w, h)
    ensures forall h :: DecoderOk(Run(w, evs), h)
    decreases |evs|
  {
    if evs != [] {
      var ev, w' := evs[0], Exec(w, evs[0]);
      ExecKeeps(w, ev);
      if ev.RunNext? {
        var v := Execute(Dequeue(w), w.loop[0]);
        forall h ensures DecoderOk(v, h) {
          ExecuteKeepsDecoder(w, h);
        }
        ExecAllQuiet(v, ev.inner);
        QuietKeeps(v, w');
      } else {
        ExecQuiet(w, ev);
        QuietKeeps(w, w');
      }
      RunKeepsDecoder(w', evs[1..]);
    }
  }

  /**
   In every run, when a stream is started before its sends, the calls to its request decoder are a prefix of the
   sends executed; a live stream has had them all, and none follows the terminal callback.
   */
  lemma DecoderGetsPrefix(evs: seq<Event>, h: Handle)
    requires LegalRun(EMPTY, evs) && StartedFirst(Run(EMPTY, evs).posted, h)
    ensures var w := Run(EMPTY, evs);
            var calls := Of(w.log, h);
            && Decoded(calls) <= Sends(w.executed, h)
            && (h in w.streams ==> Decoded(calls) == Sends(w.executed, h))
            && forall k, m :: 0 <= k < m < |calls| && calls[k].Terminal() ==> !calls[m].ToDecoder()
  {
    EmptyInv();
    assert forall x :: DecoderOk(EMPTY, x);
    RunKeeps(EMPTY, evs);
    RunKeepsDecoder(EMPTY, evs);
    var w := Run(EMPTY, evs);
    assert DecoderOk(w, h) && StreamOk(w, h);
  }
}
