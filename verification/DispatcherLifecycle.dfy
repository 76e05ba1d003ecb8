/**
 Whole runs of the HTTP dispatcher: one terminal callback per stream, first-in-first-out execution across ready,
 and stream accounting, in every interleaving of posts, encodes and possibly re-entrant resets.
 */
module DispatcherLifecycle {
  import opened Wrappers
  import opened DispatcherSpec

  /** The entries of a log that belong to one stream, in order. */
  function Of<T>(log: seq<(Handle, T)>, h: Handle): seq<T> {
    if log == [] then []
    else
      var front, last := Of(log[..|log| - 1], h), log[|log| - 1];
      if last.0 == h then front + [last.1] else front
  }

  lemma OfAppend<T>(log: seq<(Handle, T)>, h: Handle, t: T, h': Handle)
    ensures Of(log + [(h, t)], h') == Of(log, h') + if h == h' then [t] else []
  {
    assert (log + [(h, t)])[..|log|] == log;
    assert Of(log, h') + [] == Of(log, h');
  }

  predicate NoTerminal(calls: seq<Call>) {
    forall k :: 0 <= k < |calls| ==> !calls[k].Terminal()
  }

  /** Exactly one terminal callback, after which nothing is called. */
  predicate TerminatedOnce(calls: seq<Call>) {
    calls != [] && calls[|calls| - 1].Terminal() && NoTerminal(calls[..|calls| - 1])
  }

  function CountStarts(ops: seq<Op>): nat {
    if ops == [] then 0 else CountStarts(ops[..|ops| - 1]) + if ops[|ops| - 1].Start? then 1 else 0
  }

  /** Handles given to deferred deletion, in order. */
  function Finished(w: World): seq<Handle> {
    w.deleted + w.deferred
  }

  /** Where a stream is in its life decides what was called for it and how often its object was handed over. */
  ghost predicate StreamOk(w: World, h: Handle) {
    var calls := Of(w.log, h);
    if h in w.streams then Start(h) in w.executed && NoTerminal(calls) && multiset(Finished(w))[h] == 0
    else if Start(h) in w.executed then TerminatedOnce(calls) && multiset(Finished(w))[h] == 1
    else calls == [] && multiset(Finished(w))[h] == 0
  }

  /** Nothing posted is lost, doubled or reordered. */
  predicate QueueOk(w: World) {
    if w.ready then w.posted == w.executed + w.loop
    else w.executed == [] && w.loop == [] && w.posted == w.initQueue
  }

  predicate UniqueStarts(ops: seq<Op>) {
    forall i, j :: 0 <= i < j < |ops| && ops[i].Start? ==> ops[i] != ops[j]
  }

  predicate Accounted(w: World) {
    w.stats.success + w.stats.failure + w.stats.cancel + |w.streams| == CountStarts(w.executed)
  }

  ghost predicate Inv(w: World) {
    QueueOk(w) && UniqueStarts(w.posted) && Accounted(w) && forall h :: StreamOk(w, h)
  }

  // ---------- The steps every event is made of ----------

  lemma UpdateKeeps(w: World, h: Handle, b: Bookkeeping)
    requires Inv(w) && h in w.streams
    ensures Inv(w.(streams := w.streams[h := b]))
  {
    var w' := w.(streams := w.streams[h := b]);
    assert w'.streams.Keys == w.streams.Keys;
    assert |w'.streams| == |w'.streams.Keys| == |w.streams|;
    forall x ensures StreamOk(w', x) {
      assert StreamOk(w, x);
    }
  }

  lemma NoteKeeps(w: World, h: Handle, cause: Cause)
    requires Inv(w)
    ensures Inv(Note(w, h, cause))
  {
    forall x ensures StreamOk(Note(w, h, cause), x) {
      assert StreamOk(w, x);
    }
  }

  lemma EmitKeeps(w: World, h: Handle, call: Call)
    requires Inv(w) && h in w.streams && !call.Terminal()
    ensures Inv(Emit(w, h, call))
  {
    forall x ensures StreamOk(Emit(w, h, call), x) {
      assert StreamOk(w, x);
      OfAppend(w.log, h, call, x);
    }
  }

  /** A live stream leaves the map with its terminal callback, and one counter goes up. */
  function Finish(w: World, h: Handle, stats: Stats, call: Call): World {
    Emit(Remove(w, h).(stats := stats), h, call)
  }

  lemma FinishKeeps(w: World, h: Handle, stats: Stats, call: Call)
    requires Inv(w) && h in w.streams && call.Terminal()
    requires stats.success + stats.failure + stats.cancel == w.stats.success + w.stats.failure + w.stats.cancel + 1
    ensures Inv(Finish(w, h, stats, call))
  {
    var w' := Finish(w, h, stats, call);
    assert |w'.streams| == |w.streams| - 1 by {
      assert w'.streams.Keys == w.streams.Keys - {h};
    }
    assert Finished(w') == Finished(w) + [h];
    forall x ensures StreamOk(w', x) {
      assert StreamOk(w, x);
      OfAppend(w.log, h, call, x);
      if x == h {
        var calls := Of(w.log, h);
        assert (calls + [call])[..|calls|] == calls;
      }
    }
  }

  lemma FailKeeps(w: World, h: Handle, b: Bookkeeping)
    requires Inv(w) && h in w.streams
    ensures Inv(Fail(Remove(w, h), h, b))
  {
    FinishKeeps(w, h, w.stats.(failure := w.stats.failure + 1),
                OnError(b.errorCode.GetOr(StreamReset), b.errorMessage.GetOr([]), b.attemptCount.GetOr(-1)));
  }

  lemma CompleteKeeps(w: World, h: Handle, call: Call, b: Bookkeeping)
    requires Inv(w) && h in w.streams && !call.Terminal()
    ensures Inv(Complete(Emit(Remove(w, h), h, call), h, b))
  {
    EmitKeeps(w, h, call);
    FinishKeeps(Emit(w, h, call), h,
                if b.success then w.stats.(success := w.stats.success + 1)
                else w.stats.(failure := w.stats.failure + 1), OnComplete);
  }

  lemma EncodeHeadersKeeps(w: World, h: Handle, headers: ResponseHeaders, end: bool)
    requires Inv(w) && h in w.streams
    ensures Inv(EncodeHeadersOn(w, h, headers, end))
  {
    var n := Note(w, h, Headers(headers, end));
    var b := w.streams[h].(success := Is2xx(headers.status));
    var b' := if IsLocalError(headers) then MapLocalResponse(b, headers) else b;
    NoteKeeps(w, h, Headers(headers, end));
    if end {
      if IsLocalError(headers) {
        FailKeeps(n, h, b');
      } else {
        CompleteKeeps(n, h, OnHeaders(headers, end), b');
      }
    } else {
      UpdateKeeps(n, h, b');
      if !IsLocalError(headers) {
        EmitKeeps(n.(streams := w.streams[h := b']), h, OnHeaders(headers, end));
      }
    }
  }

  lemma EncodeDataKeeps(w: World, h: Handle, data: Bytes, end: bool)
    requires Inv(w) && h in w.streams && (w.streams[h].errorCode.Some? ==> end)
    ensures Inv(EncodeDataOn(w, h, data, end))
  {
    var n, b := Note(w, h, Data(data, end)), w.streams[h];
    NoteKeeps(w, h, Data(data, end));
    if b.errorCode.Some? {
      FailKeeps(n, h, b.(errorMessage := Some(data)));
    } else if end {
      CompleteKeeps(n, h, OnData(data, end), b);
    } else {
      EmitKeeps(n, h, OnData(data, end));
    }
  }

  lemma FinishResetKeeps(w: World, h: Handle)
    requires Inv(w)
    ensures Inv(FinishReset(w, h))
  {
    if h in w.streams {
      NoteKeeps(w, h, Reset);
      FailKeeps(Note(w, h, Reset), h, w.streams[h]);
    }
  }

  lemma PostKeeps(w: World, op: Op)
    requires Inv(w) && Legal(w, Post(op))
    ensures Inv(PostOp(w, op))
  {
    forall x ensures StreamOk(PostOp(w, op), x) {
      assert StreamOk(w, x);
    }
    if w.ready {
      assert w.executed + w.loop + [op] == w.executed + (w.loop + [op]);
    }
  }

  lemma ReadyKeeps(w: World)
    requires Inv(w) && !w.ready
    ensures Inv(MakeReady(w))
  {
    assert [] + ([] + w.initQueue) == w.initQueue;
    forall x ensures StreamOk(MakeReady(w), x) {
      assert StreamOk(w, x);
    }
  }

  lemma ClearKeeps(w: World)
    requires Inv(w)
    ensures Inv(Clear(w))
  {
    assert Finished(Clear(w)) == Finished(w);
    forall x ensures StreamOk(Clear(w), x) {
      assert StreamOk(w, x);
    }
  }

  lemma NextOpIsPosted(w: World)
    requires Inv(w) && w.loop != []
    ensures w.ready && w.posted[|w.executed|] == w.loop[0]
    ensures w.loop[0].Start? ==> w.loop[0] !in w.executed
  {
    var op := w.loop[0];
    assert w.posted[|w.executed|] == op;
    assert forall k :: 0 <= k < |w.executed| ==> w.executed[k] == w.posted[k];
  }

  lemma ExecuteKeeps(w: World)
    requires Inv(w) && w.loop != []
    ensures Inv(Execute(Dequeue(w), w.loop[0]))
  {
    var d := Dequeue(w);
    NextOpIsPosted(w);
    assert d.executed + d.loop == w.executed + w.loop;
    assert d.executed[..|w.executed|] == w.executed;
    match w.loop[0] {
      case Start(h) =>
        StartKeeps(w, h);
      case Send(h, call) =>
        DequeueKeeps(w);
        hide Inv, Emit;
        if h in d.streams {
          EmitKeeps(d, h, call);
        }
      case Cancel(h) =>
        DequeueKeeps(w);
        hide Inv, Dequeue;
        if h in d.streams {
          CancelKeeps(d, h);
        }
    }
  }

  lemma CancelKeeps(w: World, h: Handle)
    requires Inv(w) && h in w.streams
    ensures Inv(Execute(w, Cancel(h)))
  {
    NoteKeeps(w, h, Cancelled);
    FinishKeeps(Note(w, h, Cancelled), h, w.stats.(cancel := w.stats.cancel + 1), OnCancel);
  }

  lemma DequeueKeeps(w: World)
    requires Inv(w) && w.loop != [] && !w.loop[0].Start?
    ensures Inv(Dequeue(w))
  {
    var d := Dequeue(w);
    NextOpIsPosted(w);
    assert d.executed + d.loop == w.executed + w.loop;
    assert d.executed[..|w.executed|] == w.executed;
    forall x ensures StreamOk(d, x) {
      assert StreamOk(w, x);
      assert Start(x) in d.executed <==> Start(x) in w.executed;
    }
  }

  lemma StartKeeps(w: World, h: Handle)
    requires Inv(w) && w.loop != [] && w.loop[0] == Start(h) && Start(h) !in w.executed
    requires Dequeue(w).executed[..|w.executed|] == w.executed
    requires Dequeue(w).executed + Dequeue(w).loop == w.executed + w.loop
    ensures Inv(Execute(Dequeue(w), w.loop[0]))
  {
    var d := Dequeue(w);
    var w' := Execute(d, Start(h));
    assert StreamOk(w, h);
    assert w'.streams.Keys == w.streams.Keys + {h} && |w'.streams.Keys| == |w.streams| + 1;
    forall x ensures StreamOk(w', x) {
      assert StreamOk(w, x);
      assert Start(x) in w'.executed <==> Start(x) in w.executed || x == h;
    }
  }

  // ---------- Every event and every run ----------

  lemma {:induction false} ExecKeeps(w: World, ev: Event)
    requires Inv(w) && Legal(w, ev)
    ensures Inv(Exec(w, ev))
    decreases ev, 1
  {
    match ev
    case Post(op) => PostKeeps(w, op);
    case Ready => ReadyKeeps(w);
    case RunNext(inner) =>
      ExecuteKeeps(w);
      if inner != [] {
        ExecAllKeeps(Execute(Dequeue(w), w.loop[0]), inner);
      }
    case EncodeHeaders(h, headers, end) => EncodeHeadersKeeps(w, h, headers, end);
    case EncodeData(h, data, end) => EncodeDataKeeps(w, h, data, end);
    case EncodeTrailers(h, trailers) =>
      NoteKeeps(w, h, Trailers(trailers));
      CompleteKeeps(Note(w, h, Trailers(trailers)), h, OnTrailers(trailers), w.streams[h]);
    case ResetStream(h, inner) =>
      ExecAllKeeps(w, inner);
      FinishResetKeeps(ExecAll(w, inner), h);
    case ClearDeferred => ClearKeeps(w);
  }

  lemma {:induction false} ExecAllKeeps(w: World, evs: seq<Event>)
    requires Inv(w) && LegalAll(w, evs)
    ensures Inv(ExecAll(w, evs))
    decreases evs, 0
  {
    if evs != [] {
      ExecKeeps(w, evs[0]);
      ExecAllKeeps(Exec(w, evs[0]), evs[1..]);
    }
  }

  lemma {:induction false} RunKeeps(w: World, evs: seq<Event>)
    requires Inv(w) && LegalRun(w, evs)
    ensures Inv(Run(w, evs))
    decreases |evs|
  {
    if evs != [] {
      ExecKeeps(w, evs[0]);
      RunKeeps(Exec(w, evs[0]), evs[1..]);
    }
  }

  lemma EmptyInv()
    ensures Inv(EMPTY)
  {
  }

  function CountTerminal(calls: seq<Call>): nat {
    if calls == [] then 0
    else CountTerminal(calls[..|calls| - 1]) + if calls[|calls| - 1].Terminal() then 1 else 0
  }

  lemma {:induction false} NoTerminalCounts(calls: seq<Call>)
    requires NoTerminal(calls)
    ensures CountTerminal(calls) == 0
  {
    if calls != [] {
      NoTerminalCounts(calls[..|calls| - 1]);
    }
  }

  /**
   In every run, for every stream: it is in the map exactly when it was started and has had no terminal callback;
   a started stream that left the map has had exactly one, and nothing was called after it.
   */
  lemma OneTerminalCallback(evs: seq<Event>, h: Handle)
    requires LegalRun(EMPTY, evs)
    ensures var w := Run(EMPTY, evs);
            var calls := Of(w.log, h);
            && CountTerminal(calls) <= 1
            && (h in w.streams <==> Start(h) in w.executed && CountTerminal(calls) == 0)
            && (CountTerminal(calls) == 1 ==> calls[|calls| - 1].Terminal())
            && (Start(h) !in w.executed ==> calls == [])
  {
    EmptyInv();
    RunKeeps(EMPTY, evs);
    var w := Run(EMPTY, evs);
    assert StreamOk(w, h);
    var calls := Of(w.log, h);
    if calls != [] && TerminatedOnce(calls) {
      NoTerminalCounts(calls[..|calls| - 1]);
    }
    if NoTerminal(calls) {
      NoTerminalCounts(calls);
    }
  }

  /** The operations executed, followed by those waiting, are those posted, in order, none lost or doubled. */
  lemma FifoAcrossReady(evs: seq<Event>)
    requires LegalRun(EMPTY, evs)
    ensures var w := Run(EMPTY, evs);
            w.posted == w.executed + if w.ready then w.loop else w.initQueue
  {
    EmptyInv();
    RunKeeps(EMPTY, evs);
  }

  /** The queue is not cleared by ready: a second call would keep first-in-first-out only if nothing was queued. */
  lemma SecondReadyDoubles(w: World)
    requires Inv(w) && w.ready
    ensures var w' := MakeReady(w);
            w'.posted == w'.executed + w'.loop <==> w.initQueue == []
  {
    var w' := MakeReady(w);
    assert w'.executed + w'.loop == w.posted + w.initQueue by {
      assert w.executed + (w.loop + w.initQueue) == w.executed + w.loop + w.initQueue;
    }
    if w.initQueue == [] {
      assert w.posted + [] == w.posted;
    }
  }

  /** Counters plus live streams are the streams started, and every finished object is handed over exactly once. */
  lemma StreamAccounting(evs: seq<Event>)
    requires LegalRun(EMPTY, evs)
    ensures var w := Run(EMPTY, evs);
            && w.stats.success + w.stats.failure + w.stats.cancel + |w.streams| == CountStarts(w.executed)
            && forall h :: multiset(w.deleted + w.deferred)[h] ==
                           if Start(h) in w.executed && h !in w.streams then 1 else 0
  {
    EmptyInv();
    RunKeeps(EMPTY, evs);
    var w := Run(EMPTY, evs);
    forall h ensures multiset(Finished(w))[h] == if Start(h) in w.executed && h !in w.streams then 1 else 0 {
      assert StreamOk(w, h);
    }
  }
}
