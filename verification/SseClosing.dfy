/** What a stream leaves behind in the table of pending questions, read to its end or closed before. */
module SseClosing {
  import opened Prelude
  import opened SseStream
  import opened SseLaws
  import L = TodoLedger

  // ---------- while the graph runs ----------

  predicate IsQuestion(f: Frame) {
    f.InputRequired?
  }

  /** No question is open, and closing at a frame sent so far would leave one exactly at the questions. */
  ghost predicate Settled(s: StreamState) {
    && !s.pending && !s.guarded
    && |s.leaks| == |s.out| && (forall k :: 0 <= k < |s.out| ==> (s.leaks[k] <==> IsQuestion(s.out[k].frame)))
    && (forall k :: 0 <= k < |s.queue| ==> !IsQuestion(s.queue[k]))
  }

  lemma YieldSettles(s: StreamState, frame: Option<Frame>)
    requires Settled(s) && (frame.Some? ==> !IsQuestion(frame.value))
    ensures Settled(Yielded(s, frame))
  {
  }

  lemma DrainSettles(s: StreamState)
    requires Settled(s)
    ensures Settled(Drained(s))
  {
    var next, n := Drained(s), |s.out|;
    forall k | 0 <= k < |next.out| ensures next.leaks[k] <==> IsQuestion(next.out[k].frame) {
      if k >= n {
        assert next.out[k] == Listened(s.queue)[k - n] && next.leaks[k] == Copies(|s.queue|, false)[k - n];
      }
    }
  }

  lemma MappedIsNoQuestion(st: MapState, e: GraphEvent, rows: Option<L.Rows>)
    requires e.GraphEvent?
    ensures MapEvent(st, e, rows).frame.Some? ==> !IsQuestion(MapEvent(st, e, rows).frame.value)
  {
    hide Take, Preview, IsErrorOutput;
  }

  lemma StateSettles(s: StreamState, state: MapState)
    requires Settled(s)
    ensures Settled(s.(state := state))
  {
  }

  lemma ArrivedSettles(s: StreamState, store: bool, t: Tick)
    requires Settled(s) && t.Arrives?
    ensures Settled(Arrived(s, store, t))
  {
    hide Settled, Drained, Yielded, MapEvent;
    var probed := Probed(s, store, t.probe);
    if store {
      var m := ShowTodos(s.state, t.probe);
      StateSettles(s, m.st);
      YieldSettles(s.(state := m.st), m.frame);
    }
    DrainSettles(probed);
    if t.event.GraphEvent? {
      var s1, rows := Drained(probed), if store then Some(t.mapped) else None;
      var m := MapEvent(s1.state, t.event, rows);
      MappedIsNoQuestion(s1.state, t.event, rows);
      StateSettles(s1, m.st);
      YieldSettles(s1.(state := m.st), m.frame);
    }
  }

  lemma QueueSettles(s: StreamState, frames: seq<Frame>)
    requires Settled(s) && forall k :: 0 <= k < |frames| ==> frames[k].InvokeStart? || frames[k].InvokeEnd?
    ensures Settled(s.(queue := s.queue + frames))
  {
  }

  lemma StepSettles(s: StreamState, store: bool, t: Tick)
    requires Settled(s)
    ensures Settled(Step(s, store, t))
  {
    hide Settled, Arrived, Yielded, NoticeFrames;
    match t {
      case Silence => YieldSettles(s, Some(KeepAlive));
      case Push(n) =>
        NoticesAreInvokes(n);
        QueueSettles(s, NoticeFrames(n));
      case Arrives(_, _, _) => ArrivedSettles(s, store, t);
      case Fails(_) =>
    }
  }

  lemma {:induction false} TicksSettle(s: StreamState, store: bool, ticks: seq<Tick>)
    requires Settled(s)
    ensures Settled(RunTicks(s, store, ticks).s)
    ensures RunTicks(s, store, ticks).failure.None? <==> Smooth(ticks)
    decreases ticks
  {
    hide Settled, Step, Failure;
    if ticks != [] {
      StepSettles(s, store, ticks[0]);
      SmoothStep(ticks);
      if Failure(ticks[0]).None? {
        TicksSettle(Step(s, store, ticks[0]), store, ticks[1..]);
      }
    }
  }

  // ---------- questions ----------

  /** While the answer is awaited the future is registered, but inside the block that takes it back. */
  ghost predicate Waiting(s: StreamState) {
    s.pending && s.guarded && Settled(s.(pending := false, guarded := false))
  }

  lemma {:induction false} KeptAliveWaits(s: StreamState, n: nat)
    requires Waiting(s)
    ensures Waiting(KeptAlive(s, n))
  {
    if n > 0 { KeptAliveWaits(s, n - 1); }
  }

  lemma AskedSettles(s: StreamState, ask: string, n: nat)
    requires Settled(s)
    ensures Settled(Asked(s, ask, n))
  {
    hide KeptAlive;
    KeptAliveWaits(Yielded(s.(pending := true), Some(InputRequired(ask))).(guarded := true), n);
  }

  /** The run got to a question whose payload could not be read. */
  predicate EndsMalformed(run: GraphRun) {
    Smooth(run.ticks) && match run case Last(_, ending) => ending.AskMalformed? case Answered(_, _, _, rest) => EndsMalformed(rest)
  }

  lemma {:induction false} GraphSettles(s: StreamState, store: bool, run: GraphRun)
    requires Settled(s)
    ensures var o := RunGraph(s, store, run);
            Settled(o.s.(pending := false)) && (o.s.pending <==> EndsMalformed(run))
    decreases run
  {
    hide Settled, RunTicks, Asked, Smooth;
    TicksSettle(s, store, run.ticks);
    var t := RunTicks(s, store, run.ticks);
    NothingPending(t.s);
    if t.failure.None? {
      match run
      case Last(_, ending) =>
        if ending.AskTimedOut? {
          AskedSettles(t.s, ending.ask, ending.keepAlives);
          NothingPending(Asked(t.s, ending.ask, ending.keepAlives));
        }
      case Answered(_, ask, n, rest) =>
        AskedSettles(t.s, ask, n);
        GraphSettles(Asked(t.s, ask, n), store, rest);
    }
  }

  lemma NothingPending(s: StreamState)
    requires Settled(s)
    ensures !s.pending && s.(pending := false) == s
  {
  }

  // ---------- main results ----------

  lemma OpenedSettled(script: Script)
    ensures Settled(Opened(script))
  {
  }

  lemma ClosedLeaks(script: Script, o: Outcome, n: nat)
    requires Settled(o.s.(pending := false)) && 0 < n <= |Closed(script, o).out|
    ensures |Closed(script, o).leaks| == |Closed(script, o).out| && Closed(script, o).pending == o.s.pending
    ensures Closed(script, o).leaks[n - 1] <==> IsQuestion(Closed(script, o).out[n - 1].frame) || (o.s.pending && n > |o.s.out|)
  {
    hide LateFrames, NoticeFrames;
    LateAreInvokes(script.late);
    var s, before := Closed(script, o), |o.s.out|;
    var queue := o.s.queue + LateFrames(script.late);
    assert s.out == o.s.out + Listened(queue) + [Emitted(Harness, Closing(script, o))];
    assert s.leaks == o.s.leaks + Copies(|queue|, o.s.pending) + [o.s.pending];
    if before < n < |s.out| {
      assert s.out[n - 1] == Listened(queue)[n - 1 - before] && s.leaks[n - 1] == Copies(|queue|, o.s.pending)[n - 1 - before];
    }
  }

  /** Read to its end, a stream leaves its question registered exactly if the question's payload was malformed. */
  lemma PendingAfterStream(script: Script)
    ensures Transcript(script).pending <==> EndsMalformed(script.run)
  {
    hide RunGraph, EndsMalformed, LateFrames;
    OpenedSettled(script);
    GraphSettles(Opened(script), script.store, script.run);
  }

  /** Closed by its reader after `n` frames, it leaves a question registered exactly if the last of them is a
      question, or the run had already failed on a malformed one. */
  lemma PendingWhenClosed(script: Script, n: nat)
    requires 0 < n <= |Stream(script)|
    ensures |Transcript(script).leaks| == |Stream(script)|
    ensures Transcript(script).leaks[n - 1] <==>
            || IsQuestion(Stream(script)[n - 1].frame)
            || (EndsMalformed(script.run) && n > |RunGraph(Opened(script), script.store, script.run).s.out|)
  {
    hide RunGraph, EndsMalformed, Closed, Opened;
    OpenedSettled(script);
    GraphSettles(Opened(script), script.store, script.run);
    ClosedLeaks(script, RunGraph(Opened(script), script.store, script.run), n);
  }

  /** A question whose reader leaves at its own frame: everything was well-formed, and its future stays behind. */
  lemma ReaderLeavesAtQuestion(script: Script, ask: string, keepAlives: nat)
    requires script.run == Last([], AskTimedOut(ask, keepAlives))
    ensures |Stream(script)| >= 2 && Stream(script)[1].frame == InputRequired(ask)
    ensures |Transcript(script).leaks| == |Stream(script)| && Transcript(script).leaks[1] && !Transcript(script).pending
  {
    hide LateFrames, Listened, Take;
    AskedStarts(Opened(script), ask, keepAlives);
    PendingAfterStream(script);
    PendingWhenClosed(script, 2);
    StreamExtendsGraph(script);
  }

  lemma {:induction false} KeptAliveExtends(s: StreamState, n: nat)
    ensures s.out <= KeptAlive(s, n).out
  {
    if n > 0 { KeptAliveExtends(s, n - 1); }
  }

  lemma AskedStarts(s: StreamState, ask: string, n: nat)
    ensures s.out + [Emitted(Harness, InputRequired(ask))] <= Asked(s, ask, n).out
  {
    hide KeptAlive;
    KeptAliveExtends(Yielded(s.(pending := true), Some(InputRequired(ask))).(guarded := true), n);
  }
}
