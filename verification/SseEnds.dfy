/** How a stream begins and ends, what its last frame says, and what it sends while it waits. */
module SseEnds {
  import opened Prelude
  import opened SseStream
  import opened SseLaws
  import opened SseDelegations

  // ---------- the first and the last frame ----------

  /** What stopped a run short: the first exception, or the interrupt that could not be served. */
  function Reason(run: GraphRun): Option<string> {
    if !Smooth(run.ticks) then Failure(Reached(run.ticks)[|Reached(run.ticks)| - 1])
    else
      match run
      case Answered(_, _, _, rest) => Reason(rest)
      case Last(_, ending) =>
        match ending
        case Finished => None
        case LookupFailed(_) => None
        case UnknownInterrupt(kind) => Some("unhandled interrupt: " + kind)
        case AskTimedOut(_, _) => Some("hitl timeout (5min)")
        case AskMalformed(message) => Some(message)
  }

  lemma {:induction false} TicksFail(s: StreamState, store: bool, ticks: seq<Tick>)
    ensures !Smooth(ticks) ==> Reached(ticks) != []
    ensures RunTicks(s, store, ticks).failure ==
            if Smooth(ticks) then None else Failure(Reached(ticks)[|Reached(ticks)| - 1])
    ensures RunTicks(s, store, ticks).failure.None? <==> Smooth(ticks)
    decreases ticks
  {
    hide Step, Failure;
    if ticks != [] {
      SmoothStep(ticks);
      if Failure(ticks[0]).None? { TicksFail(Step(s, store, ticks[0]), store, ticks[1..]); }
    }
  }

  lemma {:induction false} GraphFails(s: StreamState, store: bool, run: GraphRun)
    ensures !Smooth(run.ticks) ==> Reached(run.ticks) != []
    ensures var o := RunGraph(s, store, run);
            Reason(run) == (if o.success then None else Some(o.error))
    decreases run
  {
    hide RunTicks, Asked, Reached, Smooth, Failure;
    TicksFail(s, store, run.ticks);
    var t := RunTicks(s, store, run.ticks);
    if t.failure.None? {
      match run
      case Answered(_, ask, n, rest) => GraphFails(Asked(t.s, ask, n), store, rest);
      case Last(_, ending) =>
    }
  }

  lemma FirstKept(a: seq<Emitted>, b: seq<Emitted>)
    requires a != [] && a <= b
    ensures b != [] && b[0] == a[0]
  {
  }

  /** The stream opens with the session and the first 500 characters of the request, and closes with the session,
      the response and, unless it succeeded, the reason why not. */
  lemma StreamOpensAndCloses(script: Script)
    ensures var out := Stream(script);
            && |out| >= 2
            && out[0].frame.RunStart? && out[0].frame.session == script.session && out[0].frame.request <= script.request
            && |out[0].frame.request| == Min(500, |script.request|)
            && out[|out| - 1].frame == RunEnd(script.session, Reason(script.run).None?, script.response, Reason(script.run))
  {
    hide RunGraph, Reason, LateFrames, Listened, Only, ReachedIn, Observed, Pushed, Dedup, Shown, Clean;
    StreamIsFaithful(script);
    GraphFails(Opened(script), script.store, script.run);
    GraphGrows(Opened(script), script.store, script.run);
    StreamExtendsGraph(script);
    assert Opened(script).out == [Emitted(Harness, RunStart(script.session, Take(script.request, REQUEST_LIMIT)))];
    FirstKept(Opened(script).out, Stream(script));
  }

  // ---------- waiting ----------

  predicate Waits(e: Emitted) {
    e.source == Harness && (e.frame.KeepAlive? || e.frame.InputRequired?)
  }

  /** A keep-alive for every silence. */
  function Silences(ticks: seq<Tick>): seq<Frame> {
    if ticks == [] then [] else Silences(ticks[..|ticks| - 1]) + if ticks[|ticks| - 1].Silence? then [KeepAlive] else []
  }

  /** The question, then a keep-alive for every interval without an answer. */
  function AskFrames(ask: string, n: nat): seq<Frame> {
    [InputRequired(ask)] + seq(n, _ => KeepAlive)
  }

  function WaitsOf(run: GraphRun): seq<Frame> {
    Silences(Reached(run.ticks)) +
    if !Smooth(run.ticks) then []
    else
      match run
      case Answered(_, ask, n, rest) => AskFrames(ask, n) + WaitsOf(rest)
      case Last(_, ending) => if ending.AskTimedOut? then AskFrames(ending.ask, ending.keepAlives) else []
  }

  lemma ByHarnessSum(a: seq<Frame>, b: seq<Frame>)
    ensures ByHarness(a + b) == ByHarness(a) + ByHarness(b)
  {
  }

  lemma YieldWaits(s: StreamState, frame: Option<Frame>)
    ensures Only(Yielded(s, frame).out, Waits)
            == Only(s.out, Waits) + ByHarness(if frame.Some? && (frame.value.KeepAlive? || frame.value.InputRequired?)
                                              then [frame.value] else [])
  {
    if frame.Some? { OnlyOne(s.out, Emitted(Harness, frame.value), Waits); }
  }

  lemma {:induction false} ListenerNeverWaits(frames: seq<Frame>)
    ensures Only(Listened(frames), Waits) == []
  {
    if frames != [] {
      assert Listened(frames)[..|frames| - 1] == Listened(frames[..|frames| - 1]);
      ListenerNeverWaits(frames[..|frames| - 1]);
    }
  }

  lemma DrainWaits(s: StreamState)
    ensures Only(Drained(s).out, Waits) == Only(s.out, Waits)
  {
    ListenerNeverWaits(s.queue);
    OnlySum(s.out, Listened(s.queue), Waits);
  }

  lemma StepWaits(s: StreamState, store: bool, t: Tick)
    ensures Only(Step(s, store, t).out, Waits) == Only(s.out, Waits) + ByHarness(if t.Silence? then [KeepAlive] else [])
  {
    hide Only, Preview, IsErrorOutput, Take, NoticeFrames, Drained;
    match t {
      case Silence => YieldWaits(s, Some(KeepAlive));
      case Push(_) =>
      case Fails(_) =>
      case Arrives(_, _, _) =>
        var m := ShowTodos(s.state, t.probe);
        YieldWaits(s.(state := m.st), m.frame);
        var s1 := Probed(s, store, t.probe);
        DrainWaits(s1);
        if t.event.GraphEvent? {
          var d := Drained(s1);
          var e := MapEvent(d.state, t.event, if store then Some(t.mapped) else None);
          YieldWaits(d.(state := e.st), e.frame);
        }
    }
  }

  lemma {:induction false} TicksWait(s: StreamState, store: bool, ticks: seq<Tick>, seen: seq<Tick>, before: seq<Emitted>)
    requires Only(s.out, Waits) == before + ByHarness(Silences(seen))
    ensures Only(RunTicks(s, store, ticks).s.out, Waits) == before + ByHarness(Silences(seen + Reached(ticks)))
    decreases ticks
  {
    hide Step, Failure, Only, ByHarness;
    if ticks == [] {
      assert seen + [] == seen;
    } else {
      var t := ticks[0];
      StepWaits(s, store, t);
      assert (seen + [t])[..|seen|] == seen;
      ByHarnessSum(Silences(seen), if t.Silence? then [KeepAlive] else []);
      if Failure(t).None? {
        TicksWait(Step(s, store, t), store, ticks[1..], seen + [t], before);
        assert seen + [t] + Reached(ticks[1..]) == seen + ([t] + Reached(ticks[1..]));
      }
    }
  }

  lemma {:induction false} KeptAliveWaits(s: StreamState, n: nat)
    ensures Only(KeptAlive(s, n).out, Waits) == Only(s.out, Waits) + ByHarness(seq(n, _ => KeepAlive))
  {
    hide Only;
    if n > 0 {
      KeptAliveWaits(s, n - 1);
      YieldWaits(KeptAlive(s, n - 1), Some(KeepAlive));
      assert seq<Frame>(n, _ => KeepAlive) == seq<Frame>(n - 1, _ => KeepAlive) + [KeepAlive];
    } else {
      assert seq<Frame>(0, _ => KeepAlive) == [];
    }
  }

  lemma AskWaits(s: StreamState, ask: string, n: nat)
    ensures Only(Asked(s, ask, n).out, Waits) == Only(s.out, Waits) + ByHarness(AskFrames(ask, n))
  {
    hide Only, KeptAlive;
    var s1 := Yielded(s.(pending := true), Some(InputRequired(ask)));
    YieldWaits(s.(pending := true), Some(InputRequired(ask)));
    KeptAliveWaits(s1.(guarded := true), n);
  }

  lemma {:induction false} GraphWaits(s: StreamState, store: bool, run: GraphRun)
    ensures Only(RunGraph(s, store, run).s.out, Waits) == Only(s.out, Waits) + ByHarness(WaitsOf(run))
    decreases run
  {
    hide RunTicks, Asked, Reached, Smooth, Only, ByHarness, Silences, AskFrames;
    assert ByHarness([]) == [] && Silences([]) == [] by { NothingWaits(); }
    TicksWait(s, store, run.ticks, [], Only(s.out, Waits));
    assert [] + Reached(run.ticks) == Reached(run.ticks);
    TicksFail(s, store, run.ticks);
    var t, here := RunTicks(s, store, run.ticks), Silences(Reached(run.ticks));
    if t.failure.None? {
      match run
      case Last(_, ending) =>
        if ending.AskTimedOut? {
          AskWaits(t.s, ending.ask, ending.keepAlives);
          ByHarnessSum(here, AskFrames(ending.ask, ending.keepAlives));
        } else {
          ByHarnessSum(here, []);
        }
      case Answered(_, ask, n, rest) =>
        AskWaits(t.s, ask, n);
        GraphWaits(Asked(t.s, ask, n), store, rest);
        ByHarnessSum(AskFrames(ask, n), WaitsOf(rest));
        ByHarnessSum(here, AskFrames(ask, n) + WaitsOf(rest));
    } else {
      ByHarnessSum(here, []);
    }
  }

  lemma NothingWaits()
    ensures ByHarness([]) == [] && Silences([]) == []
  {
  }

  /** The keep-alives and questions of a stream are, in order, one keep-alive for every silence of the graph, each
      question put to the user, and one for every interval its answer did not come. */
  lemma StreamWaits(script: Script)
    ensures Only(Stream(script), Waits) == ByHarness(WaitsOf(script.run))
  {
    hide Only, RunGraph, WaitsOf, LateFrames, Drained, ByHarness;
    var o := RunGraph(Opened(script), script.store, script.run);
    GraphWaits(Opened(script), script.store, script.run);
    YieldWaits(Initial(), Some(RunStart(script.session, Take(script.request, REQUEST_LIMIT))));
    assert Only([], Waits) == [] && ByHarness([]) == [] by { NothingOnly(); NothingWaits(); }
    var s := o.s.(queue := o.s.queue + LateFrames(script.late));
    DrainWaits(s);
    YieldWaits(Drained(s), Some(Closing(script, o)));
  }

  lemma NothingOnly()
    ensures Only([], Waits) == []
  {
  }

  // ---------- the order at one event ----------

  /** The event's own frame, given what was seen before: the snapshot of a ledger tool if it differs from the one
      shown last, or what there is to show of the work. */
  ghost function EventFrames(seen: seq<Tick>, store: bool, t: Tick): seq<Frame>
    requires t.Arrives?
  {
    if !t.event.GraphEvent? then []
    else if t.event.kind == OnToolEnd && t.event.name in {"write_todos", "update_todo"} then
      var last := if store then Some(t.probe) else LastOf(Observed(seen, store));
      var now := if store then Some(t.mapped) else t.event.parsed;
      if now.Some? && now != last then [TodoChange(now.value)] else []
    else WorkAt(seen, t)
  }

  lemma MapSends(s: StreamState, seen: seq<Tick>, t: Tick, rows: Option<L.Rows>)
    requires t.Arrives? && t.event.GraphEvent? && Tracks(s, seen)
    ensures var frame, todo := MapEvent(s.state, t.event, rows).frame, t.event.kind == OnToolEnd && IsTodoTool(t.event.name);
            && (todo ==> frame == (var now := if rows.Some? then rows else t.event.parsed;
                                   if now.Some? && now != s.state.lastTodos then Some(TodoChange(now.value)) else None))
            && (!todo ==> WorkAt(seen, t) == if frame.Some? then [frame.value] else [])
  {
    hide AtTopLevel, Preview, IsErrorOutput, Take;
    MapShowsWork(s, seen, t, rows);
  }

  /** An event sends, in this order: the ledger if it changed on the way, the listener's frames that have come
      together, and its own frame. */
  lemma ArrivalSends(s: StreamState, seen: seq<Tick>, store: bool, t: Tick)
    requires t.Arrives? && Tracks(s, seen) && s.state.lastTodos == LastOf(Observed(seen, store))
    ensures Step(s, store, t).queue == []
    ensures Step(s, store, t).out ==
            s.out + ByHarness(if store && LastOf(Observed(seen, store)) != Some(t.probe) then [TodoChange(t.probe)] else [])
            + Listened(s.queue) + ByHarness(EventFrames(seen, store, t))
  {
    hide WorkAt, Observed, MapEvent, Listened, Yielded, ByHarness, Drained;
    assert ByHarness([]) == [] by { NothingWaits(); }
    var s1 := s;
    var diff := if store && LastOf(Observed(seen, store)) != Some(t.probe) then [TodoChange(t.probe)] else [];
    if store {
      var m := ShowTodos(s.state, t.probe);
      s1 := Yielded(s.(state := m.st), m.frame);
      YieldOut(s.(state := m.st), m.frame);
    } else {
      assert s.out + [] == s.out;
    }
    assert s1.out == s.out + ByHarness(diff) && s1.queue == s.queue;
    var d := Drained(s1);
    DrainOut(s1);
    if t.event.GraphEvent? {
      var rows := if store then Some(t.mapped) else None;
      MapSends(d, seen, t, rows);
      var m := MapEvent(d.state, t.event, rows);
      YieldOut(d.(state := m.st), m.frame);
    } else {
      assert d.out + [] == d.out;
    }
  }

  lemma YieldOut(s: StreamState, frame: Option<Frame>)
    ensures var next := Yielded(s, frame);
            next.out == s.out + ByHarness(if frame.Some? then [frame.value] else [])
            && next.queue == s.queue && next.state == s.state
  {
  }

  lemma DrainOut(s: StreamState)
    ensures var next := Drained(s);
            next.out == s.out + Listened(s.queue) && next.queue == [] && next.state == s.state
  {
  }
}
