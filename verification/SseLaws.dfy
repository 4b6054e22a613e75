/** What a viewer of the event stream can rely on. */
module SseLaws {
  import opened Prelude
  import opened Text
  import opened SseStream
  import L = TodoLedger

  // ---------- projections of the stream ----------

  function Only(out: seq<Emitted>, keep: Emitted -> bool): seq<Emitted> {
    if out == [] then []
    else Only(out[..|out| - 1], keep) + (if keep(out[|out| - 1]) then [out[|out| - 1]] else [])
  }

  lemma {:induction false} OnlySum(a: seq<Emitted>, b: seq<Emitted>, keep: Emitted -> bool)
    ensures Only(a + b, keep) == Only(a, keep) + Only(b, keep)
  {
    if b == [] {
      assert a + b == a;
    } else {
      var n := |b| - 1;
      assert (a + b)[..|a + b| - 1] == a + b[..n];
      OnlySum(a, b[..n], keep);
    }
  }

  lemma OnlyOne(a: seq<Emitted>, e: Emitted, keep: Emitted -> bool)
    ensures Only(a + [e], keep) == Only(a, keep) + if keep(e) then [e] else []
  {
    assert (a + [e])[..|a|] == a;
  }

  predicate IsTodo(e: Emitted) {
    e.frame.TodoChange?
  }

  predicate FromListener(e: Emitted) {
    e.source == Listener
  }

  predicate MarksRun(e: Emitted) {
    e.frame.RunStart? || e.frame.RunEnd?
  }

  // ---------- the ticks a run gets to, and what they bring ----------

  function Reached(ticks: seq<Tick>): seq<Tick> {
    if ticks == [] then []
    else if Failure(ticks[0]).Some? then [ticks[0]]
    else [ticks[0]] + Reached(ticks[1..])
  }

  predicate Smooth(ticks: seq<Tick>) {
    forall k :: 0 <= k < |ticks| ==> Failure(ticks[k]).None?
  }

  function ReachedIn(run: GraphRun): seq<Tick> {
    Reached(run.ticks) + if run.Answered? && Smooth(run.ticks) then ReachedIn(run.rest) else []
  }

  /** The snapshots one tick looks at: the probe's, and the one a todo tool's end looks at. */
  function ObservedBy(t: Tick, store: bool): seq<L.Rows> {
    match t
    case Arrives(e, probe, mapped) =>
      (if store then [probe] else [])
      + (if !e.GraphEvent? || e.kind != OnToolEnd || e.name !in {"write_todos", "update_todo"} then []
         else if store then [mapped]
         else if e.parsed.Some? then [e.parsed.value] else [])
    case _ => []
  }

  function Observed(ticks: seq<Tick>, store: bool): seq<L.Rows> {
    if ticks == [] then [] else Observed(ticks[..|ticks| - 1], store) + ObservedBy(ticks[|ticks| - 1], store)
  }

  function Pushed(ticks: seq<Tick>): seq<Frame> {
    if ticks == [] then []
    else
      var t := ticks[|ticks| - 1];
      Pushed(ticks[..|ticks| - 1]) + if t.Push? then NoticeFrames(t.notice) else []
  }

  // ---------- what a tool call's end shows ----------

  /** Of the output, white space around it not counted, the first 200 characters, and dots if there are more. */
  lemma PreviewShows(content: string) returns (a: string, b: string)
    ensures AllSpace(a) && AllSpace(b) && |a| + |b| <= |content|
    ensures var s := content[|a|..|content| - |b|];
            && content == a + s + b && (s != "" ==> !IsSpace(s[0]) && !IsSpace(s[|s| - 1]))
            && Preview(content) == if |s| <= 200 then s else s[..200] + "..."
  {
    a, b := StripSplits(content);
  }

  /** The letters of "error", in either case, stand at `i`. */
  ghost predicate ErrorAt(s: string, i: int) {
    && 0 <= i && i + 5 <= |s|
    && s[i] in {'e', 'E'} && s[i + 1] in {'r', 'R'} && s[i + 2] in {'r', 'R'} && s[i + 3] in {'o', 'O'} && s[i + 4] in {'r', 'R'}
  }

  /** An output counts as an error exactly if that word ends within its first fifty characters. */
  lemma ErrorOutputIff(preview: string)
    ensures IsErrorOutput(preview) <==> exists i :: i + 5 <= 50 && ErrorAt(preview, i)
  {
    CaseFolds(preview);
    var low := Take(Lower(preview), 50);
    assert |low| == Min(50, |preview|) && forall k :: 0 <= k < |low| ==> low[k] == Lower(preview)[k];
    forall i: int ensures OccursAt(low, "error", i) <==> i + 5 <= 50 && ErrorAt(preview, i) {
      ErrorLetters(low, preview, i);
    }
    if IsErrorOutput(preview) {
      var i :| 0 <= i <= |low| && OccursAt(low, "error", i);
    }
    if i :| i + 5 <= 50 && ErrorAt(preview, i) {
      assert OccursAt(low, "error", i);
    }
  }

  lemma ErrorLetters(low: string, preview: string, i: int)
    requires |low| == Min(50, |preview|) && forall k :: 0 <= k < |low| ==> low[k] == LowerChar(preview[k])
    ensures OccursAt(low, "error", i) <==> i + 5 <= 50 && ErrorAt(preview, i)
  {
    if 0 <= i && i + 5 <= |low| {
      var t := low[i..i + 5];
      assert t[0] == low[i] && t[1] == low[i + 1] && t[2] == low[i + 2] && t[3] == low[i + 3] && t[4] == low[i + 4];
      assert t == [t[0], t[1], t[2], t[3], t[4]];
    }
  }

  // ---------- stutter-free ----------

  function LastOf(xs: seq<L.Rows>): Option<L.Rows> {
    if xs == [] then None else Some(xs[|xs| - 1])
  }

  /** Drops every snapshot equal to the one just before it. */
  function Dedup(xs: seq<L.Rows>): seq<L.Rows> {
    if xs == [] then []
    else
      var rest := xs[..|xs| - 1];
      Dedup(rest) + if LastOf(rest) == LastOf(xs) then [] else [xs[|xs| - 1]]
  }

  /** No snapshot is shown twice in a row, and what is shown last is what was seen last. */
  lemma {:induction false} DedupStutterFree(xs: seq<L.Rows>)
    ensures forall k :: 0 < k < |Dedup(xs)| ==> Dedup(xs)[k - 1] != Dedup(xs)[k]
    ensures LastOf(Dedup(xs)) == LastOf(xs)
  {
    if xs != [] {
      DedupStutterFree(xs[..|xs| - 1]);
    }
  }

  function Shown(xs: seq<L.Rows>): seq<Emitted> {
    seq(|xs|, i requires 0 <= i < |xs| => Emitted(Harness, TodoChange(xs[i])))
  }

  // ---------- what every step keeps ----------

  ghost predicate TodosShown(s: StreamState, observed: seq<L.Rows>) {
    && Only(s.out, IsTodo) == Shown(Dedup(observed))
    && s.state.lastTodos == LastOf(observed)
  }

  ghost predicate NoticesShown(s: StreamState, pushed: seq<Frame>) {
    && Only(s.out, FromListener) + Listened(s.queue) == Listened(pushed)
    && forall k :: 0 <= k < |s.queue| ==> s.queue[k].InvokeStart? || s.queue[k].InvokeEnd?
  }

  ghost predicate Begun(s: StreamState, start: Emitted) {
    s.out != [] && s.out[0] == start && Only(s.out, MarksRun) == [start]
  }

  ghost predicate Shows(s: StreamState, seen: seq<Tick>, store: bool, start: Emitted) {
    TodosShown(s, Observed(seen, store)) && NoticesShown(s, Pushed(seen)) && Begun(s, start)
  }

  lemma YieldShows(s: StreamState, frame: Option<Frame>, seen: seq<Tick>, store: bool, start: Emitted)
    requires Shows(s, seen, store, start)
    requires frame.Some? ==> !frame.value.TodoChange? && !frame.value.RunStart? && !frame.value.RunEnd?
    ensures Shows(Yielded(s, frame), seen, store, start)
  {
    hide Observed, Pushed, Dedup, Shown, Only, Listened;
    if frame.Some? {
      var e := Emitted(Harness, frame.value);
      OnlyOne(s.out, e, IsTodo);
      OnlyOne(s.out, e, FromListener);
      OnlyOne(s.out, e, MarksRun);
    }
  }

  lemma {:induction false} ListenedOnly(frames: seq<Frame>)
    requires forall k :: 0 <= k < |frames| ==> frames[k].InvokeStart? || frames[k].InvokeEnd?
    ensures Only(Listened(frames), IsTodo) == [] && Only(Listened(frames), MarksRun) == []
    ensures Only(Listened(frames), FromListener) == Listened(frames)
  {
    if frames != [] {
      var n := |frames| - 1;
      assert Listened(frames)[..n] == Listened(frames[..n]);
      ListenedOnly(frames[..n]);
    }
  }

  lemma DrainShows(s: StreamState, observed: seq<L.Rows>, pushed: seq<Frame>, start: Emitted)
    requires TodosShown(s, observed) && NoticesShown(s, pushed) && Begun(s, start)
    ensures TodosShown(Drained(s), observed) && NoticesShown(Drained(s), pushed) && Begun(Drained(s), start)
  {
    hide Dedup, Shown, Only;
    ListenedOnly(s.queue);
    OnlySum(s.out, Listened(s.queue), IsTodo);
    OnlySum(s.out, Listened(s.queue), FromListener);
    OnlySum(s.out, Listened(s.queue), MarksRun);
  }

  /** One emission path looking at one snapshot. */
  lemma ShowKeeps(s: StreamState, rows: L.Rows, observed: seq<L.Rows>, pushed: seq<Frame>, start: Emitted)
    requires TodosShown(s, observed) && NoticesShown(s, pushed) && Begun(s, start)
    ensures var m := ShowTodos(s.state, rows);
            var next := Yielded(s.(state := m.st), m.frame);
            TodosShown(next, observed + [rows]) && NoticesShown(next, pushed) && Begun(next, start)
  {
    hide Only, Listened, Dedup, Shown, LastOf;
    var e := Emitted(Harness, TodoChange(rows));
    DedupAppend(observed, rows);
    ShownAppend(Dedup(observed), rows);
    OnlyOne(s.out, e, IsTodo);
    OnlyOne(s.out, e, FromListener);
    OnlyOne(s.out, e, MarksRun);
  }

  lemma DedupAppend(xs: seq<L.Rows>, x: L.Rows)
    ensures Dedup(xs + [x]) == if LastOf(xs) == Some(x) then Dedup(xs) else Dedup(xs) + [x]
    ensures LastOf(xs + [x]) == Some(x)
  {
    assert (xs + [x])[..|xs|] == xs;
  }

  lemma ShownAppend(xs: seq<L.Rows>, x: L.Rows)
    ensures Shown(xs + [x]) == Shown(xs) + [Emitted(Harness, TodoChange(x))]
  {
  }

  lemma MapKeeps(s: StreamState, store: bool, t: Tick, observed: seq<L.Rows>, pushed: seq<Frame>, start: Emitted)
    requires t.Arrives? && t.event.GraphEvent?
    requires TodosShown(s, observed) && NoticesShown(s, pushed) && Begun(s, start)
    ensures var m := MapEvent(s.state, t.event, if store then Some(t.mapped) else None);
            var next := Yielded(s.(state := m.st), m.frame);
            var more := ObservedBy(t, store)[if store then 1 else 0..];
            TodosShown(next, observed + more) && NoticesShown(next, pushed) && Begun(next, start)
  {
    hide Only, Listened, Dedup, Shown, Take, Preview, IsErrorOutput, ShowTodos;
    var e := t.event;
    var m := MapEvent(s.state, e, if store then Some(t.mapped) else None);
    var more := ObservedBy(t, store)[if store then 1 else 0..];
    if e.kind == OnToolEnd && IsTodoTool(e.name) {
      if store {
        assert more == [t.mapped];
        ShowKeeps(s, t.mapped, observed, pushed, start);
      } else if e.parsed.Some? {
        assert more == [e.parsed.value];
        ShowKeeps(s, e.parsed.value, observed, pushed, start);
      } else {
        assert observed + more == observed;
      }
    } else {
      assert more == [] && observed + more == observed;
      assert m.st.lastTodos == s.state.lastTodos;
      OtherFrameKeeps(s.(state := m.st), m.frame, observed, pushed, start);
    }
  }

  lemma OtherFrameKeeps(s: StreamState, frame: Option<Frame>, observed: seq<L.Rows>, pushed: seq<Frame>, start: Emitted)
    requires TodosShown(s, observed) && NoticesShown(s, pushed) && Begun(s, start)
    requires frame.Some? ==> !frame.value.TodoChange? && !frame.value.RunStart? && !frame.value.RunEnd?
    ensures TodosShown(Yielded(s, frame), observed) && NoticesShown(Yielded(s, frame), pushed) && Begun(Yielded(s, frame), start)
  {
    hide Only, Listened, Dedup, Shown;
    if frame.Some? {
      var e := Emitted(Harness, frame.value);
      OnlyOne(s.out, e, IsTodo);
      OnlyOne(s.out, e, FromListener);
      OnlyOne(s.out, e, MarksRun);
    }
  }

  lemma ArrivesShows(s: StreamState, store: bool, t: Tick, observed: seq<L.Rows>, pushed: seq<Frame>, start: Emitted)
    requires t.Arrives?
    requires TodosShown(s, observed) && NoticesShown(s, pushed) && Begun(s, start)
    ensures var next := Arrived(s, store, t);
            TodosShown(next, observed + ObservedBy(t, store)) && NoticesShown(next, pushed) && Begun(next, start)
  {
    hide TodosShown, NoticesShown, Begun, ShowTodos, MapEvent, Drained, Yielded;
    var probed := Probed(s, store, t.probe);
    var obs := if store then observed + [t.probe] else observed;
    if store { ShowKeeps(s, t.probe, observed, pushed, start); }
    DrainShows(probed, obs, pushed, start);
    var looked := ObservedBy(t, store);
    if t.event.Broken? {
      assert observed + looked == obs;
    } else {
      MapKeeps(Drained(probed), store, t, obs, pushed, start);
      assert observed + looked == obs + looked[if store then 1 else 0..];
    }
  }

  lemma QueueShows(s: StreamState, frames: seq<Frame>, observed: seq<L.Rows>, pushed: seq<Frame>, start: Emitted)
    requires TodosShown(s, observed) && NoticesShown(s, pushed) && Begun(s, start)
    requires forall k :: 0 <= k < |frames| ==> frames[k].InvokeStart? || frames[k].InvokeEnd?
    ensures var next := s.(queue := s.queue + frames);
            TodosShown(next, observed) && NoticesShown(next, pushed + frames) && Begun(next, start)
  {
    hide Only, Dedup, Shown;
    assert Listened(s.queue + frames) == Listened(s.queue) + Listened(frames);
    assert Listened(pushed + frames) == Listened(pushed) + Listened(frames);
  }

  lemma LooksOnlyOnArrival(t: Tick, store: bool)
    requires !t.Arrives?
    ensures ObservedBy(t, store) == []
  {
  }

  lemma NoticesAreInvokes(n: Notice)
    ensures forall k :: 0 <= k < |NoticeFrames(n)| ==> NoticeFrames(n)[k].InvokeStart? || NoticeFrames(n)[k].InvokeEnd?
  {
    hide Take;
  }

  lemma StepShows(s: StreamState, store: bool, t: Tick, seen: seq<Tick>, start: Emitted)
    requires Shows(s, seen, store, start)
    ensures Shows(Step(s, store, t), seen + [t], store, start)
  {
    hide TodosShown, NoticesShown, Begun, Arrived, Yielded, NoticeFrames, ObservedBy;
    var seen' := seen + [t];
    assert seen'[..|seen|] == seen;
    assert Observed(seen', store) == Observed(seen, store) + ObservedBy(t, store);
    if !t.Arrives? { LooksOnlyOnArrival(t, store); }
    assert Observed(seen, store) + [] == Observed(seen, store) && Pushed(seen) + [] == Pushed(seen);
    match t {
      case Silence =>
        OtherFrameKeeps(s, Some(KeepAlive), Observed(seen, store), Pushed(seen), start);
      case Push(n) =>
        NoticesAreInvokes(n);
        QueueShows(s, NoticeFrames(n), Observed(seen, store), Pushed(seen), start);
      case Fails(_) =>
      case Arrives(_, _, _) =>
        ArrivesShows(s, store, t, Observed(seen, store), Pushed(seen), start);
    }
  }

  // ---------- whole runs ----------

  lemma {:induction false} TicksShow(s: StreamState, store: bool, ticks: seq<Tick>, seen: seq<Tick>, start: Emitted)
    requires Shows(s, seen, store, start)
    ensures Shows(RunTicks(s, store, ticks).s, seen + Reached(ticks), store, start)
    ensures RunTicks(s, store, ticks).failure.None? <==> Smooth(ticks)
    decreases ticks
  {
    hide Shows, Step, Failure;
    if ticks == [] {
      assert seen + Reached(ticks) == seen;
    } else {
      StepShows(s, store, ticks[0], seen, start);
      if Failure(ticks[0]).None? {
        TicksShow(Step(s, store, ticks[0]), store, ticks[1..], seen + [ticks[0]], start);
        assert seen + [ticks[0]] + Reached(ticks[1..]) == seen + Reached(ticks);
        SmoothStep(ticks);
      }
    }
  }

  lemma SmoothStep(ticks: seq<Tick>)
    requires ticks != []
    ensures Smooth(ticks) <==> Failure(ticks[0]).None? && Smooth(ticks[1..])
  {
    hide Failure;
    forall k | 0 < k < |ticks| ensures ticks[k] == ticks[1..][k - 1] {
    }
  }

  lemma {:induction false} KeptAliveShows(s: StreamState, n: nat, seen: seq<Tick>, store: bool, start: Emitted)
    requires Shows(s, seen, store, start)
    ensures Shows(KeptAlive(s, n), seen, store, start)
  {
    hide Shows, Yielded;
    if n > 0 {
      KeptAliveShows(s, n - 1, seen, store, start);
      YieldShows(KeptAlive(s, n - 1), Some(KeepAlive), seen, store, start);
    }
  }

  lemma FlagsDoNotShow(s: StreamState, pending: bool, guarded: bool, seen: seq<Tick>, store: bool, start: Emitted)
    requires Shows(s, seen, store, start)
    ensures Shows(s.(pending := pending, guarded := guarded), seen, store, start)
  {
    hide Only, Observed, Pushed, Dedup, Shown, Listened;
  }

  lemma AskedShows(s: StreamState, ask: string, n: nat, seen: seq<Tick>, store: bool, start: Emitted)
    requires Shows(s, seen, store, start)
    ensures Shows(Asked(s, ask, n), seen, store, start)
  {
    hide Shows, Yielded, KeptAlive;
    var s1 := Yielded(s.(pending := true), Some(InputRequired(ask)));
    FlagsDoNotShow(s, true, s.guarded, seen, store, start);
    YieldShows(s.(pending := true), Some(InputRequired(ask)), seen, store, start);
    FlagsDoNotShow(s1, s1.pending, true, seen, store, start);
    var s2 := KeptAlive(s1.(guarded := true), n);
    KeptAliveShows(s1.(guarded := true), n, seen, store, start);
    FlagsDoNotShow(s2, false, false, seen, store, start);
  }

  /** No exception reached the generator, and it met no interrupt it could not serve. If reading the graph's
      state fails, it does not learn of an interrupt. */
  predicate Clean(run: GraphRun) {
    Smooth(run.ticks)
    && match run case Last(_, ending) => ending.Finished? || ending.LookupFailed? case Answered(_, _, _, rest) => Clean(rest)
  }

  lemma {:induction false} GraphShows(s: StreamState, store: bool, run: GraphRun, seen: seq<Tick>, start: Emitted)
    requires Shows(s, seen, store, start)
    ensures var o := RunGraph(s, store, run);
            && Shows(o.s, seen + ReachedIn(run), store, start)
            && (o.success <==> Clean(run))
    decreases run
  {
    hide Shows, RunTicks, Asked, Reached, Smooth;
    TicksShow(s, store, run.ticks, seen, start);
    var t, seen' := RunTicks(s, store, run.ticks), seen + Reached(run.ticks);
    assert Reached(run.ticks) + [] == Reached(run.ticks);
    if t.failure.None? {
      match run
      case Last(_, ending) =>
        if ending.AskTimedOut? { AskedShows(t.s, ending.ask, ending.keepAlives, seen', store, start); }
        FlagsDoNotShow(t.s, true, t.s.guarded, seen', store, start);
      case Answered(_, ask, n, rest) =>
        AskedShows(t.s, ask, n, seen', store, start);
        GraphShows(Asked(t.s, ask, n), store, rest, seen', start);
        assert seen' + ReachedIn(rest) == seen + ReachedIn(run);
    }
  }

  lemma OpenedShows(script: Script)
    ensures Shows(Opened(script), [], script.store, Opened(script).out[0])
  {
    var start := Opened(script).out[0];
    assert Opened(script).out == [] + [start] && Initial().out == [];
    OnlyOne([], start, IsTodo);
    OnlyOne([], start, FromListener);
    OnlyOne([], start, MarksRun);
    assert Shown([]) == [] && Listened([]) == [];
  }

  lemma {:induction false} LateAreInvokes(late: seq<Notice>)
    ensures forall k :: 0 <= k < |LateFrames(late)| ==> LateFrames(late)[k].InvokeStart? || LateFrames(late)[k].InvokeEnd?
  {
    hide NoticeFrames;
    if late != [] {
      NoticesAreInvokes(late[|late| - 1]);
      LateAreInvokes(late[..|late| - 1]);
    }
  }

  // ---------- main result ----------

  /** For any graph run, on the normal, exception, timeout and unknown-interrupt paths alike: the todo frames
      are the stutter-free sequence of snapshots seen on both paths together; the listener's frames appear once
      each, in the order pushed; the first frame is the run's start and the last its end, with no other of
      either; and the end reports success exactly if no exception and no unserved interrupt was met. */
  lemma StreamIsFaithful(script: Script)
    ensures var out, seen := Stream(script), ReachedIn(script.run);
            && Only(out, IsTodo) == Shown(Dedup(Observed(seen, script.store)))
            && Only(out, FromListener) == Listened(Pushed(seen) + LateFrames(script.late))
            && |out| >= 2
            && out[0].frame.RunStart? && out[|out| - 1].frame.RunEnd?
            && Only(out, MarksRun) == [out[0], out[|out| - 1]]
            && (out[|out| - 1].frame.success <==> Clean(script.run))
  {
    hide Only, Dedup, Shown, Observed, Pushed, LateFrames, Listened, RunGraph, ReachedIn, Clean, Take;
    var start := Opened(script).out[0];
    var seen := [] + ReachedIn(script.run);
    OpenedShows(script);
    GraphShows(Opened(script), script.store, script.run, [], start);
    assert seen == ReachedIn(script.run);
    var o := RunGraph(Opened(script), script.store, script.run);
    var late := LateFrames(script.late);
    var s := o.s.(queue := o.s.queue + late);
    var pushed := Pushed(seen) + late;
    LateAreInvokes(script.late);
    QueueShows(o.s, late, Observed(seen, script.store), Pushed(seen), start);
    DrainShows(s, Observed(seen, script.store), pushed, start);
    var end := Emitted(Harness, Closing(script, o));
    OnlyOne(Drained(s).out, end, IsTodo);
    OnlyOne(Drained(s).out, end, FromListener);
    OnlyOne(Drained(s).out, end, MarksRun);
    NoneListened();
  }

  lemma NoneListened()
    ensures Listened([]) == []
  {
  }

  /** Where the run stopped, if no exception came first. */
  function StoppedAt(run: GraphRun): Option<Ending> {
    if !Smooth(run.ticks) then None
    else match run case Last(_, ending) => Some(ending) case Answered(_, _, _, rest) => StoppedAt(rest)
  }

  /** An interrupt was waiting there and got no answer. */
  predicate Unserved(e: Ending) {
    match e
    case Finished => false
    case LookupFailed(interrupted) => interrupted
    case UnknownInterrupt(_) => true
    case AskTimedOut(_, _) => true
    case AskMalformed(_) => true
  }

  lemma {:induction false} CleanMeans(run: GraphRun)
    ensures Clean(run) <==> StoppedAt(run).Some? && (StoppedAt(run).value.Finished? || StoppedAt(run).value.LookupFailed?)
    decreases run
  {
    hide Smooth;
    if run.Answered? { CleanMeans(run.rest); }
  }

  /** A stream reports success over an interrupt that got no answer exactly if reading the graph's state failed
      while that interrupt was waiting. */
  lemma SuccessOverInterruptIff(script: Script)
    ensures var out, stop := Stream(script), StoppedAt(script.run);
            && out != [] && out[|out| - 1].frame.RunEnd?
            && (out[|out| - 1].frame.success && stop.Some? && Unserved(stop.value) <==> stop == Some(LookupFailed(true)))
  {
    hide Stream, Smooth, Only, Observed, Pushed, Dedup, Shown, ReachedIn, Clean, StoppedAt;
    StreamIsFaithful(script);
    CleanMeans(script.run);
  }

  // ---------- at every moment ----------

  /** The state after the first `n` ticks of the run. */
  function StateUpto(s: StreamState, store: bool, run: GraphRun, n: nat): StreamState
    requires n <= |ReachedIn(run)|
    decreases run
  {
    ReachedFits(run.ticks);
    if n <= |Reached(run.ticks)| then RunTicks(s, store, run.ticks[..n]).s
    else StateUpto(Asked(RunTicks(s, store, run.ticks).s, run.ask, run.keepAlives), store, run.rest, n - |Reached(run.ticks)|)
  }

  lemma {:induction false} ReachedFits(ticks: seq<Tick>)
    ensures Reached(ticks) <= ticks
    ensures Smooth(ticks) ==> Reached(ticks) == ticks
  {
    if ticks != [] {
      SmoothStep(ticks);
      ReachedFits(ticks[1..]);
    }
  }

  lemma {:induction false} ReachedOfPrefix(ticks: seq<Tick>, n: nat)
    requires n <= |Reached(ticks)| <= |ticks|
    ensures Reached(ticks[..n]) == Reached(ticks)[..n]
  {
    hide Failure;
    if n > 0 {
      ReachedFits(ticks[1..]);
      assert ticks[..n][1..] == ticks[1..][..n - 1];
      if Failure(ticks[0]).None? {
        ReachedOfPrefix(ticks[1..], n - 1);
      }
    }
  }

  lemma StepGrows(s: StreamState, store: bool, t: Tick)
    ensures s.out <= Step(s, store, t).out
  {
    hide MapEvent, ShowTodos, NoticeFrames, Listened;
  }

  lemma {:induction false} TicksGrow(s: StreamState, store: bool, ticks: seq<Tick>)
    ensures s.out <= RunTicks(s, store, ticks).s.out
    decreases ticks
  {
    hide Step, Failure;
    if ticks != [] {
      StepGrows(s, store, ticks[0]);
      TicksGrow(Step(s, store, ticks[0]), store, ticks[1..]);
    }
  }

  lemma {:induction false} PrefixGrows(s: StreamState, store: bool, ticks: seq<Tick>, n: nat)
    requires n <= |ticks|
    ensures RunTicks(s, store, ticks[..n]).s.out <= RunTicks(s, store, ticks).s.out
    decreases ticks
  {
    hide Step, Failure;
    if n == 0 {
      TicksGrow(s, store, ticks);
    } else {
      assert ticks[..n][1..] == ticks[1..][..n - 1];
      PrefixGrows(Step(s, store, ticks[0]), store, ticks[1..], n - 1);
    }
  }

  lemma {:induction false} KeptAliveGrows(s: StreamState, n: nat)
    ensures s.out <= KeptAlive(s, n).out
  {
    if n > 0 { KeptAliveGrows(s, n - 1); }
  }

  lemma AskedGrows(s: StreamState, ask: string, n: nat)
    ensures s.out <= Asked(s, ask, n).out
  {
    hide KeptAlive;
    KeptAliveGrows(Yielded(s.(pending := true), Some(InputRequired(ask))).(guarded := true), n);
  }

  lemma {:induction false} GraphGrows(s: StreamState, store: bool, run: GraphRun)
    ensures s.out <= RunGraph(s, store, run).s.out
    decreases run
  {
    hide RunTicks, Asked;
    TicksGrow(s, store, run.ticks);
    var t := RunTicks(s, store, run.ticks);
    if t.failure.None? {
      match run
      case Last(_, ending) => if ending.AskTimedOut? { AskedGrows(t.s, ending.ask, ending.keepAlives); }
      case Answered(_, ask, n, rest) =>
        AskedGrows(t.s, ask, n);
        GraphGrows(Asked(t.s, ask, n), store, rest);
    }
  }

  lemma {:induction false} UptoShows(s: StreamState, store: bool, run: GraphRun, n: nat, seen: seq<Tick>, start: Emitted)
    requires n <= |ReachedIn(run)| && Shows(s, seen, store, start)
    ensures Shows(StateUpto(s, store, run, n), seen + ReachedIn(run)[..n], store, start)
    ensures StateUpto(s, store, run, n).out <= RunGraph(s, store, run).s.out
    decreases run
  {
    hide Shows, RunTicks, Asked, Reached, Smooth;
    var here := Reached(run.ticks);
    ReachedFits(run.ticks);
    TicksShow(s, store, run.ticks, seen, start);
    var t := RunTicks(s, store, run.ticks);
    if n <= |here| {
      TicksShow(s, store, run.ticks[..n], seen, start);
      ReachedOfPrefix(run.ticks, n);
      assert ReachedIn(run)[..n] == here[..n];
      PrefixGrows(s, store, run.ticks, n);
      TicksOutInGraph(s, store, run);
    } else {
      AskedShows(t.s, run.ask, run.keepAlives, seen + here, store, start);
      UptoShows(Asked(t.s, run.ask, run.keepAlives), store, run.rest, n - |here|, seen + here, start);
      assert seen + here + ReachedIn(run.rest)[..n - |here|] == seen + ReachedIn(run)[..n];
    }
  }

  lemma TicksOutInGraph(s: StreamState, store: bool, run: GraphRun)
    ensures RunTicks(s, store, run.ticks).s.out <= RunGraph(s, store, run).s.out
  {
    hide RunTicks, Asked;
    var t := RunTicks(s, store, run.ticks);
    if t.failure.None? {
      match run
      case Last(_, ending) => if ending.AskTimedOut? { AskedGrows(t.s, ending.ask, ending.keepAlives); }
      case Answered(_, ask, n, rest) =>
        AskedGrows(t.s, ask, n);
        GraphGrows(Asked(t.s, ask, n), store, rest);
    }
  }

  lemma StreamExtendsGraph(script: Script)
    ensures RunGraph(Opened(script), script.store, script.run).s.out <= Stream(script)
  {
    hide RunGraph, Listened, LateFrames;
  }

  /** At every moment of the run the viewer is up to date: what has been sent after any number of ticks is a
      prefix of the stream, its todo frames are the stutter-free snapshots seen so far, and the last of them
      is the last snapshot seen. */
  lemma ViewerUpToDate(script: Script, n: nat)
    requires n <= |ReachedIn(script.run)|
    ensures var now := StateUpto(Opened(script), script.store, script.run, n);
            var observed := Observed(ReachedIn(script.run)[..n], script.store);
            && now.out <= Stream(script)
            && Only(now.out, IsTodo) == Shown(Dedup(observed))
            && LastOf(Dedup(observed)) == LastOf(observed)
  {
    hide StateUpto, RunGraph, ReachedIn, Only, Observed, Dedup, Shown, Stream, NoticesShown, Begun;
    OpenedShows(script);
    UptoShows(Opened(script), script.store, script.run, n, [], Opened(script).out[0]);
    assert [] + ReachedIn(script.run)[..n] == ReachedIn(script.run)[..n];
    DedupStutterFree(Observed(ReachedIn(script.run)[..n], script.store));
    StreamExtendsGraph(script);
  }
}
