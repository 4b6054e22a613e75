/** Frames about delegations and tool calls: which role they name, and when calls are shown at all. */
module SseDelegations {
  import opened Prelude
  import opened Text
  import opened SseStream
  import opened SseLaws
  import L = TodoLedger

  predicate Opens(t: Tick) {
    t.Arrives? && t.event.GraphEvent? && t.event.kind == OnToolStart && t.event.name == "task"
  }

  predicate Closes(t: Tick) {
    t.Arrives? && t.event.GraphEvent? && t.event.kind == OnToolEnd && t.event.name == "task"
  }

  function RoleOf(t: Tick): string
    requires Opens(t)
  {
    if t.event.input.Dict? then t.event.input.agentType else "auto"
  }

  function StartCount(seen: seq<Tick>): nat {
    if seen == [] then 0 else StartCount(seen[1..]) + if Opens(seen[0]) then 1 else 0
  }

  function EndCount(seen: seq<Tick>): nat {
    if seen == [] then 0 else EndCount(seen[1..]) + if Closes(seen[0]) then 1 else 0
  }

  /** No delegation is open: from wherever one looks on, as many have ended as begun, or more. */
  ghost predicate AtTopLevel(seen: seq<Tick>) {
    forall k :: 0 <= k <= |seen| ==> StartCount(seen[k..]) <= EndCount(seen[k..])
  }

  // ---------- the mapping state as a function of what was seen ----------

  function DepthAfter(seen: seq<Tick>): nat {
    if seen == [] then 0
    else
      var d, t := DepthAfter(seen[..|seen| - 1]), seen[|seen| - 1];
      if Opens(t) then d + 1 else if Closes(t) then Max(0, d - 1) else d
  }

  function RoleAfter(seen: seq<Tick>): string {
    if seen == [] then "auto"
    else
      var t := seen[|seen| - 1];
      if Opens(t) then RoleOf(t) else RoleAfter(seen[..|seen| - 1])
  }

  /** What the viewer is shown of the tick `t` when `seen` came before it: a delegation's start and end, and
      other tool calls while no delegation is open. Ledger tools have frames of their own. */
  ghost function WorkAt(seen: seq<Tick>, t: Tick): seq<Frame> {
    if !t.Arrives? || !t.event.GraphEvent? then []
    else if Opens(t) then [InvokeStart(RoleOf(t), if t.event.input.Dict? then Take(t.event.input.description, 200) else "")]
    else if Closes(t) then [InvokeEnd(RoleAfter(seen), ReportsDone(t.event))]
    else if t.event.kind == OnOther || t.event.name in {"write_todos", "update_todo"} || !AtTopLevel(seen) then []
    else if t.event.kind == OnToolStart then [CallStart(t.event.name, if t.event.input.Dict? then t.event.input.brief else "")]
    else [CallEnd(t.event.name, !IsErrorOutput(Preview(t.event.content)), Preview(t.event.content))]
  }

  predicate ReportsDone(e: GraphEvent)
    requires e.GraphEvent?
  {
    Contains(e.shown, "COMPLETED") && !Contains(e.shown, "INCOMPLETE")
  }

  ghost function WorkFrames(seen: seq<Tick>): seq<Frame> {
    if seen == [] then [] else WorkFrames(seen[..|seen| - 1]) + WorkAt(seen[..|seen| - 1], seen[|seen| - 1])
  }

  /** Frames about delegations and tool calls that do not come from the listener. */
  predicate ShowsWork(e: Emitted) {
    e.source == Harness && (e.frame.InvokeStart? || e.frame.InvokeEnd? || e.frame.CallStart? || e.frame.CallEnd?)
  }

  function ByHarness(frames: seq<Frame>): seq<Emitted> {
    seq(|frames|, i requires 0 <= i < |frames| => Emitted(Harness, frames[i]))
  }

  // ---------- what the state means ----------

  function Delta(t: Tick): int {
    (if Opens(t) then 1 else 0) - (if Closes(t) then 1 else 0)
  }

  function Surplus(seen: seq<Tick>): int {
    StartCount(seen) - EndCount(seen)
  }

  lemma {:induction false} SurplusAppend(seen: seq<Tick>, t: Tick)
    ensures Surplus(seen + [t]) == Surplus(seen) + Delta(t)
  {
    hide Opens, Closes;
    if seen == [] {
      assert [] + [t] == [t] && [t][1..] == [];
    } else {
      assert (seen + [t])[1..] == seen[1..] + [t];
      SurplusAppend(seen[1..], t);
    }
  }

  lemma SuffixSurplus(seen: seq<Tick>, k: nat)
    requires k < |seen|
    ensures var n := |seen| - 1; Surplus(seen[k..]) == Surplus(seen[..n][k..]) + Delta(seen[n])
  {
    hide Surplus, Delta;
    var n := |seen| - 1;
    assert seen[k..] == seen[..n][k..] + [seen[n]];
    SurplusAppend(seen[..n][k..], seen[n]);
  }

  lemma NothingSurplus()
    ensures Surplus([]) == 0
  {
  }

  lemma DepthStep(seen: seq<Tick>)
    requires seen != []
    ensures DepthAfter(seen) == Max(0, DepthAfter(seen[..|seen| - 1]) + Delta(seen[|seen| - 1]))
  {
  }

  // The depth is the largest surplus of begun over ended delegations, counted back from now.

  lemma {:induction false} DepthIsUpper(seen: seq<Tick>, k: nat)
    requires k <= |seen|
    ensures Surplus(seen[k..]) <= DepthAfter(seen)
    decreases |seen|
  {
    hide Surplus, Delta;
    if k == |seen| {
      assert seen[k..] == [];
      NothingSurplus();
    } else {
      SuffixSurplus(seen, k);
      DepthStep(seen);
      DepthIsUpper(seen[..|seen| - 1], k);
    }
  }

  lemma {:induction false} DepthIsReached(seen: seq<Tick>) returns (k: nat)
    ensures k <= |seen| && Surplus(seen[k..]) == DepthAfter(seen)
    decreases |seen|
  {
    hide Surplus, Delta;
    NothingSurplus();
    if seen == [] {
      k := 0;
      assert seen[0..] == [];
    } else {
      var n := |seen| - 1;
      DepthStep(seen);
      k := DepthIsReached(seen[..n]);
      SuffixSurplus(seen, k);
      if DepthAfter(seen[..n]) + Delta(seen[n]) < 0 {
        k := |seen|;
        assert seen[k..] == [];
      }
    }
  }

  /** The tracked depth is zero exactly when no delegation is open. */
  lemma TopLevelIff(seen: seq<Tick>)
    ensures DepthAfter(seen) == 0 <==> AtTopLevel(seen)
  {
    hide StartCount, EndCount, DepthAfter;
    forall k | 0 <= k <= |seen| ensures Surplus(seen[k..]) <= DepthAfter(seen) {
      DepthIsUpper(seen, k);
    }
    var k := DepthIsReached(seen);
    assert AtTopLevel(seen) ==> StartCount(seen[k..]) <= EndCount(seen[k..]);
    if DepthAfter(seen) == 0 {
      forall k | 0 <= k <= |seen| ensures StartCount(seen[k..]) <= EndCount(seen[k..]) {
        assert Surplus(seen[k..]) <= 0;
      }
    }
  }

  lemma {:induction false} RoleMeans(seen: seq<Tick>, k: nat)
    requires k < |seen| && Opens(seen[k]) && forall j :: k < j < |seen| ==> !Opens(seen[j])
    ensures RoleAfter(seen) == RoleOf(seen[k])
    decreases |seen|
  {
    hide Opens, RoleOf;
    if k < |seen| - 1 {
      RoleMeans(seen[..|seen| - 1], k);
    }
  }

  // ---------- what every step keeps ----------

  ghost predicate Tracks(s: StreamState, seen: seq<Tick>) {
    s.state.depth == DepthAfter(seen) && s.state.lastRole == RoleAfter(seen)
  }

  ghost predicate WorkShown(s: StreamState, seen: seq<Tick>) {
    Tracks(s, seen) && Only(s.out, ShowsWork) == ByHarness(WorkFrames(seen))
  }

  lemma OtherFrameKeepsWork(s: StreamState, frame: Option<Frame>, seen: seq<Tick>)
    requires WorkShown(s, seen)
    requires frame.Some? ==> !ShowsWork(Emitted(Harness, frame.value))
    ensures WorkShown(Yielded(s, frame), seen)
  {
    hide Only, WorkFrames, DepthAfter, RoleAfter;
    if frame.Some? { OnlyOne(s.out, Emitted(Harness, frame.value), ShowsWork); }
  }

  lemma {:induction false} ListenerShowsNoWork(frames: seq<Frame>)
    ensures Only(Listened(frames), ShowsWork) == []
  {
    if frames != [] {
      assert Listened(frames)[..|frames| - 1] == Listened(frames[..|frames| - 1]);
      ListenerShowsNoWork(frames[..|frames| - 1]);
    }
  }

  lemma DrainKeepsWork(s: StreamState, seen: seq<Tick>)
    requires WorkShown(s, seen)
    ensures WorkShown(Drained(s), seen)
  {
    hide Only, WorkFrames, DepthAfter, RoleAfter;
    ListenerShowsNoWork(s.queue);
    OnlySum(s.out, Listened(s.queue), ShowsWork);
  }

  lemma ProbeKeepsWork(s: StreamState, store: bool, rows: L.Rows, seen: seq<Tick>)
    requires WorkShown(s, seen)
    ensures WorkShown(Probed(s, store, rows), seen)
  {
    hide Only, WorkFrames, DepthAfter, RoleAfter;
    if store {
      var m := ShowTodos(s.state, rows);
      OtherFrameKeepsWork(s.(state := m.st), m.frame, seen);
    }
  }

  /** The mapping of one event, in terms of what was seen before it. */
  lemma MapShowsWork(s: StreamState, seen: seq<Tick>, t: Tick, rows: Option<L.Rows>)
    requires Tracks(s, seen) && t.Arrives? && t.event.GraphEvent?
    ensures var m, work := MapEvent(s.state, t.event, rows), WorkAt(seen, t);
            && (work == [] ==> m.frame.None? || m.frame.value.TodoChange?)
            && (work != [] ==> m.frame.Some? && work == [m.frame.value])
            && m.st.depth == DepthAfter(seen + [t]) && m.st.lastRole == RoleAfter(seen + [t])
  {
    hide AtTopLevel, Preview, IsErrorOutput, Take;
    assert (seen + [t])[..|seen|] == seen;
    TopLevelIff(seen);
  }

  lemma WorkAppend(seen: seq<Tick>, t: Tick)
    ensures WorkFrames(seen + [t]) == WorkFrames(seen) + WorkAt(seen, t)
  {
    hide WorkAt;
    assert (seen + [t])[..|seen|] == seen;
  }

  lemma MapKeepsWork(s: StreamState, seen: seq<Tick>, t: Tick, rows: Option<L.Rows>)
    requires WorkShown(s, seen) && t.Arrives? && t.event.GraphEvent?
    ensures var m := MapEvent(s.state, t.event, rows);
            WorkShown(Yielded(s.(state := m.st), m.frame), seen + [t])
  {
    hide Only, WorkFrames, WorkAt, MapEvent, DepthAfter, RoleAfter;
    var m, work := MapEvent(s.state, t.event, rows), WorkAt(seen, t);
    MapShowsWork(s, seen, t, rows);
    WorkAppend(seen, t);
    if m.frame.Some? { OnlyOne(s.out, Emitted(Harness, m.frame.value), ShowsWork); }
    if work != [] {
      WorkIsWork(seen, t);
      var e := Emitted(Harness, m.frame.value);
      assert work[0] == m.frame.value && ShowsWork(e);
      assert ByHarness(WorkFrames(seen) + work) == ByHarness(WorkFrames(seen)) + [e];
      assert Yielded(s.(state := m.st), m.frame).out == s.out + [e];
    } else {
      assert WorkFrames(seen) + work == WorkFrames(seen);
    }
  }

  lemma WorkIsWork(seen: seq<Tick>, t: Tick)
    ensures forall k :: 0 <= k < |WorkAt(seen, t)| ==> ShowsWork(Emitted(Harness, WorkAt(seen, t)[k]))
  {
    hide AtTopLevel, Preview, IsErrorOutput, Take;
  }

  lemma NoWorkOutsideEvents(seen: seq<Tick>, t: Tick)
    requires !t.Arrives? || !t.event.GraphEvent?
    ensures WorkFrames(seen + [t]) == WorkFrames(seen)
    ensures DepthAfter(seen + [t]) == DepthAfter(seen) && RoleAfter(seen + [t]) == RoleAfter(seen)
  {
    WorkAppend(seen, t);
    assert (seen + [t])[..|seen|] == seen;
  }

  lemma StepShowsWork(s: StreamState, store: bool, t: Tick, seen: seq<Tick>)
    requires WorkShown(s, seen)
    ensures WorkShown(Step(s, store, t), seen + [t])
  {
    hide Only, WorkFrames, WorkAt, MapEvent, DepthAfter, RoleAfter, Probed, Drained, Yielded, NoticeFrames;
    if t.Arrives? {
      ProbeKeepsWork(s, store, t.probe, seen);
      DrainKeepsWork(Probed(s, store, t.probe), seen);
    }
    if t.Arrives? && t.event.GraphEvent? {
      MapKeepsWork(Drained(Probed(s, store, t.probe)), seen, t, if store then Some(t.mapped) else None);
    } else {
      NoWorkOutsideEvents(seen, t);
      OtherFrameKeepsWork(s, Some(KeepAlive), seen);
    }
  }

  // ---------- whole runs ----------

  lemma {:induction false} TicksShowWork(s: StreamState, store: bool, ticks: seq<Tick>, seen: seq<Tick>)
    requires WorkShown(s, seen)
    ensures WorkShown(RunTicks(s, store, ticks).s, seen + Reached(ticks))
    ensures RunTicks(s, store, ticks).failure.None? <==> Smooth(ticks)
    decreases ticks
  {
    hide WorkShown, Step, Failure;
    if ticks == [] {
      assert seen + [] == seen;
    } else {
      StepShowsWork(s, store, ticks[0], seen);
      SmoothStep(ticks);
      if Failure(ticks[0]).None? {
        TicksShowWork(Step(s, store, ticks[0]), store, ticks[1..], seen + [ticks[0]]);
        assert seen + [ticks[0]] + Reached(ticks[1..]) == seen + Reached(ticks);
      }
    }
  }

  lemma {:induction false} KeptAliveShowsWork(s: StreamState, n: nat, seen: seq<Tick>)
    requires WorkShown(s, seen)
    ensures WorkShown(KeptAlive(s, n), seen)
  {
    hide WorkShown, Yielded;
    if n > 0 {
      KeptAliveShowsWork(s, n - 1, seen);
      OtherFrameKeepsWork(KeptAlive(s, n - 1), Some(KeepAlive), seen);
    }
  }

  lemma FlagsShowNoWork(s: StreamState, pending: bool, guarded: bool, seen: seq<Tick>)
    requires WorkShown(s, seen)
    ensures WorkShown(s.(pending := pending, guarded := guarded), seen)
  {
    hide Only, WorkFrames, DepthAfter, RoleAfter;
  }

  lemma AskedShowsWork(s: StreamState, ask: string, n: nat, seen: seq<Tick>)
    requires WorkShown(s, seen)
    ensures WorkShown(Asked(s, ask, n), seen)
  {
    hide WorkShown, Yielded, KeptAlive;
    FlagsShowNoWork(s, true, s.guarded, seen);
    var s1 := Yielded(s.(pending := true), Some(InputRequired(ask)));
    OtherFrameKeepsWork(s.(pending := true), Some(InputRequired(ask)), seen);
    FlagsShowNoWork(s1, s1.pending, true, seen);
    KeptAliveShowsWork(s1.(guarded := true), n, seen);
    FlagsShowNoWork(KeptAlive(s1.(guarded := true), n), false, false, seen);
  }

  lemma {:induction false} GraphShowsWork(s: StreamState, store: bool, run: GraphRun, seen: seq<Tick>)
    requires WorkShown(s, seen)
    ensures WorkShown(RunGraph(s, store, run).s, seen + ReachedIn(run))
    decreases run
  {
    hide WorkShown, RunTicks, Asked, Reached, Smooth;
    TicksShowWork(s, store, run.ticks, seen);
    var t, seen' := RunTicks(s, store, run.ticks), seen + Reached(run.ticks);
    assert Reached(run.ticks) + [] == Reached(run.ticks);
    if t.failure.None? {
      match run
      case Last(_, ending) =>
        if ending.AskTimedOut? { AskedShowsWork(t.s, ending.ask, ending.keepAlives, seen'); }
        FlagsShowNoWork(t.s, true, t.s.guarded, seen');
      case Answered(_, ask, n, rest) =>
        AskedShowsWork(t.s, ask, n, seen');
        GraphShowsWork(Asked(t.s, ask, n), store, rest, seen');
        assert seen' + ReachedIn(rest) == seen + ReachedIn(run);
    }
  }

  lemma OpenedShowsNoWork(script: Script)
    ensures WorkShown(Opened(script), [])
  {
    var start := Opened(script).out[0];
    assert Opened(script).out == [] + [start] && Initial().out == [];
    OnlyOne([], start, ShowsWork);
    assert ByHarness([]) == [];
  }

  // ---------- main results ----------

  /** The stream's frames about delegations and tool calls are those of the ticks the run got to, one after
      another: every start and end of a delegation, and a tool call exactly where no delegation is open. */
  lemma StreamShowsWork(script: Script)
    ensures Only(Stream(script), ShowsWork) == ByHarness(WorkFrames(ReachedIn(script.run)))
  {
    hide Only, WorkFrames, RunGraph, ReachedIn, LateFrames, Tracks, Drained, Yielded, Opened;
    OpenedShowsNoWork(script);
    GraphShowsWork(Opened(script), script.store, script.run, []);
    assert [] + ReachedIn(script.run) == ReachedIn(script.run);
    var o := RunGraph(Opened(script), script.store, script.run);
    EndShowsNoWork(o.s, o.s.queue + LateFrames(script.late), Closing(script, o), ReachedIn(script.run));
  }

  lemma EndShowsNoWork(s: StreamState, queue: seq<Frame>, end: Frame, seen: seq<Tick>)
    requires WorkShown(s, seen) && end.RunEnd?
    ensures WorkShown(Yielded(Drained(s.(queue := queue)), Some(end)), seen)
  {
    hide Only, WorkFrames, DepthAfter, RoleAfter, Drained, Yielded;
    DrainKeepsWork(s.(queue := queue), seen);
    OtherFrameKeepsWork(Drained(s.(queue := queue)), Some(end), seen);
  }

  /** Where the frames of tick number `e` stand among them. */
  lemma {:induction false} WorkPosition(seen: seq<Tick>, e: nat)
    requires e < |seen|
    ensures WorkFrames(seen[..e]) + WorkAt(seen[..e], seen[e]) <= WorkFrames(seen)
  {
    hide WorkAt;
    if e < |seen| - 1 {
      var front := seen[..|seen| - 1];
      assert front[..e] == seen[..e] && front[e] == seen[e];
      WorkPosition(front, e);
    }
  }

  /** The frame shown for the end of a delegation, tick `e` of a run, names the role of the delegation begun
      last, at `m`. So it names the role of its own delegation, begun at `i` under the same run id, if and
      only if the two were given the same role. */
  lemma EndNamesOwnRoleIff(script: Script, i: nat, m: nat, e: nat)
    requires i <= m < e < |ReachedIn(script.run)|
    requires var seen := ReachedIn(script.run);
             && Opens(seen[i]) && Opens(seen[m]) && Closes(seen[e]) && seen[i].event.runId == seen[e].event.runId
             && forall j :: m < j < e ==> !Opens(seen[j])
    ensures var seen, shown := ReachedIn(script.run), Only(Stream(script), ShowsWork);
            var at := |WorkFrames(seen[..e])|;
            && at < |shown| && shown[at].frame == InvokeEnd(RoleOf(seen[m]), ReportsDone(seen[e].event))
            && (shown[at].frame.role == RoleOf(seen[i]) <==> RoleOf(seen[m]) == RoleOf(seen[i]))
  {
    hide Only, WorkFrames, ReachedIn, Stream, RoleOf, RoleAfter, ReportsDone;
    var seen := ReachedIn(script.run);
    StreamShowsWork(script);
    WorkPosition(seen, e);
    RoleMeans(seen[..e], m);
    assert WorkAt(seen[..e], seen[e]) == [InvokeEnd(RoleOf(seen[m]), ReportsDone(seen[e].event))];
    var at := |WorkFrames(seen[..e])|;
    assert (WorkFrames(seen[..e]) + WorkAt(seen[..e], seen[e]))[at] == WorkFrames(seen)[at];
  }

  // ---------- two delegations at once ----------

  function Begin(runId: string, role: string): Tick {
    Arrives(GraphEvent(OnToolStart, "task", runId, Dict("", role, ""), "", "", None), [], [])
  }

  function Finish(runId: string): Tick {
    Arrives(GraphEvent(OnToolEnd, "task", runId, NotADict, "", "", None), [], [])
  }

  /** The model calls `task` twice in one reply, for different roles; the first to begin ends first. */
  function Parallel(first: string, second: string): Script {
    Script("s", "r", false, Last([Begin("1", first), Begin("2", second), Finish("1")], Finished), [], "")
  }

  /** Its end is shown under the other one's role. */
  lemma ParallelEndMisnamed(first: string, second: string)
    requires first != second
    ensures var shown := Only(Stream(Parallel(first, second)), ShowsWork);
            |shown| == 3 && shown[0].frame == InvokeStart(first, "") && shown[1].frame == InvokeStart(second, "")
            && shown[2].frame.InvokeEnd? && shown[2].frame.role == second != first
  {
    hide Only, Stream, WorkAt;
    var script, ticks := Parallel(first, second), [Begin("1", first), Begin("2", second), Finish("1")];
    ParallelReached(first, second);
    StreamShowsWork(script);
    ParallelFrames(first, second);
  }

  lemma ParallelReached(first: string, second: string)
    ensures ReachedIn(Parallel(first, second).run) == [Begin("1", first), Begin("2", second), Finish("1")]
  {
    var ticks := [Begin("1", first), Begin("2", second), Finish("1")];
    assert Smooth(ticks);
    ReachedFits(ticks);
    assert Reached(ticks) + [] == ticks;
  }

  lemma ParallelFrames(first: string, second: string)
    ensures WorkFrames([Begin("1", first), Begin("2", second), Finish("1")])
            == [InvokeStart(first, ""), InvokeStart(second, ""), InvokeEnd(second, false)]
  {
    hide WorkAt, RoleAfter, WorkFrames;
    var a, b, c := Begin("1", first), Begin("2", second), Finish("1");
    WorkAppend([], a);
    WorkAppend([a], b);
    WorkAppend([a, b], c);
    assert [] + [a] == [a] && [a] + [b] == [a, b] && [a, b] + [c] == [a, b, c];
    NoFramesYet();
    WorkOfBegin([], "1", first);
    WorkOfBegin([a], "2", second);
    WorkOfFinish([a, b], "1");
    RoleMeans([a, b], 1);
  }

  // ---------- a delegation interrupted by a question ----------

  /** In every prefix at least as many delegations begin as end. */
  ghost predicate EndsWhatItBegan(seen: seq<Tick>) {
    forall k :: 0 <= k <= |seen| ==> EndCount(seen[..k]) <= StartCount(seen[..k])
  }

  lemma {:induction false} DepthAtLeast(before: seq<Tick>, seen: seq<Tick>)
    ensures DepthAfter(before + seen) >= DepthAfter(before) + Surplus(seen)
    decreases |seen|
  {
    hide Delta, Surplus, DepthAfter;
    if seen == [] {
      assert before + seen == before;
      NothingSurplus();
    } else {
      var n := |seen| - 1;
      assert (before + seen)[..|before + seen| - 1] == before + seen[..n];
      assert seen[..n] + [seen[n]] == seen;
      DepthAtLeast(before, seen[..n]);
      DepthStep(before + seen);
      SurplusAppend(seen[..n], seen[n]);
    }
  }

  predicate IsCall(f: Frame) {
    f.CallStart? || f.CallEnd?
  }

  ghost predicate ShowsNoCall(frames: seq<Frame>) {
    forall k :: 0 <= k < |frames| ==> !IsCall(frames[k])
  }

  lemma NoCallInside(seen: seq<Tick>, t: Tick)
    requires DepthAfter(seen) > 0
    ensures ShowsNoCall(WorkAt(seen, t))
  {
    hide Preview, IsErrorOutput, Take, AtTopLevel;
    TopLevelIff(seen);
  }

  /** What is shown once a delegation is left open: no tool call, as long as every further end has its start. */
  lemma {:induction false} OpenForGood(before: seq<Tick>, seen: seq<Tick>)
    requires DepthAfter(before) > 0 && EndsWhatItBegan(seen)
    ensures WorkFrames(before) <= WorkFrames(before + seen)
    ensures ShowsNoCall(WorkFrames(before + seen)[|WorkFrames(before)|..])
    decreases |seen|
  {
    hide WorkAt, DepthAfter, StartCount, EndCount;
    if seen == [] {
      assert before + seen == before;
    } else {
      var n := |seen| - 1;
      var front := before + seen[..n];
      assert before + seen == front + [seen[n]];
      forall k | 0 <= k <= |seen[..n]| ensures seen[..n][..k] == seen[..k] {
      }
      OpenForGood(before, seen[..n]);
      assert seen[..n] == seen[..n][..n];
      DepthAtLeast(before, seen[..n]);
      assert Surplus(seen[..n]) >= 0;
      NoCallInside(front, seen[n]);
      WorkAppend(front, seen[n]);
      var w := |WorkFrames(before)|;
      assert WorkFrames(before + seen)[w..] == WorkFrames(front)[w..] + WorkAt(front, seen[n]);
    }
  }

  /** The graph asks the user while a delegation is open, and after the answer starts that delegation again, so
      that it begins twice and ends once. From the question on, if every end has its start, no tool call of the
      orchestrator is shown for the rest of the stream. */
  lemma CallsVanishAfterQuestion(script: Script)
    requires script.run.Answered? && Smooth(script.run.ticks)
    requires DepthAfter(script.run.ticks) > 0 && EndsWhatItBegan(ReachedIn(script.run.rest))
    ensures var shown, before := Only(Stream(script), ShowsWork), |WorkFrames(script.run.ticks)|;
            before <= |shown| && forall k :: before <= k < |shown| ==> !IsCall(shown[k].frame)
  {
    hide Only, Stream, WorkFrames, ReachedIn, DepthAfter, Smooth, EndsWhatItBegan;
    var before, rest := script.run.ticks, ReachedIn(script.run.rest);
    StreamShowsWork(script);
    AnsweredReaches(script.run);
    OpenForGood(before, rest);
    var all, w := WorkFrames(before + rest), |WorkFrames(before)|;
    forall k | w <= k < |all| ensures !IsCall(all[k]) {
      assert all[k] == all[w..][k - w];
    }
  }

  lemma AnsweredReaches(run: GraphRun)
    requires run.Answered? && Smooth(run.ticks)
    ensures ReachedIn(run) == run.ticks + ReachedIn(run.rest)
  {
    hide Reached, Smooth;
    ReachedFits(run.ticks);
  }

  function ReadsAFile(runId: string): Tick {
    Arrives(GraphEvent(OnToolStart, "read_file", runId, NotADict, "", "", None), [], [])
  }

  /** A planner asks a question; after the answer it starts again and ends, and the orchestrator reads a file. */
  function AskedInside(role: string, ask: string): Script {
    Script("s", "r", false,
           Answered([Begin("1", role)], ask, 0, Last([Begin("1", role), Finish("1"), ReadsAFile("2")], Finished)), [], "")
  }

  /** The file read is not shown, although no delegation is running any more. */
  lemma ReadNotShown(role: string, ask: string)
    ensures var shown := Only(Stream(AskedInside(role, ask)), ShowsWork);
            && |shown| == 3 && shown[0].frame == InvokeStart(role, "") && shown[1].frame == InvokeStart(role, "")
            && shown[2].frame.InvokeEnd?
  {
    hide Only, Stream, WorkAt;
    AskedInsideReached(role, ask);
    StreamShowsWork(AskedInside(role, ask));
    AskedInsideFrames(role);
  }

  lemma AskedInsideReached(role: string, ask: string)
    ensures ReachedIn(AskedInside(role, ask).run) == [Begin("1", role), Begin("1", role), Finish("1"), ReadsAFile("2")]
  {
    var first, second := [Begin("1", role)], [Begin("1", role), Finish("1"), ReadsAFile("2")];
    assert Smooth(first) && Smooth(second);
    ReachedFits(first);
    ReachedFits(second);
    assert Reached(second) + [] == second;
    assert first + second == [Begin("1", role), Begin("1", role), Finish("1"), ReadsAFile("2")];
  }

  lemma WorkOfBegin(seen: seq<Tick>, runId: string, role: string)
    ensures WorkAt(seen, Begin(runId, role)) == [InvokeStart(role, "")]
  {
    hide AtTopLevel, RoleAfter;
  }

  lemma WorkOfFinish(seen: seq<Tick>, runId: string)
    ensures WorkAt(seen, Finish(runId)) == [InvokeEnd(RoleAfter(seen), false)]
  {
    hide AtTopLevel, RoleAfter;
    assert !Contains("", "COMPLETED");
  }

  lemma WorkOfRead(seen: seq<Tick>, runId: string)
    requires !AtTopLevel(seen)
    ensures WorkAt(seen, ReadsAFile(runId)) == []
  {
    hide AtTopLevel, RoleAfter;
  }

  lemma AskedInsideFrames(role: string)
    ensures WorkFrames([Begin("1", role), Begin("1", role), Finish("1"), ReadsAFile("2")])
            == [InvokeStart(role, ""), InvokeStart(role, ""), InvokeEnd(role, false)]
  {
    hide AtTopLevel, WorkAt, RoleAfter, DepthAfter, WorkFrames;
    var a, c, d := Begin("1", role), Finish("1"), ReadsAFile("2");
    WorkAppend([], a);
    WorkAppend([a], a);
    WorkAppend([a, a], c);
    WorkAppend([a, a, c], d);
    assert [] + [a] == [a] && [a] + [a] == [a, a] && [a, a] + [c] == [a, a, c] && [a, a, c] + [d] == [a, a, c, d];
    NoFramesYet();
    WorkOfBegin([], "1", role);
    WorkOfBegin([a], "1", role);
    WorkOfFinish([a, a], "1");
    RoleMeans([a, a], 1);
    OpenedTwice(a, c);
    TopLevelIff([a, a, c]);
    WorkOfRead([a, a, c], "2");
  }

  lemma NoFramesYet()
    ensures WorkFrames([]) == []
  {
  }

  lemma OpenedTwice(a: Tick, c: Tick)
    requires Opens(a) && Closes(c)
    ensures DepthAfter([a, a, c]) == 1
  {
    hide Opens, Closes;
    NotBoth(a);
    NotBoth(c);
    DepthOne([], a);
    DepthOne([a], a);
    DepthOne([a, a], c);
    assert [] + [a] == [a] && [a] + [a] == [a, a] && [a, a] + [c] == [a, a, c];
  }

  lemma DepthOne(seen: seq<Tick>, t: Tick)
    ensures DepthAfter(seen + [t]) == if Opens(t) then DepthAfter(seen) + 1
                                      else if Closes(t) then Max(0, DepthAfter(seen) - 1) else DepthAfter(seen)
  {
    assert (seen + [t])[..|seen|] == seen;
  }

  lemma NotBoth(t: Tick)
    ensures !(Opens(t) && Closes(t))
  {
  }
}
