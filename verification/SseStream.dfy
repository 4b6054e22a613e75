/** The server-sent event stream of one agent run. Graph events, listener notices, store snapshots and the
    user's reaction to a question come from outside and are arbitrary. */
module SseStream {
  import opened Prelude
  import opened Text
  import L = TodoLedger

  // ---------- what comes in ----------

  datatype ToolInput = NotADict | Dict(description: string, agentType: string, brief: string)

  datatype Kind = OnToolStart | OnToolEnd | OnOther

  /** `runId` ties an end to its start; `content` is the output's own text, `shown` its string form, `parsed`
      the todo list found in it. A `Broken` event makes the mapping raise. */
  datatype GraphEvent =
    | GraphEvent(kind: Kind, name: string, runId: string, input: ToolInput, content: string, shown: string, parsed: Option<L.Rows>)
    | Broken(message: string)

  /** A call of the sub-agent listener by the verify/fix chain. */
  datatype Notice = Notice(role: string, eventType: string, description: string, attempt: nat, success: bool)

  /** What the inner loop waits for. `probe` and `mapped` are the store's rows at its two reads. */
  datatype Tick =
    | Silence
    | Push(notice: Notice)
    | Arrives(event: GraphEvent, probe: L.Rows, mapped: L.Rows)
    | Fails(message: string)

  /** `LookupFailed`: the graph stopped, for an interrupt or for good, and reading its state raised. A payload
      that is no question makes an interrupt unknown. */
  datatype Ending =
    | Finished
    | LookupFailed(interrupted: bool)
    | UnknownInterrupt(kind: string)
    | AskTimedOut(ask: string, keepAlives: nat)
    | AskMalformed(message: string)

  /** A run of the graph: it is resumed after every answered question. */
  datatype GraphRun =
    | Last(ticks: seq<Tick>, ending: Ending)
    | Answered(ticks: seq<Tick>, ask: string, keepAlives: nat, rest: GraphRun)

  /** `store` says that a todo store is at hand; `late` arrives after the graph ended. */
  datatype Script = Script(session: string, request: string, store: bool, run: GraphRun, late: seq<Notice>, response: string)

  // ---------- what goes out ----------

  datatype Frame =
    | RunStart(session: string, request: string)
    | RunEnd(session: string, success: bool, response: string, error: Option<string>)
    | InvokeStart(role: string, description: string)
    | InvokeEnd(role: string, success: bool)
    | CallStart(tool: string, brief: string)
    | CallEnd(tool: string, success: bool, preview: string)
    | TodoChange(todos: L.Rows)
    | InputRequired(ask: string)
    | KeepAlive

  datatype Source = Harness | Listener

  /** A frame with the part of the program that made it. */
  datatype Emitted = Emitted(source: Source, frame: Frame)

  function Take(s: string, n: nat): string {
    if |s| > n then s[..n] else s
  }

  function Preview(content: string): string {
    var s := Strip(content);
    Take(s, 200) + if |s| > 200 then "..." else ""
  }

  predicate IsErrorOutput(preview: string) {
    Contains(Take(Lower(preview), 50), "error")
  }

  // ---------- the event mapping ----------

  datatype MapState = MapState(depth: nat, lastRole: string, lastTodos: Option<L.Rows>)

  datatype Mapped = Mapped(st: MapState, frame: Option<Frame>)

  /** Both emission paths show a snapshot only if it differs from the one shown last. */
  function ShowTodos(st: MapState, todos: L.Rows): Mapped {
    if st.lastTodos == Some(todos) then Mapped(st, None)
    else Mapped(st.(lastTodos := Some(todos)), Some(TodoChange(todos)))
  }

  predicate IsTodoTool(name: string) {
    name == "write_todos" || name == "update_todo"
  }

  function MapEvent(st: MapState, e: GraphEvent, store: Option<L.Rows>): Mapped
    requires e.GraphEvent?
  {
    if e.kind == OnToolStart && e.name == "task" then
      var agentType := if e.input.Dict? then e.input.agentType else "auto";
      Mapped(MapState(st.depth + 1, agentType, st.lastTodos),
             Some(InvokeStart(agentType, if e.input.Dict? then Take(e.input.description, 200) else "")))
    else if e.kind == OnToolEnd && e.name == "task" then
      Mapped(st.(depth := Max(0, st.depth - 1)),
             Some(InvokeEnd(st.lastRole, Contains(e.shown, "COMPLETED") && !Contains(e.shown, "INCOMPLETE"))))
    else if e.kind == OnToolStart && IsTodoTool(e.name) then Mapped(st, None)
    else if e.kind == OnToolEnd && IsTodoTool(e.name) then
      var todos := if store.Some? then store else e.parsed;
      if todos.None? then Mapped(st, None) else ShowTodos(st, todos.value)
    else if st.depth > 0 then Mapped(st, None)
    else
      match e.kind
      case OnToolStart => Mapped(st, Some(CallStart(e.name, if e.input.Dict? then e.input.brief else "")))
      case OnToolEnd => Mapped(st, Some(CallEnd(e.name, !IsErrorOutput(Preview(e.content)), Preview(e.content))))
      case OnOther => Mapped(st, None)
  }

  function NoticeFrames(n: Notice): seq<Frame> {
    if n.eventType == "start" then
      var described := if n.attempt > 0 then "[auto-chain attempt " + NatText(n.attempt) + "] " + n.description else n.description;
      [InvokeStart(n.role, Take(described, 200))]
    else if n.eventType == "end" then [InvokeEnd(n.role, n.success)]
    else []
  }

  // ---------- the stream ----------

  /** `pending`: a question's future is registered. `guarded`: inside the block that unregisters it whatever
      happens. `leaks[k]` says whether closing the generator at its k-th frame leaves a future registered. */
  datatype StreamState = StreamState(
    state: MapState,
    queue: seq<Frame>,
    out: seq<Emitted>,
    pending: bool,
    guarded: bool,
    leaks: seq<bool>)

  predicate Leaks(s: StreamState) {
    s.pending && !s.guarded
  }

  function Yielded(s: StreamState, frame: Option<Frame>): StreamState {
    if frame.Some? then s.(out := s.out + [Emitted(Harness, frame.value)], leaks := s.leaks + [Leaks(s)]) else s
  }

  function Listened(frames: seq<Frame>): seq<Emitted> {
    seq(|frames|, i requires 0 <= i < |frames| => Emitted(Listener, frames[i]))
  }

  function Copies(n: nat, b: bool): seq<bool> {
    seq(n, _ => b)
  }

  function Drained(s: StreamState): StreamState {
    s.(queue := [], out := s.out + Listened(s.queue), leaks := s.leaks + Copies(|s.queue|, Leaks(s)))
  }

  function Probed(s: StreamState, store: bool, rows: L.Rows): StreamState {
    if !store then s
    else
      var m := ShowTodos(s.state, rows);
      Yielded(s.(state := m.st), m.frame)
  }

  function Arrived(s: StreamState, store: bool, t: Tick): StreamState
    requires t.Arrives?
  {
    var s1 := Drained(Probed(s, store, t.probe));
    if t.event.Broken? then s1
    else
      var m := MapEvent(s1.state, t.event, if store then Some(t.mapped) else None);
      Yielded(s1.(state := m.st), m.frame)
  }

  function Step(s: StreamState, store: bool, t: Tick): StreamState {
    match t
    case Silence => Yielded(s, Some(KeepAlive))
    case Push(n) => s.(queue := s.queue + NoticeFrames(n))
    case Arrives(_, _, _) => Arrived(s, store, t)
    case Fails(_) => s
  }

  function Failure(t: Tick): Option<string> {
    match t
    case Fails(message) => Some(message)
    case Arrives(Broken(message), _, _) => Some(message)
    case _ => None
  }

  datatype Ticked = Ticked(s: StreamState, failure: Option<string>)

  function RunTicks(s: StreamState, store: bool, ticks: seq<Tick>): Ticked
    decreases ticks
  {
    if ticks == [] then Ticked(s, None)
    else
      var s1 := Step(s, store, ticks[0]);
      if Failure(ticks[0]).Some? then Ticked(s1, Failure(ticks[0])) else RunTicks(s1, store, ticks[1..])
  }

  function KeptAlive(s: StreamState, n: nat): StreamState {
    if n == 0 then s else Yielded(KeptAlive(s, n - 1), Some(KeepAlive))
  }

  function Asked(s: StreamState, ask: string, keepAlives: nat): StreamState {
    KeptAlive(Yielded(s.(pending := true), Some(InputRequired(ask))).(guarded := true), keepAlives)
      .(pending := false, guarded := false)
  }

  datatype Outcome = Outcome(s: StreamState, success: bool, error: string)

  function Concluded(s: StreamState, ending: Ending): Outcome {
    match ending
    case Finished => Outcome(s, true, "")
    case LookupFailed(_) => Outcome(s, true, "")
    case UnknownInterrupt(kind) => Outcome(s, false, "unhandled interrupt: " + kind)
    case AskTimedOut(ask, keepAlives) => Outcome(Asked(s, ask, keepAlives), false, "hitl timeout (5min)")
    case AskMalformed(message) => Outcome(s.(pending := true), false, message)
  }

  function RunGraph(s: StreamState, store: bool, run: GraphRun): Outcome
    decreases run
  {
    var t := RunTicks(s, store, run.ticks);
    if t.failure.Some? then Outcome(t.s, false, t.failure.value)
    else
      match run
      case Last(_, ending) => Concluded(t.s, ending)
      case Answered(_, ask, keepAlives, rest) => RunGraph(Asked(t.s, ask, keepAlives), store, rest)
  }

  function LateFrames(late: seq<Notice>): seq<Frame> {
    if late == [] then [] else LateFrames(late[..|late| - 1]) + NoticeFrames(late[|late| - 1])
  }

  const REQUEST_LIMIT := 500

  function Initial(): StreamState {
    StreamState(MapState(0, "auto", None), [], [], false, false, [])
  }

  function Opened(script: Script): StreamState {
    Yielded(Initial(), Some(RunStart(script.session, Take(script.request, REQUEST_LIMIT))))
  }

  function Closing(script: Script, o: Outcome): Frame {
    RunEnd(script.session, o.success, script.response, if o.success then None else Some(o.error))
  }

  function Closed(script: Script, o: Outcome): StreamState {
    Yielded(Drained(o.s.(queue := o.s.queue + LateFrames(script.late))), Some(Closing(script, o)))
  }

  /** The generator read to its end. */
  function Transcript(script: Script): StreamState {
    Closed(script, RunGraph(Opened(script), script.store, script.run))
  }

  /** Everything `stream_agent_events` yields. */
  function Stream(script: Script): seq<Emitted> {
    Transcript(script).out
  }

  // ---------- the generator ----------

  class EventStream {
    const store: bool
    var depth: nat
    var lastRole: string
    var lastTodos: Option<L.Rows>
    var extraFrames: seq<Frame>
    var out: seq<Emitted>
    var pending: bool
    ghost var guarded: bool
    ghost var leaks: seq<bool>

    ghost function View(): StreamState
      reads this
    {
      StreamState(MapState(depth, lastRole, lastTodos), extraFrames, out, pending, guarded, leaks)
    }

    constructor (store: bool)
      ensures this.store == store && View() == Initial()
    {
      this.store := store;
      depth, lastRole, lastTodos := 0, "auto", None;
      extraFrames, out, pending := [], [], false;
      guarded, leaks := false, [];
    }

    method Yield(frame: Option<Frame>)
      modifies this`out, this`leaks
      ensures View() == Yielded(old(View()), frame)
    {
      if frame.Some? {
        out := out + [Emitted(Harness, frame.value)];
        leaks := leaks + [pending && !guarded];
      }
    }

    /** `_todo_change_frame_if_changed`. */
    method TodoChangeFrameIfChanged(todos: L.Rows) returns (frame: Option<Frame>)
      modifies this`lastTodos
      ensures View() == old(View()).(state := ShowTodos(old(View()).state, todos).st)
      ensures frame == ShowTodos(old(View()).state, todos).frame
    {
      if lastTodos == Some(todos) {
        return None;
      }
      lastTodos := Some(todos);
      frame := Some(TodoChange(todos));
    }

    /** `_map_langgraph_event`. */
    method MapLanggraphEvent(e: GraphEvent, rows: Option<L.Rows>) returns (frame: Option<Frame>)
      requires e.GraphEvent?
      modifies this`depth, this`lastRole, this`lastTodos
      ensures View() == old(View()).(state := MapEvent(old(View()).state, e, rows).st)
      ensures frame == MapEvent(old(View()).state, e, rows).frame
    {
      hide Contains, Preview, IsErrorOutput;
      frame := None;
      if e.kind == OnToolStart && e.name == "task" {
        depth := depth + 1;
        var description := "";
        lastRole := "auto";
        if e.input.Dict? {
          description, lastRole := e.input.description, e.input.agentType;
        }
        return Some(InvokeStart(lastRole, Take(description, 200)));
      }
      if e.kind == OnToolEnd && e.name == "task" {
        depth := Max(0, depth - 1);
        return Some(InvokeEnd(lastRole, Contains(e.shown, "COMPLETED") && !Contains(e.shown, "INCOMPLETE")));
      }
      if e.kind == OnToolStart && IsTodoTool(e.name) {
        return;
      }
      if e.kind == OnToolEnd && IsTodoTool(e.name) {
        var todos := if rows.Some? then rows else e.parsed;
        if todos.Some? {
          frame := TodoChangeFrameIfChanged(todos.value);
        }
        return;
      }
      if depth > 0 {
        return;
      }
      if e.kind == OnToolStart {
        frame := Some(CallStart(e.name, if e.input.Dict? then e.input.brief else ""));
      } else if e.kind == OnToolEnd {
        var preview := Preview(e.content);
        frame := Some(CallEnd(e.name, !IsErrorOutput(preview), preview));
      }
    }

    /** The listener registered with the task tool. */
    method Notify(n: Notice)
      modifies this`extraFrames
      ensures View() == old(View()).(queue := old(View()).queue + NoticeFrames(n))
    {
      extraFrames := extraFrames + NoticeFrames(n);
    }

    method Drain()
      modifies this`extraFrames, this`out, this`leaks
      ensures View() == Drained(old(View()))
    {
      ghost var before, frames, flags, leak := out, extraFrames, leaks, pending && !guarded;
      ghost var n := 0;
      while extraFrames != []
        invariant n <= |frames| && extraFrames == frames[n..]
        invariant out == before + Listened(frames[..n]) && leaks == flags + Copies(n, leak)
        decreases |extraFrames|
      {
        assert Listened(frames[..n + 1]) == Listened(frames[..n]) + [Emitted(Listener, frames[n])];
        assert Copies(n + 1, leak) == Copies(n, leak) + [leak];
        out := out + [Emitted(Listener, extraFrames[0])];
        leaks := leaks + [leak];
        extraFrames := extraFrames[1..];
        n := n + 1;
      }
      assert frames[..n] == frames;
    }

    /** One event taken from the queue; `None` if its mapping went through. */
    method Handle(t: Tick) returns (failure: Option<string>)
      requires t.Arrives?
      modifies this`depth, this`lastRole, this`lastTodos, this`extraFrames, this`out, this`leaks
      ensures View() == Step(old(View()), store, t)
      ensures failure == Failure(t)
    {
      hide MapEvent, ShowTodos, Listened;
      if store {
        var diff := TodoChangeFrameIfChanged(t.probe);
        Yield(diff);
      }
      Drain();
      if t.event.Broken? {
        return Some(t.event.message);
      }
      var frame := MapLanggraphEvent(t.event, if store then Some(t.mapped) else None);
      Yield(frame);
      failure := None;
    }

    /** The inner loop, up to the end of the event queue or an exception. */
    method ConsumeEvents(ticks: seq<Tick>) returns (failure: Option<string>)
      modifies this`depth, this`lastRole, this`lastTodos, this`extraFrames, this`out, this`leaks
      ensures Ticked(View(), failure) == RunTicks(old(View()), store, ticks)
    {
      hide Arrived, NoticeFrames, Yielded;
      ghost var whole := RunTicks(View(), store, ticks);
      failure := None;
      for i := 0 to |ticks|
        invariant failure.None? && whole == RunTicks(View(), store, ticks[i..])
      {
        var t := ticks[i];
        assert ticks[i..][0] == t && ticks[i..][1..] == ticks[i + 1..];
        match t {
          case Silence => Yield(Some(KeepAlive));
          case Push(n) => Notify(n);
          case Fails(message) => return Some(message);
          case Arrives(_, _, _) =>
            failure := Handle(t);
            if failure.Some? { return; }
        }
      }
    }

    /** Asks the user and waits, keeping the connection alive. */
    method Ask(ask: string, keepAlives: nat)
      modifies this`out, this`leaks, this`pending, this`guarded
      ensures View() == Asked(old(View()), ask, keepAlives)
    {
      pending := true;
      Yield(Some(InputRequired(ask)));
      guarded := true;
      ghost var asked := View();
      for i := 0 to keepAlives
        invariant View() == KeptAlive(asked, i)
      {
        Yield(Some(KeepAlive));
      }
      pending := false;
      guarded := false;
    }

    /** Read to the end; `leaks` records what closing it earlier would have left behind. */
    method StreamAgentEvents(script: Script)
      requires store == script.store && View() == Initial()
      modifies this
      ensures View() == Transcript(script) && out == Stream(script)
    {
      hide RunTicks, Asked, Take, Listened, LateFrames, Closed;
      Yield(Some(RunStart(script.session, Take(script.request, REQUEST_LIMIT))));
      assert View() == Opened(script);
      ghost var whole := RunGraph(Opened(script), store, script.run);
      var run, success, error, more := script.run, true, "", true;
      while more
        invariant more ==> success && error == "" && whole == RunGraph(View(), store, run)
        invariant !more ==> whole == Outcome(View(), success, error)
        decreases more, run
      {
        var failure := ConsumeEvents(run.ticks);
        if failure.Some? {
          success, error, more := false, failure.value, false;
        } else if run.Answered? {
          Ask(run.ask, run.keepAlives);
          run := run.rest;
        } else {
          more := false;
          match run.ending {
            case Finished =>
            case LookupFailed(_) =>
            case UnknownInterrupt(kind) => success, error := false, "unhandled interrupt: " + kind;
            case AskTimedOut(ask, keepAlives) =>
              Ask(ask, keepAlives);
              success, error := false, "hitl timeout (5min)";
            case AskMalformed(message) =>
              pending := true;
              success, error := false, message;
          }
        }
      }
      Conclude(script, whole, success, error);
    }

    method Conclude(script: Script, ghost o: Outcome, success: bool, error: string)
      requires o == Outcome(View(), success, error)
      modifies this`extraFrames, this`out, this`leaks
      ensures View() == Closed(script, o)
    {
      hide NoticeFrames, Listened;
      ghost var before := View();
      for i := 0 to |script.late|
        invariant View() == before.(queue := before.queue + LateFrames(script.late[..i]))
      {
        assert script.late[..i + 1][..i] == script.late[..i];
        Notify(script.late[i]);
      }
      assert script.late[..|script.late|] == script.late;
      Drain();
      Yield(Some(RunEnd(script.session, success, script.response, if success then None else Some(error))));
    }
  }
}
