/** The `task` tool: hooks around every SubAgent call, the automatic verify/fix chain and the fixer cap.
    What a SubAgent does is an arbitrary `Invocation`. */
module Delegation {
  import opened Prelude
  import opened Text
  import opened TaskId
  import opened VerifierReport
  import L = TodoLedger

  datatype Role = Planner | Coder | Reviewer | Fixer | Researcher | Verifier

  function RoleText(r: Role): string {
    match r
    case Planner => "planner" case Coder => "coder" case Reviewer => "reviewer"
    case Fixer => "fixer" case Researcher => "researcher" case Verifier => "verifier"
  }

  /** One SubAgent call: it raises (before or after its start hook ran) or returns. `ops` is what the
      SubAgent itself did to the ledger; only the planner has a ledger tool. */
  datatype Invocation =
    | Raises(started: bool, message: string, ops: seq<L.Op>)
    | Returns(tag: StatusTag, result: RoleResult, duration: string, ops: seq<L.Op>)

  predicate Started(inv: Invocation) {
    inv.Returns? || inv.started
  }

  /** The ledger and the two closure variables of the tool. */
  datatype ToolState = ToolState(rows: L.Rows, attempts: map<string, nat>, evidence: string)

  const GATE_CAP_KEY := "__gate__"

  function CapKey(id: Option<string>): string {
    if id.Some? then id.value else GATE_CAP_KEY
  }

  function Attempts(st: ToolState, key: string): nat {
    if key in st.attempts then st.attempts[key] else 0
  }

  // ---------- hooks ----------

  function AdvanceFor(rows: L.Rows, id: Option<string>, s: L.Status): L.Rows {
    if id.Some? then L.Advanced(rows, id.value, s) else rows
  }

  function OnStart(st: ToolState, role: Role, description: string): ToolState {
    var id := ExtractTaskId(description);
    var key := CapKey(id);
    st.(rows := AdvanceFor(st.rows, id, L.InProgress),
        attempts := if role == Fixer then st.attempts[key := Attempts(st, key) + 1] else st.attempts)
  }

  /** The end hook completes the row: never for a coder, for a verifier only if its executes succeeded. */
  predicate CompletesRow(role: Role, tag: StatusTag, result: RoleResult) {
    tag == Completed && role != Coder && (role == Verifier ==> VerifierSignalsSuccess(result))
  }

  function OnEnd(st: ToolState, role: Role, description: string, tag: StatusTag, result: RoleResult): ToolState {
    ToolState(
      if CompletesRow(role, tag, result) then AdvanceFor(st.rows, ExtractTaskId(description), L.Completed) else st.rows,
      st.attempts,
      if role == Verifier && (tag == Completed || tag == Incomplete) then FormatVerifierOutput(result) else st.evidence)
  }

  function OwnOps(st: ToolState, role: Role, ops: seq<L.Op>): ToolState {
    if role == Planner then st.(rows := L.ApplyAll(st.rows, ops)) else st
  }

  /** The state after one inner call. */
  function AfterInner(st: ToolState, role: Role, description: string, inv: Invocation): ToolState {
    match inv
    case Raises(started, _, ops) => if started then OwnOps(OnStart(st, role, description), role, ops) else st
    case Returns(tag, result, _, ops) => OnEnd(OwnOps(OnStart(st, role, description), role, ops), role, description, tag, result)
  }

  function InnerText(role: Role, inv: Invocation): string
    requires inv.Returns?
  {
    FormatResult(RoleText(role), inv.result, inv.tag, inv.duration)
  }

  const COMPLETED_MARK := "[Task COMPLETED"

  // ---------- the chain ----------

  datatype CallRecord = CallRecord(role: Role, id: string, description: string)

  datatype Event = Start(role: Role, attempt: nat) | Ended(role: Role, attempt: nat, success: bool)

  /** What the chain was asked to check: the coder's description and report, and the coder's call id. */
  datatype ChainTask = ChainTask(description: string, result: string, callId: string)

  datatype ChainRun = ChainRun(
    st: ToolState,
    passedAt: Option<nat>,
    lastText: string,
    calls: seq<CallRecord>,
    events: seq<Event>,
    log: seq<string>)

  function VerifierId(t: ChainTask, attempt: nat): string {
    t.callId + "-auto-verify-" + NatText(attempt)
  }

  function FixerId(t: ChainTask, attempt: nat): string {
    t.callId + "-auto-fix-" + NatText(attempt)
  }

  function Preceded(calls: seq<CallRecord>, events: seq<Event>, log: seq<string>, r: ChainRun): ChainRun {
    r.(calls := calls + r.calls, events := events + r.events, log := log + r.log)
  }

  const EMPTY_TEXT := ""

  function GaveUp(st: ToolState): ChainRun {
    ChainRun(st, None, EMPTY_TEXT, [], [], [])
  }

  function VerifierEvents(attempt: nat, success: bool): seq<Event> {
    [Start(Verifier, attempt + 1), Ended(Verifier, attempt + 1, success)]
  }

  function FixerEvents(attempt: nat, success: bool): seq<Event> {
    [Start(Fixer, attempt + 1), Ended(Fixer, attempt + 1, success)]
  }

  function VerifierEntry(attempt: nat, text: string): string {
    "### auto-verify attempt " + NatText(attempt + 1) + "\n" + text
  }

  function VerifierErrorEntry(attempt: nat, message: string): string {
    "### auto-verify attempt " + NatText(attempt + 1) + " → INVOCATION ERROR\n" + message
  }

  function FixerEntry(attempt: nat, text: string): string {
    "### auto-fix attempt " + NatText(attempt + 1) + "\n" + text
  }

  function FixerErrorEntry(attempt: nat, message: string): string {
    "### auto-fix attempt " + NatText(attempt + 1) + " → INVOCATION ERROR\n" + message
  }

  /** The chain from attempt number `attempt` on; its inner calls number `2 * attempt` (verifier) and
      `2 * attempt + 1` (fixer) are what `oracle` says. */
  function ChainFrom(max: nat, t: ChainTask, oracle: nat -> Invocation, attempt: nat, verifierDescription: string,
                     st: ToolState): ChainRun
    decreases max - attempt
  {
    if attempt >= max then GaveUp(st)
    else
      var v := oracle(2 * attempt);
      var st1 := AfterInner(st, Verifier, verifierDescription, v);
      var vCall := CallRecord(Verifier, VerifierId(t, attempt), verifierDescription);
      match v
      case Raises(_, message, _) =>
        ChainRun(st1, None, EMPTY_TEXT, [vCall], VerifierEvents(attempt, false), [VerifierErrorEntry(attempt, message)])
      case Returns(_, _, _, _) =>
        var text := InnerText(Verifier, v);
        var success := TextPasses(text);
        var vLog := [VerifierEntry(attempt, text)];
        if success then ChainRun(st1, Some(attempt), text, [vCall], VerifierEvents(attempt, true), vLog)
        else if attempt + 1 >= max then ChainRun(st1, None, text, [vCall], VerifierEvents(attempt, false), vLog)
        else
          Preceded([vCall], VerifierEvents(attempt, false), vLog, FixFrom(max, t, oracle, attempt, text, st1))
  }

  function FixFrom(max: nat, t: ChainTask, oracle: nat -> Invocation, attempt: nat, verifierText: string,
                   st: ToolState): ChainRun
    requires attempt + 1 < max
    decreases max - attempt, 0
  {
    var description := FixerDescription(t.description, verifierText);
    var f := oracle(2 * attempt + 1);
    var st1 := AfterInner(st, Fixer, description, f);
    var fCall := CallRecord(Fixer, FixerId(t, attempt), description);
    match f
    case Raises(_, message, _) =>
      ChainRun(st1, None, verifierText, [fCall], FixerEvents(attempt, false), [FixerErrorEntry(attempt, message)])
    case Returns(_, _, _, _) =>
      var text := InnerText(Fixer, f);
      Preceded([fCall], FixerEvents(attempt, Contains(text, COMPLETED_MARK)), [FixerEntry(attempt, text)],
               ChainFrom(max, t, oracle, attempt + 1, AgainDescription(t, text), st1))
  }

  /** The next verifier sees the coder's report followed by the fixer's. */
  function AgainDescription(t: ChainTask, fixerText: string): string {
    VerifierDescription(t.description, t.result + "\n\n## fixer 변경\n" + fixerText)
  }

  function Chain(max: nat, t: ChainTask, oracle: nat -> Invocation, st: ToolState): ChainRun {
    ChainFrom(max, t, oracle, 0, VerifierDescription(t.description, t.result), st)
  }

  // What is already recorded, followed by one more round of the chain.

  lemma PrecededNothing(r: ChainRun)
    ensures Preceded([], [], [], r) == r
  {
    assert [] + r.calls == r.calls && [] + r.events == r.events && [] + r.log == r.log;
  }

  lemma PrecededTwice(calls: seq<CallRecord>, events: seq<Event>, log: seq<string>,
                      c: CallRecord, es: seq<Event>, line: string, r: ChainRun)
    ensures Preceded(calls, events, log, Preceded([c], es, [line], r)) == Preceded(calls + [c], events + es, log + [line], r)
  {
    assert calls + ([c] + r.calls) == calls + [c] + r.calls;
    assert events + (es + r.events) == events + es + r.events;
    assert log + ([line] + r.log) == log + [line] + r.log;
  }

  lemma UnfoldEnd(max: nat, t: ChainTask, oracle: nat -> Invocation, attempt: nat, description: string, st: ToolState,
                  calls: seq<CallRecord>, events: seq<Event>, log: seq<string>)
    requires attempt >= max
    ensures Preceded(calls, events, log, ChainFrom(max, t, oracle, attempt, description, st))
            == ChainRun(st, None, EMPTY_TEXT, calls, events, log)
  {
    assert calls + [] == calls && events + [] == events && log + [] == log;
  }

  lemma UnfoldChain(max: nat, t: ChainTask, oracle: nat -> Invocation, attempt: nat, description: string, st: ToolState,
                    calls: seq<CallRecord>, events: seq<Event>, log: seq<string>)
    requires attempt < max
    ensures var v, st1 := oracle(2 * attempt), AfterInner(st, Verifier, description, oracle(2 * attempt));
            var cs := calls + [CallRecord(Verifier, VerifierId(t, attempt), description)];
            var r := Preceded(calls, events, log, ChainFrom(max, t, oracle, attempt, description, st));
            if v.Raises? then
              r == ChainRun(st1, None, EMPTY_TEXT, cs, events + VerifierEvents(attempt, false),
                            log + [VerifierErrorEntry(attempt, v.message)])
            else
              var text := InnerText(Verifier, v);
              var es, lg := events + VerifierEvents(attempt, TextPasses(text)), log + [VerifierEntry(attempt, text)];
              if TextPasses(text) then r == ChainRun(st1, Some(attempt), text, cs, es, lg)
              else if attempt + 1 >= max then r == ChainRun(st1, None, text, cs, es, lg)
              else r == Preceded(cs, es, lg, FixFrom(max, t, oracle, attempt, text, st1))
  {
    hide AfterInner, TextPasses, InnerText, VerifierId, VerifierEvents, VerifierEntry, VerifierErrorEntry, FixFrom;
    var v, st1 := oracle(2 * attempt), AfterInner(st, Verifier, description, oracle(2 * attempt));
    if v.Returns? && !TextPasses(InnerText(Verifier, v)) && attempt + 1 < max {
      var text := InnerText(Verifier, v);
      PrecededTwice(calls, events, log, CallRecord(Verifier, VerifierId(t, attempt), description),
                    VerifierEvents(attempt, false), VerifierEntry(attempt, text), FixFrom(max, t, oracle, attempt, text, st1));
    }
  }

  lemma UnfoldFix(max: nat, t: ChainTask, oracle: nat -> Invocation, attempt: nat, verifierText: string, st: ToolState,
                  calls: seq<CallRecord>, events: seq<Event>, log: seq<string>)
    requires attempt + 1 < max
    ensures var f, description := oracle(2 * attempt + 1), FixerDescription(t.description, verifierText);
            var st1 := AfterInner(st, Fixer, description, f);
            var cs := calls + [CallRecord(Fixer, FixerId(t, attempt), description)];
            var r := Preceded(calls, events, log, FixFrom(max, t, oracle, attempt, verifierText, st));
            if f.Raises? then
              r == ChainRun(st1, None, verifierText, cs, events + FixerEvents(attempt, false),
                            log + [FixerErrorEntry(attempt, f.message)])
            else
              var text := InnerText(Fixer, f);
              r == Preceded(cs, events + FixerEvents(attempt, Contains(text, COMPLETED_MARK)), log + [FixerEntry(attempt, text)],
                            ChainFrom(max, t, oracle, attempt + 1, AgainDescription(t, text), st1))
  {
    hide AfterInner, InnerText, FixerId, FixerEvents, FixerEntry, FixerErrorEntry, ChainFrom, FixerDescription,
         AgainDescription, Contains;
    var f, description := oracle(2 * attempt + 1), FixerDescription(t.description, verifierText);
    var st1 := AfterInner(st, Fixer, description, f);
    if f.Returns? {
      var text := InnerText(Fixer, f);
      PrecededTwice(calls, events, log, CallRecord(Fixer, FixerId(t, attempt), description),
                    FixerEvents(attempt, Contains(text, COMPLETED_MARK)), FixerEntry(attempt, text),
                    ChainFrom(max, t, oracle, attempt + 1, AgainDescription(t, text), st1));
    }
  }

  const PASSED_MARKER := "[AUTO_VERIFY_PASSED]"
  const FAILED_MARKER := "[AUTO_VERIFY_FAILED]"

  function PassedTitle(max: nat, attempt: nat): string {
    "## ↳ harness auto-verifier " + PASSED_MARKER + " (v22 #2, attempt " + NatText(attempt + 1) + "/" + NatText(max) + ")"
  }

  function FailedTitle(max: nat): string {
    "## ↳ harness auto-verifier " + FAILED_MARKER + " (v22 #2, " + NatText(max) + "회 시도 후 실패 — critic 검토 권장)"
  }

  /** What the orchestrator gets to read. */
  function ChainText(max: nat, t: ChainTask, r: ChainRun): string {
    match r.passedAt
    case Some(attempt) =>
      Join("\n", [t.result, "",
                  PassedTitle(max, attempt),
                  r.lastText])
    case None =>
      Join("\n", [t.result, "",
                  FailedTitle(max),
                  Join("\n\n", r.log)])
  }

  // ---------- the tool ----------

  /** One call of the tool: the resolved role, what the orchestrator wrote, and what the SubAgents do. */
  datatype Task = Task(role: Role, description: string, callId: string, main: Invocation, chain: nat -> Invocation)

  datatype Limits = Limits(fixerCap: nat, verifyAttempts: nat)

  /** `text` is `None` when the inner call raised. `reached` says that a SubAgent was called at all. */
  datatype Outcome = Outcome(st: ToolState, text: Option<string>, reached: bool, chain: Option<ChainRun>)

  const CAP_ADVICE := "이 task 는 사용자 검토가 필요합니다 (자동 수정 한계 도달).\n**다음 pending task 로 진행하세요. 이 task 에 대해 fixer 를 다시 호출하지 마세요** — 같은 무한 루프 발생."

  predicate Capped(lim: Limits, st: ToolState, t: Task) {
    t.role == Fixer && Attempts(st, CapKey(ExtractTaskId(t.description))) >= lim.fixerCap
  }

  function CapLine(lim: Limits, count: nat, id: Option<string>): string {
    "⚠ fixer for " + (if id.Some? then id.value else "<gate-level>") + " hard-capped after "
    + NatText(count) + " attempts (cap=" + NatText(lim.fixerCap) + ")."
  }

  function CapMessage(lim: Limits, count: nat, id: Option<string>): string {
    Join("\n", ["[Task INCOMPLETE — fixer]",
                CapLine(lim, count, id),
                CAP_ADVICE,
                "[Duration: 0.0s]"])
  }

  /** What the SubAgent is actually given. */
  function SentDescription(st: ToolState, t: Task): string {
    if t.role == Fixer && st.evidence != "" then PrependEvidence(t.description, st.evidence) else t.description
  }

  /** The row moves by the markers found in the chain's text. */
  function MarkByText(st: ToolState, description: string, text: string): ToolState {
    var id := ExtractTaskId(description);
    if Contains(text, PASSED_MARKER) then st.(rows := AdvanceFor(st.rows, id, L.Completed))
    else if Contains(text, FAILED_MARKER) then st.(rows := AdvanceFor(st.rows, id, L.VerifyFailed))
    else st
  }

  function RunTask(lim: Limits, st: ToolState, t: Task): Outcome {
    if Capped(lim, st, t) then
      var id := ExtractTaskId(t.description);
      Outcome(st, Some(CapMessage(lim, Attempts(st, CapKey(id)), id)), false, None)
    else
      var sent := SentDescription(st, t);
      var st1 := AfterInner(st, t.role, sent, t.main);
      if t.main.Raises? then Outcome(st1, None, true, None)
      else
        var text := InnerText(t.role, t.main);
        if t.role == Coder && Contains(text, COMPLETED_MARK) then
          var task := ChainTask(sent, text, t.callId);
          var run := Chain(lim.verifyAttempts, task, t.chain, st1);
          var final := ChainText(lim.verifyAttempts, task, run);
          Outcome(MarkByText(run.st, sent, final), Some(final), true, Some(run))
        else Outcome(st1, Some(text), true, None)
  }

  // ---------- the tool as an object ----------

  class TaskTool {
    const lim: Limits
    const store: L.TodoStore
    var attempts: map<string, nat>
    var evidence: string

    function View(): ToolState
      reads this, store
      requires store.Valid()
    {
      ToolState(store.ListItems(), attempts, evidence)
    }

    constructor (lim: Limits, store: L.TodoStore)
      requires store.Valid()
      ensures this.lim == lim && this.store == store && store.Valid()
      ensures View() == ToolState(old(store.ListItems()), map[], "")
    {
      this.lim, this.store := lim, store;
      attempts, evidence := map[], "";
    }

    method Advance(id: Option<string>, status: L.Status)
      requires store.Valid()
      modifies store
      ensures store.Valid() && store.ListItems() == AdvanceFor(old(store.ListItems()), id, status)
    {
      if id.Some? {
        var _ := L.AutoAdvanceTodo(store, id.value, status);
      }
    }

    method StartHook(role: Role, description: string)
      requires store.Valid()
      modifies this, store
      ensures store.Valid() && View() == OnStart(old(View()), role, description)
    {
      var id := ExtractTaskId(description);
      Advance(id, L.InProgress);
      if role == Fixer {
        var key := CapKey(id);
        var count := (if key in attempts then attempts[key] else 0) + 1;
        attempts := attempts[key := count];
      }
    }

    method EndHook(role: Role, description: string, tag: StatusTag, result: RoleResult)
      requires store.Valid()
      modifies this, store
      ensures store.Valid() && View() == OnEnd(old(View()), role, description, tag, result)
    {
      if role == Verifier && (tag == Completed || tag == Incomplete) {
        evidence := FormatVerifierOutput(result);
      }
      if tag != Completed || role == Coder {
        return;
      }
      if role == Verifier && !VerifierSignalsSuccess(result) {
        return;
      }
      Advance(ExtractTaskId(description), L.Completed);
    }

    method ApplyOwnOps(role: Role, ops: seq<L.Op>)
      requires store.Valid()
      modifies store
      ensures store.Valid() && View() == OwnOps(old(View()), role, ops)
    {
      if role != Planner {
        return;
      }
      ghost var before := store.ListItems();
      for i := 0 to |ops|
        invariant store.Valid()
        invariant L.ApplyAll(before, ops) == L.ApplyAll(store.ListItems(), ops[i..])
      {
        assert ops[i..][0] == ops[i] && ops[i..][1..] == ops[i + 1..];
        match ops[i] {
          case WriteTodos(todos) => var _ := L.WriteTodosTool(store, todos);
          case UpdateTodo(id, s) => var _ := L.UpdateTodoTool(store, id, s);
          case AutoAdvance(id, s) => var _ := L.AutoAdvanceTodo(store, id, s);
          case Reset => store.Reset();
        }
      }
    }

    /** The library tool: start hook, SubAgent, end hook. `None` stands for the exception. */
    method InnerFunc(role: Role, description: string, inv: Invocation) returns (text: Option<string>)
      requires store.Valid()
      modifies this, store
      ensures store.Valid() && View() == AfterInner(old(View()), role, description, inv)
      ensures text == if inv.Returns? then Some(InnerText(role, inv)) else None
    {
      hide OnStart, OnEnd, OwnOps, FormatResult;
      match inv {
        case Raises(started, _, ops) =>
          if started {
            StartHook(role, description);
            ApplyOwnOps(role, ops);
          }
          text := None;
        case Returns(tag, result, _, ops) =>
          StartHook(role, description);
          ApplyOwnOps(role, ops);
          EndHook(role, description, tag, result);
          text := Some(InnerText(role, inv));
      }
    }

    method AutoVerifyChain(t: ChainTask, oracle: nat -> Invocation) returns (run: ChainRun)
      requires store.Valid()
      modifies this, store
      ensures store.Valid() && View() == run.st
      ensures run == Chain(lim.verifyAttempts, t, oracle, old(View()))
    {
      hide AfterInner, TextPasses, InnerText, VerifierDescription, FixerDescription, AgainDescription, View;
      hide ChainFrom, FixFrom, Preceded, VerifierEvents, FixerEvents, Contains, VerifierId, FixerId;
      hide VerifierEntry, VerifierErrorEntry, FixerEntry, FixerErrorEntry, L.TodoStore.Valid;
      var max := lim.verifyAttempts;
      var calls: seq<CallRecord>, events: seq<Event>, log: seq<string> := [], [], [];
      var verifierDescription := VerifierDescription(t.description, t.result);
      ghost var whole := ChainFrom(max, t, oracle, 0, verifierDescription, View());
      PrecededNothing(whole);
      var attempt := 0;
      while attempt < max
        invariant store.Valid() && attempt <= max
        invariant whole == Preceded(calls, events, log, ChainFrom(max, t, oracle, attempt, verifierDescription, View()))
        decreases max - attempt
      {
        ghost var st := View();
        UnfoldChain(max, t, oracle, attempt, verifierDescription, st, calls, events, log);
        var v := oracle(2 * attempt);
        var text := InnerFunc(Verifier, verifierDescription, v);
        calls := calls + [CallRecord(Verifier, VerifierId(t, attempt), verifierDescription)];
        if text.None? {
          events := events + VerifierEvents(attempt, false);
          log := log + [VerifierErrorEntry(attempt, v.message)];
          return ChainRun(View(), None, EMPTY_TEXT, calls, events, log);
        }
        var success := TextPasses(text.value);
        events := events + VerifierEvents(attempt, success);
        log := log + [VerifierEntry(attempt, text.value)];
        if success {
          return ChainRun(View(), Some(attempt), text.value, calls, events, log);
        }
        if attempt + 1 >= max {
          return ChainRun(View(), None, text.value, calls, events, log);
        }
        var fixerDescription := FixerDescription(t.description, text.value);
        UnfoldFix(max, t, oracle, attempt, text.value, View(), calls, events, log);
        var f := oracle(2 * attempt + 1);
        var fixed := InnerFunc(Fixer, fixerDescription, f);
        calls := calls + [CallRecord(Fixer, FixerId(t, attempt), fixerDescription)];
        if fixed.None? {
          events := events + FixerEvents(attempt, false);
          log := log + [FixerErrorEntry(attempt, f.message)];
          return ChainRun(View(), None, text.value, calls, events, log);
        }
        events := events + FixerEvents(attempt, Contains(fixed.value, COMPLETED_MARK));
        log := log + [FixerEntry(attempt, fixed.value)];
        verifierDescription := AgainDescription(t, fixed.value);
        attempt := attempt + 1;
      }
      UnfoldEnd(max, t, oracle, attempt, verifierDescription, View(), calls, events, log);
      run := ChainRun(View(), None, EMPTY_TEXT, calls, events, log);
    }

    method RunWrapped(t: Task) returns (text: Option<string>, ghost out: Outcome)
      requires store.Valid()
      modifies this, store
      ensures store.Valid() && View() == out.st && text == out.text
      ensures out == RunTask(lim, old(View()), t)
    {
      hide AfterInner, Chain, ChainText, FormatResult, PrependEvidence, Contains, ExtractTaskId;
      out := RunTask(lim, View(), t);
      if t.role == Fixer {
        var id := ExtractTaskId(t.description);
        var count := Attempts(View(), CapKey(id));
        if count >= lim.fixerCap {
          return Some(CapMessage(lim, count, id)), out;
        }
      }
      var description := t.description;
      if t.role == Fixer && evidence != "" {
        description := PrependEvidence(description, evidence);
      }
      text := InnerFunc(t.role, description, t.main);
      if t.role == Coder && text.Some? && Contains(text.value, COMPLETED_MARK) {
        var task := ChainTask(description, text.value, t.callId);
        var run := AutoVerifyChain(task, t.chain);
        text := Some(ChainText(lim.verifyAttempts, task, run));
        var id := ExtractTaskId(description);
        if Contains(text.value, PASSED_MARKER) {
          Advance(id, L.Completed);
        } else if Contains(text.value, FAILED_MARKER) {
          Advance(id, L.VerifyFailed);
        }
      }
    }
  }
}
