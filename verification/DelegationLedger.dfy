/** What delegations do to the todo ledger, as a list of ledger operations. */
module DelegationLedger {
  import opened Prelude
  import opened Text
  import opened TaskId
  import opened VerifierReport
  import opened Delegation
  import opened ChainProtocol
  import opened FixerCap
  import L = TodoLedger

  // ---------- the operations behind each call ----------

  function AdvanceOps(description: string, s: L.Status): seq<L.Op> {
    match ExtractTaskId(description)
    case Some(id) => [L.AutoAdvance(id, s)]
    case None => []
  }

  /** Only the planner has a ledger tool. */
  function PlannerOps(role: Role, ops: seq<L.Op>): seq<L.Op> {
    if role == Planner then ops else []
  }

  function EndOps(role: Role, description: string, inv: Invocation): seq<L.Op>
    requires inv.Returns?
  {
    if CompletesRow(role, inv.tag, inv.result) then AdvanceOps(description, L.Completed) else []
  }

  function InnerOps(role: Role, description: string, inv: Invocation): seq<L.Op> {
    if !Started(inv) then []
    else
      AdvanceOps(description, L.InProgress) + PlannerOps(role, inv.ops)
      + if inv.Returns? then EndOps(role, description, inv) else []
  }

  function CallsOps(calls: seq<CallRecord>, oracle: nat -> Invocation, base: nat): seq<L.Op>
    decreases |calls|
  {
    if calls == [] then []
    else InnerOps(calls[0].role, calls[0].description, oracle(base)) + CallsOps(calls[1..], oracle, base + 1)
  }

  function MarkOps(description: string, text: string): seq<L.Op> {
    if Contains(text, PASSED_MARKER) then AdvanceOps(description, L.Completed)
    else if Contains(text, FAILED_MARKER) then AdvanceOps(description, L.VerifyFailed)
    else []
  }

  /** Everything one delegation does to the ledger, in order. */
  function TaskOps(lim: Limits, st: ToolState, t: Task): seq<L.Op> {
    var out, sent := RunTask(lim, st, t), SentDescription(st, t);
    if !out.reached then []
    else
      InnerOps(t.role, sent, t.main)
      + if out.chain.Some? && out.text.Some? then CallsOps(out.chain.value.calls, t.chain, 0) + MarkOps(sent, out.text.value) else []
  }

  function AllOps(lim: Limits, st: ToolState, tasks: seq<Task>): seq<L.Op>
    decreases tasks
  {
    if tasks == [] then [] else TaskOps(lim, st, tasks[0]) + AllOps(lim, RunTask(lim, st, tasks[0]).st, tasks[1..])
  }

  // ---------- they are all there is ----------

  lemma NoOps(rows: L.Rows)
    ensures L.ApplyAll(rows, []) == rows
  {
  }

  lemma AdvanceIsOps(rows: L.Rows, description: string, s: L.Status)
    ensures L.ApplyAll(rows, AdvanceOps(description, s)) == AdvanceFor(rows, ExtractTaskId(description), s)
  {
    hide ExtractTaskId, L.Advanced;
    NoOps(rows);
    if ExtractTaskId(description).Some? {
      var op := L.AutoAdvance(ExtractTaskId(description).value, s);
      assert [op][1..] == [];
      NoOps(L.Apply(rows, op));
    }
  }

  lemma InnerIsOps(st: ToolState, role: Role, description: string, inv: Invocation)
    ensures AfterInner(st, role, description, inv).rows == L.ApplyAll(st.rows, InnerOps(role, description, inv))
  {
    hide ExtractTaskId, AdvanceFor, AdvanceOps, CompletesRow, FormatVerifierOutput, L.ApplyAll;
    NoOps(st.rows);
    if Started(inv) {
      var start, own := AdvanceOps(description, L.InProgress), PlannerOps(role, inv.ops);
      var end := if inv.Returns? then EndOps(role, description, inv) else [];
      AdvanceIsOps(st.rows, description, L.InProgress);
      var mid := L.ApplyAll(st.rows, start);
      NoOps(mid);
      L.ApplyAllSum(st.rows, start, own);
      L.ApplyAllSum(st.rows, start + own, end);
      AdvanceIsOps(L.ApplyAll(mid, own), description, L.Completed);
      NoOps(L.ApplyAll(mid, own));
    }
  }

  lemma {:induction false} ReplayIsOps(st: ToolState, calls: seq<CallRecord>, oracle: nat -> Invocation, base: nat)
    ensures Replay(st, calls, oracle, base).rows == L.ApplyAll(st.rows, CallsOps(calls, oracle, base))
    decreases |calls|
  {
    hide AfterInner, InnerOps, L.ApplyAll;
    if calls == [] {
      NoOps(st.rows);
    } else {
      var c := calls[0];
      InnerIsOps(st, c.role, c.description, oracle(base));
      ReplayIsOps(AfterInner(st, c.role, c.description, oracle(base)), calls[1..], oracle, base + 1);
      L.ApplyAllSum(st.rows, InnerOps(c.role, c.description, oracle(base)), CallsOps(calls[1..], oracle, base + 1));
    }
  }

  lemma ChainIsOps(max: nat, t: ChainTask, oracle: nat -> Invocation, st: ToolState)
    ensures var r := Chain(max, t, oracle, st); r.st.rows == L.ApplyAll(st.rows, CallsOps(r.calls, oracle, 0))
  {
    hide Chain, CallsOps, L.ApplyAll, CallsAsNumbered, EventsPaired, StopsWhenDue, Verdict, Replay, Passes, NthRole;
    ChainProtocolHolds(max, t, oracle, st);
    ReplayIsOps(st, Chain(max, t, oracle, st).calls, oracle, 0);
    assert max == 0 ==> Replay(st, [], oracle, 0) == st by { ReplayNothing(st, oracle); }
  }

  lemma MarkIsOps(st: ToolState, description: string, text: string)
    ensures MarkByText(st, description, text).rows == L.ApplyAll(st.rows, MarkOps(description, text))
  {
    hide ExtractTaskId, AdvanceFor, AdvanceOps, Contains, L.ApplyAll;
    NoOps(st.rows);
    AdvanceIsOps(st.rows, description, L.Completed);
    AdvanceIsOps(st.rows, description, L.VerifyFailed);
  }

  lemma TaskIsOps(lim: Limits, st: ToolState, t: Task)
    ensures RunTask(lim, st, t).st.rows == L.ApplyAll(st.rows, TaskOps(lim, st, t))
  {
    hide AfterInner, Chain, ChainText, InnerOps, CallsOps, MarkOps, MarkByText, Capped, InnerText, SentDescription, CapMessage,
         L.ApplyAll, Contains;
    NoOps(st.rows);
    if !Capped(lim, st, t) {
      var sent, out := SentDescription(st, t), RunTask(lim, st, t);
      var st1, inner := AfterInner(st, t.role, sent, t.main), InnerOps(t.role, sent, t.main);
      InnerIsOps(st, t.role, sent, t.main);
      if out.chain.Some? {
        var task := ChainTask(sent, InnerText(t.role, t.main), t.callId);
        var r := Chain(lim.verifyAttempts, task, t.chain, st1);
        var calls, mark := CallsOps(r.calls, t.chain, 0), MarkOps(sent, out.text.value);
        ChainIsOps(lim.verifyAttempts, task, t.chain, st1);
        MarkIsOps(r.st, sent, out.text.value);
        L.ApplyAllSum(st.rows, inner, calls + mark);
        L.ApplyAllSum(st1.rows, calls, mark);
      } else {
        assert inner + [] == inner;
      }
    }
  }

  /** Any sequence of delegations changes the ledger exactly by these operations. */
  lemma {:induction false} DelegationsAreOps(lim: Limits, st: ToolState, tasks: seq<Task>)
    ensures RunAll(lim, st, tasks).rows == L.ApplyAll(st.rows, AllOps(lim, st, tasks))
    decreases tasks
  {
    hide RunTask, TaskOps, L.ApplyAll;
    if tasks == [] {
      NoOps(st.rows);
    } else {
      var next := RunTask(lim, st, tasks[0]).st;
      TaskIsOps(lim, st, tasks[0]);
      DelegationsAreOps(lim, next, tasks[1..]);
      L.ApplyAllSum(st.rows, TaskOps(lim, st, tasks[0]), AllOps(lim, next, tasks[1..]));
    }
  }

  // ---------- which rows are safe ----------

  /** The planner's allowlist holds `write_todos` and no other ledger tool. */
  predicate PlannerOnlyRegisters(t: Task) {
    t.role == Planner ==> forall k :: 0 <= k < |t.main.ops| ==> t.main.ops[k].WriteTodos?
  }

  ghost predicate OnlyAdvancesAndRegisters(ops: seq<L.Op>) {
    forall k :: 0 <= k < |ops| ==> ops[k].AutoAdvance? || ops[k].WriteTodos?
  }

  lemma OnlySum(a: seq<L.Op>, b: seq<L.Op>)
    requires OnlyAdvancesAndRegisters(a) && OnlyAdvancesAndRegisters(b)
    ensures OnlyAdvancesAndRegisters(a + b)
  {
  }

  lemma InnerOnly(role: Role, description: string, inv: Invocation)
    requires role == Planner ==> forall k :: 0 <= k < |inv.ops| ==> inv.ops[k].WriteTodos?
    ensures OnlyAdvancesAndRegisters(InnerOps(role, description, inv))
  {
    hide ExtractTaskId, CompletesRow;
    if Started(inv) {
      OnlySum(AdvanceOps(description, L.InProgress), PlannerOps(role, inv.ops));
    }
  }

  lemma {:induction false} CallsOnly(calls: seq<CallRecord>, oracle: nat -> Invocation, base: nat)
    requires forall k :: 0 <= k < |calls| ==> calls[k].role != Planner
    ensures OnlyAdvancesAndRegisters(CallsOps(calls, oracle, base))
    decreases |calls|
  {
    hide InnerOps, OnlyAdvancesAndRegisters;
    if calls == [] {
      NothingElse();
    } else {
      InnerOnly(calls[0].role, calls[0].description, oracle(base));
      CallsOnly(calls[1..], oracle, base + 1);
      OnlySum(InnerOps(calls[0].role, calls[0].description, oracle(base)), CallsOps(calls[1..], oracle, base + 1));
    }
  }

  lemma NothingElse()
    ensures OnlyAdvancesAndRegisters([])
  {
  }

  lemma MarkOnly(description: string, text: string)
    ensures OnlyAdvancesAndRegisters(MarkOps(description, text))
  {
    hide ExtractTaskId, Contains;
  }

  lemma TaskOnly(lim: Limits, st: ToolState, t: Task)
    requires PlannerOnlyRegisters(t)
    ensures OnlyAdvancesAndRegisters(TaskOps(lim, st, t))
  {
    hide AfterInner, Chain, ChainText, InnerOps, CallsOps, MarkOps, MarkByText, Capped, InnerText, SentDescription, CapMessage,
         Contains, OnlyAdvancesAndRegisters, Follows, Passes, NthRole;
    NothingElse();
    var sent, out := SentDescription(st, t), RunTask(lim, st, t);
    if out.reached {
      InnerOnly(t.role, sent, t.main);
      if out.chain.Some? {
        var task := ChainTask(sent, InnerText(t.role, t.main), t.callId);
        ChainProtocolHolds(lim.verifyAttempts, task, t.chain, AfterInner(st, t.role, sent, t.main));
        assert forall k :: 0 <= k < |out.chain.value.calls| ==> out.chain.value.calls[k].role != Planner by { NoPlannerInChains(); }
        CallsOnly(out.chain.value.calls, t.chain, 0);
        MarkOnly(sent, out.text.value);
        OnlySum(CallsOps(out.chain.value.calls, t.chain, 0), MarkOps(sent, out.text.value));
        OnlySum(InnerOps(t.role, sent, t.main), CallsOps(out.chain.value.calls, t.chain, 0) + MarkOps(sent, out.text.value));
      } else {
        OnlySum(InnerOps(t.role, sent, t.main), []);
      }
    }
  }

  lemma NoPlannerInChains()
    ensures forall k: nat :: NthRole(k) != Planner
  {
  }

  lemma {:induction false} AllOnly(lim: Limits, st: ToolState, tasks: seq<Task>)
    requires forall k :: 0 <= k < |tasks| ==> PlannerOnlyRegisters(tasks[k])
    ensures OnlyAdvancesAndRegisters(AllOps(lim, st, tasks))
    decreases tasks
  {
    hide RunTask, TaskOps, OnlyAdvancesAndRegisters, PlannerOnlyRegisters;
    if tasks == [] {
      NothingElse();
    } else {
      var next := RunTask(lim, st, tasks[0]).st;
      TaskOnly(lim, st, tasks[0]);
      assert forall k :: 0 <= k < |tasks[1..]| ==> tasks[1..][k] == tasks[k + 1];
      AllOnly(lim, next, tasks[1..]);
      OnlySum(TaskOps(lim, st, tasks[0]), AllOps(lim, next, tasks[1..]));
    }
  }

  /** Over any sequence of delegations, chains and re-registrations included, a completed row stays completed. */
  lemma DelegationsKeepCompleted(lim: Limits, st: ToolState, tasks: seq<Task>, id: string)
    requires L.Distinct(st.rows) && L.HasCompleted(st.rows, id)
    requires forall k :: 0 <= k < |tasks| ==> PlannerOnlyRegisters(tasks[k])
    ensures L.HasCompleted(RunAll(lim, st, tasks).rows, id)
  {
    hide RunAll, AllOps, L.ApplyAll, L.Distinct, L.HasCompleted, PlannerOnlyRegisters;
    DelegationsAreOps(lim, st, tasks);
    AllOnly(lim, st, tasks);
    L.CompletedRowSurvives(st.rows, AllOps(lim, st, tasks), id);
  }

  // ---------- a failed row is not safe ----------

  /** Research on a failed task that breaks off, then a new registration by the planner. */
  function Reregistration(work: string, plan: string, todos: seq<L.TodoItem>): seq<Task> {
    [Task(Researcher, work, "a", Raises(true, "", []), (_: nat) => Raises(false, "", [])),
     Task(Planner, plan, "b", Raises(true, "", [L.WriteTodos(todos)]), (_: nat) => Raises(false, "", []))]
  }

  lemma ReregistrationOps(lim: Limits, st: ToolState, work: string, plan: string, id: string, todos: seq<L.TodoItem>)
    requires ExtractTaskId(work) == Some(id) && ExtractTaskId(plan) == None
    ensures AllOps(lim, st, Reregistration(work, plan, todos)) == [L.AutoAdvance(id, L.InProgress), L.WriteTodos(todos)]
  {
    hide ExtractTaskId, AfterInner;
    var tasks := Reregistration(work, plan, todos);
    var next := RunTask(lim, st, tasks[0]).st;
    assert TaskOps(lim, st, tasks[0]) == [L.AutoAdvance(id, L.InProgress)];
    assert TaskOps(lim, next, tasks[1]) == [L.WriteTodos(todos)];
    assert tasks[1..] == [tasks[1]] && tasks[1..][1..] == [];
    assert AllOps(lim, next, tasks[1..]) == [L.WriteTodos(todos)] + [];
  }

  /** A row that failed verification is lost by these two delegations, although it was terminal. */
  lemma DelegationsCanLoseFailedRow(lim: Limits, st: ToolState, work: string, plan: string, id: string, other: string, c: string)
    requires ExtractTaskId(work) == Some(id) && ExtractTaskId(plan) == None && id != other
    requires st.rows == [L.TodoItem(id, c, L.VerifyFailed)]
    ensures var todos := [L.TodoItem(other, c, L.Pending)];
            var tasks := Reregistration(work, plan, todos);
            && PlannerOnlyRegisters(tasks[0]) && PlannerOnlyRegisters(tasks[1])
            && RunAll(lim, st, tasks).rows == todos && !L.Has(todos, id)
  {
    hide ExtractTaskId, RunAll, AllOps, L.ApplyAll;
    var todos := [L.TodoItem(other, c, L.Pending)];
    ReregistrationOps(lim, st, work, plan, id, todos);
    DelegationsAreOps(lim, st, Reregistration(work, plan, todos));
    L.FailedRowCanBeLost(id, other, c);
  }
}
