/** Delegations inside the loop: which of them the user is asked about, and which rows survive them. */
module LoopDelegations {
  import opened Prelude
  import opened Text
  import opened AgentLoop
  import opened LoopSafety
  import opened LoopExits
  import opened DelegationLedger
  import D = Delegation
  import F = FixerCap
  import L = TodoLedger
  import S = Sufficiency

  // ---------- which role a call runs as ----------

  /** `resolve_role_name`. `hint` is the call's agent_type, `None` when it is left out and the tool's default
      "auto" applies; `classified` is what the classifier says of the description. */
  function Resolve(hint: Option<string>, classified: D.Role): D.Role {
    var text := if hint.Some? then hint.value else "auto";
    if text == "auto" then classified
    else if text == "planner" then D.Planner
    else if text == "coder" then D.Coder
    else if text == "reviewer" then D.Reviewer
    else if text == "fixer" then D.Fixer
    else if text == "researcher" then D.Researcher
    else if text == "verifier" then D.Verifier
    else D.Coder
  }

  /** The roles the decomposition gate is there for. */
  predicate Gated(r: D.Role) {
    r == D.Coder || r == D.Verifier || r == D.Fixer || r == D.Reviewer
  }

  /** The gate reads a missing agent_type as the empty text. */
  predicate Carries(c: Call, hint: Option<string>) {
    c.agentType == if hint.Some? then hint.value else ""
  }

  /** The call's hint leaves a gated role: not one of the two free roles by name, and not freed by the classifier. */
  predicate HintLeavesGated(hint: Option<string>, classified: D.Role) {
    match hint
    case None => Gated(classified)
    case Some(text) => text != "planner" && text != "researcher" && (text == "auto" ==> Gated(classified))
  }

  lemma ResolvedGatedIff(hint: Option<string>, classified: D.Role)
    ensures Gated(Resolve(hint, classified)) <==> HintLeavesGated(hint, classified)
  {
  }

  /** Every role is resolved by its own name. */
  lemma NamesResolve(r: D.Role, classified: D.Role)
    ensures Resolve(Some(D.RoleText(r)), classified) == r
  {
  }

  /** The gate looks for the names of the gated roles, in any case and with white space around. */
  lemma GatedRoleIff(text: string)
    ensures GatedRole(text) <==> exists r :: Gated(r) && Lower(Strip(text)) == D.RoleText(r)
  {
    hide Strip, Lower;
    assert D.RoleText(D.Coder) == "coder" && D.RoleText(D.Verifier) == "verifier";
    assert D.RoleText(D.Fixer) == "fixer" && D.RoleText(D.Reviewer) == "reviewer";
  }

  // ---------- when the user is asked, and what the answer does ----------

  lemma EntersGate(cfg: Config, h: Harness, o: Oracle)
    requires Ready(h)
    ensures Exec(cfg, h, o).node == GateDecomposition <==>
            && h.node == Agent && o.agent.Reply? && h.g.iteration + 1 < h.g.maxIterations && !o.dangerous
            && !h.g.decompositionConfirmed && L.CountsOf(h.rows).Total() > 0
            && exists c :: c in o.agent.calls && GatedCall(c)
  {
    hide L.CountsOf, GatedCall, S.Evaluate, S.HeuristicVerdictForLow, S.TodoRatio, S.ApplyVerdict;
    match h.node
    case Agent =>
      assert Exec(cfg, h, o) == ExecAgent(cfg, h, o);
      if o.agent.Reply? {
        var calls := o.agent.calls;
        assert (exists c :: c in calls && GatedCall(c)) <==> exists k :: 0 <= k < |calls| && GatedCall(calls[k]);
      }
    case HandleError => assert Exec(cfg, h, o) == ExecHandleError(cfg, h, o);
    case SufficiencyGate => assert Exec(cfg, h, o) == ExecSufficiencyGate(cfg, h, o);
    case SufficiencyApply => assert Exec(cfg, h, o) == ExecSufficiencyApply(cfg, h);
    case _ =>
  }

  /** The user is asked exactly when, with turns to spare and no danger, a reply spells out a gated delegation on a
      ledger with rows and the user was not asked before. */
  lemma AskedIff(cfg: Config, run: nat -> Harness, f: nat -> Oracle, n: nat)
    requires Run(cfg, run, f)
    ensures run(n + 1).node == GateDecomposition <==>
            && run(n).node == Agent && f(n).agent.Reply?
            && Executions(run, Agent, n) + 1 < cfg.maxIterations && !f(n).dangerous
            && run(n).rows != [] && (forall k :: 0 <= k < n ==> run(k).node != GateDecomposition)
            && exists c :: c in f(n).agent.calls && GatedCall(c)
  {
    hide Exec, Ready, Fresh, L.CountsOf, GatedCall, Executions;
    assert StepAt(cfg, run, f, n);
    ReadyInEveryState(cfg, run, f, n);
    EntersGate(cfg, run(n), f(n));
    ConfirmedMeansAsked(cfg, run, f, n);
    L.CountsSumToRows(run(n).rows);
    if run(n).node == Agent {
      assert n > 0 by { NotAtStart(cfg, run, f); }
      TurnsCounted(cfg, run, f, n);
    }
  }

  /** Any other reply with calls, with turns to spare and no danger, has just these calls executed. */
  lemma ExecutedIff(cfg: Config, run: nat -> Harness, f: nat -> Oracle, n: nat)
    requires Run(cfg, run, f)
    ensures run(n + 1).node == Tools <==>
            && run(n).node == Agent && f(n).agent.Reply? && f(n).agent.calls != []
            && Executions(run, Agent, n) + 1 < cfg.maxIterations && !f(n).dangerous
            && run(n + 1).node != GateDecomposition
    ensures run(n + 1).node == Tools ==> run(n + 1).g.calls == f(n).agent.calls
  {
    hide Exec, Ready, Fresh, Executions;
    assert StepAt(cfg, run, f, n);
    ReadyInEveryState(cfg, run, f, n);
    EntersTools(cfg, run(n), f(n));
    if run(n).node == Agent {
      assert n > 0 by { NotAtStart(cfg, run, f); }
      TurnsCounted(cfg, run, f, n);
    }
  }

  lemma EntersTools(cfg: Config, h: Harness, o: Oracle)
    requires Ready(h)
    ensures var t := Exec(cfg, h, o);
            && (t.node == Tools <==>
                  && h.node == Agent && o.agent.Reply? && o.agent.calls != [] && h.g.iteration + 1 < h.g.maxIterations
                  && !o.dangerous && t.node != GateDecomposition)
            && (t.node == Tools ==> t.g.calls == o.agent.calls)
  {
    hide L.CountsOf, GatedCall, S.Evaluate, S.HeuristicVerdictForLow, S.TodoRatio, S.ApplyVerdict;
    match h.node
    case Agent => assert Exec(cfg, h, o) == ExecAgent(cfg, h, o);
    case HandleError => assert Exec(cfg, h, o) == ExecHandleError(cfg, h, o);
    case SufficiencyGate => assert Exec(cfg, h, o) == ExecSufficiencyGate(cfg, h, o);
    case SufficiencyApply => assert Exec(cfg, h, o) == ExecSufficiencyApply(cfg, h);
    case _ =>
  }

  lemma NotAtStart(cfg: Config, run: nat -> Harness, f: nat -> Oracle)
    requires Run(cfg, run, f)
    ensures run(0).node == InjectMemory
  {
  }

  /** Asked for another decomposition the loop empties the ledger, and otherwise leaves it; either way it forgets
      the calls it asked about, and goes back to the agent. */
  lemma AnswerObeyed(cfg: Config, run: nat -> Harness, f: nat -> Oracle, n: nat)
    requires Run(cfg, run, f) && run(n).node == GateDecomposition
    ensures run(n + 1).node == Agent && run(n + 1).g.calls == []
    ensures run(n + 1).rows == if f(n).decision == Finer || f(n).decision == Coarser then [] else run(n).rows
  {
    assert StepAt(cfg, run, f, n);
  }

  /** Nothing else changes the ledger but the executed tools. */
  lemma LedgerChanges(cfg: Config, run: nat -> Harness, f: nat -> Oracle, n: nat)
    requires Run(cfg, run, f)
    ensures run(n).node == Tools ==> run(n + 1).rows == L.ApplyAll(run(n).rows, f(n).ops)
    ensures run(n).node != Tools && run(n).node != GateDecomposition ==> run(n + 1).rows == run(n).rows
  {
    hide L.CountsOf, GatedCall, L.ApplyAll;
    assert StepAt(cfg, run, f, n);
    if run(n).node == Tools {
      assert Exec(cfg, run(n), f(n)) == ExecTools(run(n), f(n));
    } else if run(n).node != GateDecomposition {
      RowsKept(cfg, run(n), f(n));
    }
  }

  // ---------- what gets past the gate ----------

  /** A tools node with a registered ledger, in a run that has not asked the user: none of its delegations
      spells out a gated role, yet each runs as one exactly if its hint leaves a gated role — when it is "auto"
      or left out and classified so, or is no role name at all. */
  lemma UnaskedDelegationIff(cfg: Config, run: nat -> Harness, f: nat -> Oracle, n: nat, c: nat,
                             hint: Option<string>, classified: D.Role)
    requires Run(cfg, run, f) && run(n).node == Tools && L.CountsOf(run(n).rows).Total() > 0
    requires forall k :: 0 <= k < n ==> run(k).node != GateDecomposition
    requires c < |run(n).g.calls| && run(n).g.calls[c].name == "task" && Carries(run(n).g.calls[c], hint)
    ensures !GatedRole(run(n).g.calls[c].agentType)
    ensures Gated(Resolve(hint, classified)) <==> HintLeavesGated(hint, classified)
  {
    hide Exec, L.CountsOf, GatedRole, Run;
    if GatedCall(run(n).g.calls[c]) {
      DelegationNeedsConfirmation(cfg, run, f, n, c);
    }
  }

  /** The agent is about to reply with these calls, on this ledger, before the user was asked. */
  predicate Unasked(cfg: Config, h: Harness, o: Oracle, calls: seq<Call>) {
    && h.node == Agent && h.g.errorInfo.None? && h.g.iteration + 1 < h.g.maxIterations && !o.dangerous
    && !h.g.decompositionConfirmed && o.agent == Reply(calls) && calls != []
  }

  lemma UnaskedReply(cfg: Config, h: Harness, o: Oracle, calls: seq<Call>)
    requires Unasked(cfg, h, o, calls)
    ensures var t := Exec(cfg, h, o);
            && t.rows == h.rows && t.g.calls == calls && !t.g.decompositionConfirmed
            && t.node == if L.CountsOf(h.rows).Total() > 0 && exists k :: 0 <= k < |calls| && GatedCall(calls[k])
                         then GateDecomposition else Tools
  {
    hide L.CountsOf, GatedCall;
  }

  lemma FreeTexts(text: string)
    requires text in {"auto", "", "developer", "planner", "researcher"}
    ensures !GatedRole(text)
  {
    LowerStrip(text);
  }

  lemma LowerStrip(text: string)
    requires text in {"auto", "", "developer", "planner", "researcher"}
    ensures Lower(Strip(text)) == text
  {
    assert text == "" || (!IsSpace(text[0]) && !IsSpace(text[|text| - 1]));
    assert Strip(text) == text;
  }

  /** Concretely: a single delegation whose agent_type is "auto", left out or unknown goes straight to the tools
      node on a registered ledger, and runs as a coder. */
  lemma UnaskedCoder(cfg: Config, h: Harness, o: Oracle, hint: Option<string>, c: Call)
    requires hint in {Some("auto"), None, Some("developer")}
    requires c.name == "task" && Carries(c, hint) && Unasked(cfg, h, o, [c])
    requires L.CountsOf(h.rows).Total() > 0
    ensures var t := Exec(cfg, h, o); t.node == Tools && !t.g.decompositionConfirmed
    ensures Resolve(hint, D.Coder) == D.Coder && Gated(D.Coder)
  {
    hide L.CountsOf, Exec, GatedRole;
    FreeTexts(c.agentType);
    UnaskedReply(cfg, h, o, [c]);
  }

  /** The ledger is looked at once per reply: one that delegates to the planner and to a coder reaches the tools
      node on an empty ledger, and the coder runs on whatever the planner registered just before. */
  lemma SameReplyNotAsked(cfg: Config, h: Harness, o: Oracle, planner: Call, coder: Call, todos: seq<L.TodoItem>)
    requires planner.name == "task" && planner.agentType == "planner"
    requires coder.name == "task" && GatedRole(coder.agentType)
    requires Unasked(cfg, h, o, [planner, coder]) && h.rows == [] && todos != []
    ensures var t := Exec(cfg, h, o);
            && t.node == Tools && GatedCall(t.g.calls[1])
            && L.CountsOf(L.ApplyAll(t.rows, [L.WriteTodos(todos)])).Total() > 0
  {
    hide Exec, GatedRole, L.CountsOf, L.ApplyAll;
    UnaskedReply(cfg, h, o, [planner, coder]);
    RegisteredRowsCount(todos);
  }

  lemma RegisteredRowsCount(todos: seq<L.TodoItem>)
    requires todos != []
    ensures L.CountsOf([]).Total() == 0 && L.CountsOf(L.ApplyAll([], [L.WriteTodos(todos)])).Total() > 0
  {
    hide L.CountsOf, L.PutAll;
    L.CountsSumToRows([]);
    L.CountsSumToRows(L.PutAll(todos));
    assert [L.WriteTodos(todos)][1..] == [];
    assert !L.HasTerminal([]);
    L.PutAllHasAll(todos, todos[0].id);
    L.FindHit(todos, 0);
  }

  // ---------- which rows survive in the loop ----------

  /** Tool calls change the ledger as delegations do (see `DelegationLedger.AllOnly`), and nobody resets it. */
  ghost predicate DelegatingStep(run: nat -> Harness, f: nat -> Oracle, k: nat) {
    && (run(k).node == Tools ==> OnlyAdvancesAndRegisters(f(k).ops))
    && (run(k).node == GateDecomposition ==> f(k).decision == Proceed || f(k).decision == Unknown)
  }

  lemma StepKeepsCompleted(cfg: Config, h: Harness, o: Oracle, id: string)
    requires L.Distinct(h.rows) && L.HasCompleted(h.rows, id)
    requires h.node == Tools ==> OnlyAdvancesAndRegisters(o.ops)
    requires h.node == GateDecomposition ==> o.decision == Proceed || o.decision == Unknown
    ensures L.Distinct(Exec(cfg, h, o).rows) && L.HasCompleted(Exec(cfg, h, o).rows, id)
  {
    hide L.CountsOf, GatedCall, L.Distinct, L.HasCompleted, L.ApplyAll;
    if h.node == Tools {
      L.CompletedRowSurvives(h.rows, o.ops, id);
      L.ApplyAllKeepsDistinct(h.rows, o.ops);
    } else {
      RowsKept(cfg, h, o);
    }
  }

  lemma RowsKept(cfg: Config, h: Harness, o: Oracle)
    requires h.node != Tools
    requires h.node == GateDecomposition ==> o.decision == Proceed || o.decision == Unknown
    ensures Exec(cfg, h, o).rows == h.rows
  {
    hide L.CountsOf, GatedCall;
    match h.node
    case Agent => assert Exec(cfg, h, o) == ExecAgent(cfg, h, o);
    case HandleError => assert Exec(cfg, h, o) == ExecHandleError(cfg, h, o);
    case SufficiencyGate => assert Exec(cfg, h, o) == ExecSufficiencyGate(cfg, h, o);
    case SufficiencyApply => assert Exec(cfg, h, o) == ExecSufficiencyApply(cfg, h);
    case _ =>
  }

  /** In a run of the loop whose tools are delegations, a completed row stays completed for good, unless the
      user's answer at the decomposition gate resets the ledger. */
  lemma {:induction false} RunKeepsCompleted(cfg: Config, run: nat -> Harness, f: nat -> Oracle, n: nat, m: nat, id: string)
    requires Run(cfg, run, f) && n <= m && L.Distinct(run(n).rows) && L.HasCompleted(run(n).rows, id)
    requires forall k :: n <= k < m ==> DelegatingStep(run, f, k)
    ensures L.Distinct(run(m).rows) && L.HasCompleted(run(m).rows, id)
  {
    hide Exec, Fresh, L.Distinct, L.HasCompleted, OnlyAdvancesAndRegisters;
    if n < m {
      RunKeepsCompleted(cfg, run, f, n, m - 1, id);
      assert StepAt(cfg, run, f, m - 1) && DelegatingStep(run, f, m - 1);
      StepKeepsCompleted(cfg, run(m - 1), f(m - 1), id);
    }
  }

  /** A tools step that runs delegations is such a step, and leaves the rows the delegations leave. */
  lemma DelegationsAreSuchSteps(h: Harness, o: Oracle, lim: D.Limits, st: D.ToolState, tasks: seq<D.Task>)
    requires h.rows == st.rows && o.ops == AllOps(lim, st, tasks)
    requires forall k :: 0 <= k < |tasks| ==> PlannerOnlyRegisters(tasks[k])
    ensures OnlyAdvancesAndRegisters(o.ops) && ExecTools(h, o).rows == F.RunAll(lim, st, tasks).rows
  {
    hide AllOps, F.RunAll, L.ApplyAll, PlannerOnlyRegisters, OnlyAdvancesAndRegisters;
    AllOnly(lim, st, tasks);
    DelegationsAreOps(lim, st, tasks);
  }
}
