/** The loop as the program runs it: nodes that update the graph state, the error counter and the shared
    ledger in place. Each is proved against the state function of the same node in `AgentLoop`. */
module LoopGraph {
  import opened Prelude
  import opened TodoLedger
  import opened Sufficiency
  import opened AgentLoop
  import R = Resilience
  import opened LoopTermination

  /** `_requires_decomposition_gate`: whether to block, and the id of the first offending delegation. */
  method RequiresDecompositionGate(calls: seq<Call>, counts: TodoCounts, confirmed: bool)
    returns (needed: bool, blocked: Option<string>)
    ensures needed <==> GateNeeded(calls, counts.Total(), confirmed)
    ensures needed <==> blocked.Some?
    ensures needed ==> exists k :: 0 <= k < |calls| && GatedCall(calls[k]) && blocked == Some(calls[k].id)
                                   && forall j :: 0 <= j < k ==> !GatedCall(calls[j])
  {
    if confirmed || counts.Total() == 0 {
      return false, None;
    }
    for i := 0 to |calls|
      invariant forall j :: 0 <= j < i ==> !GatedCall(calls[j])
    {
      if calls[i].name != "task" {
        continue;
      }
      if GatedRole(calls[i].agentType) {
        return true, Some(calls[i].id);
      }
    }
    return false, None;
  }

  class AgentGraph {
    const cfg: Config
    const store: TodoStore
    var node: Node
    var g: GraphState
    var consecutiveErrors: nat

    ghost function View(): Harness
      reads this, store
      requires store.Valid()
    {
      Harness(node, g, store.ListItems(), consecutiveErrors)
    }

    constructor (cfg: Config, store: TodoStore, errors: nat)
      requires store.Valid()
      ensures this.cfg == cfg && this.store == store
      ensures store.Valid() && Fresh(View()) && View().rows == old(store.ListItems())
    {
      this.cfg, this.store := cfg, store;
      node := InjectMemory;
      g := GraphState([], 0, 0, cfg.tier, None, None, 0, 0, None, false, 0, [], None, None, false);
      consecutiveErrors := errors;
    }

    method InjectMemoryNode()
      requires store.Valid()
      modifies this
      ensures View() == ExecInjectMemory(cfg, old(View()))
    {
      g := g.(iteration := 0, maxIterations := cfg.maxIterations, tier := cfg.tier, stallCount := 0);
      node := Agent;
    }

    method RouteAfterAgentNode(dangerous: bool) returns (next: Node)
      requires store.Valid()
      ensures next == RouteAfterAgent(cfg, View(), dangerous)
    {
      hide CountsOf, GateNeeded;
      if g.errorInfo.Some? {
        return HandleError;
      }
      if g.iteration >= g.maxIterations || dangerous {
        return SafeStop;
      }
      var counts := store.Counts();
      if g.calls != [] {
        var needed, _ := RequiresDecompositionGate(g.calls, counts, g.decompositionConfirmed);
        return if needed then GateDecomposition else Tools;
      }
      match NudgeDecision(counts.Unfinished(), g.lastNudgeUnfinished, g.pendingNudges, MAX_STUCK_NUDGES) {
        case NudgeAgain => return NudgePendingTodos;
        case StuckEnd => return ExtractMemoryFinal;
        case CleanEnd =>
      }
      if cfg.sufficiencyEnabled {
        if g.lastVerdict.Some? && g.lastVerdict.value.kind == EscalateHitl {
          return ExtractMemoryFinal;
        }
        return SufficiencyGate;
      }
      return ExtractMemoryFinal;
    }

    method AgentNode(o: Oracle)
      requires store.Valid()
      modifies this
      ensures View() == ExecAgent(cfg, old(View()), o)
    {
      hide CountsOf, GateNeeded;
      g := g.(iteration := g.iteration + 1);
      match o.agent {
        case Reply(calls) => g := g.(calls := calls);
        case Failed(fault) => g := g.(errorInfo := Some(fault));
      }
      ghost var called := View();
      var next := RouteAfterAgentNode(o.dangerous);
      node := next;
      assert RouteAfterAgent(cfg, called, o.dangerous) == next;
    }

    /** The executed tools reach the ledger only through its own operations. */
    method ToolsNode(o: Oracle)
      requires store.Valid()
      modifies this, store
      ensures store.Valid() && View() == ExecTools(old(View()), o)
    {
      node := CheckProgress;
      ghost var before := store.ListItems();
      for i := 0 to |o.ops|
        invariant store.Valid()
        invariant View() == old(View()).(node := CheckProgress, rows := store.ListItems())
        invariant ApplyAll(before, o.ops) == ApplyAll(store.ListItems(), o.ops[i..])
      {
        assert o.ops[i..][0] == o.ops[i] && o.ops[i..][1..] == o.ops[i + 1..];
        match o.ops[i] {
          case WriteTodos(todos) => var _ := WriteTodosTool(store, todos);
          case UpdateTodo(id, s) => var _ := UpdateTodoTool(store, id, s);
          case AutoAdvance(id, s) => var _ := AutoAdvanceTodo(store, id, s);
          case Reset => store.Reset();
        }
      }
    }

    method CheckProgressNode(o: Oracle)
      requires store.Valid()
      modifies this
      ensures View() == ExecCheckProgress(old(View()), o)
    {
      consecutiveErrors := 0;
      match o.guard {
        case GuardStop => g := g.(exitReason := Some(ProgressGuardStop), stallCount := g.stallCount + 1);
        case GuardWarn => g := g.(stallCount := g.stallCount + 1);
        case GuardOk =>
      }
      node := RouteOnExit(g);
    }

    method HandleErrorNode(o: Oracle)
      requires store.Valid()
      modifies this
      ensures View() == ExecHandleError(cfg, old(View()), o)
    {
      consecutiveErrors := consecutiveErrors + 1;
      var fault := if g.errorInfo.Some? then g.errorInfo.value else UNKNOWN_FAULT;
      g := g.(errorInfo := None);
      if consecutiveErrors >= MAX_CONSECUTIVE_ERRORS {
        g := g.(exitReason := Some(ConsecutiveErrors(consecutiveErrors)));
      } else {
        match R.Handle(R.Classify(fault), o.retryCount, g.tier, cfg.fallbackEnabled) {
          case Retry(_) =>
          case Fallback(Some(next)) => g := g.(tier := next);
          case Fallback(None) => g := g.(exitReason := Some(AllModelsExhausted));
          case Abort => g := g.(exitReason := Some(ErrorAbort));
        }
      }
      node := RouteOnExit(g);
    }

    method NudgePendingTodosNode()
      requires store.Valid()
      modifies this
      ensures View() == ExecNudge(old(View()))
    {
      hide CountsOf;
      var counts := store.Counts();
      var unfinished := counts.Unfinished();
      var nudges := if ProgressMade(g.lastNudgeUnfinished, unfinished) then 1 else g.pendingNudges + 1;
      g := g.(calls := [], pendingNudges := nudges, lastNudgeUnfinished := Some(unfinished));
      node := Agent;
    }

    method GateDecompositionNode(o: Oracle)
      requires store.Valid()
      modifies this, store
      ensures store.Valid() && View() == ExecGateDecomposition(old(View()), o)
    {
      if o.decision == Finer || o.decision == Coarser {
        store.Reset();
      }
      g := g.(calls := [], decompositionConfirmed := true);
      node := Agent;
    }

    method SufficiencyGateNode(o: Oracle)
      requires store.Valid()
      modifies this
      ensures View() == ExecSufficiencyGate(cfg, old(View()), o)
    {
      hide CountsOf;
      var counts := store.Counts();
      var gate := Evaluate(o.signals.(todoRatio := TodoRatio(counts)), cfg.highTodo, cfg.lowTodo);
      g := g.(gateLevel := Some(gate.level), lastVerdict := None);
      if gate.level == Low {
        g := g.(lastVerdict := Some(HeuristicVerdictForLow(gate)));
      }
      node := RouteAfterGate(g);
    }

    method CriticNode(o: Oracle)
      requires store.Valid()
      modifies this
      ensures View() == ExecCritic(old(View()), o)
    {
      g := g.(lastVerdict := Some(o.critic));
      node := SufficiencyApply;
    }

    method SufficiencyApplyNode()
      requires store.Valid()
      modifies this
      ensures View() == ExecSufficiencyApply(cfg, old(View()))
    {
      hide DetectCycle, ForceEscalate;
      var level := if g.gateLevel.Some? then g.gateLevel.value else Medium;
      var iteration := g.sufficiencyIterations + 1;
      var verdict := if g.lastVerdict.Some? then g.lastVerdict.value else MISSING_VERDICT;
      var newHash := cfg.hash(level, verdict.kind, verdict.target);
      var isCycle := DetectCycle(g.sufficiencyHistory, newHash);
      verdict := ForceEscalate(verdict, iteration, cfg.maxSufficiency, isCycle);
      var entry := Entry(iteration, level, verdict.kind, verdict.target, newHash);
      g := g.(sufficiencyIterations := iteration, sufficiencyHistory := g.sufficiencyHistory + [entry],
              lastVerdict := Some(verdict), gateLevel := None);
      if verdict.kind == EscalateHitl {
        g := g.(needsHumanReview := true, exitReason := Some(SufficiencyEscalated));
      } else if Accepted(verdict.kind) {
        g := g.(calls := [], pendingNudges := 0, lastNudgeUnfinished := None);
      }
      node := RouteAfterApply(g);
    }

    method SafeStopNode()
      requires store.Valid()
      modifies this
      ensures View() == ExecSafeStop(old(View()))
    {
      if g.exitReason.None? {
        g := g.(exitReason := Some(SafeStopDefault));
      }
      node := End;
    }

    /** One node execution. */
    method ExecuteNode(o: Oracle)
      requires store.Valid() && node != End
      modifies this, store
      ensures store.Valid() && View() == Exec(cfg, old(View()), o)
    {
      hide ExecAgent, ExecTools, ExecCheckProgress, ExecHandleError, ExecNudge, ExecGateDecomposition,
           ExecSufficiencyGate, ExecSufficiencyApply;
      match node {
        case InjectMemory => InjectMemoryNode();
        case Agent => AgentNode(o);
        case Tools => ToolsNode(o);
        case CheckProgress => CheckProgressNode(o);
        case HandleError => HandleErrorNode(o);
        case NudgePendingTodos => NudgePendingTodosNode();
        case GateDecomposition => GateDecompositionNode(o);
        case SufficiencyGate => SufficiencyGateNode(o);
        case Critic => CriticNode(o);
        case SufficiencyApply => SufficiencyApplyNode();
        case ExtractMemoryFinal => node := End;
        case SafeStop => SafeStopNode();
      }
    }

    /** The graph's driver on a fresh thread. It needs no step limit of its own: whatever the oracle
        answers, it stops within `NodeBound` node executions, in the state the step function predicts. */
    method Run(oracle: nat -> Oracle) returns (executed: nat)
      requires store.Valid() && Fresh(View())
      modifies this, store
      ensures store.Valid() && node == End
      ensures View() == StateAt(cfg, old(View()), oracle, executed)
      ensures executed <= NodeBound(cfg)
      ensures g.iteration <= Turns(cfg) + 2
    {
      hide Exec;
      ghost var start := View();
      executed := 0;
      assert Fuel(cfg, start) <= NodeBound(cfg);
      hide Fuel;
      while node != End
        invariant store.Valid()
        invariant View() == StateAt(cfg, start, oracle, executed)
        invariant CountersOk(cfg, View())
        invariant node != End ==> Fuel(cfg, View()) <= NodeBound(cfg) - executed
        invariant node == End ==> executed <= NodeBound(cfg)
        decreases Fuel(cfg, View())
      {
        FuelNonNegative(cfg, View());
        StepKeepsCounters(cfg, View(), oracle(executed));
        StepBurnsFuel(cfg, View(), oracle(executed));
        ExecuteNode(oracle(executed));
        FuelNonNegative(cfg, View());
        executed := executed + 1;
      }
    }
  }
}
