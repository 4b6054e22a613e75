/** Every run of the agent loop ends, and how soon. */
module LoopTermination {
  import opened Prelude
  import opened TodoLedger
  import opened Sufficiency
  import opened AgentLoop
  import R = Resilience

  /** Iteration limit as it acts: the first agent turn always happens. */
  function Turns(cfg: Config): int {
    Max(1, cfg.maxIterations)
  }

  /** Accepted sufficiency decisions still possible. */
  function RetriesLeft(cfg: Config, h: Harness): nat {
    if cfg.sufficiencyEnabled then Max(0, cfg.maxSufficiency - h.g.sufficiencyIterations) else 0
  }

  /** Node executions left when the agent is about to take its turn number `it + 1`. A retry uses up a turn
      below the limit. */
  function AgentFuel(turns: int, it: int, errors: nat, retries: nat): int {
    if it < turns - 1 then 3 * (turns - 1 - it) + Min(retries, turns - 1 - it) + 7
    else 2 * Max(1, MAX_CONSECUTIVE_ERRORS - errors) + 1
  }

  /** Node executions left, at most. */
  function Fuel(cfg: Config, h: Harness): int {
    var turns, retries := Turns(cfg), RetriesLeft(cfg, h);
    var it, errors := h.g.iteration, h.consecutiveErrors;
    var afterApply := if retries > 0 then AgentFuel(turns, it, errors, retries - 1) else 1;
    match h.node
    case InjectMemory => 1 + AgentFuel(turns, 0, errors, retries)
    case Agent => AgentFuel(turns, it, errors, retries)
    case Tools => 2 + AgentFuel(turns, it, 0, retries)
    case CheckProgress => 1 + AgentFuel(turns, it, 0, retries)
    case HandleError => 1 + if errors + 1 >= MAX_CONSECUTIVE_ERRORS then 1 else AgentFuel(turns, it, errors + 1, retries)
    case NudgePendingTodos => 1 + AgentFuel(turns, it, errors, retries)
    case GateDecomposition => 1 + AgentFuel(turns, it, errors, retries)
    case SufficiencyGate => 3 + afterApply
    case Critic => 2 + afterApply
    case SufficiencyApply => 1 + afterApply
    case ExtractMemoryFinal => 1
    case SafeStop => 1
    case End => 0
  }

  /** What the counters satisfy at each node of a run. */
  ghost predicate CountersOk(cfg: Config, h: Harness) {
    var turns, it, errors := Turns(cfg), h.g.iteration, h.consecutiveErrors;
    && (h.node != InjectMemory ==> h.g.maxIterations == cfg.maxIterations)
    && match h.node
       case InjectMemory => true
       case Agent => 0 <= it && (it <= turns - 1 || (it - (turns - 1) <= errors && errors < MAX_CONSECUTIVE_ERRORS))
       case HandleError => 0 <= it && (it <= turns || (it - turns <= errors && errors < MAX_CONSECUTIVE_ERRORS))
       case ExtractMemoryFinal => it <= turns + 2
       case SafeStop => it <= turns + 2
       case End => it <= turns + 2
       case SufficiencyGate => 1 <= it < turns && cfg.sufficiencyEnabled
       case Critic => 1 <= it < turns && cfg.sufficiencyEnabled
       case SufficiencyApply => 1 <= it < turns && cfg.sufficiencyEnabled
       case _ => 1 <= it < turns
  }

  /** Where the agent node can lead: only a failed call goes to error handling, and short of the
      turn limit is the only way into the working nodes. */
  lemma AgentLeads(cfg: Config, h: Harness, o: Oracle)
    requires h.node == Agent
    ensures var s := Exec(cfg, h, o);
            && s.g.iteration == h.g.iteration + 1
            && s.consecutiveErrors == h.consecutiveErrors
            && s.g.sufficiencyIterations == h.g.sufficiencyIterations
            && (s.node in {HandleError, SafeStop} ||
                (s.g.iteration < h.g.maxIterations
                 && s.node in {Tools, GateDecomposition, NudgePendingTodos, SufficiencyGate, ExtractMemoryFinal}))
            && (s.node == SufficiencyGate ==> cfg.sufficiencyEnabled)
  {
    hide CountsOf, GatedCall;
  }

  lemma AgentBurnsFuel(cfg: Config, h: Harness, o: Oracle)
    requires CountersOk(cfg, h) && h.node == Agent
    ensures Fuel(cfg, Exec(cfg, h, o)) < Fuel(cfg, h)
  {
    hide CountsOf, GatedCall;
    AgentLeads(cfg, h, o);
  }

  lemma ApplyLeads(cfg: Config, h: Harness)
    requires h.node == SufficiencyApply
    ensures var s := ExecSufficiencyApply(cfg, h);
            && s.g.iteration == h.g.iteration && s.consecutiveErrors == h.consecutiveErrors
            && s.g.sufficiencyIterations == h.g.sufficiencyIterations + 1
            && (s.node == ExtractMemoryFinal || (s.node == Agent && s.g.sufficiencyIterations <= cfg.maxSufficiency))
  {
  }

  lemma ApplyBurnsFuel(cfg: Config, h: Harness)
    requires CountersOk(cfg, h) && h.node == SufficiencyApply
    ensures Fuel(cfg, ExecSufficiencyApply(cfg, h)) < Fuel(cfg, h)
  {
    ApplyLeads(cfg, h);
  }

  lemma FuelNonNegative(cfg: Config, h: Harness)
    ensures 0 <= Fuel(cfg, h) && (h.node != End ==> 0 < Fuel(cfg, h))
  {
  }

  lemma HandleErrorLeads(cfg: Config, h: Harness, o: Oracle)
    requires h.node == HandleError
    ensures var s := ExecHandleError(cfg, h, o);
            && s.g.iteration == h.g.iteration && s.consecutiveErrors == h.consecutiveErrors + 1
            && s.g.sufficiencyIterations == h.g.sufficiencyIterations
            && (s.node == SafeStop || (s.node == Agent && s.consecutiveErrors < MAX_CONSECUTIVE_ERRORS))
  {
  }

  lemma AgentKeepsCounters(cfg: Config, h: Harness, o: Oracle)
    requires CountersOk(cfg, h) && h.node == Agent
    ensures CountersOk(cfg, Exec(cfg, h, o))
  {
    AgentLeads(cfg, h, o);
    assert Exec(cfg, h, o).g.maxIterations == h.g.maxIterations;
  }

  lemma StepKeepsCounters(cfg: Config, h: Harness, o: Oracle)
    requires CountersOk(cfg, h)
    ensures CountersOk(cfg, Exec(cfg, h, o))
  {
    hide CountsOf, GatedCall, Evaluate, HeuristicVerdictForLow, TodoRatio, ApplyVerdict;
    match h.node
    case Agent => AgentKeepsCounters(cfg, h, o);
    case SufficiencyApply => ApplyLeads(cfg, h);
    case HandleError => HandleErrorLeads(cfg, h, o);
    case InjectMemory =>
    case Tools =>
    case CheckProgress =>
    case NudgePendingTodos =>
    case GateDecomposition =>
    case SufficiencyGate =>
    case Critic =>
    case ExtractMemoryFinal =>
    case SafeStop =>
    case End =>
  }

  /** Each node execution uses up fuel. */
  lemma StepBurnsFuel(cfg: Config, h: Harness, o: Oracle)
    requires CountersOk(cfg, h) && h.node != End
    ensures Fuel(cfg, Exec(cfg, h, o)) < Fuel(cfg, h)
  {
    hide CountsOf, GatedCall, Evaluate, HeuristicVerdictForLow, TodoRatio, ApplyVerdict;
    FuelNonNegative(cfg, h);
    match h.node
    case Agent => AgentBurnsFuel(cfg, h, o);
    case SufficiencyApply => ApplyBurnsFuel(cfg, h);
    case HandleError => HandleErrorLeads(cfg, h, o);
    case InjectMemory =>
    case Tools =>
    case CheckProgress =>
    case NudgePendingTodos =>
    case GateDecomposition =>
    case SufficiencyGate =>
    case Critic =>
    case ExtractMemoryFinal =>
    case SafeStop =>
  }

  lemma EndIsFinal(cfg: Config, h: Harness, o: Oracle)
    requires h.node == End
    ensures Exec(cfg, h, o) == h
  {
  }

  lemma {:induction false} RunBurnsFuel(cfg: Config, run: nat -> Harness, f: nat -> Oracle, n: nat)
    requires Run(cfg, run, f)
    ensures CountersOk(cfg, run(n)) && (run(n).node != End ==> Fuel(cfg, run(n)) <= Fuel(cfg, run(0)) - n)
  {
    hide Exec, Fuel;
    if n > 0 {
      RunBurnsFuel(cfg, run, f, n - 1);
      assert StepAt(cfg, run, f, n - 1);
      StepKeepsCounters(cfg, run(n - 1), f(n - 1));
      if run(n - 1).node == End {
        EndIsFinal(cfg, run(n - 1), f(n - 1));
      } else {
        StepBurnsFuel(cfg, run(n - 1), f(n - 1));
      }
    }
  }

  /** Retries there is room for: each needs a turn below the limit. */
  function RetryRoom(cfg: Config): nat {
    if cfg.sufficiencyEnabled then Min(Max(0, cfg.maxSufficiency), Turns(cfg) - 1) else 0
  }

  /** Three node executions per turn, one more per sufficiency retry, five for start and shutdown. */
  function NodeBound(cfg: Config): nat {
    3 * Turns(cfg) + RetryRoom(cfg) + 5
  }

  lemma NeverStartsOver(cfg: Config, h: Harness, o: Oracle)
    ensures Exec(cfg, h, o).node != InjectMemory
  {
    hide CountsOf, GatedCall, Evaluate, HeuristicVerdictForLow, TodoRatio, ApplyVerdict;
  }

  /** Whatever model, tools, guard, critic and user do, the run has reached END after `NodeBound`
      node executions, and no reachable state has counted more than two turns beyond the limit. */
  lemma EveryRunEnds(cfg: Config, run: nat -> Harness, f: nat -> Oracle, n: nat)
    requires Run(cfg, run, f)
    ensures n >= NodeBound(cfg) ==> run(n).node == End
    ensures n > 0 ==> run(n).g.iteration <= Turns(cfg) + 2
  {
    RunBurnsFuel(cfg, run, f, n);
    FuelNonNegative(cfg, run(n));
    assert Fuel(cfg, run(0)) <= NodeBound(cfg);
    if n > 0 {
      assert StepAt(cfg, run, f, n - 1);
      NeverStartsOver(cfg, run(n - 1), f(n - 1));
    }
  }

  const RECURSION_LIMIT := 500

  /** The shipped defaults: 150 turns and one sufficiency retry stay under LangGraph's recursion limit. */
  lemma DefaultsStayUnderRecursionLimit(cfg: Config, run: nat -> Harness, f: nat -> Oracle)
    requires Run(cfg, run, f) && cfg.maxIterations == 150 && cfg.maxSufficiency == 1
    ensures NodeBound(cfg) <= 456 < RECURSION_LIMIT
    ensures cfg.sufficiencyEnabled ==> NodeBound(cfg) == 456
    ensures run(456).node == End
  {
    EveryRunEnds(cfg, run, f, 456);
  }

  // ---------- the bound is met ----------

  /** Targets that take turns, so that no retry repeats one of the two before it. */
  function SlowTarget(i: nat): Option<Role> {
    if i % 3 == 0 then None else if i % 3 == 1 then Some(Coder) else Some(Fixer)
  }

  /** The first node execution after the retries, and the first failing agent turn. */
  function AfterRetries(cfg: Config): nat {
    1 + 4 * RetryRoom(cfg)
  }

  function AfterTools(cfg: Config): nat {
    AfterRetries(cfg) + 3 * (Turns(cfg) - 1 - RetryRoom(cfg))
  }

  /** A run that retries for sufficiency as often as it can, then only calls tools, then fails three times in a row. */
  function SlowOracle(cfg: Config, n: nat): Oracle {
    var agent :=
      if n < AfterRetries(cfg) then Reply([])
      else if n < AfterTools(cfg) then Reply([Call("read_file", "", "")])
      else Failed(R.Fault(true, None, false, false));
    Oracle(agent, false, [], GuardOk, 0, Unknown, Signals(None, Some(1), 1.0, [], []),
           CriticVerdict(RetryLookup, SlowTarget(n / 4), FromCritic))
  }

  function SlowHash(cfg: Config, i: nat): string {
    cfg.hash(Medium, RetryLookup, SlowTarget(i))
  }

  /** The cycle hash tells the three decisions of the slow run apart. */
  ghost predicate SlowConfig(cfg: Config) {
    && cfg.lowTodo <= 1.0
    && SlowHash(cfg, 0) != SlowHash(cfg, 1) && SlowHash(cfg, 0) != SlowHash(cfg, 2) && SlowHash(cfg, 1) != SlowHash(cfg, 2)
  }

  /** `run` is the slow run of a thread that starts with an empty ledger and no errors counted. */
  ghost predicate SlowRun(cfg: Config, run: nat -> Harness) {
    && SlowConfig(cfg)
    && run(0).rows == [] && run(0).consecutiveErrors == 0
    && Run(cfg, run, (k: nat) => SlowOracle(cfg, k))
  }

  lemma SlowStep(cfg: Config, run: nat -> Harness, k: nat)
    requires SlowRun(cfg, run)
    ensures run(k + 1) == Exec(cfg, run(k), SlowOracle(cfg, k))
  {
    assert StepAt(cfg, run, (k: nat) => SlowOracle(cfg, k), k);
  }

  /** `s` waits at `node`, past the agent turn numbered `turn`, with nothing wrong so far. */
  ghost predicate Waits(cfg: Config, s: Harness, node: Node, turn: nat, errors: nat) {
    && s.node == node && s.rows == [] && s.consecutiveErrors == errors
    && s.g.iteration == turn && s.g.maxIterations == cfg.maxIterations && s.g.exitReason.None? && s.g.errorInfo.None?
  }

  /** The retries decided so far, each with its hash. */
  function SlowHistory(cfg: Config, i: nat): seq<Entry> {
    seq(i, k requires 0 <= k < i => Entry(k + 1, Medium, RetryLookup, SlowTarget(k), SlowHash(cfg, k)))
  }

  ghost predicate Retried(cfg: Config, s: Harness, i: nat) {
    && s.g.sufficiencyIterations == i && s.g.sufficiencyHistory == SlowHistory(cfg, i)
    && (s.g.lastVerdict.Some? ==> s.g.lastVerdict.value.kind == RetryLookup)
  }

  lemma EmptyLedgerCountsAsDone(rows: Rows)
    requires rows == []
    ensures CountsOf(rows) == TodoCounts(0, 0, 0, 0) && TodoRatio(CountsOf(rows)) == 1.0
  {
  }

  lemma SilentReply(cfg: Config, s: Harness, i: nat, o: Oracle)
    requires cfg.sufficiencyEnabled && i + 1 < cfg.maxIterations
    requires Waits(cfg, s, Agent, i, 0) && Retried(cfg, s, i) && o.agent == Reply([]) && !o.dangerous
    ensures var t := Exec(cfg, s, o); Waits(cfg, t, SufficiencyGate, i + 1, 0) && Retried(cfg, t, i)
  {
    hide CountsOf, TodoRatio, SlowHistory;
    EmptyLedgerCountsAsDone(s.rows);
  }

  /** The lint error keeps the gate from HIGH. */
  lemma LintOnlyIsMedium(ratio: real, highTodo: real, lowTodo: real)
    requires lowTodo <= ratio
    ensures Evaluate(Signals(None, Some(1), ratio, [], []), highTodo, lowTodo).level == Medium
  {
  }

  lemma MediumGate(cfg: Config, s: Harness, i: nat, o: Oracle)
    requires cfg.lowTodo <= 1.0 && Waits(cfg, s, SufficiencyGate, i + 1, 0) && Retried(cfg, s, i)
    requires o.signals == Signals(None, Some(1), 1.0, [], [])
    ensures var t := ExecSufficiencyGate(cfg, s, o);
            Waits(cfg, t, Critic, i + 1, 0) && Retried(cfg, t, i) && t.g.gateLevel == Some(Medium)
  {
    hide TodoRatio, CountsOf, Evaluate, HeuristicVerdictForLow, SlowHistory;
    EmptyLedgerCountsAsDone(s.rows);
    LintOnlyIsMedium(1.0, cfg.highTodo, cfg.lowTodo);
  }

  lemma NoCycle(cfg: Config, i: nat)
    requires SlowConfig(cfg)
    ensures !DetectCycle(SlowHistory(cfg, i), SlowHash(cfg, i))
  {
    var h := SlowHistory(cfg, i);
    forall k | Max(0, i - CYCLE_WINDOW) <= k < i ensures h[k].cycleHash != SlowHash(cfg, i) {
      assert k % 3 != i % 3;
      TargetByRest(cfg, k);
      TargetByRest(cfg, i);
    }
  }

  lemma TargetByRest(cfg: Config, i: nat)
    ensures SlowHash(cfg, i) == SlowHash(cfg, i % 3)
  {
  }

  lemma AcceptedRetry(cfg: Config, s: Harness, i: nat)
    requires SlowConfig(cfg) && Waits(cfg, s, SufficiencyApply, i + 1, 0) && Retried(cfg, s, i)
    requires i < cfg.maxSufficiency && s.g.gateLevel == Some(Medium)
    requires s.g.lastVerdict == Some(CriticVerdict(RetryLookup, SlowTarget(i), FromCritic))
    ensures var t := ExecSufficiencyApply(cfg, s); Waits(cfg, t, Agent, i + 1, 0) && Retried(cfg, t, i + 1)
  {
    hide SlowTarget, DetectCycle;
    NoCycle(cfg, i);
    assert SlowHistory(cfg, i) + [Entry(i + 1, Medium, RetryLookup, SlowTarget(i), SlowHash(cfg, i))] == SlowHistory(cfg, i + 1);
  }

  lemma ToolTurn(cfg: Config, s: Harness, turn: nat, o: Oracle)
    requires Waits(cfg, s, Agent, turn, 0) && turn + 1 < cfg.maxIterations
    requires o.agent == Reply([Call("read_file", "", "")]) && !o.dangerous
    ensures Waits(cfg, Exec(cfg, s, o), Tools, turn + 1, 0)
  {
    hide CountsOf, GatedRole;
  }

  lemma FailedTurn(cfg: Config, s: Harness, turn: nat, errors: nat, o: Oracle, o': Oracle)
    requires Waits(cfg, s, Agent, turn, errors) && o.agent == Failed(R.Fault(true, None, false, false)) && o'.retryCount == 0
    ensures Exec(cfg, s, o).node == HandleError
    ensures var t := ExecHandleError(cfg, Exec(cfg, s, o), o');
            if errors + 1 < MAX_CONSECUTIVE_ERRORS then Waits(cfg, t, Agent, turn + 1, errors + 1)
            else t.node == SafeStop && t.g.iteration == turn + 1
  {
  }

  /** One retry: four node executions, one turn. */
  lemma SlowRetry(cfg: Config, run: nat -> Harness, i: nat)
    requires SlowRun(cfg, run) && i < RetryRoom(cfg)
    requires Waits(cfg, run(1 + 4 * i), Agent, i, 0) && Retried(cfg, run(1 + 4 * i), i)
    ensures Waits(cfg, run(5 + 4 * i), Agent, i + 1, 0) && Retried(cfg, run(5 + 4 * i), i + 1)
  {
    hide Exec, Waits, Retried, SlowConfig, ExecSufficiencyGate, ExecSufficiencyApply, SlowTarget, Run;
    var n := 1 + 4 * i;
    SlowStep(cfg, run, n);
    SlowStep(cfg, run, n + 1);
    SlowStep(cfg, run, n + 2);
    SlowStep(cfg, run, n + 3);
    assert (n + 2) / 4 == i;
    SilentReply(cfg, run(n), i, SlowOracle(cfg, n));
    AtGate(cfg, run(n + 1), i, SlowOracle(cfg, n + 1));
    AtCritic(cfg, run(n + 2), i, SlowOracle(cfg, n + 2));
    AtApply(cfg, run(n + 3), i, SlowOracle(cfg, n + 3));
  }

  lemma AtGate(cfg: Config, s: Harness, i: nat, o: Oracle)
    requires SlowConfig(cfg) && Waits(cfg, s, SufficiencyGate, i + 1, 0) && Retried(cfg, s, i)
    requires o.signals == Signals(None, Some(1), 1.0, [], [])
    ensures var t := Exec(cfg, s, o); Waits(cfg, t, Critic, i + 1, 0) && Retried(cfg, t, i) && t.g.gateLevel == Some(Medium)
  {
    hide ExecSufficiencyGate, Retried;
    MediumGate(cfg, s, i, o);
  }

  lemma AtCritic(cfg: Config, s: Harness, i: nat, o: Oracle)
    requires Waits(cfg, s, Critic, i + 1, 0) && Retried(cfg, s, i) && s.g.gateLevel == Some(Medium)
    requires o.critic == CriticVerdict(RetryLookup, SlowTarget(i), FromCritic)
    ensures var t := Exec(cfg, s, o);
            && Waits(cfg, t, SufficiencyApply, i + 1, 0) && Retried(cfg, t, i)
            && t.g.gateLevel == Some(Medium) && t.g.lastVerdict == Some(o.critic)
  {
    hide SlowHistory, SlowTarget;
  }

  lemma AtApply(cfg: Config, s: Harness, i: nat, o: Oracle)
    requires SlowConfig(cfg) && Waits(cfg, s, SufficiencyApply, i + 1, 0) && Retried(cfg, s, i)
    requires i < cfg.maxSufficiency && s.g.gateLevel == Some(Medium)
    requires s.g.lastVerdict == Some(CriticVerdict(RetryLookup, SlowTarget(i), FromCritic))
    ensures var t := Exec(cfg, s, o); Waits(cfg, t, Agent, i + 1, 0) && Retried(cfg, t, i + 1)
  {
    hide ExecSufficiencyApply, Retried, SlowConfig, SlowTarget;
    AcceptedRetry(cfg, s, i);
  }

  lemma SlowStart(cfg: Config, run: nat -> Harness)
    requires SlowRun(cfg, run)
    ensures Waits(cfg, run(1), Agent, 0, 0) && Retried(cfg, run(1), 0)
  {
    SlowStep(cfg, run, 0);
  }

  lemma {:induction false} SlowRetries(cfg: Config, run: nat -> Harness, i: nat)
    requires SlowRun(cfg, run) && i <= RetryRoom(cfg)
    ensures Waits(cfg, run(1 + 4 * i), Agent, i, 0) && Retried(cfg, run(1 + 4 * i), i)
  {
    hide Waits, Retried, SlowRun, RetryRoom;
    if i == 0 {
      SlowStart(cfg, run);
    } else {
      SlowRetries(cfg, run, i - 1);
      SlowRetry(cfg, run, i - 1);
      assert 5 + 4 * (i - 1) == 1 + 4 * i;
    }
  }

  lemma SlowToolTurn(cfg: Config, run: nat -> Harness, n: nat, turn: nat)
    requires SlowRun(cfg, run) && AfterRetries(cfg) <= n < AfterTools(cfg)
    requires Waits(cfg, run(n), Agent, turn, 0) && turn + 1 < Turns(cfg)
    ensures Waits(cfg, run(n + 3), Agent, turn + 1, 0)
  {
    hide SlowConfig;
    var o1, o2 := SlowOracle(cfg, n + 1), SlowOracle(cfg, n + 2);
    assert Waits(cfg, run(n + 1), Tools, turn + 1, 0) by {
      ToolTurn(cfg, run(n), turn, SlowOracle(cfg, n));
      SlowStep(cfg, run, n);
    }
    assert run(n + 2) == ExecTools(run(n + 1), o1) by { SlowStep(cfg, run, n + 1); }
    assert run(n + 3) == ExecCheckProgress(run(n + 2), o2) by { SlowStep(cfg, run, n + 2); }
  }

  lemma {:induction false} SlowTools(cfg: Config, run: nat -> Harness, k: nat)
    requires SlowRun(cfg, run) && RetryRoom(cfg) + k <= Turns(cfg) - 1
    ensures Waits(cfg, run(AfterRetries(cfg) + 3 * k), Agent, RetryRoom(cfg) + k, 0)
  {
    hide Waits, SlowRun, RetryRoom, Turns;
    if k == 0 {
      SlowRetries(cfg, run, RetryRoom(cfg));
    } else {
      SlowTools(cfg, run, k - 1);
      SlowToolTurn(cfg, run, AfterRetries(cfg) + 3 * (k - 1), RetryRoom(cfg) + (k - 1));
    }
  }

  lemma SlowFailure(cfg: Config, run: nat -> Harness, n: nat, turn: nat, errors: nat)
    requires SlowRun(cfg, run) && n >= AfterTools(cfg) && Waits(cfg, run(n), Agent, turn, errors)
    ensures if errors + 1 < MAX_CONSECUTIVE_ERRORS then Waits(cfg, run(n + 2), Agent, turn + 1, errors + 1)
            else run(n + 2).node == SafeStop && run(n + 2).g.iteration == turn + 1
  {
    hide SlowConfig;
    FailedTurn(cfg, run(n), turn, errors, SlowOracle(cfg, n), SlowOracle(cfg, n + 1));
    SlowStep(cfg, run, n);
    SlowStep(cfg, run, n + 1);
  }

  /** The bound is exact for every turn limit and every number of retries allowed: the slow run takes
      `NodeBound` node executions, the last one being SafeStop, and two turns over the limit. */
  lemma BoundIsMet(cfg: Config, run: nat -> Harness)
    requires SlowRun(cfg, run)
    ensures var last := run(NodeBound(cfg) - 1);
            last.node == SafeStop && last.g.iteration == Turns(cfg) + 2
    ensures run(NodeBound(cfg)).node == End
  {
    hide Waits, SlowConfig, Run;
    var turn := Turns(cfg) - 1;
    var n := AfterTools(cfg);
    SlowTools(cfg, run, turn - RetryRoom(cfg));
    SlowFailure(cfg, run, n, turn, 0);
    SlowFailure(cfg, run, n + 2, turn + 1, 1);
    SlowFailure(cfg, run, n + 4, turn + 2, 2);
    SlowStep(cfg, run, n + 6);
    assert n + 7 == NodeBound(cfg);
  }
}
