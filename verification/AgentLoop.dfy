/** The agent loop: twelve graph nodes over a shared state, a shared ledger and an error counter.
    Everything the harness does not decide (LLM replies, tool effects, guard and critic verdicts,
    user answers) comes from an arbitrary `Oracle`. */
module AgentLoop {
  import opened Prelude
  import opened Text
  import opened TodoLedger
  import opened Sufficiency
  import R = Resilience

  datatype Node =
    | InjectMemory | Agent | Tools | CheckProgress | HandleError | NudgePendingTodos | GateDecomposition
    | SufficiencyGate | Critic | SufficiencyApply | ExtractMemoryFinal | SafeStop
    | End

  /** One tool call of the model's reply. */
  datatype Call = Call(name: string, agentType: string, id: string)

  datatype Exit =
    | ProgressGuardStop | ConsecutiveErrors(count: nat) | AllModelsExhausted | ErrorAbort
    | SufficiencyEscalated | SafeStopDefault

  /** The fields of `AgentState` the harness branches on. `calls` are the tool calls of the last message. */
  datatype GraphState = GraphState(
    calls: seq<Call>,
    iteration: int,
    maxIterations: int,
    tier: R.Tier,
    exitReason: Option<Exit>,
    errorInfo: Option<R.Fault>,
    stallCount: nat,
    pendingNudges: nat,
    lastNudgeUnfinished: Option<nat>,
    decompositionConfirmed: bool,
    sufficiencyIterations: nat,
    sufficiencyHistory: seq<Entry>,
    lastVerdict: Option<CriticVerdict>,
    gateLevel: Option<Level>,
    needsHumanReview: bool)

  datatype Harness = Harness(node: Node, g: GraphState, rows: Rows, consecutiveErrors: nat)

  datatype Config = Config(
    maxIterations: int,
    tier: R.Tier,
    fallbackEnabled: bool,
    sufficiencyEnabled: bool,
    maxSufficiency: int,
    highTodo: real,
    lowTodo: real,
    hash: CycleHash)

  /** The user's answer to the decomposition question, as `_classify_decomposition_answer` reads it. */
  datatype Decision = Proceed | Finer | Coarser | Unknown

  datatype AgentOutcome = Reply(calls: seq<Call>) | Failed(fault: R.Fault)

  datatype GuardVerdict = GuardOk | GuardWarn | GuardStop

  /** One step's worth of behaviour the harness does not control. `dangerous` is the outcome of the
      safe-stop path condition, `ops` what the executed tools did to the ledger, `retryCount` what the
      error handler finds as its retry count. */
  datatype Oracle = Oracle(
    agent: AgentOutcome,
    dangerous: bool,
    ops: seq<Op>,
    guard: GuardVerdict,
    retryCount: nat,
    decision: Decision,
    signals: Signals,
    critic: CriticVerdict)

  const MAX_CONSECUTIVE_ERRORS := 3
  const MAX_STUCK_NUDGES := 3

  // ---------- pure helpers ----------

  predicate GatedRole(agentType: string) {
    Lower(Strip(agentType)) in {"coder", "verifier", "fixer", "reviewer"}
  }

  predicate GatedCall(c: Call) {
    c.name == "task" && GatedRole(c.agentType)
  }

  /** Some delegation must wait: the ledger is in use and the user has not been asked about it. */
  predicate GateNeeded(calls: seq<Call>, total: nat, confirmed: bool) {
    !confirmed && total != 0 && exists k :: 0 <= k < |calls| && GatedCall(calls[k])
  }

  datatype Nudge = CleanEnd | NudgeAgain | StuckEnd

  predicate ProgressMade(last: Option<nat>, unfinished: nat) {
    last.None? || unfinished < last.value
  }

  function NudgeDecision(unfinished: nat, last: Option<nat>, stuckNudges: nat, maxStuck: nat): Nudge {
    if unfinished == 0 then CleanEnd
    else if ProgressMade(last, unfinished) then NudgeAgain
    else if stuckNudges >= maxStuck then StuckEnd
    else NudgeAgain
  }

  function UnfinishedRows(rows: Rows): nat {
    CountsOf(rows).Unfinished()
  }

  // ---------- routers ----------

  function RouteAfterAgent(cfg: Config, h: Harness, dangerous: bool): Node {
    var g := h.g;
    if g.errorInfo.Some? then HandleError
    else if g.iteration >= g.maxIterations || dangerous then SafeStop
    else if g.calls != [] then
      if GateNeeded(g.calls, CountsOf(h.rows).Total(), g.decompositionConfirmed) then GateDecomposition else Tools
    else
      match NudgeDecision(UnfinishedRows(h.rows), g.lastNudgeUnfinished, g.pendingNudges, MAX_STUCK_NUDGES)
      case NudgeAgain => NudgePendingTodos
      case StuckEnd => ExtractMemoryFinal
      case CleanEnd =>
        if !cfg.sufficiencyEnabled then ExtractMemoryFinal
        else if g.lastVerdict.Some? && g.lastVerdict.value.kind == EscalateHitl then ExtractMemoryFinal
        else SufficiencyGate
  }

  function RouteAfterGate(g: GraphState): Node {
    match g.gateLevel
    case Some(High) => ExtractMemoryFinal
    case Some(Low) => SufficiencyApply
    case _ => Critic
  }

  function RouteAfterApply(g: GraphState): Node {
    if g.lastVerdict.Some? && Accepted(g.lastVerdict.value.kind) then Agent else ExtractMemoryFinal
  }

  /** Both `route_after_check` and `route_after_error`. */
  function RouteOnExit(g: GraphState): Node {
    if g.exitReason.Some? then SafeStop else Agent
  }

  // ---------- nodes ----------

  function ExecInjectMemory(cfg: Config, h: Harness): Harness {
    h.(node := Agent, g := h.g.(iteration := 0, maxIterations := cfg.maxIterations, tier := cfg.tier, stallCount := 0))
  }

  function ExecAgent(cfg: Config, h: Harness, o: Oracle): Harness {
    var g := h.g.(iteration := h.g.iteration + 1);
    var h' := match o.agent
      case Reply(calls) => h.(g := g.(calls := calls))
      case Failed(fault) => h.(g := g.(errorInfo := Some(fault)));
    h'.(node := RouteAfterAgent(cfg, h', o.dangerous))
  }

  function ExecTools(h: Harness, o: Oracle): Harness {
    h.(node := CheckProgress, rows := ApplyAll(h.rows, o.ops))
  }

  function ExecCheckProgress(h: Harness, o: Oracle): Harness {
    var g := match o.guard
      case GuardStop => h.g.(exitReason := Some(ProgressGuardStop), stallCount := h.g.stallCount + 1)
      case GuardWarn => h.g.(stallCount := h.g.stallCount + 1)
      case GuardOk => h.g;
    h.(node := RouteOnExit(g), g := g, consecutiveErrors := 0)
  }

  const UNKNOWN_FAULT := R.Fault(false, None, false, false)

  function ExecHandleError(cfg: Config, h: Harness, o: Oracle): Harness {
    var errors := h.consecutiveErrors + 1;
    var fault := if h.g.errorInfo.Some? then h.g.errorInfo.value else UNKNOWN_FAULT;
    var g0 := h.g.(errorInfo := None);
    var g :=
      if errors >= MAX_CONSECUTIVE_ERRORS then g0.(exitReason := Some(ConsecutiveErrors(errors)))
      else
        match R.Handle(R.Classify(fault), o.retryCount, h.g.tier, cfg.fallbackEnabled)
        case Retry(_) => g0
        case Fallback(Some(next)) => g0.(tier := next)
        case Fallback(None) => g0.(exitReason := Some(AllModelsExhausted))
        case Abort => g0.(exitReason := Some(ErrorAbort));
    h.(node := RouteOnExit(g), g := g, consecutiveErrors := errors)
  }

  function ExecNudge(h: Harness): Harness {
    var unfinished := UnfinishedRows(h.rows);
    var nudges := if ProgressMade(h.g.lastNudgeUnfinished, unfinished) then 1 else h.g.pendingNudges + 1;
    h.(node := Agent, g := h.g.(calls := [], pendingNudges := nudges, lastNudgeUnfinished := Some(unfinished)))
  }

  function ExecGateDecomposition(h: Harness, o: Oracle): Harness {
    var rows := match o.decision
      case Finer => Apply(h.rows, Reset)
      case Coarser => Apply(h.rows, Reset)
      case _ => h.rows;
    h.(node := Agent, rows := rows, g := h.g.(calls := [], decompositionConfirmed := true))
  }

  function ExecSufficiencyGate(cfg: Config, h: Harness, o: Oracle): Harness {
    var signals := o.signals.(todoRatio := TodoRatio(CountsOf(h.rows)));
    var gate := Evaluate(signals, cfg.highTodo, cfg.lowTodo);
    var g := h.g.(gateLevel := Some(gate.level),
                  lastVerdict := if gate.level == Low then Some(HeuristicVerdictForLow(gate)) else None);
    h.(node := RouteAfterGate(g), g := g)
  }

  function ExecCritic(h: Harness, o: Oracle): Harness {
    h.(node := SufficiencyApply, g := h.g.(lastVerdict := Some(o.critic)))
  }

  const MISSING_VERDICT := CriticVerdict(EscalateHitl, None, FromCritic)

  function ExecSufficiencyApply(cfg: Config, h: Harness): Harness {
    var level := if h.g.gateLevel.Some? then h.g.gateLevel.value else Medium;
    var verdict := if h.g.lastVerdict.Some? then h.g.lastVerdict.value else MISSING_VERDICT;
    var r := ApplyVerdict(cfg.hash, cfg.maxSufficiency, h.g.sufficiencyHistory, h.g.sufficiencyIterations, level, verdict);
    var g0 := h.g.(sufficiencyIterations := h.g.sufficiencyIterations + 1,
                   sufficiencyHistory := r.history,
                   lastVerdict := Some(r.verdict),
                   gateLevel := None);
    var g :=
      if r.verdict.kind == EscalateHitl then
        g0.(needsHumanReview := true, exitReason := Some(SufficiencyEscalated))
      else if Accepted(r.verdict.kind) then
        g0.(calls := [], pendingNudges := 0, lastNudgeUnfinished := None)
      else g0;
    h.(node := RouteAfterApply(g), g := g)
  }

  function ExecSafeStop(h: Harness): Harness {
    h.(node := End,
       g := h.g.(exitReason := if h.g.exitReason.Some? then h.g.exitReason else Some(SafeStopDefault)))
  }

  /** One node execution. */
  function Exec(cfg: Config, h: Harness, o: Oracle): Harness {
    match h.node
    case InjectMemory => ExecInjectMemory(cfg, h)
    case Agent => ExecAgent(cfg, h, o)
    case Tools => ExecTools(h, o)
    case CheckProgress => ExecCheckProgress(h, o)
    case HandleError => ExecHandleError(cfg, h, o)
    case NudgePendingTodos => ExecNudge(h)
    case GateDecomposition => ExecGateDecomposition(h, o)
    case SufficiencyGate => ExecSufficiencyGate(cfg, h, o)
    case Critic => ExecCritic(h, o)
    case SufficiencyApply => ExecSufficiencyApply(cfg, h)
    case ExtractMemoryFinal => h.(node := End)
    case SafeStop => ExecSafeStop(h)
    case End => h
  }

  /** A fresh thread: nothing decided yet. The ledger and the error counter outlive threads, so they are arbitrary. */
  predicate Fresh(h: Harness) {
    && h.node == InjectMemory
    && h.g.exitReason.None? && h.g.errorInfo.None?
    && h.g.pendingNudges == 0 && h.g.lastNudgeUnfinished.None?
    && !h.g.decompositionConfirmed
    && h.g.sufficiencyIterations == 0 && h.g.sufficiencyHistory == []
    && h.g.lastVerdict.None? && h.g.gateLevel.None?
  }

  /** State number `k + 1` of `run` is one node execution after state number `k`. */
  ghost predicate StepAt(cfg: Config, run: nat -> Harness, f: nat -> Oracle, k: nat) {
    run(k + 1) == Exec(cfg, run(k), f(k))
  }

  /** `run` lists the states of one fresh thread, node execution by node execution, under oracle `f`. */
  ghost predicate Run(cfg: Config, run: nat -> Harness, f: nat -> Oracle) {
    Fresh(run(0)) && forall k: nat :: StepAt(cfg, run, f, k)
  }

  /** The state after `n` node executions. */
  function StateAt(cfg: Config, h: Harness, f: nat -> Oracle, n: nat): Harness {
    if n == 0 then h else Exec(cfg, StateAt(cfg, h, f, n - 1), f(n - 1))
  }

  /** Every fresh thread has a run under every oracle. */
  lemma RunExists(cfg: Config, h: Harness, f: nat -> Oracle) returns (run: nat -> Harness)
    requires Fresh(h)
    ensures Run(cfg, run, f) && run(0) == h
    ensures forall n: nat :: run(n) == StateAt(cfg, h, f, n)
  {
    run := (n: nat) => StateAt(cfg, h, f, n);
    forall k: nat ensures StepAt(cfg, run, f, k) {
      assert run(k + 1) == StateAt(cfg, h, f, k + 1) == Exec(cfg, StateAt(cfg, h, f, k), f(k));
    }
  }
}
