/** Why a run stopped: each exit reason and what decides it. */
module LoopExits {
  import opened Prelude
  import opened TodoLedger
  import opened Sufficiency
  import opened AgentLoop
  import opened LoopSafety
  import opened LoopErrors
  import R = Resilience

  // ---------- what a run counts ----------

  /** Executions of `node` among the first `n` node executions. */
  ghost function Executions(run: nat -> Harness, node: Node, n: nat): nat {
    if n == 0 then 0 else Executions(run, node, n - 1) + if run(n - 1).node == node then 1 else 0
  }

  lemma TurnStep(cfg: Config, h: Harness, o: Oracle)
    ensures var t := Exec(cfg, h, o);
            && t.node != InjectMemory
            && (h.node == InjectMemory ==> t.g.iteration == 0 && t.g.maxIterations == cfg.maxIterations)
            && (h.node != InjectMemory ==>
                  && t.g.iteration == h.g.iteration + (if h.node == Agent then 1 else 0)
                  && t.g.maxIterations == h.g.maxIterations)
  {
    hide CountsOf, GatedCall, Evaluate, HeuristicVerdictForLow, TodoRatio, ApplyVerdict;
    match h.node
    case Agent => assert Exec(cfg, h, o) == ExecAgent(cfg, h, o);
    case HandleError => assert Exec(cfg, h, o) == ExecHandleError(cfg, h, o);
    case SufficiencyGate => assert Exec(cfg, h, o) == ExecSufficiencyGate(cfg, h, o);
    case SufficiencyApply => assert Exec(cfg, h, o) == ExecSufficiencyApply(cfg, h);
    case _ =>
  }

  /** The turn counter counts the agent's turns, against the configured limit. */
  lemma {:induction false} TurnsCounted(cfg: Config, run: nat -> Harness, f: nat -> Oracle, n: nat)
    requires Run(cfg, run, f)
    ensures n > 0 ==> run(n).node != InjectMemory
    ensures n > 0 ==> run(n).g.iteration == Executions(run, Agent, n) && run(n).g.maxIterations == cfg.maxIterations
  {
    hide Exec;
    if n > 0 {
      TurnsCounted(cfg, run, f, n - 1);
      assert StepAt(cfg, run, f, n - 1);
      TurnStep(cfg, run(n - 1), f(n - 1));
    }
  }

  /** Checks of the progress guard that were not OK, among the first `n` node executions. */
  ghost function Stalls(run: nat -> Harness, f: nat -> Oracle, n: nat): nat {
    if n == 0 then 0
    else Stalls(run, f, n - 1) + if run(n - 1).node == CheckProgress && f(n - 1).guard != GuardOk then 1 else 0
  }

  lemma StallStep(cfg: Config, h: Harness, o: Oracle)
    ensures Exec(cfg, h, o).g.stallCount ==
            if h.node == InjectMemory then 0
            else h.g.stallCount + if h.node == CheckProgress && o.guard != GuardOk then 1 else 0
  {
    hide CountsOf, GatedCall, Evaluate, HeuristicVerdictForLow, TodoRatio, ApplyVerdict;
    match h.node
    case Agent => assert Exec(cfg, h, o) == ExecAgent(cfg, h, o);
    case HandleError => assert Exec(cfg, h, o) == ExecHandleError(cfg, h, o);
    case SufficiencyGate => assert Exec(cfg, h, o) == ExecSufficiencyGate(cfg, h, o);
    case SufficiencyApply => assert Exec(cfg, h, o) == ExecSufficiencyApply(cfg, h);
    case _ =>
  }

  lemma {:induction false} StallsCounted(cfg: Config, run: nat -> Harness, f: nat -> Oracle, n: nat)
    requires Run(cfg, run, f)
    ensures n > 0 ==> run(n).g.stallCount == Stalls(run, f, n)
  {
    hide Exec;
    if n > 0 {
      StallsCounted(cfg, run, f, n - 1);
      TurnsCounted(cfg, run, f, n - 1);
      assert StepAt(cfg, run, f, n - 1);
      StallStep(cfg, run(n - 1), f(n - 1));
    }
  }

  // ---------- what stands behind an error and behind a verdict ----------

  /** Errors are pending only on the way to the handler; a verdict and a level are there whenever one is applied. */
  ghost predicate Ready(h: Harness) {
    && (h.g.errorInfo.Some? ==> h.node == HandleError)
    && (h.node == HandleError ==> h.g.errorInfo.Some?)
    && (h.node == Critic ==> h.g.gateLevel == Some(Medium))
    && (h.node == SufficiencyApply ==> h.g.gateLevel.Some? && h.g.lastVerdict.Some?)
    && (h.node !in {Critic, SufficiencyGate, SufficiencyApply, ExtractMemoryFinal, SafeStop, End} && h.g.lastVerdict.Some? ==>
          Accepted(h.g.lastVerdict.value.kind))
  }

  lemma StepKeepsReady(cfg: Config, h: Harness, o: Oracle)
    requires Ready(h)
    ensures Ready(Exec(cfg, h, o))
  {
    hide CountsOf, GatedCall, Evaluate, HeuristicVerdictForLow, TodoRatio, ApplyVerdict;
    match h.node
    case Agent => assert Exec(cfg, h, o) == ExecAgent(cfg, h, o);
    case HandleError => assert Exec(cfg, h, o) == ExecHandleError(cfg, h, o);
    case SufficiencyGate => assert Exec(cfg, h, o) == ExecSufficiencyGate(cfg, h, o);
    case SufficiencyApply => assert Exec(cfg, h, o) == ExecSufficiencyApply(cfg, h);
    case _ =>
  }

  lemma {:induction false} ReadyInEveryState(cfg: Config, run: nat -> Harness, f: nat -> Oracle, n: nat)
    requires Run(cfg, run, f)
    ensures Ready(run(n))
  {
    hide Exec;
    if n > 0 {
      ReadyInEveryState(cfg, run, f, n - 1);
      assert StepAt(cfg, run, f, n - 1);
      StepKeepsReady(cfg, run(n - 1), f(n - 1));
    }
  }

  lemma EntersHandler(cfg: Config, h: Harness, o: Oracle)
    requires Ready(h)
    ensures Exec(cfg, h, o).node == HandleError <==> h.node == Agent && o.agent.Failed?
    ensures Exec(cfg, h, o).node == HandleError ==> Exec(cfg, h, o).g.errorInfo == Some(o.agent.fault)
  {
    hide CountsOf, GatedCall, Evaluate, HeuristicVerdictForLow, TodoRatio, ApplyVerdict;
  }

  /** The handler runs exactly after a turn whose call failed, and what it handles is that failure. */
  lemma HandlerMeets(cfg: Config, run: nat -> Harness, f: nat -> Oracle, n: nat)
    requires Run(cfg, run, f)
    ensures run(n).node == HandleError <==> n > 0 && run(n - 1).node == Agent && f(n - 1).agent.Failed?
    ensures run(n).node == HandleError ==> run(n).g.errorInfo == Some(f(n - 1).agent.fault)
  {
    hide Exec, Ready;
    if n > 0 {
      ReadyInEveryState(cfg, run, f, n - 1);
      assert StepAt(cfg, run, f, n - 1);
      EntersHandler(cfg, run(n - 1), f(n - 1));
    }
  }

  lemma EntersApply(cfg: Config, h: Harness, o: Oracle)
    requires Ready(h) && Exec(cfg, h, o).node == SufficiencyApply
    ensures var t := Exec(cfg, h, o);
            || (h.node == SufficiencyGate && t.g.gateLevel == Some(Low))
            || (h.node == Critic && t.g.gateLevel == Some(Medium) && t.g.lastVerdict == Some(o.critic))
  {
    hide CountsOf, GatedCall, Evaluate, HeuristicVerdictForLow, TodoRatio, ApplyVerdict;
  }

  /** What is applied is the rule gate's own verdict on a LOW gate, or the critic's on a MEDIUM one. */
  lemma VerdictCameFrom(cfg: Config, run: nat -> Harness, f: nat -> Oracle, n: nat)
    requires Run(cfg, run, f) && run(n).node == SufficiencyApply
    ensures n > 0 && run(n).g.lastVerdict.Some?
    ensures || (run(n - 1).node == SufficiencyGate && run(n).g.gateLevel == Some(Low))
            || (run(n - 1).node == Critic && run(n).g.gateLevel == Some(Medium)
                && run(n).g.lastVerdict == Some(f(n - 1).critic))
  {
    hide Exec;
    assert n > 0;
    ReadyInEveryState(cfg, run, f, n);
    ReadyInEveryState(cfg, run, f, n - 1);
    assert StepAt(cfg, run, f, n - 1);
    EntersApply(cfg, run(n - 1), f(n - 1));
  }

  lemma EntersSafeStop(cfg: Config, h: Harness, o: Oracle)
    requires Ready(h) && EndingsOk(h) && Exec(cfg, h, o).g.exitReason.None?
    ensures Exec(cfg, h, o).node == SafeStop <==>
            h.node == Agent && o.agent.Reply? && (h.g.iteration + 1 >= h.g.maxIterations || o.dangerous)
  {
    hide CountsOf, GatedCall, Evaluate, HeuristicVerdictForLow, TodoRatio, ApplyVerdict;
    match h.node
    case HandleError => assert Exec(cfg, h, o) == ExecHandleError(cfg, h, o);
    case SufficiencyApply => assert Exec(cfg, h, o) == ExecSufficiencyApply(cfg, h);
    case _ =>
  }

  // ---------- what a silent reply leads to ----------

  lemma SilentStep(cfg: Config, h: Harness, o: Oracle)
    requires h.g.errorInfo.None? && h.node == Agent && o.agent == Reply([]) && !o.dangerous
    requires h.g.iteration + 1 < h.g.maxIterations
    ensures Exec(cfg, h, o).node ==
            if UnfinishedRows(h.rows) == 0 then
              if cfg.sufficiencyEnabled && !(h.g.lastVerdict.Some? && h.g.lastVerdict.value.kind == EscalateHitl)
              then SufficiencyGate else ExtractMemoryFinal
            else if ProgressMade(h.g.lastNudgeUnfinished, UnfinishedRows(h.rows)) || h.g.pendingNudges < MAX_STUCK_NUDGES
            then NudgePendingTodos
            else ExtractMemoryFinal
  {
    hide CountsOf, GatedCall;
  }

  lemma ReadyAtAgent(h: Harness)
    requires Ready(h) && h.node == Agent
    ensures h.g.errorInfo.None? && (h.g.lastVerdict.Some? ==> h.g.lastVerdict.value.kind != EscalateHitl)
  {
  }

  lemma StartsAtInject(h: Harness)
    requires Fresh(h)
    ensures h.node == InjectMemory
  {
  }

  /** A reply without calls, with turns to spare and no danger: while rows are unfinished the agent is nudged, until
      three nudges in a row saw no progress; when none is, the loop judges the result, if it is to. The guard against
      judging an escalated result again never fires: no agent turn follows an escalation. */
  lemma SilentReplyLeads(cfg: Config, run: nat -> Harness, f: nat -> Oracle, n: nat)
    requires Run(cfg, run, f) && run(n).node == Agent && f(n).agent == Reply([]) && !f(n).dangerous
    requires Executions(run, Agent, n) + 1 < cfg.maxIterations
    ensures var unfinished := |Positions(run(n).rows, Pending)| + |Positions(run(n).rows, InProgress)|;
            run(n + 1).node ==
            if unfinished == 0 then (if cfg.sufficiencyEnabled then SufficiencyGate else ExtractMemoryFinal)
            else if ThreeNudgesWithoutProgress(NudgeLog(run, n), unfinished) then ExtractMemoryFinal
            else NudgePendingTodos
  {
    hide Exec, Ready, Fresh, CountsOf, Positions, Executions, HistorySafe, EndingsOk;
    assert StepAt(cfg, run, f, n);
    TurnsCounted(cfg, run, f, n);
    ReadyInEveryState(cfg, run, f, n);
    ReadyAtAgent(run(n));
    if n == 0 { StartsAtInject(run(0)); }
    LogInEveryState(cfg, run, f, n);
    EveryStateSafe(cfg, run, f, n);
    CountsAreRows(run(n).rows);
    SilentStep(cfg, run(n), f(n));
  }

  /** A nudge goes back to the agent with the ledger as it was and no calls pending. */
  lemma NudgeObeyed(cfg: Config, run: nat -> Harness, f: nat -> Oracle, n: nat)
    requires Run(cfg, run, f) && run(n).node == NudgePendingTodos
    ensures run(n + 1).node == Agent && run(n + 1).g.calls == [] && run(n + 1).rows == run(n).rows
  {
    hide CountsOf;
    assert StepAt(cfg, run, f, n);
  }

  // ---------- the causes ----------

  /** The error handler meets `e`, not the third error in a row, and has no retry left for it. */
  ghost predicate RetriesUsedUp(run: nat -> Harness, f: nat -> Oracle, k: nat, e: R.Fault) {
    && k > 0 && run(k).node == HandleError && f(k - 1).agent == Failed(e)
    && ErrorsSinceTools(run, k) + 1 < MAX_CONSECUTIVE_ERRORS
    && f(k).retryCount >= R.RetriesAllowed(e)
  }

  /** The verdict asks for the user, or for a retry that was tried a moment ago or is one too many. */
  ghost predicate Escalates(cfg: Config, g: GraphState) {
    && g.lastVerdict.Some? && g.gateLevel.Some?
    && var v, level, past := g.lastVerdict.value, g.gateLevel.value, g.sufficiencyHistory;
       || v.kind == EscalateHitl
       || (v.kind != Pass &&
           (|past| >= cfg.maxSufficiency || Repeats(past, cfg.hash(level, v.kind, v.target))))
  }

  /** The node execution numbered `k` decides that the run stops for reason `x`. */
  ghost predicate Causes(cfg: Config, run: nat -> Harness, f: nat -> Oracle, k: nat, x: Exit) {
    match x
    case ProgressGuardStop => run(k).node == CheckProgress && f(k).guard == GuardStop
    case ConsecutiveErrors(count) =>
      run(k).node == HandleError && count == ErrorsSinceTools(run, k) + 1 && count >= MAX_CONSECUTIVE_ERRORS
    case AllModelsExhausted =>
      exists e :: RetriesUsedUp(run, f, k, e) && cfg.fallbackEnabled && R.MayFallBack(e)
                  && run(k).g.tier in {R.Fast, R.OtherTier}
    case ErrorAbort =>
      exists e :: RetriesUsedUp(run, f, k, e) && !(cfg.fallbackEnabled && R.MayFallBack(e))
    case SufficiencyEscalated => run(k).node == SufficiencyApply && Escalates(cfg, run(k).g)
    case SafeStopDefault =>
      && k > 0 && run(k - 1).node == Agent && f(k - 1).agent.Reply?
      && (Executions(run, Agent, k) >= cfg.maxIterations || f(k - 1).dangerous)
  }

  lemma CycleIsRecent(history: seq<Entry>, h: string)
    ensures DetectCycle(history, h) <==> Repeats(history, h)
  {
  }

  lemma ApplyDecides(cfg: Config, h: Harness)
    requires h.node == SufficiencyApply && Ready(h) && h.g.exitReason.None?
    requires |h.g.sufficiencyHistory| == h.g.sufficiencyIterations
    ensures ExecSufficiencyApply(cfg, h).g.exitReason == if Escalates(cfg, h.g) then Some(SufficiencyEscalated) else None
  {
    hide DetectCycle;
    var v, level := h.g.lastVerdict.value, h.g.gateLevel.value;
    CycleIsRecent(h.g.sufficiencyHistory, cfg.hash(level, v.kind, v.target));
  }

  lemma HandlerDecides(cfg: Config, h: Harness, o: Oracle, e: R.Fault)
    requires h.node == HandleError && h.g.errorInfo == Some(e) && h.g.exitReason.None?
    ensures ExecHandleError(cfg, h, o).g.exitReason ==
            if h.consecutiveErrors + 1 >= MAX_CONSECUTIVE_ERRORS then Some(ConsecutiveErrors(h.consecutiveErrors + 1))
            else if o.retryCount < R.RetriesAllowed(e) then None
            else if !(cfg.fallbackEnabled && R.MayFallBack(e)) then Some(ErrorAbort)
            else if h.g.tier in {R.Fast, R.OtherTier} then Some(AllModelsExhausted)
            else None
  {
    hide R.Handle, R.Classify, R.RetriesAllowed, R.MayFallBack, R.NextTier;
    R.HandlerAnswers(e, o.retryCount, h.g.tier, cfg.fallbackEnabled);
  }

  lemma OthersDecideNothing(cfg: Config, h: Harness, o: Oracle)
    requires h.node !in {CheckProgress, HandleError, SufficiencyApply, SafeStop}
    ensures Exec(cfg, h, o).g.exitReason == h.g.exitReason
  {
    hide CountsOf, GatedCall, Evaluate, HeuristicVerdictForLow, TodoRatio;
  }

  lemma GuardDecides(cfg: Config, h: Harness, o: Oracle)
    requires h.node == CheckProgress && h.g.exitReason.None?
    ensures Exec(cfg, h, o).g.exitReason == if o.guard == GuardStop then Some(ProgressGuardStop) else None
  {
  }

  lemma SafeStopDecides(cfg: Config, h: Harness, o: Oracle)
    requires h.node == SafeStop && h.g.exitReason.None?
    ensures Exec(cfg, h, o).g.exitReason == Some(SafeStopDefault)
  {
  }

  /** Not yet stopped, a run stops for `x` at this node execution exactly if the execution is a cause of `x`. */
  lemma StepDecides(cfg: Config, run: nat -> Harness, f: nat -> Oracle, k: nat, x: Exit)
    requires Run(cfg, run, f) && run(k).g.exitReason.None?
    ensures run(k + 1).g.exitReason == Some(x) <==> Causes(cfg, run, f, k, x)
  {
    hide Exec, Fresh, NudgesOk, HistorySafe, Ready, Escalates, ErrorsSinceTools, Executions, EndingsOk,
         R.RetriesAllowed, R.MayFallBack;
    assert StepAt(cfg, run, f, k);
    var h, o := run(k), f(k);
    HandlerMeets(cfg, run, f, k);
    SafeStopFrom(cfg, run, f, k);
    match h.node
    case CheckProgress => GuardDecides(cfg, h, o);
    case HandleError =>
      CounterMeans(cfg, run, f, k);
      HandlerDecides(cfg, h, o, f(k - 1).agent.fault);
      assert Exec(cfg, h, o) == ExecHandleError(cfg, h, o) by { ExecAt(cfg, h, o); }
      if x.AllModelsExhausted? || x.ErrorAbort? {
        assert forall e :: RetriesUsedUp(run, f, k, e) ==> e == f(k - 1).agent.fault;
        assert RetriesUsedUp(run, f, k, f(k - 1).agent.fault) <==>
               && ErrorsSinceTools(run, k) + 1 < MAX_CONSECUTIVE_ERRORS
               && o.retryCount >= R.RetriesAllowed(f(k - 1).agent.fault);
      }
    case SufficiencyApply =>
      ReadyInEveryState(cfg, run, f, k);
      HistoryInEveryState(cfg, run, f, k);
      ApplyDecides(cfg, h);
      assert Exec(cfg, h, o) == ExecSufficiencyApply(cfg, h) by { ExecAt(cfg, h, o); }
    case SafeStop => SafeStopDecides(cfg, h, o);
    case _ => OthersDecideNothing(cfg, h, o);
  }

  lemma ExecAt(cfg: Config, h: Harness, o: Oracle)
    ensures h.node == HandleError ==> Exec(cfg, h, o) == ExecHandleError(cfg, h, o)
    ensures h.node == SufficiencyApply ==> Exec(cfg, h, o) == ExecSufficiencyApply(cfg, h)
  {
    hide ExecHandleError, ExecSufficiencyApply;
  }

  /** A run comes to `safe_stop` without a reason exactly from a reply at the turn limit or in danger. */
  lemma SafeStopFrom(cfg: Config, run: nat -> Harness, f: nat -> Oracle, k: nat)
    requires Run(cfg, run, f) && run(k).g.exitReason.None?
    ensures run(k).node == SafeStop <==> Causes(cfg, run, f, k, SafeStopDefault)
  {
    hide Exec, NudgesOk, HistorySafe, Ready, EndingsOk, Executions;
    if k > 0 {
      assert StepAt(cfg, run, f, k - 1);
      EveryStateSafe(cfg, run, f, k - 1);
      ReadyInEveryState(cfg, run, f, k - 1);
      EntersSafeStop(cfg, run(k - 1), f(k - 1));
      TurnsCounted(cfg, run, f, k - 1);
      TurnsCounted(cfg, run, f, k);
      NoReasonBefore(cfg, run(k - 1), f(k - 1));
      assert run(k - 1).node == Agent ==> k - 1 > 0;
      TurnStep(cfg, run(k - 1), f(k - 1));
    }
  }

  lemma NoReasonBefore(cfg: Config, h: Harness, o: Oracle)
    requires Exec(cfg, h, o).g.exitReason.None?
    ensures h.g.exitReason.None?
  {
    hide CountsOf, GatedCall, Evaluate, HeuristicVerdictForLow, TodoRatio, ApplyVerdict;
    match h.node
    case SufficiencyApply => assert Exec(cfg, h, o) == ExecSufficiencyApply(cfg, h);
    case HandleError => assert Exec(cfg, h, o) == ExecHandleError(cfg, h, o);
    case _ =>
  }

  lemma ReasonStays(cfg: Config, h: Harness, o: Oracle)
    requires EndingsOk(h) && h.g.exitReason.Some?
    ensures Exec(cfg, h, o).g.exitReason == h.g.exitReason && Exec(cfg, h, o).node == End
  {
    hide CountsOf, ExecInjectMemory, ExecAgent, ExecTools, ExecCheckProgress, ExecHandleError, ExecNudge, ExecGateDecomposition,
         ExecSufficiencyGate, ExecCritic, ExecSufficiencyApply;
  }

  /** A cause finds the run not yet stopped: nothing that could be a cause follows a reason. */
  lemma CausesComeFirst(cfg: Config, run: nat -> Harness, f: nat -> Oracle, k: nat, x: Exit)
    requires Run(cfg, run, f) && Causes(cfg, run, f, k, x)
    ensures run(k).g.exitReason.None?
  {
    hide Exec, NudgesOk, HistorySafe, EndingsOk, Causes, Fresh;
    CauseAt(cfg, run, f, k, x);
    EveryStateSafe(cfg, run, f, k);
    NoReasonAt(run(k));
    if x == SafeStopDefault {
      EveryStateSafe(cfg, run, f, k - 1);
      NoReasonAt(run(k - 1));
      assert StepAt(cfg, run, f, k - 1);
      OthersDecideNothing(cfg, run(k - 1), f(k - 1));
    }
  }

  lemma NoReasonAt(h: Harness)
    requires EndingsOk(h)
    ensures h.node !in {ExtractMemoryFinal, SafeStop, End} ==> h.g.exitReason.None?
  {
    hide CountsOf;
  }

  lemma CauseAt(cfg: Config, run: nat -> Harness, f: nat -> Oracle, k: nat, x: Exit)
    requires Causes(cfg, run, f, k, x)
    ensures if x == SafeStopDefault then k > 0 && run(k - 1).node == Agent
            else run(k).node in {CheckProgress, HandleError, SufficiencyApply}
  {
    hide Escalates, ErrorsSinceTools, Executions;
  }

  /** A run has stopped for reason `x` exactly if one of its node executions was a cause of `x`. */
  lemma {:induction false} ExitIff(cfg: Config, run: nat -> Harness, f: nat -> Oracle, n: nat, x: Exit)
    requires Run(cfg, run, f)
    ensures run(n).g.exitReason == Some(x) <==> exists k :: 0 <= k < n && Causes(cfg, run, f, k, x)
  {
    hide Exec, NudgesOk, HistorySafe, EndingsOk, Causes;
    if n > 0 {
      ExitIff(cfg, run, f, n - 1, x);
      assert StepAt(cfg, run, f, n - 1);
      if run(n - 1).g.exitReason.Some? {
        EveryStateSafe(cfg, run, f, n - 1);
        ReasonStays(cfg, run(n - 1), f(n - 1));
        if Causes(cfg, run, f, n - 1, x) {
          CausesComeFirst(cfg, run, f, n - 1, x);
        }
      } else {
        StepDecides(cfg, run, f, n - 1, x);
      }
    }
  }

  /** Once decided, a run is over with the next node execution but one, and keeps its reason. */
  lemma CauseEndsRun(cfg: Config, run: nat -> Harness, f: nat -> Oracle, k: nat, x: Exit)
    requires Run(cfg, run, f) && Causes(cfg, run, f, k, x)
    ensures run(k + 1).g.exitReason == run(k + 2).g.exitReason == Some(x)
    ensures run(k + 1).node == (if x == SufficiencyEscalated then ExtractMemoryFinal
                                else if x == SafeStopDefault then End else SafeStop)
    ensures run(k + 2).node == End
  {
    hide Exec, NudgesOk, HistorySafe, EndingsOk, Causes, Fresh;
    CausesComeFirst(cfg, run, f, k, x);
    StepDecides(cfg, run, f, k, x);
    assert StepAt(cfg, run, f, k) && StepAt(cfg, run, f, k + 1);
    EveryStateSafe(cfg, run, f, k);
    EveryStateSafe(cfg, run, f, k + 1);
    ReasonStays(cfg, run(k + 1), f(k + 1));
    DecidedAt(cfg, run(k), f(k));
  }

  lemma DecidedAt(cfg: Config, h: Harness, o: Oracle)
    requires EndingsOk(h) && h.g.exitReason.None? && Exec(cfg, h, o).g.exitReason.Some?
    ensures var t := Exec(cfg, h, o);
            t.node == (if t.g.exitReason == Some(SufficiencyEscalated) then ExtractMemoryFinal
                       else if t.g.exitReason == Some(SafeStopDefault) then End else SafeStop)
  {
    hide CountsOf, GatedCall, Evaluate, HeuristicVerdictForLow, TodoRatio, ApplyVerdict;
    match h.node
    case SufficiencyApply => assert Exec(cfg, h, o) == ExecSufficiencyApply(cfg, h);
    case HandleError => assert Exec(cfg, h, o) == ExecHandleError(cfg, h, o);
    case _ =>
  }

  /** The progress guard's STOP is obeyed at once. */
  lemma GuardStopObeyed(cfg: Config, run: nat -> Harness, f: nat -> Oracle, n: nat)
    requires Run(cfg, run, f) && run(n).node == CheckProgress && f(n).guard == GuardStop
    ensures run(n + 1).node == SafeStop && run(n + 1).g.exitReason == Some(ProgressGuardStop)
    ensures run(n + 2).node == End && run(n + 2).g.exitReason == Some(ProgressGuardStop)
  {
    CauseEndsRun(cfg, run, f, n, ProgressGuardStop);
  }

  /** A verdict sends the agent back exactly if it asks for a retry and does not escalate. */
  lemma ApplyLeadsBack(cfg: Config, run: nat -> Harness, f: nat -> Oracle, n: nat)
    requires Run(cfg, run, f) && run(n).node == SufficiencyApply
    ensures run(n).g.lastVerdict.Some?
    ensures run(n + 1).node == Agent <==> run(n).g.lastVerdict.value.kind != Pass && !Escalates(cfg, run(n).g)
    ensures run(n + 1).node != Agent ==> run(n + 1).node == ExtractMemoryFinal && run(n + 2).node == End
    ensures run(n + 1).g.gateLevel.None? && (run(n + 1).node == Agent ==> run(n + 1).g.calls == [])
  {
    hide Exec, Fresh, NudgesOk, HistorySafe, Escalates;
    assert StepAt(cfg, run, f, n) && StepAt(cfg, run, f, n + 1);
    ReadyInEveryState(cfg, run, f, n);
    HistoryInEveryState(cfg, run, f, n);
    EveryStateSafe(cfg, run, f, n);
    ExecAt(cfg, run(n), f(n));
    ApplyDecides(cfg, run(n));
    AppliedNext(cfg, run(n));
    HistoryFieldsKept(cfg, run(n + 1), f(n + 1));
  }

  lemma AppliedNext(cfg: Config, h: Harness)
    requires h.node == SufficiencyApply && Ready(h) && h.g.exitReason.None?
    ensures var t := ExecSufficiencyApply(cfg, h);
            && t.node == (if t.g.exitReason.Some? || h.g.lastVerdict.value.kind == Pass then ExtractMemoryFinal else Agent)
            && t.g.gateLevel.None? && (t.node == Agent ==> t.g.calls == [])
  {
    hide DetectCycle;
  }

  // ---------- moving on to another model ----------

  lemma HandlerMovesTier(cfg: Config, h: Harness, o: Oracle, e: R.Fault)
    requires h.node == HandleError && h.g.errorInfo == Some(e)
    ensures ExecHandleError(cfg, h, o).g.tier ==
            if h.consecutiveErrors + 1 < MAX_CONSECUTIVE_ERRORS && o.retryCount >= R.RetriesAllowed(e)
               && cfg.fallbackEnabled && R.MayFallBack(e) && h.g.tier !in {R.Fast, R.OtherTier}
            then R.NextTier(h.g.tier).value else h.g.tier
  {
    hide R.Handle, R.Classify, R.RetriesAllowed, R.MayFallBack, R.NextTier;
    R.HandlerAnswers(e, o.retryCount, h.g.tier, cfg.fallbackEnabled);
  }

  /** The handler moves on to the next tier exactly if it has no retry left for an error that may fall back, and a
      tier to fall back to; otherwise, unless it stops the run, the same tier tries again. */
  lemma FallsBackIff(cfg: Config, run: nat -> Harness, f: nat -> Oracle, n: nat)
    requires Run(cfg, run, f) && run(n).node == HandleError
    ensures run(n + 1).g.tier == run(n).g.tier || R.NextTier(run(n).g.tier) == Some(run(n + 1).g.tier)
    ensures R.NextTier(run(n).g.tier) == Some(run(n + 1).g.tier) <==>
            && cfg.fallbackEnabled && R.NextTier(run(n).g.tier).Some?
            && exists e :: RetriesUsedUp(run, f, n, e) && R.MayFallBack(e)
  {
    hide Exec, Fresh, ErrorsSinceTools, R.RetriesAllowed, R.MayFallBack;
    assert StepAt(cfg, run, f, n);
    HandlerMeets(cfg, run, f, n);
    CounterMeans(cfg, run, f, n);
    var e := f(n - 1).agent.fault;
    HandlerMovesTier(cfg, run(n), f(n), e);
    ExecAt(cfg, run(n), f(n));
    assert RetriesUsedUp(run, f, n, e) <==> ErrorsSinceTools(run, n) + 1 < MAX_CONSECUTIVE_ERRORS
                                            && f(n).retryCount >= R.RetriesAllowed(e);
    assert forall e' :: RetriesUsedUp(run, f, n, e') ==> e' == e;
  }

  // ---------- the mark for a human ----------

  lemma MarkStep(cfg: Config, h: Harness, o: Oracle)
    requires h.g.exitReason.None?
    ensures Exec(cfg, h, o).g.needsHumanReview <==>
            h.g.needsHumanReview || Exec(cfg, h, o).g.exitReason == Some(SufficiencyEscalated)
  {
    hide CountsOf, GatedCall, Evaluate, HeuristicVerdictForLow, TodoRatio, ApplyVerdict;
    match h.node
    case Agent => assert Exec(cfg, h, o) == ExecAgent(cfg, h, o);
    case HandleError => assert Exec(cfg, h, o) == ExecHandleError(cfg, h, o);
    case SufficiencyGate => assert Exec(cfg, h, o) == ExecSufficiencyGate(cfg, h, o);
    case SufficiencyApply => assert Exec(cfg, h, o) == ExecSufficiencyApply(cfg, h);
    case _ =>
  }

  lemma MarkStays(cfg: Config, h: Harness, o: Oracle)
    requires EndingsOk(h) && h.g.exitReason.Some?
    ensures Exec(cfg, h, o).g.needsHumanReview == h.g.needsHumanReview
  {
    hide CountsOf, ExecInjectMemory, ExecAgent, ExecTools, ExecCheckProgress, ExecHandleError, ExecNudge, ExecGateDecomposition,
         ExecSufficiencyGate, ExecCritic, ExecSufficiencyApply;
  }

  /** A run is marked for human review exactly if it was before or has escalated. */
  lemma {:induction false} MarkedIff(cfg: Config, run: nat -> Harness, f: nat -> Oracle, n: nat)
    requires Run(cfg, run, f)
    ensures run(n).g.needsHumanReview <==> run(0).g.needsHumanReview || run(n).g.exitReason == Some(SufficiencyEscalated)
  {
    hide Exec, NudgesOk, HistorySafe, EndingsOk;
    if n > 0 {
      MarkedIff(cfg, run, f, n - 1);
      assert StepAt(cfg, run, f, n - 1);
      EveryStateSafe(cfg, run, f, n - 1);
      if run(n - 1).g.exitReason.Some? {
        ReasonStays(cfg, run(n - 1), f(n - 1));
        MarkStays(cfg, run(n - 1), f(n - 1));
      } else {
        MarkStep(cfg, run(n - 1), f(n - 1));
      }
    }
  }
}
