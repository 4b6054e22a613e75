/** What the loop's error counter counts, and how the model tier moves. */
module LoopErrors {
  import opened Prelude
  import opened TodoLedger
  import opened Sufficiency
  import opened AgentLoop
  import R = Resilience

  /** Error-handler executions since tools last ran, on top of what the counter held when the thread began. */
  ghost function ErrorsSinceTools(run: nat -> Harness, n: nat): nat {
    if n == 0 then run(0).consecutiveErrors
    else if run(n - 1).node == CheckProgress then 0
    else ErrorsSinceTools(run, n - 1) + if run(n - 1).node == HandleError then 1 else 0
  }

  lemma CounterStep(cfg: Config, h: Harness, o: Oracle)
    ensures Exec(cfg, h, o).consecutiveErrors ==
            if h.node == CheckProgress then 0 else h.consecutiveErrors + if h.node == HandleError then 1 else 0
  {
    hide CountsOf, GatedCall, Evaluate, HeuristicVerdictForLow, TodoRatio, ApplyVerdict;
  }

  /** The counter is reset by executed tools only: replies, nudges and retries in between do not make
      errors any less "consecutive". */
  lemma {:induction false} CounterMeans(cfg: Config, run: nat -> Harness, f: nat -> Oracle, n: nat)
    requires Run(cfg, run, f)
    ensures run(n).consecutiveErrors == ErrorsSinceTools(run, n)
  {
    hide Exec;
    if n > 0 {
      CounterMeans(cfg, run, f, n - 1);
      CounterStep(cfg, run(n - 1), f(n - 1));
      assert StepAt(cfg, run, f, n - 1);
    }
  }

  predicate GaveUpOnErrors(h: Harness) {
    h.g.exitReason.Some? && h.g.exitReason.value.ConsecutiveErrors?
  }

  lemma GivesUpOnlyInHandler(cfg: Config, h: Harness, o: Oracle)
    requires !GaveUpOnErrors(h)
    ensures GaveUpOnErrors(Exec(cfg, h, o)) <==> h.node == HandleError && h.consecutiveErrors + 1 >= MAX_CONSECUTIVE_ERRORS
  {
    hide CountsOf, GatedCall, Evaluate, HeuristicVerdictForLow, TodoRatio, ApplyVerdict;
    match h.node
    case HandleError =>
    case SufficiencyApply => assert Exec(cfg, h, o) == ExecSufficiencyApply(cfg, h);
    case _ =>
  }

  lemma FreshHasNotGivenUp(h: Harness)
    requires Fresh(h)
    ensures !GaveUpOnErrors(h)
  {
  }

  /** A run that gives up on errors had its third (or later) error since tools last ran. */
  lemma {:induction false} GaveUpMeans(cfg: Config, run: nat -> Harness, f: nat -> Oracle, n: nat)
    requires Run(cfg, run, f) && GaveUpOnErrors(run(n))
    ensures exists k :: 0 <= k < n && run(k).node == HandleError && ErrorsSinceTools(run, k) + 1 >= MAX_CONSECUTIVE_ERRORS
  {
    hide Exec, GaveUpOnErrors, Fresh, ErrorsSinceTools;
    if n == 0 {
      FreshHasNotGivenUp(run(0));
    } else if GaveUpOnErrors(run(n - 1)) {
      GaveUpMeans(cfg, run, f, n - 1);
    } else {
      assert StepAt(cfg, run, f, n - 1);
      GivesUpOnlyInHandler(cfg, run(n - 1), f(n - 1));
      CounterMeans(cfg, run, f, n - 1);
    }
  }

  lemma GivenUpStays(cfg: Config, h: Harness, o: Oracle)
    requires GaveUpOnErrors(h) && h.node in {SafeStop, End}
    ensures GaveUpOnErrors(Exec(cfg, h, o)) && Exec(cfg, h, o).node in {SafeStop, End}
  {
  }

  lemma GivesUpInHandler(cfg: Config, h: Harness, o: Oracle)
    requires h.node == HandleError && h.consecutiveErrors + 1 >= MAX_CONSECUTIVE_ERRORS
    ensures GaveUpOnErrors(Exec(cfg, h, o)) && Exec(cfg, h, o).node == SafeStop
  {
  }

  lemma {:induction false} ThirdErrorEnds(cfg: Config, run: nat -> Harness, f: nat -> Oracle, k: nat, n: nat)
    requires Run(cfg, run, f) && k < n
    requires run(k).node == HandleError && ErrorsSinceTools(run, k) + 1 >= MAX_CONSECUTIVE_ERRORS
    ensures GaveUpOnErrors(run(n)) && run(n).node in {SafeStop, End}
  {
    hide Exec, GaveUpOnErrors, Fresh, ErrorsSinceTools;
    assert StepAt(cfg, run, f, n - 1);
    if n == k + 1 {
      CounterMeans(cfg, run, f, k);
      GivesUpInHandler(cfg, run(k), f(k));
    } else {
      ThirdErrorEnds(cfg, run, f, k, n - 1);
      GivenUpStays(cfg, run(n - 1), f(n - 1));
    }
  }

  /** A run has given up on errors exactly if the error handler has met a third error since tools last ran. */
  lemma GaveUpIff(cfg: Config, run: nat -> Harness, f: nat -> Oracle, n: nat)
    requires Run(cfg, run, f)
    ensures GaveUpOnErrors(run(n)) <==>
            exists k :: 0 <= k < n && run(k).node == HandleError && ErrorsSinceTools(run, k) + 1 >= MAX_CONSECUTIVE_ERRORS
  {
    hide Exec, GaveUpOnErrors, Fresh, ErrorsSinceTools;
    if GaveUpOnErrors(run(n)) {
      GaveUpMeans(cfg, run, f, n);
    } else if k :| 0 <= k < n && run(k).node == HandleError && ErrorsSinceTools(run, k) + 1 >= MAX_CONSECUTIVE_ERRORS {
      ThirdErrorEnds(cfg, run, f, k, n);
    }
  }

  // ---------- three different errors, replies and nudges in between ----------

  const TIMEOUT := R.Fault(true, None, false, false)
  const SERVER_ERROR := R.Fault(false, Some(503), false, false)
  const BAD_CALL := R.Fault(false, None, true, true)

  /** The model fails in its first, third and fifth turn, each time in another way, and answers without a
      tool call in the turns between. */
  function ScatteredOracle(n: nat): Oracle {
    var agent :=
      if n == 1 then Failed(TIMEOUT) else if n == 5 then Failed(SERVER_ERROR) else if n == 9 then Failed(BAD_CALL)
      else Reply([]);
    Oracle(agent, false, [], GuardOk, 0, Unknown, Signals(None, None, 1.0, [], []), CriticVerdict(Pass, None, FromCritic))
  }

  /** A thread that starts with unfinished rows and no errors counted. */
  ghost predicate ScatteredRun(cfg: Config, run: nat -> Harness) {
    && cfg.maxIterations >= 5
    && UnfinishedRows(run(0).rows) > 0 && run(0).consecutiveErrors == 0
    && Run(cfg, run, (k: nat) => ScatteredOracle(k))
  }

  /** `s` awaits the agent's turn number `turn + 1` after `errors` errors and `nudges` nudges. */
  ghost predicate AtTurn(cfg: Config, s: Harness, turn: nat, errors: nat, nudges: nat) {
    && s.node == Agent && s.g.iteration == turn && s.g.maxIterations == cfg.maxIterations
    && s.g.errorInfo.None? && s.g.exitReason.None? && s.consecutiveErrors == errors
    && UnfinishedRows(s.rows) > 0 && s.g.pendingNudges == nudges
    && s.g.lastNudgeUnfinished == (if nudges == 0 then None else Some(UnfinishedRows(s.rows)))
  }

  lemma ScatteredStep(cfg: Config, run: nat -> Harness, k: nat)
    requires ScatteredRun(cfg, run)
    ensures run(k + 1) == Exec(cfg, run(k), ScatteredOracle(k))
  {
    assert StepAt(cfg, run, (k: nat) => ScatteredOracle(k), k);
  }

  lemma ErrorTurn(cfg: Config, s: Harness, turn: nat, errors: nat, nudges: nat, o: Oracle, o': Oracle)
    requires AtTurn(cfg, s, turn, errors, nudges) && o.agent.Failed? && o'.retryCount == 0
    ensures Exec(cfg, s, o).node == HandleError
    ensures var t := Exec(cfg, Exec(cfg, s, o), o');
            if errors + 1 < MAX_CONSECUTIVE_ERRORS then AtTurn(cfg, t, turn + 1, errors + 1, nudges)
            else t.node == SafeStop && t.g.exitReason == Some(ConsecutiveErrors(errors + 1))
  {
    hide CountsOf;
    var h := Exec(cfg, s, o);
    assert Exec(cfg, h, o') == ExecHandleError(cfg, h, o');
  }

  lemma NudgedTurn(cfg: Config, s: Harness, turn: nat, errors: nat, nudges: nat, o: Oracle, o': Oracle)
    requires AtTurn(cfg, s, turn, errors, nudges) && o.agent == Reply([]) && !o.dangerous
    requires turn + 1 < cfg.maxIterations && nudges < MAX_STUCK_NUDGES
    ensures Exec(cfg, s, o).node == NudgePendingTodos
    ensures AtTurn(cfg, Exec(cfg, Exec(cfg, s, o), o'), turn + 1, errors, nudges + 1)
  {
    hide CountsOf, GatedCall;
    var h := Exec(cfg, s, o);
    assert h.node == NudgePendingTodos && h.rows == s.rows;
    assert Exec(cfg, h, o') == ExecNudge(h);
  }

  /** Such a run ends as "three consecutive errors", although no two of its errors are alike or adjacent. */
  lemma ScatteredErrorsEndRun(cfg: Config, run: nat -> Harness)
    requires ScatteredRun(cfg, run)
    ensures R.Classify(TIMEOUT) != R.Classify(SERVER_ERROR) && R.Classify(TIMEOUT) != R.Classify(BAD_CALL)
    ensures R.Classify(SERVER_ERROR) != R.Classify(BAD_CALL)
    ensures run(2).node == run(6).node == run(10).node == HandleError
    ensures run(4).node == run(8).node == NudgePendingTodos
    ensures run(11).node == SafeStop && run(11).g.exitReason == Some(ConsecutiveErrors(3))
  {
    hide Exec, AtTurn, ScatteredRun;
    ScatteredStart(cfg, run);
    ScatteredPair(cfg, run, 1);
    ErrorTurn(cfg, run(1), 0, 0, 0, ScatteredOracle(1), ScatteredOracle(2));
    ScatteredPair(cfg, run, 3);
    NudgedTurn(cfg, run(3), 1, 1, 0, ScatteredOracle(3), ScatteredOracle(4));
    ScatteredPair(cfg, run, 5);
    ErrorTurn(cfg, run(5), 2, 1, 1, ScatteredOracle(5), ScatteredOracle(6));
    ScatteredPair(cfg, run, 7);
    NudgedTurn(cfg, run(7), 3, 2, 1, ScatteredOracle(7), ScatteredOracle(8));
    ScatteredPair(cfg, run, 9);
    ErrorTurn(cfg, run(9), 4, 2, 2, ScatteredOracle(9), ScatteredOracle(10));
  }

  lemma ScatteredPair(cfg: Config, run: nat -> Harness, k: nat)
    requires ScatteredRun(cfg, run)
    ensures run(k + 1) == Exec(cfg, run(k), ScatteredOracle(k))
    ensures run(k + 2) == Exec(cfg, run(k + 1), ScatteredOracle(k + 1))
  {
    hide Exec;
    ScatteredStep(cfg, run, k);
    ScatteredStep(cfg, run, k + 1);
  }

  lemma ScatteredStart(cfg: Config, run: nat -> Harness)
    requires ScatteredRun(cfg, run)
    ensures AtTurn(cfg, run(1), 0, 0, 0) && cfg.maxIterations >= 5
  {
    ScatteredStep(cfg, run, 0);
  }

  // ---------- tiers ----------

  lemma TierStep(cfg: Config, h: Harness, o: Oracle)
    requires h.node != InjectMemory
    ensures R.LowerOrSame(Exec(cfg, h, o).g.tier, h.g.tier)
    ensures Exec(cfg, h, o).g.tier != h.g.tier ==> h.node == HandleError && cfg.fallbackEnabled
  {
    hide CountsOf, GatedCall, Evaluate, HeuristicVerdictForLow, TodoRatio, ApplyVerdict;
    match h.node
    case SufficiencyApply => assert Exec(cfg, h, o) == ExecSufficiencyApply(cfg, h);
    case _ =>
  }

  lemma LowerTrans(a: R.Tier, b: R.Tier, c: R.Tier)
    requires R.LowerOrSame(a, b) && R.LowerOrSame(b, c)
    ensures R.LowerOrSame(a, c)
  {
  }

  lemma LeavesStart(cfg: Config, h: Harness, o: Oracle)
    ensures Exec(cfg, h, o).node != InjectMemory
    ensures h.node == InjectMemory ==> Exec(cfg, h, o).g.tier == cfg.tier
  {
    hide CountsOf, GatedCall, Evaluate, HeuristicVerdictForLow, TodoRatio, ApplyVerdict;
  }

  /** Within a thread the model tier starts at the configured one and only ever descends, and without the
      fallback it never moves. */
  lemma {:induction false} TierOnlyDescends(cfg: Config, run: nat -> Harness, f: nat -> Oracle, j: nat, n: nat)
    requires Run(cfg, run, f) && 0 < j <= n
    ensures run(n).node != InjectMemory
    ensures R.LowerOrSame(run(n).g.tier, run(j).g.tier)
    ensures j == 1 ==> run(j).g.tier == cfg.tier
    ensures !cfg.fallbackEnabled ==> run(n).g.tier == run(j).g.tier
    decreases n
  {
    hide Exec, R.LowerOrSame;
    assert StepAt(cfg, run, f, n - 1);
    assert StepAt(cfg, run, f, 0);
    LeavesStart(cfg, run(n - 1), f(n - 1));
    LeavesStart(cfg, run(0), f(0));
    if j == n {
      SameTier(run(n).g.tier);
    } else {
      TierOnlyDescends(cfg, run, f, j, n - 1);
      TierStep(cfg, run(n - 1), f(n - 1));
      LowerTrans(run(n).g.tier, run(n - 1).g.tier, run(j).g.tier);
    }
  }

  lemma SameTier(t: R.Tier)
    ensures R.LowerOrSame(t, t)
  {
  }

  // ---------- a retry count that does not persist ----------

  lemma EveryFaultIsRetried(e: R.Fault, tier: R.Tier, fallbackEnabled: bool)
    ensures R.Handle(R.Classify(e), 0, tier, fallbackEnabled).Retry?
  {
  }

  predicate NeverMoved(cfg: Config, h: Harness) {
    && (h.node != InjectMemory ==> h.g.tier == cfg.tier)
    && h.g.exitReason != Some(AllModelsExhausted) && h.g.exitReason != Some(ErrorAbort)
  }

  lemma ForgetfulStep(cfg: Config, h: Harness, o: Oracle)
    requires o.retryCount == 0 && NeverMoved(cfg, h)
    ensures NeverMoved(cfg, Exec(cfg, h, o))
  {
    hide CountsOf, GatedCall, Evaluate, HeuristicVerdictForLow, TodoRatio, ApplyVerdict;
    match h.node
    case HandleError =>
      var fault := if h.g.errorInfo.Some? then h.g.errorInfo.value else UNKNOWN_FAULT;
      EveryFaultIsRetried(fault, h.g.tier, cfg.fallbackEnabled);
      assert Exec(cfg, h, o) == ExecHandleError(cfg, h, o);
    case SufficiencyApply => assert Exec(cfg, h, o) == ExecSufficiencyApply(cfg, h);
    case _ =>
  }

  lemma FreshNeverMoved(cfg: Config, h: Harness)
    requires Fresh(h)
    ensures NeverMoved(cfg, h)
  {
  }

  /** While the handler finds no retry count in the state, which is so as long as that key is no field of it,
      every error is answered by a retry: no run ever falls back to another tier, runs out of models or aborts. */
  lemma {:induction false} ForgottenCountNeverFallsBack(cfg: Config, run: nat -> Harness, f: nat -> Oracle, n: nat)
    requires Run(cfg, run, f) && forall k: nat :: f(k).retryCount == 0
    ensures NeverMoved(cfg, run(n))
  {
    hide Exec, Fresh, NeverMoved;
    if n == 0 {
      FreshNeverMoved(cfg, run(0));
    } else {
      ForgottenCountNeverFallsBack(cfg, run, f, n - 1);
      assert StepAt(cfg, run, f, n - 1);
      ForgetfulStep(cfg, run(n - 1), f(n - 1));
    }
  }
}
