/** What every reachable state of the agent loop satisfies, and how a run may end. */
module LoopSafety {
  import opened Prelude
  import opened TodoLedger
  import opened Sufficiency
  import opened AgentLoop

  // ---------- the invariant ----------

  /** The nudging has given up: three nudges in a row, and still no fewer unfinished rows than at the last. */
  predicate Stuck(h: Harness) {
    && h.g.pendingNudges == MAX_STUCK_NUDGES
    && h.g.lastNudgeUnfinished.Some?
    && UnfinishedRows(h.rows) >= h.g.lastNudgeUnfinished.value
  }

  predicate SufficiencyNode(n: Node) {
    n == SufficiencyGate || n == Critic || n == SufficiencyApply
  }

  /** The run was (or is about to be) ended by the clean path, not by safe stop. */
  predicate EndedClean(h: Harness) {
    h.node == ExtractMemoryFinal
    || (h.node == End && (h.g.exitReason.None? || h.g.exitReason == Some(SufficiencyEscalated)))
  }

  ghost predicate NudgesOk(h: Harness) {
    && h.g.pendingNudges <= MAX_STUCK_NUDGES
    && (h.g.lastNudgeUnfinished.None? ==> h.g.pendingNudges == 0)
    && (h.node == NudgePendingTodos ==>
          && UnfinishedRows(h.rows) > 0
          && (ProgressMade(h.g.lastNudgeUnfinished, UnfinishedRows(h.rows)) || h.g.pendingNudges < MAX_STUCK_NUDGES))
  }

  /** Only the decision the loop ends on may be anything but an accepted retry. */
  ghost predicate HistorySafe(cfg: Config, h: Harness) {
    && HistoryOk(cfg.hash, cfg.maxSufficiency, h.g.sufficiencyHistory, h.g.sufficiencyIterations)
    && (h.node !in {ExtractMemoryFinal, End} ==> AllAccepted(h.g.sufficiencyHistory))
  }

  ghost predicate EndingsOk(h: Harness) {
    && (h.node !in {ExtractMemoryFinal, SafeStop, End} ==> h.g.exitReason.None?)
    && (h.node == ExtractMemoryFinal ==> h.g.exitReason.None? || h.g.exitReason == Some(SufficiencyEscalated))
    && (SufficiencyNode(h.node) ==> UnfinishedRows(h.rows) == 0)
    && (EndedClean(h) ==> UnfinishedRows(h.rows) == 0 || Stuck(h))
    && (h.g.exitReason == Some(SufficiencyEscalated) ==> UnfinishedRows(h.rows) == 0)
  }

  /** Only the nudge and an accepted retry touch the nudge counters. */
  lemma NudgeFieldsKept(cfg: Config, h: Harness, o: Oracle)
    ensures var t := Exec(cfg, h, o);
            if h.node == NudgePendingTodos then
              t.g.lastNudgeUnfinished == Some(UnfinishedRows(h.rows)) && t.rows == h.rows
              && t.g.pendingNudges == if ProgressMade(h.g.lastNudgeUnfinished, UnfinishedRows(h.rows)) then 1
                                      else h.g.pendingNudges + 1
            else if RetryAccepted(h, t) then t.g.pendingNudges == 0 && t.g.lastNudgeUnfinished.None?
            else t.g.pendingNudges == h.g.pendingNudges && t.g.lastNudgeUnfinished == h.g.lastNudgeUnfinished
  {
    hide CountsOf, GatedCall, Evaluate, HeuristicVerdictForLow, TodoRatio, ApplyVerdict;
    match h.node
    case Agent => assert Exec(cfg, h, o) == ExecAgent(cfg, h, o);
    case HandleError => assert Exec(cfg, h, o) == ExecHandleError(cfg, h, o);
    case SufficiencyGate => assert Exec(cfg, h, o) == ExecSufficiencyGate(cfg, h, o);
    case SufficiencyApply => assert Exec(cfg, h, o) == ExecSufficiencyApply(cfg, h);
    case _ =>
  }

  /** A silent reply is nudged exactly when the decision says so. */
  lemma NudgeEntered(cfg: Config, h: Harness, o: Oracle)
    ensures var t := Exec(cfg, h, o);
            t.node == NudgePendingTodos ==>
              && h.node == Agent && t.rows == h.rows
              && NudgeDecision(UnfinishedRows(h.rows), h.g.lastNudgeUnfinished, h.g.pendingNudges, MAX_STUCK_NUDGES) == NudgeAgain
  {
    hide CountsOf, GatedCall, Evaluate, HeuristicVerdictForLow, TodoRatio, ApplyVerdict;
  }

  lemma StepKeepsNudges(cfg: Config, h: Harness, o: Oracle)
    requires NudgesOk(h)
    ensures NudgesOk(Exec(cfg, h, o))
  {
    NudgeFieldsKept(cfg, h, o);
    NudgeEntered(cfg, h, o);
  }

  /** Only the apply node writes the history, and it leads to the agent only on an accepted decision. */
  lemma HistoryFieldsKept(cfg: Config, h: Harness, o: Oracle)
    requires h.node != SufficiencyApply
    ensures var t := Exec(cfg, h, o);
            && t.g.sufficiencyHistory == h.g.sufficiencyHistory
            && t.g.sufficiencyIterations == h.g.sufficiencyIterations
            && (h.node in {ExtractMemoryFinal, End} ==> t.node == End)
  {
    hide CountsOf, GatedCall, Evaluate, HeuristicVerdictForLow, TodoRatio;
  }

  lemma ApplyKeepsHistorySafe(cfg: Config, h: Harness)
    requires HistorySafe(cfg, h) && h.node == SufficiencyApply
    ensures HistorySafe(cfg, ExecSufficiencyApply(cfg, h))
  {
    var level := if h.g.gateLevel.Some? then h.g.gateLevel.value else Medium;
    var verdict := if h.g.lastVerdict.Some? then h.g.lastVerdict.value else MISSING_VERDICT;
    ApplyKeepsHistory(cfg.hash, cfg.maxSufficiency, h.g.sufficiencyHistory, h.g.sufficiencyIterations, level, verdict);
    var r := ApplyVerdict(cfg.hash, cfg.maxSufficiency, h.g.sufficiencyHistory, h.g.sufficiencyIterations, level, verdict);
    var t := ExecSufficiencyApply(cfg, h);
    assert t.g.sufficiencyHistory == r.history && t.g.sufficiencyIterations == h.g.sufficiencyIterations + 1;
    assert t.node == if Accepted(r.verdict.kind) then Agent else ExtractMemoryFinal;
  }

  lemma StepKeepsHistory(cfg: Config, h: Harness, o: Oracle)
    requires HistorySafe(cfg, h)
    ensures HistorySafe(cfg, Exec(cfg, h, o))
  {
    if h.node == SufficiencyApply {
      ApplyKeepsHistorySafe(cfg, h);
    } else {
      HistoryFieldsKept(cfg, h, o);
    }
  }

  lemma AgentKeepsEndings(cfg: Config, h: Harness, o: Oracle)
    requires EndingsOk(h) && NudgesOk(h) && h.node == Agent
    ensures EndingsOk(Exec(cfg, h, o))
  {
    hide CountsOf, GatedCall;
  }

  lemma ApplyKeepsEndings(cfg: Config, h: Harness)
    requires EndingsOk(h) && h.node == SufficiencyApply
    ensures EndingsOk(ExecSufficiencyApply(cfg, h))
  {
    hide CountsOf, ApplyVerdict;
  }

  lemma StepKeepsEndings(cfg: Config, h: Harness, o: Oracle)
    requires EndingsOk(h) && NudgesOk(h)
    ensures EndingsOk(Exec(cfg, h, o))
  {
    hide CountsOf, GatedCall, Evaluate, HeuristicVerdictForLow, TodoRatio, ApplyVerdict;
    match h.node
    case Agent => AgentKeepsEndings(cfg, h, o);
    case SufficiencyApply => ApplyKeepsEndings(cfg, h);
    case SufficiencyGate => assert Exec(cfg, h, o) == ExecSufficiencyGate(cfg, h, o);
    case HandleError => assert Exec(cfg, h, o) == ExecHandleError(cfg, h, o);
    case _ =>
  }

  lemma StepKeepsAll(cfg: Config, h: Harness, o: Oracle, t: Harness)
    requires t == Exec(cfg, h, o) && NudgesOk(h) && HistorySafe(cfg, h) && EndingsOk(h)
    ensures NudgesOk(t) && HistorySafe(cfg, t) && EndingsOk(t)
  {
    StepKeepsNudges(cfg, h, o);
    StepKeepsHistory(cfg, h, o);
    StepKeepsEndings(cfg, h, o);
  }

  lemma FreshIsSafe(cfg: Config, h: Harness)
    requires Fresh(h)
    ensures NudgesOk(h) && HistorySafe(cfg, h) && EndingsOk(h)
  {
  }

  lemma {:induction false} EveryStateSafe(cfg: Config, run: nat -> Harness, f: nat -> Oracle, n: nat)
    requires Run(cfg, run, f)
    ensures NudgesOk(run(n)) && HistorySafe(cfg, run(n)) && EndingsOk(run(n))
  {
    hide Exec, NudgesOk, HistorySafe, EndingsOk, Fresh;
    if n == 0 {
      FreshIsSafe(cfg, run(0));
    } else {
      EveryStateSafe(cfg, run, f, n - 1);
      assert StepAt(cfg, run, f, n - 1);
      StepKeepsAll(cfg, run(n - 1), f(n - 1), run(n));
    }
  }

  /** In every reachable state: one history entry per apply, at most the configured number accepted, only
      the last one not accepted, and no accepted decision equal to either of the two before it. */
  lemma HistoryInEveryState(cfg: Config, run: nat -> Harness, f: nat -> Oracle, n: nat)
    requires Run(cfg, run, f)
    ensures var g := run(n).g;
            && HistoryOk(cfg.hash, cfg.maxSufficiency, g.sufficiencyHistory, g.sufficiencyIterations)
            && g.sufficiencyIterations <= Max(0, cfg.maxSufficiency) + 1
  {
    hide Exec, CountsOf, NudgesOk, EndingsOk;
    EveryStateSafe(cfg, run, f, n);
    AcceptedAtMostMax(cfg.hash, cfg.maxSufficiency, run(n).g.sufficiencyHistory, run(n).g.sufficiencyIterations);
  }

  // ---------- the nudges of a run ----------

  predicate RetryAccepted(before: Harness, after: Harness) {
    before.node == SufficiencyApply && after.node == Agent
  }

  /** Unfinished counts at the nudges so far, since the last accepted sufficiency retry. */
  ghost function NudgeLog(run: nat -> Harness, n: nat): seq<nat> {
    if n == 0 then []
    else if run(n - 1).node == NudgePendingTodos then NudgeLog(run, n - 1) + [UnfinishedRows(run(n - 1).rows)]
    else if RetryAccepted(run(n - 1), run(n)) then []
    else NudgeLog(run, n - 1)
  }

  /** The counter is the length of the log's last stretch without progress. */
  ghost predicate LogMatches(log: seq<nat>, g: GraphState) {
    && g.pendingNudges <= |log| && (log != [] ==> g.pendingNudges > 0)
    && g.lastNudgeUnfinished == (if log == [] then None else Some(log[|log| - 1]))
    && (forall i :: |log| - g.pendingNudges < i < |log| ==> log[i - 1] <= log[i])
    && (g.pendingNudges < |log| ==> log[|log| - g.pendingNudges] < log[|log| - g.pendingNudges - 1])
  }

  lemma {:induction false} LogInEveryState(cfg: Config, run: nat -> Harness, f: nat -> Oracle, n: nat)
    requires Run(cfg, run, f)
    ensures LogMatches(NudgeLog(run, n), run(n).g)
  {
    hide Exec, CountsOf;
    if n > 0 {
      LogInEveryState(cfg, run, f, n - 1);
      NudgeFieldsKept(cfg, run(n - 1), f(n - 1));
      assert StepAt(cfg, run, f, n - 1);
    }
  }

  /** The last three nudges saw no progress from one to the next, nor has there been any since. */
  ghost predicate ThreeNudgesWithoutProgress(log: seq<nat>, unfinished: nat) {
    |log| >= 3 && log[|log| - 3] <= log[|log| - 2] <= log[|log| - 1] <= unfinished
  }

  /** A run that is over with unfinished rows ended through safe stop, or after three nudges in a row
      without progress. Every other way to END, all sufficiency paths included, leaves nothing unfinished. */
  lemma UnfinishedEndings(cfg: Config, run: nat -> Harness, f: nat -> Oracle, n: nat)
    requires Run(cfg, run, f) && run(n).node == End && UnfinishedRows(run(n).rows) > 0
    ensures if run(n).g.exitReason.Some? then exists k :: 0 <= k < n && run(k).node == SafeStop
            else ThreeNudgesWithoutProgress(NudgeLog(run, n), UnfinishedRows(run(n).rows))
  {
    hide Exec, CountsOf, HistorySafe, Fresh;
    EveryStateSafe(cfg, run, f, n);
    LogInEveryState(cfg, run, f, n);
    if run(n).g.exitReason.Some? {
      var k := EndCameFrom(cfg, run, f, n);
      EveryStateSafe(cfg, run, f, k);
    }
  }

  lemma OnlyTwoWaysToEnd(cfg: Config, h: Harness, o: Oracle)
    requires Exec(cfg, h, o).node == End
    ensures h.node in {ExtractMemoryFinal, SafeStop, End}
    ensures h.node == End ==> Exec(cfg, h, o) == h
    ensures h.node == ExtractMemoryFinal ==> Exec(cfg, h, o).g == h.g
  {
    hide CountsOf, GatedCall, Evaluate, HeuristicVerdictForLow, TodoRatio, ApplyVerdict;
  }

  lemma {:induction false} EndCameFrom(cfg: Config, run: nat -> Harness, f: nat -> Oracle, n: nat) returns (k: nat)
    requires Run(cfg, run, f) && run(n).node == End
    ensures k < n && (run(k).node == SafeStop || (run(k).node == ExtractMemoryFinal && run(k).g == run(n).g))
  {
    assert n > 0;
    assert StepAt(cfg, run, f, n - 1);
    OnlyTwoWaysToEnd(cfg, run(n - 1), f(n - 1));
    if run(n - 1).node == End {
      k := EndCameFrom(cfg, run, f, n - 1);
    } else {
      k := n - 1;
    }
  }

  // ---------- how many nudges ----------

  /** Nudges among the `len` node executions starting with number `from`. */
  ghost function NudgeCount(run: nat -> Harness, from: nat, len: nat): nat
    decreases len
  {
    if len == 0 then 0
    else (if run(from).node == NudgePendingTodos then 1 else 0) + NudgeCount(run, from + 1, len - 1)
  }

  /** This node execution adds no unfinished row on balance and accepts no sufficiency retry. */
  ghost predicate CalmStep(run: nat -> Harness, k: nat) {
    UnfinishedRows(run(k + 1).rows) <= UnfinishedRows(run(k).rows) && !RetryAccepted(run(k), run(k + 1))
  }

  ghost predicate CalmStretch(run: nat -> Harness, from: nat, len: nat) {
    forall k: nat :: from <= k < from + len ==> CalmStep(run, k)
  }

  /** Nudges still possible: three per unfinished row, less those already spent at the current count. */
  function NudgesLeft(unfinished: nat, last: Option<nat>, nudges: nat): int {
    if unfinished == 0 then 0
    else if ProgressMade(last, unfinished) then 3 * unfinished
    else 3 * (unfinished - 1) + MAX_STUCK_NUDGES - nudges
  }

  ghost function Left(h: Harness): int {
    NudgesLeft(UnfinishedRows(h.rows), h.g.lastNudgeUnfinished, h.g.pendingNudges)
  }

  lemma NudgeSpends(cfg: Config, run: nat -> Harness, f: nat -> Oracle, k: nat)
    requires Run(cfg, run, f) && CalmStep(run, k)
    ensures Left(run(k)) >= Left(run(k + 1)) + if run(k).node == NudgePendingTodos then 1 else 0
  {
    hide Exec, CountsOf, HistorySafe, EndingsOk, Fresh;
    EveryStateSafe(cfg, run, f, k);
    NudgeFieldsKept(cfg, run(k), f(k));
    assert StepAt(cfg, run, f, k);
  }

  lemma LeftBounds(h: Harness)
    requires NudgesOk(h)
    ensures 0 <= Left(h) <= 3 * UnfinishedRows(h.rows)
  {
  }

  lemma {:induction false} NudgesSpendLeft(cfg: Config, run: nat -> Harness, f: nat -> Oracle, from: nat, len: nat)
    requires Run(cfg, run, f) && CalmStretch(run, from, len)
    ensures NudgeCount(run, from, len) <= Left(run(from))
    decreases len
  {
    hide Exec, CountsOf, HistorySafe, EndingsOk, Fresh, Left;
    if len == 0 {
      EveryStateSafe(cfg, run, f, from);
      LeftBounds(run(from));
    } else {
      assert CalmStretch(run, from + 1, len - 1);
      NudgesSpendLeft(cfg, run, f, from + 1, len - 1);
      assert CalmStep(run, from);
      NudgeSpends(cfg, run, f, from);
    }
  }

  /** While the unfinished count never rises and no sufficiency retry intervenes, `U` unfinished rows
      draw at most `3 * U` nudges, however long the stretch. */
  lemma NudgesBounded(cfg: Config, run: nat -> Harness, f: nat -> Oracle, from: nat, len: nat)
    requires Run(cfg, run, f) && CalmStretch(run, from, len)
    ensures NudgeCount(run, from, len) <= 3 * UnfinishedRows(run(from).rows)
  {
    hide Exec, CountsOf, HistorySafe, EndingsOk, Fresh, Left;
    NudgesSpendLeft(cfg, run, f, from, len);
    EveryStateSafe(cfg, run, f, from);
    LeftBounds(run(from));
  }

  /** At each nudge the pair (count at the last nudge, nudges left before giving up) falls
      lexicographically, unless rows were added since; the counter never leaves 0..3. */
  lemma NudgeDescends(cfg: Config, h: Harness, o: Oracle)
    requires NudgesOk(h) && h.node == NudgePendingTodos && h.g.lastNudgeUnfinished.Some?
    requires UnfinishedRows(h.rows) <= h.g.lastNudgeUnfinished.value
    ensures var t := Exec(cfg, h, o);
            && t.g.lastNudgeUnfinished.Some? && 1 <= t.g.pendingNudges <= MAX_STUCK_NUDGES
            && (t.g.lastNudgeUnfinished.value < h.g.lastNudgeUnfinished.value ||
                (t.g.lastNudgeUnfinished == h.g.lastNudgeUnfinished && t.g.pendingNudges > h.g.pendingNudges))
  {
    NudgeFieldsKept(cfg, h, o);
  }

  // ---------- LOW gates in a run ----------

  /** A LOW gate of the loop that blames the ledger: verification failures outnumber completions. */
  lemma TodoDrivenLowInRun(cfg: Config, run: nat -> Harness, f: nat -> Oracle, n: nat)
    requires Run(cfg, run, f) && cfg.lowTodo <= 0.5
    requires run(n).node == SufficiencyGate
    requires run(n + 1).g.lastVerdict.Some? && run(n + 1).g.lastVerdict.value.reason == TodosIncomplete
    ensures |Positions(run(n).rows, VerifyFailed)| > |Positions(run(n).rows, Completed)|
  {
    hide CountsOf, TodoRatio, NudgesOk, HistorySafe, Fresh, Positions;
    EveryStateSafe(cfg, run, f, n);
    assert StepAt(cfg, run, f, n);
    TodoDrivenLow(CountsOf(run(n).rows));
    CountsAreRows(run(n).rows);
  }

  /** Where a gate of a run leads: a HIGH one straight to the end, a LOW one past the critic. */
  lemma GateLeads(cfg: Config, run: nat -> Harness, f: nat -> Oracle, n: nat)
    requires Run(cfg, run, f) && run(n).node == SufficiencyGate
    ensures var s, rows := f(n).signals, run(n).rows;
            && (run(n + 1).node == SufficiencyApply <==> HardFailure(s) || !CompletedShare(rows, cfg.lowTodo))
            && (run(n + 1).node == ExtractMemoryFinal <==>
                  && !HardFailure(s) && CompletedShare(rows, cfg.lowTodo) && CompletedShare(rows, cfg.highTodo)
                  && (s.lintErrors.None? || s.lintErrors.value == 0))
            && run(n + 1).node in {SufficiencyApply, ExtractMemoryFinal, Critic}
  {
    hide CountsOf, TodoRatio, Fresh, Evaluate, HeuristicVerdictForLow, CompletedShare;
    assert StepAt(cfg, run, f, n);
    GateOverRows(f(n).signals, run(n).rows, cfg.highTodo, cfg.lowTodo);
  }

  lemma LowGateStep(cfg: Config, h: Harness, o: Oracle)
    requires h.node == SufficiencyGate && Exec(cfg, h, o).g.gateLevel == Some(Low)
    ensures Exec(cfg, h, o).node == SufficiencyApply && Exec(cfg, h, o).g.lastVerdict.Some?
  {
    hide CountsOf, Evaluate, HeuristicVerdictForLow, TodoRatio;
  }

  lemma ApplyStep(cfg: Config, h: Harness, o: Oracle, level: Level, v: CriticVerdict)
    requires h.node == SufficiencyApply && h.g.gateLevel == Some(level) && h.g.lastVerdict == Some(v)
    ensures var g, t := h.g, Exec(cfg, h, o);
            var r := ApplyVerdict(cfg.hash, cfg.maxSufficiency, g.sufficiencyHistory, g.sufficiencyIterations, level, v);
            && t.g.sufficiencyHistory == r.history && t.g.sufficiencyIterations == g.sufficiencyIterations + 1
            && t.node == (if Accepted(r.verdict.kind) then Agent else ExtractMemoryFinal)
            && (r.verdict.kind == EscalateHitl ==> t.g.exitReason == Some(SufficiencyEscalated))
  {
    hide ApplyVerdict;
  }

  lemma OnlyTheGateLeadsIn(cfg: Config, h: Harness, o: Oracle)
    requires !SufficiencyNode(h.node)
    ensures Exec(cfg, h, o).node !in {Critic, SufficiencyApply}
  {
    hide CountsOf, GatedCall;
  }

  /** Between two gates nothing happens to the history. */
  lemma {:induction false} HistoryBetweenGates(cfg: Config, run: nat -> Harness, f: nat -> Oracle, from: nat, n: nat)
    requires Run(cfg, run, f) && from <= n && run(from).node !in {Critic, SufficiencyApply}
    requires forall k :: from <= k < n ==> run(k).node != SufficiencyGate
    ensures run(n).node !in {Critic, SufficiencyApply}
    ensures run(n).g.sufficiencyHistory == run(from).g.sufficiencyHistory
    ensures run(n).g.sufficiencyIterations == run(from).g.sufficiencyIterations
  {
    hide Exec, Fresh;
    if n > from {
      HistoryBetweenGates(cfg, run, f, from, n - 1);
      assert StepAt(cfg, run, f, n - 1);
      OnlyTheGateLeadsIn(cfg, run(n - 1), f(n - 1));
      HistoryFieldsKept(cfg, run(n - 1), f(n - 1));
    }
  }

  lemma {:induction false} OverStaysOver(cfg: Config, run: nat -> Harness, f: nat -> Oracle, from: nat, n: nat)
    requires Run(cfg, run, f) && from <= n && run(from).node in {ExtractMemoryFinal, End}
    ensures run(n).node in {ExtractMemoryFinal, End}
  {
    hide Exec, Fresh;
    if n > from {
      OverStaysOver(cfg, run, f, from, n - 1);
      assert StepAt(cfg, run, f, n - 1);
      HistoryFieldsKept(cfg, run(n - 1), f(n - 1));
    }
  }

  /** The LOW gate at `i`, if the loop comes to another gate at `j`, had its verdict accepted and recorded last. */
  lemma FirstLowRecorded(cfg: Config, run: nat -> Harness, f: nat -> Oracle, i: nat, j: nat)
    requires Run(cfg, run, f) && i < j && run(i).node == SufficiencyGate && run(j).node == SufficiencyGate
    requires forall k :: i < k < j ==> run(k).node != SufficiencyGate
    requires run(i + 1).g.gateLevel == Some(Low)
    ensures run(i + 1).g.lastVerdict.Some?
    ensures var v, h := run(i + 1).g.lastVerdict.value, run(j).g.sufficiencyHistory;
            h != [] && h[|h| - 1].level == Low && h[|h| - 1].kind == v.kind && h[|h| - 1].target == v.target
  {
    hide Exec, Fresh;
    assert StepAt(cfg, run, f, i) && StepAt(cfg, run, f, i + 1);
    LowGateStep(cfg, run(i), f(i));
    var g := run(i + 1).g;
    ApplyStep(cfg, run(i + 1), f(i + 1), Low, g.lastVerdict.value);
    var r := ApplyVerdict(cfg.hash, cfg.maxSufficiency, g.sufficiencyHistory, g.sufficiencyIterations, Low, g.lastVerdict.value);
    assert Accepted(r.verdict.kind) by {
      if run(i + 2).node == ExtractMemoryFinal { OverStaysOver(cfg, run, f, i + 2, j); }
    }
    HistoryBetweenGates(cfg, run, f, i + 2, j);
  }

  /** Two successive LOW gates of a run that ask for the same verdict and target end it at the second,
      whatever the agent did in between. */
  lemma TwoEqualLowGatesEndRun(cfg: Config, run: nat -> Harness, f: nat -> Oracle, i: nat, j: nat)
    requires Run(cfg, run, f) && i < j && run(i).node == SufficiencyGate && run(j).node == SufficiencyGate
    requires forall k :: i < k < j ==> run(k).node != SufficiencyGate
    requires run(i + 1).g.gateLevel == Some(Low) && run(j + 1).g.gateLevel == Some(Low)
    requires run(i + 1).g.lastVerdict.Some? && run(j + 1).g.lastVerdict.Some?
    requires run(i + 1).g.lastVerdict.value.kind == run(j + 1).g.lastVerdict.value.kind
    requires run(i + 1).g.lastVerdict.value.target == run(j + 1).g.lastVerdict.value.target
    ensures run(j + 2).g.exitReason == Some(SufficiencyEscalated) && run(j + 3).node == End
  {
    hide Exec, Fresh, NudgesOk, EndingsOk;
    FirstLowRecorded(cfg, run, f, i, j);
    assert StepAt(cfg, run, f, j) && StepAt(cfg, run, f, j + 1) && StepAt(cfg, run, f, j + 2);
    HistoryFieldsKept(cfg, run(j), f(j));
    LowGateStep(cfg, run(j), f(j));
    EveryStateSafe(cfg, run, f, j + 1);
    var g := run(j + 1).g;
    ApplyStep(cfg, run(j + 1), f(j + 1), Low, g.lastVerdict.value);
    RepeatEscalates(cfg.hash, cfg.maxSufficiency, g.sufficiencyHistory, g.sufficiencyIterations, Low, g.lastVerdict.value,
                    |g.sufficiencyHistory| - 1);
    HistoryFieldsKept(cfg, run(j + 2), f(j + 2));
  }

  // ---------- the decomposition gate ----------

  lemma ConfirmedKept(cfg: Config, h: Harness, o: Oracle)
    ensures Exec(cfg, h, o).g.decompositionConfirmed <==> h.g.decompositionConfirmed || h.node == GateDecomposition
    ensures Exec(cfg, h, o).node == GateDecomposition ==> !Exec(cfg, h, o).g.decompositionConfirmed
  {
    match h.node
    case Agent => AgentKeepsConfirmed(cfg, h, o);
    case SufficiencyApply => assert Exec(cfg, h, o) == ExecSufficiencyApply(cfg, h);
    case SufficiencyGate => assert Exec(cfg, h, o) == ExecSufficiencyGate(cfg, h, o);
    case GateDecomposition => assert Exec(cfg, h, o) == ExecGateDecomposition(h, o);
    case _ =>
  }

  lemma AgentKeepsConfirmed(cfg: Config, h: Harness, o: Oracle)
    requires h.node == Agent
    ensures Exec(cfg, h, o).g.decompositionConfirmed == h.g.decompositionConfirmed
    ensures Exec(cfg, h, o).node == GateDecomposition ==> !h.g.decompositionConfirmed
  {
    hide CountsOf, GatedCall;
  }

  lemma ToolsEntered(cfg: Config, h: Harness, o: Oracle, c: int)
    requires var t := Exec(cfg, h, o);
             t.node == Tools && CountsOf(t.rows).Total() > 0 && 0 <= c < |t.g.calls| && GatedCall(t.g.calls[c])
    ensures Exec(cfg, h, o).g.decompositionConfirmed
  {
    assert h.node == Agent;
  }

  lemma {:induction false} ConfirmedMeansAsked(cfg: Config, run: nat -> Harness, f: nat -> Oracle, n: nat)
    requires Run(cfg, run, f)
    ensures run(n).g.decompositionConfirmed <==> exists k :: 0 <= k < n && run(k).node == GateDecomposition
    ensures run(n).node == GateDecomposition ==> !run(n).g.decompositionConfirmed
  {
    hide Exec, CountsOf;
    if n > 0 {
      ConfirmedMeansAsked(cfg, run, f, n - 1);
      assert StepAt(cfg, run, f, n - 1);
      ConfirmedKept(cfg, run(n - 1), f(n - 1));
    }
  }

  /** The user is asked about the decomposition at most once per thread. */
  lemma AskedAtMostOnce(cfg: Config, run: nat -> Harness, f: nat -> Oracle, j: nat, k: nat)
    requires Run(cfg, run, f) && j < k && run(j).node == GateDecomposition
    ensures run(k).node != GateDecomposition
  {
    ConfirmedMeansAsked(cfg, run, f, k);
  }

  /** No call that spells out coder, verifier, fixer or reviewer reaches the tools node on a registered ledger
      before the user was asked. Calls that name no role run as one of these all the same. */
  lemma DelegationNeedsConfirmation(cfg: Config, run: nat -> Harness, f: nat -> Oracle, n: nat, c: int)
    requires Run(cfg, run, f) && run(n).node == Tools && CountsOf(run(n).rows).Total() > 0
    requires 0 <= c < |run(n).g.calls| && GatedCall(run(n).g.calls[c])
    ensures exists k :: 0 <= k < n && run(k).node == GateDecomposition
  {
    assert n > 0;
    assert StepAt(cfg, run, f, n - 1);
    ToolsEntered(cfg, run(n - 1), f(n - 1), c);
    ConfirmedMeansAsked(cfg, run, f, n);
  }
}
