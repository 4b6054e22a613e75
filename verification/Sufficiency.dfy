/** The deterministic sufficiency gate, its heuristic verdicts and the outer-loop bookkeeping. */
module Sufficiency {
  import opened Prelude
  import opened TodoLedger

  // ---------- signals ----------

  /** `None` means "no such signal was observed". */
  datatype Signals = Signals(
    pytestExit: Option<int>,
    lintErrors: Option<int>,
    todoRatio: real,
    artifactsMissing: seq<string>,
    doneViolations: seq<string>)

  /** Completed share of the ledger; an unused ledger counts as done. */
  function TodoRatio(c: TodoCounts): real {
    if c.Total() > 0 then c.completed as real / c.Total() as real else 1.0
  }

  // ---------- the rule gate ----------

  datatype Level = Low | Medium | High

  datatype Trigger =
    | DoneCondition | MissingArtifacts | PytestFailed | TodoBelowLow
    | PytestPass | LintZero | TodoAtLeastHigh
    | TodoBelowHigh | LintErrors | Borderline

  datatype Gate = Gate(level: Level, triggered: seq<Trigger>, metrics: Signals)

  predicate PytestBad(s: Signals) {
    s.pytestExit.Some? && s.pytestExit.value != 0
  }

  predicate LintBad(s: Signals) {
    s.lintErrors.Some? && s.lintErrors.value != 0
  }

  function Evaluate(s: Signals, highTodo: real, lowTodo: real): Gate {
    if s.doneViolations != [] then Gate(Low, [DoneCondition], s)
    else if s.artifactsMissing != [] then Gate(Low, [MissingArtifacts], s)
    else if PytestBad(s) then Gate(Low, [PytestFailed], s)
    else if s.todoRatio < lowTodo then Gate(Low, [TodoBelowLow], s)
    else
      var highPytest := !PytestBad(s);
      var highLint := !LintBad(s);
      var highTodoOk := s.todoRatio >= highTodo;
      if highPytest && highLint && highTodoOk then
        Gate(High, (if s.pytestExit == Some(0) then [PytestPass] else [])
                   + (if s.lintErrors == Some(0) then [LintZero] else [])
                   + [TodoAtLeastHigh], s)
      else
        var t := (if !highTodoOk then [TodoBelowHigh] else [])
                 + (if !highPytest then [PytestFailed] else [])
                 + (if !highLint then [LintErrors] else []);
        Gate(Medium, if t == [] then [Borderline] else t, s)
  }

  function Rank(l: Level): nat {
    match l case Low => 0 case Medium => 1 case High => 2
  }

  /** `b` is at least as good as `a` in every single signal. */
  predicate NoWorse(a: Signals, b: Signals) {
    && (a.doneViolations == [] ==> b.doneViolations == [])
    && (a.artifactsMissing == [] ==> b.artifactsMissing == [])
    && (!PytestBad(a) ==> !PytestBad(b))
    && (!LintBad(a) ==> !LintBad(b))
    && a.todoRatio <= b.todoRatio
  }

  /** Improving any signal never lowers the gate level, whatever the thresholds. */
  lemma GateMonotone(a: Signals, b: Signals, highTodo: real, lowTodo: real)
    requires NoWorse(a, b)
    ensures Rank(Evaluate(a, highTodo, lowTodo).level) <= Rank(Evaluate(b, highTodo, lowTodo).level)
  {
    var ga, gb := Evaluate(a, highTodo, lowTodo), Evaluate(b, highTodo, lowTodo);
    if gb.level == Low {
      assert ga.level == Low;
    } else if gb.level == Medium {
      assert ga.level != High;
    }
  }

  // ---------- verdicts ----------

  datatype Role = Coder | Verifier | Fixer | Planner

  datatype Kind = Pass | RetryLookup | Replan | EscalateHitl

  datatype Reason =
    | DoneConditionViolated | ArtifactsAbsent | PytestFailing | TodosIncomplete | NoSignalFallback
    | CycleDetected | IterationsExhausted | FromCritic

  datatype CriticVerdict = CriticVerdict(kind: Kind, target: Option<Role>, reason: Reason)

  predicate Accepted(k: Kind) {
    k == RetryLookup || k == Replan
  }

  /** The verdict a LOW gate gets without asking the critic; it re-reads the raw metrics. */
  function HeuristicVerdictForLow(g: Gate): CriticVerdict {
    var m := g.metrics;
    if m.doneViolations != [] then CriticVerdict(RetryLookup, Some(Fixer), DoneConditionViolated)
    else if m.artifactsMissing != [] then CriticVerdict(Replan, Some(Planner), ArtifactsAbsent)
    else if PytestBad(m) then CriticVerdict(RetryLookup, Some(Fixer), PytestFailing)
    else if m.todoRatio < 0.5 then CriticVerdict(RetryLookup, Some(Coder), TodosIncomplete)
    else CriticVerdict(Replan, Some(Planner), NoSignalFallback)
  }

  /** What the design asks for, per signal that made the gate LOW. */
  function VerdictForTrigger(t: Trigger): Option<CriticVerdict> {
    match t
    case DoneCondition => Some(CriticVerdict(RetryLookup, Some(Fixer), DoneConditionViolated))
    case MissingArtifacts => Some(CriticVerdict(Replan, Some(Planner), ArtifactsAbsent))
    case PytestFailed => Some(CriticVerdict(RetryLookup, Some(Fixer), PytestFailing))
    case TodoBelowLow => Some(CriticVerdict(RetryLookup, Some(Coder), TodosIncomplete))
    case _ => None
  }

  /** With a low threshold of at most one half, a LOW gate gets the verdict of the signal it tripped. */
  lemma LowVerdictFollowsTrigger(s: Signals, highTodo: real, lowTodo: real)
    requires lowTodo <= 0.5 && Evaluate(s, highTodo, lowTodo).level == Low
    ensures var g := Evaluate(s, highTodo, lowTodo);
            g.triggered != [] && VerdictForTrigger(g.triggered[0]) == Some(HeuristicVerdictForLow(g))
  {
  }

  /** Some LOW gate reaches the fallback verdict at these thresholds. */
  ghost predicate FallbackReachable(highTodo: real, lowTodo: real) {
    exists s: Signals :: && Evaluate(s, highTodo, lowTodo).level == Low
                         && HeuristicVerdictForLow(Evaluate(s, highTodo, lowTodo)).reason == NoSignalFallback
  }

  /** The fallback the source calls dead is dead exactly up to a low threshold of one half. */
  lemma FallbackDeadIff(highTodo: real, lowTodo: real)
    ensures !FallbackReachable(highTodo, lowTodo) <==> lowTodo <= 0.5
  {
    if lowTodo > 0.5 {
      var s := Signals(None, None, 0.5, [], []);
      assert HeuristicVerdictForLow(Evaluate(s, highTodo, lowTodo)).reason == NoSignalFallback;
    }
  }

  /** The signals a gate names. A MEDIUM one names what kept it from HIGH and always has something to name, so its
      "borderline" and its failed tests never show; a HIGH one names what it saw. */
  lemma TriggersAre(s: Signals, highTodo: real, lowTodo: real)
    ensures var g := Evaluate(s, highTodo, lowTodo);
            && g.metrics == s
            && (g.level == Medium ==>
                  && g.triggered != [] && (forall t :: t in g.triggered ==> t == TodoBelowHigh || t == LintErrors)
                  && (TodoBelowHigh in g.triggered <==> s.todoRatio < highTodo)
                  && (LintErrors in g.triggered <==> s.lintErrors.Some? && s.lintErrors.value != 0))
            && (g.level == High ==>
                  && (PytestPass in g.triggered <==> s.pytestExit.Some?) && (LintZero in g.triggered <==> s.lintErrors.Some?)
                  && TodoAtLeastHigh in g.triggered && |g.triggered| <= 3)
            && (g.level == Low ==> |g.triggered| == 1)
  {
  }

  /** Behind a low threshold above one half, a LOW gate with no other signal and at least half of the rows completed
      has the planner start over. */
  lemma FallbackVerdict(s: Signals, highTodo: real, lowTodo: real)
    requires !HardFailure(s) && 0.5 <= s.todoRatio < lowTodo
    ensures var g := Evaluate(s, highTodo, lowTodo);
            g.level == Low && HeuristicVerdictForLow(g) == CriticVerdict(Replan, Some(Planner), NoSignalFallback)
  {
  }

  lemma BelowHalf(a: real, b: real)
    requires b > 0.0
    ensures a / b < 0.5 <==> 2.0 * a < b
  {
    var q := a / b;
    assert q * b == a;
    if q < 0.5 {
      assert q * b < 0.5 * b;
    } else {
      assert q * b >= 0.5 * b;
    }
  }

  /** At the default threshold, on a ledger with nothing unfinished, "too few completed" means
      that the rows whose verification failed outnumber the completed ones. */
  lemma TodoDrivenLow(c: TodoCounts)
    requires c.Unfinished() == 0
    ensures TodoRatio(c) < 0.5 <==> c.verifyFailed > c.completed
  {
    if c.Total() > 0 {
      BelowHalf(c.completed as real, c.Total() as real);
    }
  }

  /** At least the share `t` of the rows is completed; an unused ledger counts as done. */
  ghost predicate CompletedShare(rows: Rows, t: real) {
    if rows == [] then t <= 1.0 else |Positions(rows, Completed)| as real >= t * |rows| as real
  }

  lemma AtLeastShare(a: real, b: real, t: real)
    requires b > 0.0
    ensures a / b >= t <==> a >= t * b
  {
    var q := a / b;
    assert q * b == a;
    if q >= t {
      assert q * b >= t * b;
    } else {
      assert q * b < t * b;
    }
  }

  lemma RatioAtLeast(c: TodoCounts, t: real)
    ensures TodoRatio(c) >= t <==> if c.Total() == 0 then t <= 1.0 else c.completed as real >= t * c.Total() as real
  {
    if c.Total() > 0 {
      AtLeastShare(c.completed as real, c.Total() as real, t);
    }
  }

  lemma RatioIsShare(rows: Rows, t: real)
    ensures TodoRatio(CountsOf(rows)) >= t <==> CompletedShare(rows, t)
  {
    hide CountsOf, TodoRatio, Positions;
    CountsAreRows(rows);
    CountsSumToRows(rows);
    RatioAtLeast(CountsOf(rows), t);
  }

  /** Something is wrong that no share of completed rows makes up for. */
  predicate HardFailure(s: Signals) {
    s.doneViolations != [] || s.artifactsMissing != [] || (s.pytestExit.Some? && s.pytestExit.value != 0)
  }

  /** The level of a gate, over the rows of the ledger: LOW on a hard failure or too few completed rows, HIGH only
      with clean lints and enough of them completed. */
  lemma GateOverRows(s: Signals, rows: Rows, highTodo: real, lowTodo: real)
    ensures var level := Evaluate(s.(todoRatio := TodoRatio(CountsOf(rows))), highTodo, lowTodo).level;
            && (level == Low <==> HardFailure(s) || !CompletedShare(rows, lowTodo))
            && (level == High <==> && !HardFailure(s) && CompletedShare(rows, lowTodo) && CompletedShare(rows, highTodo)
                                   && (s.lintErrors.None? || s.lintErrors.value == 0))
  {
    hide CountsOf, TodoRatio, CompletedShare;
    RatioIsShare(rows, lowTodo);
    RatioIsShare(rows, highTodo);
  }

  // ---------- cycle detection and history ----------

  /** The truncated SHA-1 of the joined triple. Nothing is assumed about it, not even injectivity. */
  type CycleHash = (Level, Kind, Option<Role>) -> string

  datatype Entry = Entry(iteration: nat, level: Level, kind: Kind, target: Option<Role>, cycleHash: string)

  const CYCLE_WINDOW := 2

  /** A newcomer repeats one of the last two entries. */
  predicate DetectCycle(history: seq<Entry>, newHash: string) {
    exists k :: Max(0, |history| - CYCLE_WINDOW) <= k < |history| && history[k].cycleHash == newHash
  }

  function ForceEscalate(v: CriticVerdict, iteration: nat, maxIterations: int, isCycle: bool): CriticVerdict {
    if !Accepted(v.kind) then v
    else if isCycle then CriticVerdict(EscalateHitl, None, CycleDetected)
    else if iteration > maxIterations then CriticVerdict(EscalateHitl, None, IterationsExhausted)
    else v
  }

  datatype Applied = Applied(verdict: CriticVerdict, history: seq<Entry>)

  /** The bookkeeping of `sufficiency_apply_node`: promote, then record what was decided. */
  function ApplyVerdict(hash: CycleHash, maxIterations: int, history: seq<Entry>, iterations: nat,
                        level: Level, v: CriticVerdict): Applied {
    var h := hash(level, v.kind, v.target);
    var final := ForceEscalate(v, iterations + 1, maxIterations, DetectCycle(history, h));
    Applied(final, history + [Entry(iterations + 1, level, final.kind, final.target, h)])
  }

  /** One of the last two entries has this hash. */
  predicate Repeats(history: seq<Entry>, h: string) {
    || (|history| >= 1 && history[|history| - 1].cycleHash == h)
    || (|history| >= 2 && history[|history| - 2].cycleHash == h)
  }

  /** A verdict that asks for a retry is turned into an escalation if it repeats one of the last two entries, or if the
      retries are used up; the entry records what became of it under the hash of what was asked for. */
  lemma AppliedIs(hash: CycleHash, maxIterations: int, history: seq<Entry>, iterations: nat, level: Level, v: CriticVerdict)
    ensures var r, h := ApplyVerdict(hash, maxIterations, history, iterations, level, v), hash(level, v.kind, v.target);
            && r.verdict == (if v.kind == Pass || v.kind == EscalateHitl then v
                             else if Repeats(history, h) then CriticVerdict(EscalateHitl, None, CycleDetected)
                             else if iterations >= maxIterations then CriticVerdict(EscalateHitl, None, IterationsExhausted)
                             else v)
            && r.history == history + [Entry(iterations + 1, level, r.verdict.kind, r.verdict.target, h)]
  {
  }

  predicate SameTriple(a: Entry, b: Entry) {
    a.level == b.level && a.kind == b.kind && a.target == b.target
  }

  /** The history as the loop keeps it. */
  ghost predicate HistoryOk(hash: CycleHash, maxIterations: int, history: seq<Entry>, iterations: nat) {
    && |history| == iterations
    && (forall k :: 0 <= k < |history| ==> history[k].iteration == k + 1)
    && (forall k :: 0 <= k < |history| - 1 ==> Accepted(history[k].kind))
    && (forall k :: 0 <= k < |history| && Accepted(history[k].kind) ==>
          && k < maxIterations
          && history[k].cycleHash == hash(history[k].level, history[k].kind, history[k].target))
    && (forall k :: 0 <= k < |history| && Accepted(history[k].kind) ==>
          forall j :: Max(0, k - CYCLE_WINDOW) <= j < k ==> !SameTriple(history[j], history[k]))
  }

  /** While the loop is still going, every recorded decision sent it back to the agent. */
  ghost predicate AllAccepted(history: seq<Entry>) {
    forall k :: 0 <= k < |history| ==> Accepted(history[k].kind)
  }

  lemma ApplyKeepsHistory(hash: CycleHash, maxIterations: int, history: seq<Entry>, iterations: nat,
                          level: Level, v: CriticVerdict)
    requires HistoryOk(hash, maxIterations, history, iterations) && AllAccepted(history)
    ensures var r := ApplyVerdict(hash, maxIterations, history, iterations, level, v);
            && HistoryOk(hash, maxIterations, r.history, iterations + 1)
            && (Accepted(r.verdict.kind) ==> AllAccepted(r.history) && iterations < maxIterations)
  {
    var r := ApplyVerdict(hash, maxIterations, history, iterations, level, v);
    var n := |history|;
    assert forall k :: 0 <= k < n ==> r.history[k] == history[k];
    if Accepted(r.verdict.kind) {
      var e := r.history[n];
      forall j | Max(0, n - CYCLE_WINDOW) <= j < n ensures !SameTriple(r.history[j], e) {
        assert history[j].cycleHash != e.cycleHash;
      }
    }
  }

  /** At most `maxIterations` decisions are ever accepted. */
  lemma AcceptedAtMostMax(hash: CycleHash, maxIterations: int, history: seq<Entry>, iterations: nat)
    requires HistoryOk(hash, maxIterations, history, iterations)
    ensures iterations <= Max(0, maxIterations) + 1
    ensures AllAccepted(history) ==> iterations <= Max(0, maxIterations)
  {
    if iterations >= 2 {
      assert Accepted(history[iterations - 2].kind);
    }
    if iterations >= 1 && AllAccepted(history) {
      assert Accepted(history[iterations - 1].kind);
    }
  }

  /** Deciding again what one of the last two accepted entries decided is refused: the loop escalates. */
  lemma RepeatEscalates(hash: CycleHash, maxIterations: int, history: seq<Entry>, iterations: nat,
                        level: Level, v: CriticVerdict, k: nat)
    requires HistoryOk(hash, maxIterations, history, iterations) && AllAccepted(history)
    requires Max(0, |history| - CYCLE_WINDOW) <= k < |history|
    requires history[k].level == level && history[k].kind == v.kind && history[k].target == v.target
    ensures ApplyVerdict(hash, maxIterations, history, iterations, level, v).verdict
            == CriticVerdict(EscalateHitl, None, CycleDetected)
  {
    assert DetectCycle(history, hash(level, v.kind, v.target));
  }

  /** Applied one right after the other, two LOW verdicts of the same kind and target escalate at the second. */
  lemma TwoEqualLowGatesEscalate(hash: CycleHash, maxIterations: int, history: seq<Entry>, iterations: nat,
                                 g0: Gate, g1: Gate)
    requires HistoryOk(hash, maxIterations, history, iterations) && AllAccepted(history)
    requires g0.level == Low && g1.level == Low
    requires HeuristicVerdictForLow(g0).kind == HeuristicVerdictForLow(g1).kind
    requires HeuristicVerdictForLow(g0).target == HeuristicVerdictForLow(g1).target
    ensures var r0 := ApplyVerdict(hash, maxIterations, history, iterations, Low, HeuristicVerdictForLow(g0));
            Accepted(r0.verdict.kind) ==>
              ApplyVerdict(hash, maxIterations, r0.history, iterations + 1, Low, HeuristicVerdictForLow(g1)).verdict.kind
              == EscalateHitl
  {
    var r0 := ApplyVerdict(hash, maxIterations, history, iterations, Low, HeuristicVerdictForLow(g0));
    if Accepted(r0.verdict.kind) {
      ApplyKeepsHistory(hash, maxIterations, history, iterations, Low, HeuristicVerdictForLow(g0));
      RepeatEscalates(hash, maxIterations, r0.history, iterations + 1, Low, HeuristicVerdictForLow(g1), |history|);
    }
  }
}
