/** Error policies: classification, the tier-fallback handler and bounded retry. */
module Resilience {
  import opened Prelude

  datatype FailureType =
    | ModelTimeout | RepeatedStall | BadToolCall | SubagentFailure | ExternalApiError | ModelFallback | SafeStop

  datatype FailurePolicy = FailurePolicy(maxRetries: int, backoffBase: real, backoffMax: real, fallbackEnabled: bool)

  function DefaultPolicy(f: FailureType): FailurePolicy {
    match f
    case ModelTimeout => FailurePolicy(2, 2.0, 10.0, true)
    case RepeatedStall => FailurePolicy(0, 1.0, 10.0, false)
    case BadToolCall => FailurePolicy(1, 1.0, 10.0, false)
    case SubagentFailure => FailurePolicy(1, 2.0, 10.0, true)
    case ExternalApiError => FailurePolicy(3, 2.0, 30.0, false)
    case ModelFallback => FailurePolicy(0, 1.0, 10.0, true)
    case SafeStop => FailurePolicy(0, 1.0, 10.0, false)
  }

  /** What `ErrorClassifier` looks at in an exception. */
  datatype Fault = Fault(isTimeout: bool, statusCode: Option<int>, isValueError: bool, mentionsTool: bool)

  function Classify(e: Fault): FailureType {
    if e.isTimeout then ModelTimeout
    else if e.statusCode.Some? && (e.statusCode.value == 429 || e.statusCode.value >= 500) then ExternalApiError
    else if e.isValueError && e.mentionsTool then BadToolCall
    else ModelTimeout
  }

  // ---------- tier fallback ----------

  /** `OtherTier` is any configured name outside the fallback order. */
  datatype Tier = Reasoning | Strong | Default | Fast | OtherTier

  function NextTier(t: Tier): Option<Tier> {
    match t
    case Reasoning => Some(Strong)
    case Strong => Some(Default)
    case Default => Some(Fast)
    case Fast => None
    case OtherTier => None
  }

  /** Tiers still to be tried, the current one included. */
  function TiersLeft(t: Tier): nat {
    match t case Reasoning => 4 case Strong => 3 case Default => 2 case Fast => 1 case OtherTier => 1
  }

  datatype Resolution = Retry(retryCount: nat) | Fallback(nextTier: Option<Tier>) | Abort

  /** `ErrorHandler.handle` for one classified failure. */
  function Handle(f: FailureType, retryCount: nat, tier: Tier, fallbackEnabled: bool): Resolution {
    var p := DefaultPolicy(f);
    if p.maxRetries > retryCount then Retry(retryCount + 1)
    else if p.fallbackEnabled && fallbackEnabled then Fallback(NextTier(tier))
    else Abort
  }

  predicate ServerError(e: Fault) {
    !e.isTimeout && e.statusCode.Some? && (e.statusCode.value == 429 || e.statusCode.value >= 500)
  }

  predicate BadCall(e: Fault) {
    !e.isTimeout && !ServerError(e) && e.isValueError && e.mentionsTool
  }

  /** How often an error is met with a retry: three times for a server error, once for a malformed tool call,
      twice for everything else, which counts as a timeout. */
  function RetriesAllowed(e: Fault): nat {
    if ServerError(e) then 3 else if BadCall(e) then 1 else 2
  }

  /** Only what counts as a timeout moves on to another model. */
  predicate MayFallBack(e: Fault) {
    !ServerError(e) && !BadCall(e)
  }

  /** The handler, by what went wrong: retry while the kind of error allows it, then the next tier, or stop. */
  lemma HandlerAnswers(e: Fault, retryCount: nat, tier: Tier, fallbackEnabled: bool)
    ensures Handle(Classify(e), retryCount, tier, fallbackEnabled) ==
            if retryCount < RetriesAllowed(e) then Retry(retryCount + 1)
            else if MayFallBack(e) && fallbackEnabled then Fallback(NextTier(tier))
            else Abort
    ensures NextTier(tier).None? <==> tier in {Fast, OtherTier}
  {
    assert ServerError(e) ==> Classify(e) == ExternalApiError;
    assert BadCall(e) ==> Classify(e) == BadToolCall;
    assert MayFallBack(e) ==> Classify(e) == ModelTimeout;
  }

  const MAX_ANY_RETRIES := 3

  /** The handler's own state: what a caller that honours every resolution keeps. */
  datatype Recovery = Stopped | Going(retryCount: nat, tier: Tier)

  function Recover(r: Recovery, f: FailureType, fallbackEnabled: bool): Recovery {
    match r
    case Stopped => Stopped
    case Going(n, tier) =>
      match Handle(f, n, tier, fallbackEnabled)
      case Retry(m) => Going(m, tier)
      case Fallback(Some(next)) => Going(0, next)
      case Fallback(None) => Stopped
      case Abort => Stopped
  }

  function RecoverAll(r: Recovery, fs: seq<FailureType>, fallbackEnabled: bool): Recovery {
    if fs == [] then r
    else Recover(RecoverAll(r, fs[..|fs| - 1], fallbackEnabled), fs[|fs| - 1], fallbackEnabled)
  }

  /** Resolutions left before the handler must have stopped. */
  function Budget(r: Recovery): nat {
    match r
    case Stopped => 0
    case Going(n, tier) => (MAX_ANY_RETRIES + 1) * TiersLeft(tier) - Min(n, MAX_ANY_RETRIES)
  }

  predicate LowerOrSame(a: Tier, b: Tier) {
    a == b || (TiersLeft(a) < TiersLeft(b) && b != OtherTier)
  }

  lemma {:induction false} RecoverySpendsBudget(n: nat, tier: Tier, fs: seq<FailureType>, fallbackEnabled: bool)
    ensures var r := RecoverAll(Going(n, tier), fs, fallbackEnabled);
            && Budget(r) <= Max(0, Budget(Going(n, tier)) - |fs|)
            && (r.Going? ==> LowerOrSame(r.tier, tier))
  {
    if fs != [] {
      RecoverySpendsBudget(n, tier, fs[..|fs| - 1], fallbackEnabled);
    }
  }

  /** Whatever goes wrong, a caller that honours the resolutions is stopped after at most four per tier left. */
  lemma RecoveryStops(tier: Tier, fs: seq<FailureType>, fallbackEnabled: bool)
    requires |fs| >= 4 * TiersLeft(tier)
    ensures RecoverAll(Going(0, tier), fs, fallbackEnabled) == Stopped
  {
    RecoverySpendsBudget(0, tier, fs, fallbackEnabled);
  }

  /** Three API errors then a timeout use up a tier: the bound of four per tier is met at every tier. */
  function WorstCase(tiers: nat): seq<FailureType> {
    if tiers == 0 then []
    else WorstCase(tiers - 1) + [ExternalApiError, ExternalApiError, ExternalApiError, ModelTimeout]
  }

  lemma {:induction false} RecoverAllAppend(r: Recovery, fs: seq<FailureType>, g: FailureType, fallbackEnabled: bool)
    ensures RecoverAll(r, fs + [g], fallbackEnabled) == Recover(RecoverAll(r, fs, fallbackEnabled), g, fallbackEnabled)
  {
    assert (fs + [g])[..|fs|] == fs;
  }

  function TierAt(k: nat): Tier
    requires k < 4
  {
    [Reasoning, Strong, Default, Fast][k]
  }

  /** Three external errors and a model timeout use up one tier. */
  lemma OneTierDown(fs: seq<FailureType>, k: nat)
    requires k < 3 && RecoverAll(Going(0, Reasoning), fs, true) == Going(0, TierAt(k))
    ensures RecoverAll(Going(0, Reasoning), fs + [ExternalApiError] + [ExternalApiError] + [ExternalApiError] + [ModelTimeout], true)
            == Going(0, TierAt(k + 1))
  {
    hide RecoverAll;
    var x := ExternalApiError;
    RecoverAllAppend(Going(0, Reasoning), fs, x, true);
    RecoverAllAppend(Going(0, Reasoning), fs + [x], x, true);
    RecoverAllAppend(Going(0, Reasoning), fs + [x] + [x], x, true);
    RecoverAllAppend(Going(0, Reasoning), fs + [x] + [x] + [x], ModelTimeout, true);
  }

  lemma {:induction false} WorstCaseReaches(k: nat)
    requires k < 4
    ensures |WorstCase(k)| == 4 * k
    ensures RecoverAll(Going(0, Reasoning), WorstCase(k), true) == Going(0, TierAt(k))
  {
    hide Recover, TierAt;
    if k == 0 {
      assert TierAt(0) == Reasoning by { FirstTier(); }
    } else {
      var w, x := WorstCase(k - 1), ExternalApiError;
      WorstCaseReaches(k - 1);
      OneTierDown(w, k - 1);
      assert WorstCase(k) == w + [x] + [x] + [x] + [ModelTimeout];
    }
  }

  lemma FirstTier()
    ensures TierAt(0) == Reasoning
  {
  }

  /** The bound is exact: from the reasoning tier fifteen failures can leave the handler still going. */
  lemma RecoveryBoundIsTight()
    ensures exists fs :: |fs| == 15 && RecoverAll(Going(0, Reasoning), fs, true).Going?
  {
    WorstCaseReaches(3);
    var w, x := WorstCase(3), ExternalApiError;
    RecoverAllAppend(Going(0, Reasoning), w, x, true);
    RecoverAllAppend(Going(0, Reasoning), w + [x], x, true);
    RecoverAllAppend(Going(0, Reasoning), w + [x] + [x], x, true);
    var fs := w + [x] + [x] + [x];
    assert |fs| == 15 && RecoverAll(Going(0, Reasoning), fs, true) == Going(3, Fast);
  }

  // ---------- bounded retry ----------

  function Pow2(n: nat): nat {
    if n == 0 then 1 else 2 * Pow2(n - 1)
  }

  function Delay(p: FailurePolicy, attempt: nat): real {
    var d := p.backoffBase * Pow2(attempt) as real;
    if d <= p.backoffMax then d else p.backoffMax
  }

  /** Time slept before the attempt numbered `n`. */
  function SleptBefore(p: FailurePolicy, n: nat): real {
    if n == 0 then 0.0 else SleptBefore(p, n - 1) + Delay(p, n - 1)
  }

  /** The geometric sum of all uncapped delays, and the sum if every delay were capped. */
  function GeometricCap(p: FailurePolicy, n: nat): real {
    p.backoffBase * (Pow2(n) as real - 1.0)
  }

  function FlatCap(p: FailurePolicy, n: nat): real {
    n as real * p.backoffMax
  }

  lemma CapSteps(p: FailurePolicy, n: nat)
    requires n > 0
    ensures GeometricCap(p, n) == GeometricCap(p, n - 1) + p.backoffBase * Pow2(n - 1) as real
    ensures FlatCap(p, n) == FlatCap(p, n - 1) + p.backoffMax
  {
    var b, q, m := p.backoffBase, Pow2(n - 1) as real, (n - 1) as real;
    assert Pow2(n) as real - 1.0 == (q - 1.0) + q;
    Distribute(b, q - 1.0, q);
    assert n as real == m + 1.0;
    assert (m + 1.0) * p.backoffMax == m * p.backoffMax + p.backoffMax;
  }

  lemma Distribute(b: real, x: real, y: real)
    ensures b * (x + y) == b * x + b * y
  {
  }

  lemma {:induction false} SleepBound(p: FailurePolicy, n: nat)
    ensures SleptBefore(p, n) <= GeometricCap(p, n)
    ensures SleptBefore(p, n) <= FlatCap(p, n)
  {
    if n > 0 {
      SleepBound(p, n - 1);
      CapSteps(p, n);
    }
  }

  lemma {:induction false} SleepMonotone(p: FailurePolicy, m: nat, n: nat)
    requires m <= n && p.backoffBase >= 0.0 && p.backoffMax >= 0.0
    ensures 0.0 <= SleptBefore(p, m) <= SleptBefore(p, n)
    decreases n
  {
    if m < n {
      SleepMonotone(p, m, n - 1);
    } else if m > 0 {
      SleepMonotone(p, m - 1, n - 1);
    }
  }

  /** The policies by what they come to: how many retries, how long these wait in all, whether another model is tried. */
  lemma PoliciesAre(f: FailureType)
    ensures var p := DefaultPolicy(f);
            && p.maxRetries == (if f == ExternalApiError then 3 else if f == ModelTimeout then 2
                                else if f == BadToolCall || f == SubagentFailure then 1 else 0)
            && SleptBefore(p, p.maxRetries) == (if f == ExternalApiError then 14.0 else if f == ModelTimeout then 6.0
                                                else if f == SubagentFailure then 2.0 else if f == BadToolCall then 1.0 else 0.0)
            && (p.fallbackEnabled <==> f == ModelTimeout || f == SubagentFailure || f == ModelFallback)
            && (forall n: nat :: Delay(p, n) <= if f == ExternalApiError then 30.0 else 10.0)
            && Delay(p, 5) == (if f == ExternalApiError then 30.0 else 10.0)
            && Delay(p, 0) == if f in {ModelTimeout, SubagentFailure, ExternalApiError} then 2.0 else 1.0
  {
    var p := DefaultPolicy(f);
    assert Pow2(1) == 2 && Pow2(2) == 4 && Pow2(3) == 8 && Pow2(4) == 16 && Pow2(5) == 32;
    assert SleptBefore(p, 1) == Delay(p, 0) && SleptBefore(p, 2) == Delay(p, 0) + Delay(p, 1);
    assert SleptBefore(p, 3) == SleptBefore(p, 2) + Delay(p, 2);
  }

  /** One awaited attempt: a value or an exception. */
  datatype Attempt<T> = Ok(value: T) | Raised(fault: Fault)

  datatype RetryResult<T> = Returned(value: T) | LastError(fault: Fault) | NoAttemptMade

  /** `retry_with_backoff`: returns at the first success, otherwise raises the last error.
      A negative retry count makes no attempt at all and trips the final assertion. */
  method RetryWithBackoff<T>(attempts: nat -> Attempt<T>, p: FailurePolicy)
    returns (r: RetryResult<T>, made: nat, slept: real)
    ensures made <= Max(0, p.maxRetries + 1)
    ensures r.NoAttemptMade? <==> p.maxRetries < 0
    ensures p.maxRetries >= 0 ==> made >= 1 && slept == SleptBefore(p, made - 1)
    ensures r.Returned? ==> attempts(made - 1) == Ok(r.value)
    ensures r.LastError? ==> made == p.maxRetries + 1 && attempts(made - 1) == Raised(r.fault)
    ensures forall k :: 0 <= k < made - 1 ==> attempts(k).Raised?
    ensures p.maxRetries >= 0 && p.backoffBase >= 0.0 && p.backoffMax >= 0.0 ==>
              slept <= GeometricCap(p, p.maxRetries) && slept <= FlatCap(p, p.maxRetries)
  {
    r, made, slept := NoAttemptMade, 0, 0.0;
    while made < p.maxRetries + 1
      invariant made <= Max(0, p.maxRetries + 1)
      invariant made == 0 <==> r == NoAttemptMade
      invariant made > 0 ==> r.LastError? && attempts(made - 1) == Raised(r.fault)
      invariant made < p.maxRetries + 1 ==> slept == SleptBefore(p, made)
      invariant made > 0 && made == p.maxRetries + 1 ==> slept == SleptBefore(p, made - 1)
      invariant forall k :: 0 <= k < made ==> attempts(k).Raised?
    {
      var attempt := made;
      made := made + 1;
      match attempts(attempt) {
        case Ok(v) =>
          r := Returned(v);
          SleepWithin(p, attempt);
          return;
        case Raised(e) =>
          r := LastError(e);
          if attempt >= p.maxRetries {
            break;
          }
          slept := slept + Delay(p, attempt);
      }
    }
    if p.maxRetries >= 0 {
      SleepWithin(p, made - 1);
    }
  }

  lemma SleepWithin(p: FailurePolicy, n: nat)
    requires n <= p.maxRetries
    ensures p.backoffBase >= 0.0 && p.backoffMax >= 0.0 ==>
              SleptBefore(p, n) <= GeometricCap(p, p.maxRetries) && SleptBefore(p, n) <= FlatCap(p, p.maxRetries)
  {
    if p.backoffBase >= 0.0 && p.backoffMax >= 0.0 {
      SleepBound(p, p.maxRetries);
      SleepMonotone(p, n, p.maxRetries);
    }
  }
}
