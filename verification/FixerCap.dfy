/** The fixer cap over whole sequences of delegations. */
module FixerCap {
  import opened Prelude
  import opened Text
  import opened TaskId
  import opened VerifierReport
  import opened Delegation
  import opened ChainProtocol
  import ChainLedger
  import L = TodoLedger

  function KeyOf(description: string): string {
    CapKey(ExtractTaskId(description))
  }

  function RunAll(lim: Limits, st: ToolState, tasks: seq<Task>): ToolState
    decreases tasks
  {
    if tasks == [] then st else RunAll(lim, RunTask(lim, st, tasks[0]).st, tasks[1..])
  }

  // ---------- which fixer runs happen, under which key ----------

  /** The key of this call if it is a fixer that starts. */
  function StartedKey(role: Role, description: string, inv: Invocation): seq<string> {
    if role == Fixer && Started(inv) then [KeyOf(description)] else []
  }

  function ChainKeys(calls: seq<CallRecord>, oracle: nat -> Invocation, base: nat): seq<string>
    decreases |calls|
  {
    if calls == [] then []
    else StartedKey(calls[0].role, calls[0].description, oracle(base)) + ChainKeys(calls[1..], oracle, base + 1)
  }

  /** A fixer the orchestrator delegates to, under the key of the description it wrote. */
  function DirectKeys(lim: Limits, st: ToolState, t: Task): seq<string> {
    if Capped(lim, st, t) then [] else StartedKey(t.role, t.description, t.main)
  }

  /** The same run under the key of the description the fixer is given. */
  function SentKeys(lim: Limits, st: ToolState, t: Task): seq<string> {
    if Capped(lim, st, t) then [] else StartedKey(t.role, SentDescription(st, t), t.main)
  }

  /** Fixer runs inside the task's verify/fix chain. */
  function InChainKeys(lim: Limits, st: ToolState, t: Task): seq<string> {
    match RunTask(lim, st, t).chain
    case Some(r) => ChainKeys(r.calls, t.chain, 0)
    case None => []
  }

  function DirectAll(lim: Limits, st: ToolState, tasks: seq<Task>): seq<string>
    decreases tasks
  {
    if tasks == [] then []
    else DirectKeys(lim, st, tasks[0]) + DirectAll(lim, RunTask(lim, st, tasks[0]).st, tasks[1..])
  }

  function InChainAll(lim: Limits, st: ToolState, tasks: seq<Task>): seq<string>
    decreases tasks
  {
    if tasks == [] then []
    else InChainKeys(lim, st, tasks[0]) + InChainAll(lim, RunTask(lim, st, tasks[0]).st, tasks[1..])
  }

  function Times(keys: seq<string>, key: string): nat {
    multiset(keys)[key]
  }

  lemma TimesSum(a: seq<string>, b: seq<string>, key: string)
    ensures Times(a + b, key) == Times(a, key) + Times(b, key)
  {
  }

  // ---------- the counters count exactly those runs ----------

  lemma InnerCounts(st: ToolState, role: Role, description: string, inv: Invocation, key: string)
    ensures Attempts(AfterInner(st, role, description, inv), key)
            == Attempts(st, key) + Times(StartedKey(role, description, inv), key)
  {
    hide ExtractTaskId, AdvanceFor, CompletesRow, FormatVerifierOutput, L.ApplyAll;
  }

  lemma {:induction false} ReplayCounts(st: ToolState, calls: seq<CallRecord>, oracle: nat -> Invocation, base: nat, key: string)
    ensures Attempts(Replay(st, calls, oracle, base), key) == Attempts(st, key) + Times(ChainKeys(calls, oracle, base), key)
    decreases |calls|
  {
    hide AfterInner, Attempts, StartedKey, Times;
    if calls == [] {
      assert Times([], key) == 0 by { NoTimes(key); }
    } else {
      var c, inv := calls[0], oracle(base);
      InnerCounts(st, c.role, c.description, inv, key);
      ReplayCounts(AfterInner(st, c.role, c.description, inv), calls[1..], oracle, base + 1, key);
      TimesSum(StartedKey(c.role, c.description, inv), ChainKeys(calls[1..], oracle, base + 1), key);
    }
  }

  lemma NoTimes(key: string)
    ensures Times([], key) == 0
  {
  }

  lemma ChainCounts(max: nat, t: ChainTask, oracle: nat -> Invocation, st: ToolState, key: string)
    ensures var r := Chain(max, t, oracle, st);
            Attempts(r.st, key) == Attempts(st, key) + Times(ChainKeys(r.calls, oracle, 0), key)
  {
    hide Chain, Attempts, Times, ChainKeys, CallsAsNumbered, EventsPaired, StopsWhenDue, Verdict, Replay, Passes, NthRole;
    ChainProtocolHolds(max, t, oracle, st);
    ReplayCounts(st, Chain(max, t, oracle, st).calls, oracle, 0, key);
    assert max == 0 ==> Replay(st, [], oracle, 0) == st by { ReplayNothing(st, oracle); }
  }

  lemma ReplayNothing(st: ToolState, oracle: nat -> Invocation)
    ensures Replay(st, [], oracle, 0) == st
  {
  }

  /** One delegation raises the counter of every key by the number of fixers that started under that key, in
      the chain or directly — counted under the description actually sent — and touches no other key. A
      capped delegation starts no SubAgent and changes nothing. */
  lemma TaskCounts(lim: Limits, st: ToolState, t: Task, key: string)
    ensures var out := RunTask(lim, st, t);
            && Attempts(out.st, key) == Attempts(st, key) + Times(SentKeys(lim, st, t), key) + Times(InChainKeys(lim, st, t), key)
            && (!out.reached <==> t.role == Fixer && Attempts(st, KeyOf(t.description)) >= lim.fixerCap)
            && (!out.reached ==> out.st == st)
  {
    hide AfterInner, Chain, ChainText, ChainKeys, ExtractTaskId, Times, Attempts, InnerText, Contains, CapMessage, SentDescription,
         L.Advanced, StartedKey;
    NoTimes(key);
    if !Capped(lim, st, t) {
      var sent := SentDescription(st, t);
      var st1 := AfterInner(st, t.role, sent, t.main);
      InnerCounts(st, t.role, sent, t.main, key);
      if t.main.Returns? && t.role == Coder && Contains(InnerText(t.role, t.main), COMPLETED_MARK) {
        var task := ChainTask(sent, InnerText(t.role, t.main), t.callId);
        ChainCounts(lim.verifyAttempts, task, t.chain, st1, key);
        var run := Chain(lim.verifyAttempts, task, t.chain, st1);
        MarkKeepsCounters(run.st, sent, ChainText(lim.verifyAttempts, task, run), key);
      }
    }
  }

  lemma MarkKeepsCounters(st: ToolState, description: string, text: string, key: string)
    ensures Attempts(MarkByText(st, description, text), key) == Attempts(st, key)
  {
    hide ExtractTaskId, Contains, AdvanceFor;
  }

  // ---------- cap key and counter key ----------

  /** The evidence about to be prepended names no other task than the description does. */
  predicate Neutral(st: ToolState, t: Task) {
    t.role == Fixer && st.evidence != "" ==>
      ExtractTaskId(CappedEvidence(st.evidence)) == None
      || ExtractTaskId(CappedEvidence(st.evidence)) == ExtractTaskId(t.description)
  }

  lemma {:induction false} IdsStartWithT(s: string, i: nat)
    requires i <= |s|
    ensures FindFrom(s, i).Some? ==> FindFrom(s, i).value != GATE_CAP_KEY
    decreases |s| - i
  {
    hide TailEnd, DigitsEnd, IsWord;
    if i < |s| {
      if MatchEnd(s, i).Some? {
        var id := Upper(s[i..MatchEnd(s, i).value]);
        assert id[0] == UpperChar(s[i]) == 'T';
      } else {
        IdsStartWithT(s, i + 1);
      }
    }
  }

  lemma KeyIsId(description: string, other: string)
    ensures KeyOf(description) == KeyOf(other) <==> ExtractTaskId(description) == ExtractTaskId(other)
  {
    IdsStartWithT(description, 0);
    IdsStartWithT(other, 0);
  }

  /** The cap is checked on one key and counted on another exactly when the evidence is not neutral. */
  lemma SameKeyIff(st: ToolState, t: Task)
    ensures KeyOf(SentDescription(st, t)) == KeyOf(t.description) <==> Neutral(st, t)
  {
    hide ExtractTaskId, CappedEvidence, PrependEvidence;
    if t.role == Fixer && st.evidence != "" {
      PrependedId(t.description, st.evidence);
      KeyIsId(PrependEvidence(t.description, st.evidence), t.description);
    }
  }

  ghost predicate NeutralAll(lim: Limits, st: ToolState, tasks: seq<Task>)
    decreases tasks
  {
    tasks != [] ==> Neutral(st, tasks[0]) && NeutralAll(lim, RunTask(lim, st, tasks[0]).st, tasks[1..])
  }

  // ---------- fixers inside chains ----------

  predicate ChainTouches(lim: Limits, st: ToolState, t: Task, key: string) {
    key in InChainKeys(lim, st, t)
  }

  /** How many delegations of the sequence run a chain with a fixer under `key`. */
  function ChainsTouching(lim: Limits, st: ToolState, tasks: seq<Task>, key: string): nat
    decreases tasks
  {
    if tasks == [] then 0
    else (if ChainTouches(lim, st, tasks[0], key) then 1 else 0)
         + ChainsTouching(lim, RunTask(lim, st, tasks[0]).st, tasks[1..], key)
  }

  lemma {:induction false} ChainKeysFew(calls: seq<CallRecord>, oracle: nat -> Invocation, base: nat)
    requires forall k :: 0 <= k < |calls| ==> calls[k].role == NthRole(base + k)
    ensures |ChainKeys(calls, oracle, base)| <= (|calls| + base % 2) / 2
    decreases |calls|
  {
    hide KeyOf, Started;
    if calls != [] {
      assert calls[0].role == NthRole(base + 0);
      forall k | 0 <= k < |calls[1..]| ensures calls[1..][k].role == NthRole(base + 1 + k) {
        assert calls[1..][k] == calls[k + 1] && base + (k + 1) == base + 1 + k;
      }
      ChainKeysFew(calls[1..], oracle, base + 1);
    }
  }

  lemma TimesAtMostLength(keys: seq<string>, key: string)
    ensures Times(keys, key) <= |keys|
    ensures Times(keys, key) > 0 <==> key in keys
  {
    assert |multiset(keys)| == |keys|;
    CountAtMostSize(multiset(keys), key);
  }

  lemma CountAtMostSize(m: multiset<string>, key: string)
    ensures m[key] <= |m|
  {
    assert m == m[key := 0] + multiset{}[key := m[key]];
  }

  lemma InChainFew(lim: Limits, st: ToolState, t: Task, key: string)
    ensures Times(InChainKeys(lim, st, t), key) <= if ChainTouches(lim, st, t, key) then Max(lim.verifyAttempts - 1, 0) else 0
  {
    hide Times, ChainKeys, Chain, ChainText, Capped, AfterInner, InnerText, Contains, MarkByText, SentDescription, NthRole,
         Follows, Passes, CapMessage;
    TimesAtMostLength(InChainKeys(lim, st, t), key);
    var out := RunTask(lim, st, t);
    if out.chain.Some? {
      var sent := SentDescription(st, t);
      var task := ChainTask(sent, InnerText(t.role, t.main), t.callId);
      ChainProtocolHolds(lim.verifyAttempts, task, t.chain, AfterInner(st, t.role, sent, t.main));
      ChainKeysFew(out.chain.value.calls, t.chain, 0);
    }
  }

  lemma {:induction false} KeysOfCalls(calls: seq<CallRecord>, oracle: nat -> Invocation, base: nat, id: string)
    requires forall k :: 0 <= k < |calls| ==> ExtractTaskId(calls[k].description) == Some(id)
    ensures forall key :: key in ChainKeys(calls, oracle, base) ==> key == id
    decreases |calls|
  {
    hide ExtractTaskId, Started;
    if calls != [] {
      assert forall k :: 0 <= k < |calls[1..]| ==> calls[1..][k] == calls[k + 1];
      KeysOfCalls(calls[1..], oracle, base + 1, id);
    }
  }

  /** A coder task whose id survives the cut to 800 characters spends its chain's fixers on its own key only. */
  lemma ChainStaysOnKey(lim: Limits, st: ToolState, t: Task, id: string, key: string)
    requires t.role == Coder && ExtractTaskId(Cut(t.description, DESCRIPTION_LIMIT)) == Some(id)
    ensures ChainTouches(lim, st, t, key) ==> key == id
  {
    hide ChainKeys, Chain, ChainText, AfterInner, InnerText, Contains, MarkByText, ExtractTaskId;
    var out := RunTask(lim, st, t);
    if out.chain.Some? {
      var task := ChainTask(t.description, InnerText(t.role, t.main), t.callId);
      ChainLedger.ChainCallsKeepId(lim.verifyAttempts, task, t.chain, AfterInner(st, t.role, t.description, t.main), id);
      KeysOfCalls(out.chain.value.calls, t.chain, 0, id);
    }
  }

  // ---------- main result ----------

  /** Over any sequence of delegations with neutral evidence, and for every key: each started fixer, direct or
      in a chain, is counted exactly once, so counters never fall and keys never affect each other; at most
      `cap` direct fixers start; and each chain adds at most `verifyAttempts - 1` more. */
  lemma {:induction false} FixerRunsBounded(lim: Limits, st: ToolState, tasks: seq<Task>, key: string)
    requires NeutralAll(lim, st, tasks)
    ensures var direct, inChain := Times(DirectAll(lim, st, tasks), key), Times(InChainAll(lim, st, tasks), key);
            && Attempts(RunAll(lim, st, tasks), key) == Attempts(st, key) + direct + inChain
            && direct <= Max(lim.fixerCap - Attempts(st, key), 0)
            && inChain <= Max(lim.verifyAttempts - 1, 0) * ChainsTouching(lim, st, tasks, key)
    decreases tasks
  {
    hide RunTask, Times, Attempts, DirectKeys, InChainKeys, ChainTouches, Neutral;
    NoTimes(key);
    if tasks != [] {
      var t, next, rest := tasks[0], RunTask(lim, st, tasks[0]).st, tasks[1..];
      FixerRunsBounded(lim, next, rest, key);
      TimesSum(DirectKeys(lim, st, t), DirectAll(lim, next, rest), key);
      TimesSum(InChainKeys(lim, st, t), InChainAll(lim, next, rest), key);
      TaskCounts(lim, st, t, key);
      InChainFew(lim, st, t, key);
      NeutralDirect(lim, st, t, key);
      Spread(Max(lim.verifyAttempts - 1, 0), if ChainTouches(lim, st, t, key) then 1 else 0, ChainsTouching(lim, next, rest, key));
    }
  }

  lemma Spread(a: nat, b: nat, c: nat)
    ensures a * (b + c) == a * b + a * c
  {
  }

  lemma NeutralDirect(lim: Limits, st: ToolState, t: Task, key: string)
    requires Neutral(st, t)
    ensures Times(SentKeys(lim, st, t), key) == Times(DirectKeys(lim, st, t), key)
    ensures Times(DirectKeys(lim, st, t), key) <= if Attempts(st, key) < lim.fixerCap then 1 else 0
  {
    hide ExtractTaskId, Neutral, SentDescription, Attempts, CapKey;
    SameKeyIff(st, t);
  }

  // ---------- in terms of the coder runs for a key ----------

  /** The coder's id, as far as its chain can see it. */
  predicate CoderOn(t: Task, key: string) {
    t.role == Coder && ExtractTaskId(Cut(t.description, DESCRIPTION_LIMIT)) == Some(key)
  }

  function CoderRuns(tasks: seq<Task>, key: string): nat {
    if tasks == [] then 0 else (if CoderOn(tasks[0], key) then 1 else 0) + CoderRuns(tasks[1..], key)
  }

  predicate CoderHasId(t: Task) {
    t.role == Coder ==> ExtractTaskId(Cut(t.description, DESCRIPTION_LIMIT)).Some?
  }

  lemma OnlyCodersTouch(lim: Limits, st: ToolState, t: Task, key: string)
    requires CoderHasId(t) && ChainTouches(lim, st, t, key)
    ensures CoderOn(t, key)
  {
    hide ChainKeys, Chain, ChainText, AfterInner, InnerText, Contains, MarkByText, ExtractTaskId, Capped, SentDescription, CapMessage;
    if t.role == Coder {
      ChainStaysOnKey(lim, st, t, ExtractTaskId(Cut(t.description, DESCRIPTION_LIMIT)).value, key);
    }
  }

  lemma {:induction false} TouchingFew(lim: Limits, st: ToolState, tasks: seq<Task>, key: string)
    requires forall k :: 0 <= k < |tasks| ==> CoderHasId(tasks[k])
    ensures ChainsTouching(lim, st, tasks, key) <= CoderRuns(tasks, key)
    decreases tasks
  {
    hide RunTask, ChainTouches, CoderHasId, CoderOn;
    if tasks != [] {
      if ChainTouches(lim, st, tasks[0], key) { OnlyCodersTouch(lim, st, tasks[0], key); }
      assert forall k :: 0 <= k < |tasks[1..]| ==> tasks[1..][k] == tasks[k + 1];
      TouchingFew(lim, RunTask(lim, st, tasks[0]).st, tasks[1..], key);
    }
  }

  /** With neutral evidence and coder ids that survive the cut, a key gets at most `cap` direct fixers and
      `verifyAttempts - 1` more per coder run for that key. */
  lemma FixerRunsPerKey(lim: Limits, st: ToolState, tasks: seq<Task>, key: string)
    requires NeutralAll(lim, st, tasks) && forall k :: 0 <= k < |tasks| ==> CoderHasId(tasks[k])
    ensures Times(DirectAll(lim, st, tasks), key) + Times(InChainAll(lim, st, tasks), key)
            <= lim.fixerCap + Max(lim.verifyAttempts - 1, 0) * CoderRuns(tasks, key)
  {
    hide DirectAll, InChainAll, ChainsTouching, CoderRuns, NeutralAll, Times, CoderHasId, RunAll, Attempts;
    FixerRunsBounded(lim, st, tasks, key);
    TouchingFew(lim, st, tasks, key);
    var m := Max(lim.verifyAttempts - 1, 0);
    Scale(m, ChainsTouching(lim, st, tasks, key), CoderRuns(tasks, key));
  }

  /** From a new tool on, each counter is the number of fixers started under its key, and is never missed: a direct
      fixer is turned away exactly if as many as the cap allows have run. */
  lemma CountedFromNew(lim: Limits, rows: L.Rows, tasks: seq<Task>, key: string)
    requires NeutralAll(lim, ToolState(rows, map[], ""), tasks)
    ensures var st := ToolState(rows, map[], "");
            var runs := Times(DirectAll(lim, st, tasks), key) + Times(InChainAll(lim, st, tasks), key);
            && Attempts(RunAll(lim, st, tasks), key) == runs
            && forall t: Task :: t.role == Fixer && CapKey(ExtractTaskId(t.description)) == key ==>
                 (Capped(lim, RunAll(lim, st, tasks), t) <==> runs >= lim.fixerCap)
  {
    hide DirectAll, InChainAll, ChainsTouching, NeutralAll, Times, RunAll, ExtractTaskId;
    FixerRunsBounded(lim, ToolState(rows, map[], ""), tasks, key);
  }

  lemma Scale(m: nat, a: nat, b: nat)
    requires a <= b
    ensures m * a <= m * b
  {
  }

  // ---------- whatever the evidence says ----------

  /** Direct fixers under `key` that started with evidence naming another task. */
  function Strays(lim: Limits, st: ToolState, tasks: seq<Task>, key: string): nat
    decreases tasks
  {
    if tasks == [] then 0
    else
      (if Neutral(st, tasks[0]) then 0 else Times(DirectKeys(lim, st, tasks[0]), key))
      + Strays(lim, RunTask(lim, st, tasks[0]).st, tasks[1..], key)
  }

  lemma DirectNeedsRoom(lim: Limits, st: ToolState, t: Task, key: string)
    ensures Times(DirectKeys(lim, st, t), key) <= if Attempts(st, key) < lim.fixerCap then 1 else 0
  {
    hide ExtractTaskId, Attempts, CapKey;
  }

  /** For any evidence whatever: direct fixers started under a key number at most the cap plus those among
      them that were handed evidence naming another task. */
  lemma {:induction false} DirectRunsBounded(lim: Limits, st: ToolState, tasks: seq<Task>, key: string)
    ensures Times(DirectAll(lim, st, tasks), key) <= Max(lim.fixerCap - Attempts(st, key), 0) + Strays(lim, st, tasks, key)
    ensures Attempts(RunAll(lim, st, tasks), key) >= Attempts(st, key)
    decreases tasks
  {
    hide RunTask, Times, Attempts, DirectKeys, InChainKeys, SentKeys, Neutral;
    NoTimes(key);
    if tasks != [] {
      var t, next, rest := tasks[0], RunTask(lim, st, tasks[0]).st, tasks[1..];
      DirectRunsBounded(lim, next, rest, key);
      TimesSum(DirectKeys(lim, st, t), DirectAll(lim, next, rest), key);
      TaskCounts(lim, st, t, key);
      DirectNeedsRoom(lim, st, t, key);
      if Neutral(st, t) { NeutralDirect(lim, st, t, key); }
    }
  }

  // ---------- how the cap is bypassed ----------

  /** When the cached evidence names another task, fixers for this task are never counted under its key: no
      number of delegations reaches the cap. */
  lemma {:induction false} ForeignEvidenceBypassesCap(lim: Limits, st: ToolState, tasks: seq<Task>, key: string)
    requires Attempts(st, key) < lim.fixerCap && st.evidence != ""
    requires ExtractTaskId(CappedEvidence(st.evidence)).Some? && ExtractTaskId(CappedEvidence(st.evidence)) != Some(key)
    requires forall k :: 0 <= k < |tasks| ==> tasks[k].role == Fixer && tasks[k].main.Returns? && KeyOf(tasks[k].description) == key
    ensures Times(DirectAll(lim, st, tasks), key) == |tasks|
    ensures Attempts(RunAll(lim, st, tasks), key) == Attempts(st, key)
    decreases tasks
  {
    hide RunTask, Times, Attempts, DirectKeys, InChainKeys, ExtractTaskId, CappedEvidence, KeyOf;
    NoTimes(key);
    if tasks != [] {
      var t, next, rest := tasks[0], RunTask(lim, st, tasks[0]).st, tasks[1..];
      BypassStep(lim, st, t, key);
      assert forall k :: 0 <= k < |rest| ==> rest[k] == tasks[k + 1];
      ForeignEvidenceBypassesCap(lim, next, rest, key);
      TimesSum(DirectKeys(lim, st, t), DirectAll(lim, next, rest), key);
    }
  }

  lemma BypassStep(lim: Limits, st: ToolState, t: Task, key: string)
    requires Attempts(st, key) < lim.fixerCap && st.evidence != ""
    requires ExtractTaskId(CappedEvidence(st.evidence)).Some? && ExtractTaskId(CappedEvidence(st.evidence)) != Some(key)
    requires t.role == Fixer && t.main.Returns? && KeyOf(t.description) == key
    ensures var next := RunTask(lim, st, t).st; next.evidence == st.evidence && Attempts(next, key) == Attempts(st, key)
    ensures Times(DirectKeys(lim, st, t), key) == 1
  {
    hide ExtractTaskId, CappedEvidence, PrependEvidence, Attempts, L.Advanced, L.ApplyAll, FormatVerifierOutput;
    TaskCounts(lim, st, t, key);
    PrependedId(t.description, st.evidence);
    assert KeyOf(SentDescription(st, t)) == ExtractTaskId(CappedEvidence(st.evidence)).value != key;
  }
}
