/** Which verifier report a fixer is handed. */
module EvidenceCache {
  import opened Prelude
  import opened TaskId
  import opened VerifierReport
  import opened Delegation
  import opened ChainProtocol
  import opened FixerCap

  /** A SubAgent call as the cache sees it. */
  datatype Ran = Ran(role: Role, inv: Invocation)

  predicate Reports(c: Ran) {
    c.role == Verifier && c.inv.Returns? && (c.inv.tag == Completed || c.inv.tag == Incomplete)
  }

  /** The report of the last verifier that ended COMPLETED or INCOMPLETE, or `before` if none did. */
  function Latest(before: string, ran: seq<Ran>): string {
    if ran == [] then before
    else
      var c := ran[|ran| - 1];
      if Reports(c) then FormatVerifierOutput(c.inv.result) else Latest(before, ran[..|ran| - 1])
  }

  lemma {:induction false} LatestMeans(before: string, ran: seq<Ran>, k: nat)
    requires k < |ran| && Reports(ran[k]) && forall j :: k < j < |ran| ==> !Reports(ran[j])
    ensures Latest(before, ran) == FormatVerifierOutput(ran[k].inv.result)
    decreases |ran|
  {
    hide Reports, FormatVerifierOutput;
    if k < |ran| - 1 {
      LatestMeans(before, ran[..|ran| - 1], k);
    }
  }

  lemma {:induction false} LatestSum(before: string, a: seq<Ran>, b: seq<Ran>)
    ensures Latest(before, a + b) == Latest(Latest(before, a), b)
  {
    hide Reports, FormatVerifierOutput;
    if b == [] {
      assert a + b == a;
    } else {
      assert (a + b)[..|a + b| - 1] == a + b[..|b| - 1];
      LatestSum(before, a, b[..|b| - 1]);
    }
  }

  function RanIn(calls: seq<CallRecord>, oracle: nat -> Invocation, base: nat): seq<Ran>
    decreases |calls|
  {
    if calls == [] then [] else [Ran(calls[0].role, oracle(base))] + RanIn(calls[1..], oracle, base + 1)
  }

  /** Every SubAgent call one delegation makes, in order. */
  function RanByTask(lim: Limits, st: ToolState, t: Task): seq<Ran> {
    var out := RunTask(lim, st, t);
    if !out.reached then []
    else [Ran(t.role, t.main)] + if out.chain.Some? then RanIn(out.chain.value.calls, t.chain, 0) else []
  }

  function RanByAll(lim: Limits, st: ToolState, tasks: seq<Task>): seq<Ran>
    decreases tasks
  {
    if tasks == [] then [] else RanByTask(lim, st, tasks[0]) + RanByAll(lim, RunTask(lim, st, tasks[0]).st, tasks[1..])
  }

  lemma InnerEvidence(st: ToolState, role: Role, description: string, inv: Invocation)
    ensures AfterInner(st, role, description, inv).evidence == Latest(st.evidence, [Ran(role, inv)])
  {
    hide ExtractTaskId, AdvanceFor, CompletesRow, FormatVerifierOutput;
  }

  lemma {:induction false} ReplayEvidence(st: ToolState, calls: seq<CallRecord>, oracle: nat -> Invocation, base: nat)
    ensures Replay(st, calls, oracle, base).evidence == Latest(st.evidence, RanIn(calls, oracle, base))
    decreases |calls|
  {
    hide AfterInner, Latest;
    if calls == [] {
      assert Latest(st.evidence, []) == st.evidence by { NothingRan(st.evidence); }
    } else {
      var next := AfterInner(st, calls[0].role, calls[0].description, oracle(base));
      InnerEvidence(st, calls[0].role, calls[0].description, oracle(base));
      ReplayEvidence(next, calls[1..], oracle, base + 1);
      LatestSum(st.evidence, [Ran(calls[0].role, oracle(base))], RanIn(calls[1..], oracle, base + 1));
    }
  }

  lemma NothingRan(before: string)
    ensures Latest(before, []) == before
  {
  }

  lemma ChainEvidence(max: nat, t: ChainTask, oracle: nat -> Invocation, st: ToolState)
    ensures var r := Chain(max, t, oracle, st); r.st.evidence == Latest(st.evidence, RanIn(r.calls, oracle, 0))
  {
    hide Chain, Latest, RanIn, CallsAsNumbered, EventsPaired, StopsWhenDue, Verdict, Replay, Passes, NthRole;
    ChainProtocolHolds(max, t, oracle, st);
    ReplayEvidence(st, Chain(max, t, oracle, st).calls, oracle, 0);
    assert max == 0 ==> Replay(st, [], oracle, 0) == st by { ReplayNothing(st, oracle); }
  }

  lemma TaskEvidence(lim: Limits, st: ToolState, t: Task)
    ensures RunTask(lim, st, t).st.evidence == Latest(st.evidence, RanByTask(lim, st, t))
  {
    hide AfterInner, Chain, ChainText, Latest, RanIn, Capped, InnerText, SentDescription, AdvanceFor, CapMessage;
    NothingRan(st.evidence);
    if !Capped(lim, st, t) {
      var sent := SentDescription(st, t);
      var st1 := AfterInner(st, t.role, sent, t.main);
      InnerEvidence(st, t.role, sent, t.main);
      var out := RunTask(lim, st, t);
      if out.chain.Some? {
        var task := ChainTask(sent, InnerText(t.role, t.main), t.callId);
        ChainEvidence(lim.verifyAttempts, task, t.chain, st1);
        LatestSum(st.evidence, [Ran(t.role, t.main)], RanIn(out.chain.value.calls, t.chain, 0));
      } else {
        assert [Ran(t.role, t.main)] + [] == [Ran(t.role, t.main)];
      }
    }
  }

  /** Over any sequence of delegations, chains included, the evidence the next fixer is handed is the report
      of the last verifier that ended COMPLETED or INCOMPLETE; failed or aborted verifiers and exceptions
      leave the earlier report in place. */
  lemma {:induction false} EvidenceIsLatest(lim: Limits, st: ToolState, tasks: seq<Task>)
    ensures RunAll(lim, st, tasks).evidence == Latest(st.evidence, RanByAll(lim, st, tasks))
    decreases tasks
  {
    hide RunTask, Latest, RanByTask;
    if tasks == [] {
      NothingRan(st.evidence);
    } else {
      var next := RunTask(lim, st, tasks[0]).st;
      TaskEvidence(lim, st, tasks[0]);
      EvidenceIsLatest(lim, next, tasks[1..]);
      LatestSum(st.evidence, RanByTask(lim, st, tasks[0]), RanByAll(lim, next, tasks[1..]));
    }
  }
}
