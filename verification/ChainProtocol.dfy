/** The verify/fix chain in closed form: which calls it makes, under which ids and descriptions, which
    events it emits, when it stops and what verdict it returns. */
module ChainProtocol {
  import opened Prelude
  import opened Text
  import opened TaskId
  import opened VerifierReport
  import opened Delegation

  // ---------- the k-th call, described on its own ----------

  function NthRole(k: nat): Role {
    if k % 2 == 0 then Verifier else Fixer
  }

  function NthId(t: ChainTask, k: nat): string {
    if k % 2 == 0 then VerifierId(t, k / 2) else FixerId(t, k / 2)
  }

  /** What the k-th call said: its report, or the message of its exception. */
  function NthText(oracle: nat -> Invocation, k: nat): string {
    match oracle(k)
    case Raises(_, message, _) => message
    case Returns(_, _, _, _) => InnerText(NthRole(k), oracle(k))
  }

  function NthDescription(t: ChainTask, oracle: nat -> Invocation, k: nat): string {
    if k == 0 then VerifierDescription(t.description, t.result)
    else if k % 2 == 1 then FixerDescription(t.description, NthText(oracle, k - 1))
    else AgainDescription(t, NthText(oracle, k - 1))
  }

  function NthCall(t: ChainTask, oracle: nat -> Invocation, k: nat): CallRecord {
    CallRecord(NthRole(k), NthId(t, k), NthDescription(t, oracle, k))
  }

  /** The verdict "verified": a verifier that returned a completed report without failure markers. */
  predicate Passes(oracle: nat -> Invocation, k: nat) {
    k % 2 == 0 && oracle(k).Returns? && TextPasses(NthText(oracle, k))
  }

  predicate Succeeds(oracle: nat -> Invocation, k: nat) {
    oracle(k).Returns? && if k % 2 == 0 then TextPasses(NthText(oracle, k)) else Contains(NthText(oracle, k), COMPLETED_MARK)
  }

  /** The chain goes on after its k-th call. */
  predicate Continues(oracle: nat -> Invocation, k: nat) {
    oracle(k).Returns? && !Passes(oracle, k)
  }

  function NthEvents(oracle: nat -> Invocation, k: nat): seq<Event> {
    [Start(NthRole(k), k / 2 + 1), Ended(NthRole(k), k / 2 + 1, Succeeds(oracle, k))]
  }

  function NthEntry(oracle: nat -> Invocation, k: nat): string {
    match (NthRole(k), oracle(k).Raises?)
    case (Verifier, true) => VerifierErrorEntry(k / 2, NthText(oracle, k))
    case (Verifier, false) => VerifierEntry(k / 2, NthText(oracle, k))
    case (_, true) => FixerErrorEntry(k / 2, NthText(oracle, k))
    case (_, false) => FixerEntry(k / 2, NthText(oracle, k))
  }

  /** The state after making `calls` one after another, answered from number `base` on. */
  function Replay(st: ToolState, calls: seq<CallRecord>, oracle: nat -> Invocation, base: nat): ToolState
    decreases |calls|
  {
    if calls == [] then st
    else Replay(AfterInner(st, calls[0].role, calls[0].description, oracle(base)), calls[1..], oracle, base + 1)
  }

  // ---------- the protocol ----------

  ghost predicate CallsAsNumbered(t: ChainTask, oracle: nat -> Invocation, base: nat, r: ChainRun) {
    && (forall k :: 0 <= k < |r.calls| ==> r.calls[k] == NthCall(t, oracle, base + k))
    && |r.log| == |r.calls| && (forall k :: 0 <= k < |r.log| ==> r.log[k] == NthEntry(oracle, base + k))
  }

  /** Every call's start is followed at once by its own end. */
  ghost predicate EventsPaired(oracle: nat -> Invocation, base: nat, r: ChainRun) {
    && |r.events| == 2 * |r.calls|
    && forall k :: 0 <= k < |r.calls| ==> r.events[2 * k..2 * k + 2] == NthEvents(oracle, base + k)
  }

  /** The chain stops exactly at the first call that raises or passes, or at verifier number `max`. */
  ghost predicate StopsWhenDue(max: nat, oracle: nat -> Invocation, base: nat, r: ChainRun) {
    var last := base + |r.calls| - 1;
    && r.calls != [] && last <= 2 * max - 2
    && (forall k :: base <= k < last ==> Continues(oracle, k))
    && (Continues(oracle, last) ==> last == 2 * max - 2)
  }

  ghost predicate Verdict(oracle: nat -> Invocation, base: nat, r: ChainRun)
    requires r.calls != []
  {
    var last := base + |r.calls| - 1;
    && (r.passedAt.Some? <==> Passes(oracle, last))
    && (r.passedAt.Some? ==> r.passedAt == Some(last / 2) && r.lastText == NthText(oracle, last))
  }

  ghost predicate Follows(max: nat, t: ChainTask, oracle: nat -> Invocation, base: nat, st: ToolState, r: ChainRun) {
    && CallsAsNumbered(t, oracle, base, r)
    && EventsPaired(oracle, base, r)
    && StopsWhenDue(max, oracle, base, r)
    && Verdict(oracle, base, r)
    && r.st == Replay(st, r.calls, oracle, base)
  }

  lemma EventsStep(oracle: nat -> Invocation, base: nat, c: CallRecord, line: string, r: ChainRun)
    requires EventsPaired(oracle, base + 1, r)
    ensures EventsPaired(oracle, base, Preceded([c], NthEvents(oracle, base), [line], r))
  {
    hide Succeeds;
    var p := Preceded([c], NthEvents(oracle, base), [line], r);
    forall k | 0 <= k < |p.calls| ensures p.events[2 * k..2 * k + 2] == NthEvents(oracle, base + k) {
      if k > 0 {
        assert p.events[2 * k..2 * k + 2] == r.events[2 * (k - 1)..2 * (k - 1) + 2];
        assert base + k == base + 1 + (k - 1);
      }
    }
  }

  lemma CallsStep(t: ChainTask, oracle: nat -> Invocation, base: nat, es: seq<Event>, r: ChainRun)
    requires CallsAsNumbered(t, oracle, base + 1, r)
    ensures CallsAsNumbered(t, oracle, base, Preceded([NthCall(t, oracle, base)], es, [NthEntry(oracle, base)], r))
  {
    hide NthCall, NthEntry;
    var p := Preceded([NthCall(t, oracle, base)], es, [NthEntry(oracle, base)], r);
    forall k | 0 <= k < |p.calls| ensures p.calls[k] == NthCall(t, oracle, base + k) && p.log[k] == NthEntry(oracle, base + k) {
      if k > 0 {
        assert p.calls[k] == r.calls[k - 1] && p.log[k] == r.log[k - 1];
        assert base + k == base + 1 + (k - 1);
      }
    }
  }

  lemma FollowsStep(max: nat, t: ChainTask, oracle: nat -> Invocation, base: nat, st: ToolState, r: ChainRun)
    requires Continues(oracle, base)
    requires Follows(max, t, oracle, base + 1, AfterInner(st, NthRole(base), NthDescription(t, oracle, base), oracle(base)), r)
    ensures Follows(max, t, oracle, base, st,
                    Preceded([NthCall(t, oracle, base)], NthEvents(oracle, base), [NthEntry(oracle, base)], r))
  {
    hide CallsAsNumbered, EventsPaired, AfterInner, NthDescription, NthEvents, NthEntry, Continues, Passes, NthText, NthId, NthRole;
    var p := Preceded([NthCall(t, oracle, base)], NthEvents(oracle, base), [NthEntry(oracle, base)], r);
    CallsStep(t, oracle, base, NthEvents(oracle, base), r);
    EventsStep(oracle, base, NthCall(t, oracle, base), NthEntry(oracle, base), r);
    assert p.calls[1..] == r.calls;
    assert base + |p.calls| - 1 == base + 1 + |r.calls| - 1;
  }

  lemma FollowsLast(max: nat, t: ChainTask, oracle: nat -> Invocation, base: nat, st: ToolState, r: ChainRun)
    requires r.calls == [NthCall(t, oracle, base)] && r.log == [NthEntry(oracle, base)] && r.events == NthEvents(oracle, base)
    requires base <= 2 * max - 2 && (Continues(oracle, base) ==> base == 2 * max - 2)
    requires Verdict(oracle, base, r)
    requires r.st == AfterInner(st, NthRole(base), NthDescription(t, oracle, base), oracle(base))
    ensures Follows(max, t, oracle, base, st, r)
  {
    hide AfterInner, NthDescription, NthEntry, Continues, Passes, Succeeds, NthText, NthId, NthRole;
    assert EventsPaired(oracle, base, r) by {
      assert base + 0 == base && r.events[0..2] == r.events;
      forall k | 0 <= k < |r.calls| ensures r.events[2 * k..2 * k + 2] == NthEvents(oracle, base + k) {
        assert k == 0;
      }
    }
    assert CallsAsNumbered(t, oracle, base, r) by {
      assert base + 0 == base;
    }
    assert StopsWhenDue(max, oracle, base, r);
    assert r.calls[1..] == [];
    assert r.st == Replay(st, r.calls, oracle, base);
  }

  lemma {:induction false} ChainFollows(max: nat, t: ChainTask, oracle: nat -> Invocation, attempt: nat, st: ToolState)
    requires attempt < max
    ensures Follows(max, t, oracle, 2 * attempt, st,
                    ChainFrom(max, t, oracle, attempt, NthDescription(t, oracle, 2 * attempt), st))
    decreases max - attempt, 1
  {
    hide AfterInner, TextPasses, InnerText, VerifierId, FixerId, VerifierEntry, VerifierErrorEntry, FixFrom, Preceded,
         Follows, NthDescription, Replay, FixerEntry, FixerErrorEntry, FixerDescription, VerifierDescription, Contains;
    var k, v := 2 * attempt, oracle(2 * attempt);
    var description := NthDescription(t, oracle, k);
    var r := ChainFrom(max, t, oracle, attempt, description, st);
    if Continues(oracle, k) && attempt + 1 < max {
      FixFollows(max, t, oracle, attempt, AfterInner(st, Verifier, description, v));
      FollowsStep(max, t, oracle, k, st, FixFrom(max, t, oracle, attempt, NthText(oracle, k), AfterInner(st, Verifier, description, v)));
    } else {
      FollowsLast(max, t, oracle, k, st, r);
    }
  }

  lemma {:induction false} FixFollows(max: nat, t: ChainTask, oracle: nat -> Invocation, attempt: nat, st: ToolState)
    requires attempt + 1 < max && oracle(2 * attempt).Returns?
    ensures Follows(max, t, oracle, 2 * attempt + 1, st, FixFrom(max, t, oracle, attempt, NthText(oracle, 2 * attempt), st))
    decreases max - attempt, 0
  {
    hide AfterInner, TextPasses, InnerText, VerifierId, FixerId, VerifierEntry, VerifierErrorEntry, ChainFrom, Preceded,
         Follows, Replay, FixerEntry, FixerErrorEntry, FixerDescription, VerifierDescription, AgainDescription, Contains;
    var k, f := 2 * attempt + 1, oracle(2 * attempt + 1);
    var r := FixFrom(max, t, oracle, attempt, NthText(oracle, 2 * attempt), st);
    var st1 := AfterInner(st, Fixer, NthDescription(t, oracle, k), f);
    if f.Returns? {
      ChainFollows(max, t, oracle, attempt + 1, st1);
      FollowsStep(max, t, oracle, k, st,
                  ChainFrom(max, t, oracle, attempt + 1, NthDescription(t, oracle, 2 * (attempt + 1)), st1));
    } else {
      FollowsLast(max, t, oracle, k, st, r);
    }
  }

  // ---------- main results ----------

  lemma SameSuffix(a: string, p: string, x: string, y: string)
    requires a + p + x == a + p + y
    ensures x == y
  {
    var n := |a| + |p|;
    assert (a + p + x)[n..] == x && (a + p + y)[n..] == y;
  }

  lemma OtherSuffix(a: string, p: string, q: string, x: string, y: string, d: nat)
    requires d < |p| && d < |q| && p[d] != q[d]
    ensures a + p + x != a + q + y
  {
    assert (a + p + x)[|a| + d] == p[d] && (a + q + y)[|a| + d] == q[d];
  }

  lemma NthIdsDistinct(t: ChainTask, i: nat, j: nat)
    requires NthId(t, i) == NthId(t, j)
    ensures i == j
  {
    hide NatText;
    var p, x, y := t.callId, NatText(i / 2), NatText(j / 2);
    if i % 2 == j % 2 {
      SameSuffix(p, if i % 2 == 0 then "-auto-verify-" else "-auto-fix-", x, y);
      NatTextInjective(i / 2, j / 2);
    } else {
      OtherSuffix(p, "-auto-verify-", "-auto-fix-", x, y, 6);
      OtherSuffix(p, "-auto-verify-", "-auto-fix-", y, x, 6);
    }
  }

  /** For any behaviour of the SubAgents, exceptions included: the calls alternate verifier, fixer, verifier, …
      under pairwise distinct ids, at most `2 * max - 1` of them (so at most `max` verifiers and `max - 1`
      fixers); each call's start event is followed at once by its end event; and the chain passes exactly if
      its last call is a verifier that returned a completed report without a failure marker. */
  lemma ChainProtocolHolds(max: nat, t: ChainTask, oracle: nat -> Invocation, st: ToolState)
    ensures var r := Chain(max, t, oracle, st);
            && |r.calls| <= Max(2 * max - 1, 0)
            && (max > 0 ==> Follows(max, t, oracle, 0, st, r))
            && (max == 0 ==> r == GaveUp(st))
            && (forall i, j :: 0 <= i < j < |r.calls| ==> r.calls[i].id != r.calls[j].id)
            && (forall k :: 0 <= k < |r.calls| ==> r.calls[k].role == NthRole(k))
            && (r.passedAt.Some? <==> r.calls != [] && Passes(oracle, |r.calls| - 1))
  {
    hide Passes, Continues, NthEvents, NthEntry, NthDescription, Replay, NthId, VerifierDescription, CallsAsNumbered,
         EventsPaired, NthRole, ChainFrom;
    var r := Chain(max, t, oracle, st);
    if max > 0 {
      ChainStart(max, t, oracle, st);
      assert CallsAsNumbered(t, oracle, 0, r) && StopsWhenDue(max, oracle, 0, r) && Verdict(oracle, 0, r);
      CallsOf(t, oracle, r);
      forall i, j | 0 <= i < j < |r.calls| ensures r.calls[i].id != r.calls[j].id {
        if NthId(t, i) == NthId(t, j) { NthIdsDistinct(t, i, j); }
      }
    } else {
      NoAttempts(t, oracle, st);
    }
  }

  lemma CallsOf(t: ChainTask, oracle: nat -> Invocation, r: ChainRun)
    requires CallsAsNumbered(t, oracle, 0, r)
    ensures forall k :: 0 <= k < |r.calls| ==> r.calls[k].role == NthRole(k) && r.calls[k].id == NthId(t, k)
  {
    hide NthDescription, NthEntry, NthId, NthRole;
    forall k | 0 <= k < |r.calls| ensures r.calls[k].role == NthRole(k) && r.calls[k].id == NthId(t, k) {
      assert r.calls[k] == NthCall(t, oracle, 0 + k);
    }
  }

  lemma NoAttempts(t: ChainTask, oracle: nat -> Invocation, st: ToolState)
    ensures Chain(0, t, oracle, st) == GaveUp(st)
  {
    hide VerifierDescription;
  }

  lemma ChainStart(max: nat, t: ChainTask, oracle: nat -> Invocation, st: ToolState)
    requires max > 0
    ensures Follows(max, t, oracle, 0, st, Chain(max, t, oracle, st))
  {
    hide Follows, ChainFrom, VerifierDescription;
    ChainFollows(max, t, oracle, 0, st);
  }

  // ---------- what is said and shown ----------

  /** The verifier of the next round is shown the end of the fixer's report, up to 1,500 characters. */
  lemma NextVerifierSees(t: ChainTask, fixerText: string, tail: string)
    requires EndsWith(fixerText, tail) && |tail| <= 1500
    ensures Contains(AgainDescription(t, fixerText), tail)
  {
    hide Contains, VerifierDescription;
    var text := t.result + "\n\n## fixer 변경\n" + fixerText;
    assert text[|text| - |tail|..] == fixerText[|fixerText| - |tail|..];
    ChainDescriptionsShow(t.description, text, "", tail);
  }

  /** What the orchestrator reads begins with the coder's report. A chain that passed then shows the report it passed
      on, a chain that failed everything that was said, call by call. */
  lemma ChainTextShows(max: nat, t: ChainTask, r: ChainRun)
    ensures t.result <= ChainText(max, t, r)
    ensures r.passedAt.Some? ==> EndsWith(ChainText(max, t, r), r.lastText)
    ensures r.passedAt.None? ==> EndsWith(ChainText(max, t, r), Join("\n\n", r.log))
    ensures r.passedAt.None? ==> forall k :: 0 <= k < |r.log| ==> Contains(ChainText(max, t, r), r.log[k])
  {
    hide Join, Contains, NatText, EndsWith;
    if r.passedAt.Some? {
      var parts := [t.result, "", PassedTitle(max, r.passedAt.value), r.lastText];
      assert ChainText(max, t, r) == Join("\n", parts);
      JoinEnds("\n", parts);
      JoinStarts("\n", parts);
    } else {
      var log := Join("\n\n", r.log);
      var parts := [t.result, "", FailedTitle(max), log];
      assert ChainText(max, t, r) == Join("\n", parts);
      JoinEnds("\n", parts);
      JoinStarts("\n", parts);
      JoinHasPart("\n", parts, 3);
      forall k | 0 <= k < |r.log| ensures Contains(ChainText(max, t, r), r.log[k]) {
        JoinHasPart("\n\n", r.log, k);
        ContainsTrans(ChainText(max, t, r), log, r.log[k]);
      }
    }
  }

  lemma JoinStarts(sep: string, parts: seq<string>)
    requires parts != []
    ensures parts[0] <= Join(sep, parts)
  {
  }

  lemma SumEnds(a: string, b: string)
    ensures a <= a + b && EndsWith(a + b, b)
  {
  }

  lemma LineEnds(a: string, n: string, b: string, text: string)
    ensures a <= a + n + b + text && EndsWith(a + n + b + text, n + b + text)
  {
    assert a + n + b + text == a + (n + b + text);
    SumEnds(a, n + b + text);
  }

  /** An entry of the log says whose round it was and which, counted from one, whether the call could not be made, and
      ends with what was said. */
  lemma EntriesSay(k: nat, text: string)
    ensures var said := NatText(k + 1) + "\n" + text;
            && "### auto-verify attempt " <= VerifierEntry(k, text) && EndsWith(VerifierEntry(k, text), said)
            && "### auto-fix attempt " <= FixerEntry(k, text) && EndsWith(FixerEntry(k, text), said)
    ensures var failed := NatText(k + 1) + " → INVOCATION ERROR\n" + text;
            && "### auto-verify attempt " <= VerifierErrorEntry(k, text) && EndsWith(VerifierErrorEntry(k, text), failed)
            && "### auto-fix attempt " <= FixerErrorEntry(k, text) && EndsWith(FixerErrorEntry(k, text), failed)
  {
    hide NatText, EndsWith;
    LineEnds("### auto-verify attempt ", NatText(k + 1), "\n", text);
    LineEnds("### auto-fix attempt ", NatText(k + 1), "\n", text);
    LineEnds("### auto-verify attempt ", NatText(k + 1), " → INVOCATION ERROR\n", text);
    LineEnds("### auto-fix attempt ", NatText(k + 1), " → INVOCATION ERROR\n", text);
  }

  lemma PartsInside(p: string, a: string, q: string, b: string, r: string, c: string, s: string)
    ensures var line := p + a + q + b + r + c + s;
            Contains(line, p + a) && Contains(line, q + b + r) && Contains(line, r + c + s)
  {
    hide Contains;
    var line := p + a + q + b + r + c + s;
    ContainsPrefix(p + a, p + a);
    ContainsPrefix(q + b + r, q + b + r);
    ContainsPrefix(r + c + s, r + c + s);
    ContainsInside("", p + a, q + b + r + c + s, p + a);
    ContainsInside(p + a, q + b + r, c + s, q + b + r);
    ContainsInside(p + a + q + b, r + c + s, "", r + c + s);
    assert line == "" + (p + a) + (q + b + r + c + s);
    assert line == p + a + (q + b + r) + (c + s);
    assert line == p + a + q + b + (r + c + s) + "";
  }

  /** A delegation that is turned away says so in the form of a SubAgent's result, and for which task, after how many
      attempts and at which limit. */
  lemma CapMessageSays(lim: Limits, count: nat, id: Option<string>)
    ensures var m := CapMessage(lim, count, id);
            && "[Task INCOMPLETE — fixer]" <= m
            && Contains(m, "⚠ fixer for " + if id.None? then "<gate-level>" else id.value)
            && Contains(m, " hard-capped after " + NatText(count) + " attempts (cap=")
            && Contains(m, " attempts (cap=" + NatText(lim.fixerCap) + ").")
  {
    hide NatText, Join, Contains;
    var m, line := CapMessage(lim, count, id), CapLine(lim, count, id);
    var parts := ["[Task INCOMPLETE — fixer]", line, CAP_ADVICE, "[Duration: 0.0s]"];
    JoinStarts("\n", parts);
    JoinHasPart("\n", parts, 1);
    var name := if id.Some? then id.value else "<gate-level>";
    PartsInside("⚠ fixer for ", name, " hard-capped after ", NatText(count), " attempts (cap=", NatText(lim.fixerCap), ").");
    ContainsTrans(m, line, "⚠ fixer for " + name);
    ContainsTrans(m, line, " hard-capped after " + NatText(count) + " attempts (cap=");
    ContainsTrans(m, line, " attempts (cap=" + NatText(lim.fixerCap) + ").");
  }
}
