/** What a coder task with its verify/fix chain does to the todo ledger. */
module ChainLedger {
  import opened Prelude
  import opened Text
  import opened TaskId
  import opened VerifierReport
  import opened ShellOutput
  import opened Delegation
  import opened ChainProtocol
  import L = TodoLedger

  // ---------- the hooks inside the chain ----------

  /** The call's end hook completes the row: a fixer ended COMPLETED, or a verifier did and its executes succeeded. */
  predicate HookCompletes(role: Role, inv: Invocation) {
    inv.Returns? && CompletesRow(role, inv.tag, inv.result)
  }

  ghost predicate SomeHookCompletes(calls: seq<CallRecord>, oracle: nat -> Invocation, base: nat) {
    exists k :: 0 <= k < |calls| && HookCompletes(calls[k].role, oracle(base + k))
  }

  function DoneOr(done: bool, s: L.Status): L.Status {
    if done then L.Completed else s
  }

  lemma AdvanceMarked(rows: L.Rows, id: string, done: bool, s: L.Status, to: L.Status)
    requires s != L.Completed
    ensures L.Advanced(L.Marked(rows, id, DoneOr(done, s)), id, to) == L.Marked(rows, id, DoneOr(done, to))
  {
    hide L.Marked, L.Find, L.Advanced;
    var marked := L.Marked(rows, id, DoneOr(done, s));
    L.AdvancedIsMarked(marked, id, to);
    L.MarkedTwice(rows, id, DoneOr(done, s), DoneOr(L.HasCompleted(marked, id), to));
    if L.Has(rows, id) {
      L.MarkedStatus(rows, id, DoneOr(done, s));
    } else {
      Unmarked(rows, id, DoneOr(done, s));
      Unmarked(rows, id, to);
      Unmarked(rows, id, DoneOr(done, to));
    }
  }

  lemma Unmarked(rows: L.Rows, id: string, s: L.Status)
    requires !L.Has(rows, id)
    ensures L.Marked(rows, id, s) == rows
  {
  }

  lemma InnerMarks(rows: L.Rows, st: ToolState, role: Role, description: string, inv: Invocation, id: string, done: bool)
    requires role != Planner && ExtractTaskId(description) == Some(id)
    requires st.rows == L.Marked(rows, id, DoneOr(done, L.InProgress))
    ensures AfterInner(st, role, description, inv).rows
            == L.Marked(rows, id, DoneOr(done || HookCompletes(role, inv), L.InProgress))
  {
    hide L.Marked, L.Advanced, VerifierSignalsSuccess, FormatVerifierOutput, ExtractTaskId;
    AdvanceMarked(rows, id, done, L.InProgress, L.InProgress);
    AdvanceMarked(rows, id, done, L.InProgress, L.Completed);
    assert DoneOr(done, L.Completed) == L.Completed;
  }

  lemma {:induction false} ReplayMarks(rows: L.Rows, st: ToolState, calls: seq<CallRecord>, oracle: nat -> Invocation,
                                       base: nat, id: string, done: bool)
    requires forall k :: 0 <= k < |calls| ==> calls[k].role != Planner && ExtractTaskId(calls[k].description) == Some(id)
    requires st.rows == L.Marked(rows, id, DoneOr(done, L.InProgress))
    ensures Replay(st, calls, oracle, base).rows
            == L.Marked(rows, id, DoneOr(done || SomeHookCompletes(calls, oracle, base), L.InProgress))
    decreases |calls|
  {
    hide L.Marked, AfterInner, HookCompletes, ExtractTaskId;
    if calls != [] {
      var hook := HookCompletes(calls[0].role, oracle(base));
      InnerMarks(rows, st, calls[0].role, calls[0].description, oracle(base), id, done);
      ReplayMarks(rows, AfterInner(st, calls[0].role, calls[0].description, oracle(base)), calls[1..], oracle, base + 1, id, done || hook);
      SomeHookStep(calls, oracle, base);
    }
  }

  lemma SomeHookStep(calls: seq<CallRecord>, oracle: nat -> Invocation, base: nat)
    requires calls != []
    ensures SomeHookCompletes(calls, oracle, base) <==>
            HookCompletes(calls[0].role, oracle(base)) || SomeHookCompletes(calls[1..], oracle, base + 1)
  {
    hide HookCompletes;
    assert oracle(base + 0) == oracle(base);
    if k :| 0 <= k < |calls| && HookCompletes(calls[k].role, oracle(base + k)) {
      if k > 0 {
        assert calls[1..][k - 1] == calls[k] && base + 1 + (k - 1) == base + k;
      }
    }
    if k :| 0 <= k < |calls[1..]| && HookCompletes(calls[1..][k].role, oracle(base + 1 + k)) {
      assert calls[k + 1] == calls[1..][k] && base + (k + 1) == base + 1 + k;
    }
  }

  /** Every call of the chain works under the coder's id. */
  lemma ChainCallsKeepId(max: nat, t: ChainTask, oracle: nat -> Invocation, st: ToolState, id: string)
    requires ExtractTaskId(Cut(t.description, DESCRIPTION_LIMIT)) == Some(id)
    ensures var r := Chain(max, t, oracle, st);
            forall k :: 0 <= k < |r.calls| ==> r.calls[k].role != Planner && ExtractTaskId(r.calls[k].description) == Some(id)
  {
    hide Chain, NthText, NthId, VerifierDescription, FixerDescription, ExtractTaskId, Passes, StopsWhenDue, Verdict,
         EventsPaired, Replay;
    var r := Chain(max, t, oracle, st);
    ChainProtocolHolds(max, t, oracle, st);
    forall k | 0 <= k < |r.calls| ensures r.calls[k].role != Planner && ExtractTaskId(r.calls[k].description) == Some(id) {
      assert r.calls[k] == NthCall(t, oracle, 0 + k);
      NthCallKeepsId(t, oracle, k, id);
    }
  }

  lemma NthCallKeepsId(t: ChainTask, oracle: nat -> Invocation, k: nat, id: string)
    requires ExtractTaskId(Cut(t.description, DESCRIPTION_LIMIT)) == Some(id)
    ensures ExtractTaskId(NthDescription(t, oracle, k)) == Some(id) && NthRole(k) != Planner
  {
    hide ExtractTaskId, VerifierDescription, FixerDescription, NthText;
    if k == 0 {
      ChainKeepsId(t.description, t.result, id);
    } else {
      ChainKeepsId(t.description, NthText(oracle, k - 1), id);
      ChainKeepsId(t.description, t.result + "\n\n## fixer 변경\n" + NthText(oracle, k - 1), id);
    }
  }

  // ---------- the markers in the chain's text ----------

  lemma NoBracketNoMarker(s: string)
    requires '[' !in s
    ensures !Contains(s, PASSED_MARKER)
  {
    forall i: nat | OccursAt(s, PASSED_MARKER, i) ensures i < |s| && s[i] == '[' {
      OccursFirst(s, PASSED_MARKER, i);
    }
  }

  function EntryHead(oracle: nat -> Invocation, k: nat): string {
    (if k % 2 == 0 then "### auto-verify attempt " else "### auto-fix attempt ")
    + NatText(k / 2 + 1) + (if oracle(k).Raises? then " → INVOCATION ERROR" else "")
  }

  lemma EntryText(oracle: nat -> Invocation, k: nat)
    ensures NthEntry(oracle, k) == EntryHead(oracle, k) + "\n" + NthText(oracle, k)
  {
    hide NatText, NthText;
    var head := if k % 2 == 0 then "### auto-verify attempt " else "### auto-fix attempt ";
    var n, text := NatText(k / 2 + 1), NthText(oracle, k);
    if oracle(k).Raises? {
      assert " → INVOCATION ERROR" + "\n" == " → INVOCATION ERROR\n";
      assert head + n + " → INVOCATION ERROR" + "\n" + text == head + n + " → INVOCATION ERROR\n" + text;
    } else {
      assert head + n + "" == head + n;
    }
  }

  lemma HeadsAreClean(oracle: nat -> Invocation, k: nat)
    ensures !Contains(EntryHead(oracle, k), PASSED_MARKER)
  {
    hide NatText, Contains;
    NatTextDigits(k / 2 + 1);
    NoBracketNoMarker(EntryHead(oracle, k)) by {
      assert '[' !in NatText(k / 2 + 1);
      assert '[' !in "### auto-verify attempt " && '[' !in "### auto-fix attempt " && '[' !in " → INVOCATION ERROR";
    }
  }

  lemma EntryReads(oracle: nat -> Invocation, k: nat)
    ensures Contains(NthEntry(oracle, k), PASSED_MARKER) <==> Contains(NthText(oracle, k), PASSED_MARKER)
  {
    hide EntryHead, Contains, NthText, NthEntry;
    EntryText(oracle, k);
    HeadsAreClean(oracle, k);
    ContainsAcrossNewline(EntryHead(oracle, k), NthText(oracle, k), PASSED_MARKER);
  }

  /** The text of a failed chain reads as passed exactly if some SubAgent wrote the marker itself. */
  ghost predicate MarkerWritten(t: ChainTask, oracle: nat -> Invocation, r: ChainRun) {
    || Contains(t.result, PASSED_MARKER)
    || exists k :: 0 <= k < |r.calls| && Contains(NthText(oracle, k), PASSED_MARKER)
  }

  const FAILED_HEAD := "## ↳ harness auto-verifier "

  lemma FailedHeader(max: nat)
    ensures var h := "## ↳ harness auto-verifier " + FAILED_MARKER + " (v22 #2, " + NatText(max) + "회 시도 후 실패 — critic 검토 권장)";
            Contains(h, FAILED_MARKER) && !Contains(h, PASSED_MARKER)
  {
    hide NatText;
    NatTextDigits(max);
    var rest := " (v22 #2, " + NatText(max) + "회 시도 후 실패 — critic 검토 권장)";
    var h := FAILED_HEAD + FAILED_MARKER + rest;
    assert h == "## ↳ harness auto-verifier " + FAILED_MARKER + " (v22 #2, " + NatText(max) + "회 시도 후 실패 — critic 검토 권장)";
    FailedHeaderReads(rest);
  }

  lemma FailedHeaderReads(rest: string)
    requires '[' !in rest
    ensures var h := FAILED_HEAD + FAILED_MARKER + rest; Contains(h, FAILED_MARKER) && !Contains(h, PASSED_MARKER)
  {
    var h, n := FAILED_HEAD + FAILED_MARKER + rest, |FAILED_HEAD|;
    assert h[n..n + |FAILED_MARKER|] == FAILED_MARKER;
    assert OccursAt(h, FAILED_MARKER, n);
    assert !OccursAt(h, PASSED_MARKER, n) by {
      assert h[n + 13] == FAILED_MARKER[13] == 'F' && PASSED_MARKER[13] == 'P';
      assert n + |PASSED_MARKER| <= |h| ==> h[n..n + |PASSED_MARKER|][13] == h[n + 13];
    }
    forall i: nat | OccursAt(h, PASSED_MARKER, i) ensures i < |h| && h[i] == '[' {
      OccursFirst(h, PASSED_MARKER, i);
    }
    forall i | 0 <= i < |h| && i != n ensures h[i] != '[' {
      OtherCharacters(rest, i);
    }
  }

  lemma OtherCharacters(rest: string, i: nat)
    requires '[' !in rest && i < |FAILED_HEAD + FAILED_MARKER + rest| && i != |FAILED_HEAD|
    ensures (FAILED_HEAD + FAILED_MARKER + rest)[i] != '['
  {
    var h, n, m := FAILED_HEAD + FAILED_MARKER + rest, |FAILED_HEAD|, |FAILED_MARKER|;
    if i < n {
      assert h[i] == FAILED_HEAD[i] && '[' !in FAILED_HEAD;
    } else if i < n + m {
      var tail := FAILED_MARKER[1..];
      assert h[i] == tail[i - n - 1] && '[' !in tail;
    } else {
      assert h[i] == rest[i - n - m];
    }
  }

  /** A chain's text holds the passed marker exactly if the chain passed or a SubAgent wrote the marker; a
      failed chain's text always holds the failed marker. */
  lemma ChainTextReads(max: nat, t: ChainTask, oracle: nat -> Invocation, st: ToolState)
    ensures var r := Chain(max, t, oracle, st);
            && (Contains(ChainText(max, t, r), PASSED_MARKER) <==> r.passedAt.Some? || MarkerWritten(t, oracle, r))
            && (r.passedAt.None? ==> Contains(ChainText(max, t, r), FAILED_MARKER))
  {
    hide Chain, Contains, NatText, Join, NthText, NthEntry, NthCall, Verdict, EventsPaired, StopsWhenDue, Replay, Passes, NthRole, NthId;
    var r := Chain(max, t, oracle, st);
    ChainProtocolHolds(max, t, oracle, st);
    if r.passedAt.Some? {
      PassedTextReads(max, t, r);
    } else {
      FailedTextReads(max, t, r);
      LogReads(oracle, r);
    }
  }

  lemma PassedTextReads(max: nat, t: ChainTask, r: ChainRun)
    requires r.passedAt.Some?
    ensures Contains(ChainText(max, t, r), PASSED_MARKER)
  {
    hide Contains, NatText, Join;
    var head, end := "## ↳ harness auto-verifier ", " (v22 #2, attempt " + NatText(r.passedAt.value + 1) + "/" + NatText(max) + ")";
    var header := "## ↳ harness auto-verifier " + PASSED_MARKER + " (v22 #2, attempt " + NatText(r.passedAt.value + 1) + "/" + NatText(max) + ")";
    assert header == head + PASSED_MARKER + end;
    ContainsItself(PASSED_MARKER);
    ContainsInside(head, PASSED_MARKER, end, PASSED_MARKER);
    var lines := [t.result, "", header, r.lastText];
    assert lines[2] == header;
    ContainsInLines(lines, PASSED_MARKER);
  }

  lemma ContainsItself(m: string)
    ensures Contains(m, m)
  {
    assert OccursAt(m, m, 0);
  }

  lemma FailedTextReads(max: nat, t: ChainTask, r: ChainRun)
    requires r.passedAt.None?
    ensures Contains(ChainText(max, t, r), PASSED_MARKER) <==>
            Contains(t.result, PASSED_MARKER) || exists k :: 0 <= k < |r.log| && Contains(r.log[k], PASSED_MARKER)
    ensures Contains(ChainText(max, t, r), FAILED_MARKER)
  {
    hide Contains, NatText, Join;
    var header := "## ↳ harness auto-verifier " + FAILED_MARKER + " (v22 #2, " + NatText(max) + "회 시도 후 실패 — critic 검토 권장)";
    FailedHeader(max);
    var log := Join("\n\n", r.log);
    var lines := [t.result, "", header, log];
    assert lines[0] == t.result && lines[1] == "" && lines[2] == header && lines[3] == log;
    NoBracketNoMarker("");
    ContainsInLines(lines, PASSED_MARKER);
    ContainsInLines(lines, FAILED_MARKER);
    ContainsInParagraphs(r.log, PASSED_MARKER);
  }

  lemma LogReads(oracle: nat -> Invocation, r: ChainRun)
    requires |r.log| == |r.calls| && forall k :: 0 <= k < |r.log| ==> r.log[k] == NthEntry(oracle, k)
    ensures (exists k :: 0 <= k < |r.log| && Contains(r.log[k], PASSED_MARKER)) <==>
            (exists k :: 0 <= k < |r.calls| && Contains(NthText(oracle, k), PASSED_MARKER))
  {
    hide Contains, NthText, NthEntry;
    forall k | 0 <= k < |r.log|
      ensures Contains(r.log[k], PASSED_MARKER) <==> Contains(NthText(oracle, k), PASSED_MARKER)
    {
      EntryReads(oracle, k);
    }
  }

  // ---------- main result ----------

  /** The coder task ends as verified: its row was completed before, a hook inside the chain completed it, the
      chain passed, or a SubAgent wrote the passed marker. */
  ghost predicate EndsCompleted(rows: L.Rows, id: string, t: ChainTask, oracle: nat -> Invocation, r: ChainRun) {
    L.HasCompleted(rows, id) || SomeHookCompletes(r.calls, oracle, 0) || r.passedAt.Some? || MarkerWritten(t, oracle, r)
  }

  /** A finished coder task whose id is the first in its description, and still is after the cut to 800
      characters, leaves its row `Completed` exactly in those cases and `VerifyFailed` otherwise. It changes
      no other row, whatever the SubAgents do. */
  lemma CoderTaskMarksRow(lim: Limits, st: ToolState, t: Task, id: string)
    requires t.role == Coder && t.main.Returns? && Contains(InnerText(Coder, t.main), COMPLETED_MARK)
    requires ExtractTaskId(t.description) == Some(id)
    requires ExtractTaskId(Cut(t.description, DESCRIPTION_LIMIT)) == Some(id)
    ensures var out, task := RunTask(lim, st, t), ChainTask(t.description, InnerText(Coder, t.main), t.callId);
            && out.chain.Some?
            && out.st.rows == L.Marked(st.rows, id,
                 if EndsCompleted(st.rows, id, task, t.chain, out.chain.value) then L.Completed else L.VerifyFailed)
  {
    hide Contains, InnerText, ExtractTaskId, Chain, ChainText, L.Marked, L.Advanced, MarkerWritten, SomeHookCompletes,
         L.HasCompleted, AfterInner;
    var task := ChainTask(t.description, InnerText(Coder, t.main), t.callId);
    var st1 := AfterInner(st, Coder, t.description, t.main);
    var r := Chain(lim.verifyAttempts, task, t.chain, st1);
    var done := L.HasCompleted(st.rows, id);
    CoderStarts(st, t, id);
    ChainMarks(lim.verifyAttempts, task, t.chain, st.rows, st1, id, done);
    ChainTextReads(lim.verifyAttempts, task, t.chain, st1);
    var done1 := done || SomeHookCompletes(r.calls, t.chain, 0);
    AdvanceMarked(st.rows, id, done1, L.InProgress, L.Completed);
    AdvanceMarked(st.rows, id, done1, L.InProgress, L.VerifyFailed);
  }

  lemma CoderStarts(st: ToolState, t: Task, id: string)
    requires t.role == Coder && t.main.Returns? && ExtractTaskId(t.description) == Some(id)
    ensures AfterInner(st, Coder, t.description, t.main).rows
            == L.Marked(st.rows, id, DoneOr(L.HasCompleted(st.rows, id), L.InProgress))
  {
    hide ExtractTaskId, L.Marked, L.Advanced, VerifierSignalsSuccess, FormatVerifierOutput;
    L.AdvancedIsMarked(st.rows, id, L.InProgress);
  }

  lemma ChainMarks(max: nat, t: ChainTask, oracle: nat -> Invocation, rows: L.Rows, st: ToolState, id: string, done: bool)
    requires ExtractTaskId(Cut(t.description, DESCRIPTION_LIMIT)) == Some(id)
    requires st.rows == L.Marked(rows, id, DoneOr(done, L.InProgress))
    ensures var r := Chain(max, t, oracle, st);
            r.st.rows == L.Marked(rows, id, DoneOr(done || SomeHookCompletes(r.calls, oracle, 0), L.InProgress))
  {
    hide Chain, L.Marked, ExtractTaskId, SomeHookCompletes, AfterInner, CallsAsNumbered, EventsPaired, StopsWhenDue, Verdict, Passes;
    var r := Chain(max, t, oracle, st);
    ChainProtocolHolds(max, t, oracle, st);
    ChainCallsKeepId(max, t, oracle, st, id);
    ReplayMarks(rows, st, r.calls, oracle, 0, id, done);
  }

  // ---------- a failed chain that reads as passed ----------

  function ForgingCoder(description: string, message: string): Task {
    Task(Coder, description, "c", Returns(Completed, RoleResult(PASSED_MARKER, [], []), "d", []), (_: nat) => Raises(false, message, []))
  }

  lemma ForgedLines(description: string, message: string)
    ensures InnerText(Coder, ForgingCoder(description, message).main)
            == Join("\n", [Header(Completed, "coder"), PASSED_MARKER, "d"])
  {
    hide Join, Header, FormatVerifierOutput;
    assert WrittenFiles([], []) == [];
    assert [Header(Completed, "coder"), PASSED_MARKER] + [] + ["d"] == [Header(Completed, "coder"), PASSED_MARKER, "d"];
  }

  lemma CompletedHeader()
    ensures Contains(Header(Completed, "coder"), COMPLETED_MARK)
  {
    var header := Header(Completed, "coder");
    assert COMPLETED_MARK <= header;
    assert OccursAt(header, COMPLETED_MARK, 0);
  }

  lemma ForgedReport(description: string, message: string)
    ensures var text := InnerText(Coder, ForgingCoder(description, message).main);
            Contains(text, COMPLETED_MARK) && Contains(text, PASSED_MARKER)
  {
    hide Contains, Join, InnerText, Header, ForgingCoder;
    ForgedLines(description, message);
    CompletedHeader();
    ContainsItself(PASSED_MARKER);
    var lines := [Header(Completed, "coder"), PASSED_MARKER, "d"];
    assert lines[0] == Header(Completed, "coder") && lines[1] == PASSED_MARKER;
    ContainsInLines(lines, COMPLETED_MARK);
    ContainsInLines(lines, PASSED_MARKER);
  }

  /** A coder that prints the passed marker gets its row completed although every verifier failed to start. */
  lemma ForgedMarkerCompletesRow(lim: Limits, st: ToolState, description: string, message: string, id: string)
    requires ExtractTaskId(description) == Some(id)
    requires ExtractTaskId(Cut(description, DESCRIPTION_LIMIT)) == Some(id)
    ensures var out := RunTask(lim, st, ForgingCoder(description, message));
            && out.chain.Some? && out.chain.value.passedAt.None?
            && out.st.rows == L.Marked(st.rows, id, L.Completed)
  {
    hide Contains, InnerText, ExtractTaskId, Chain, ChainText, L.Marked, L.Advanced, AfterInner, Follows, Replay, SomeHookCompletes;
    var t := ForgingCoder(description, message);
    ForgedReport(description, message);
    CoderTaskMarksRow(lim, st, t, id);
    var task := ChainTask(description, InnerText(Coder, t.main), t.callId);
    ChainProtocolHolds(lim.verifyAttempts, task, t.chain, AfterInner(st, Coder, description, t.main));
  }

  // ---------- a passed chain whose tests failed ----------

  /** The verifier's only command failed, and its exit line begins past the report's or the output's limit. */
  predicate Unreported(command: string, notice: string, out: string, code: int, duration: string) {
    && code != 0 && Harmless(notice) && Harmless(out) && (notice == "" || !IsSpace(notice[0]))
    && Harmless(command) && Harmless(duration)
    && (|out| + 12 > MAX_CHARS || |Ahead(notice, out)| + 11 > SNIPPET_LIMIT)
  }

  /** A coder's row is completed by a chain that passes at its first verifier, although that verifier's only
      command, its test run, failed. */
  lemma FailedTestsCompleteRow(lim: Limits, st: ToolState, t: Task, id: string,
                               command: string, notice: string, out: string, code: int, duration: string)
    requires t.role == Coder && t.main.Returns? && Contains(InnerText(Coder, t.main), COMPLETED_MARK)
    requires ExtractTaskId(t.description) == Some(id)
    requires ExtractTaskId(Cut(t.description, DESCRIPTION_LIMIT)) == Some(id)
    requires lim.verifyAttempts > 0 && t.chain(0) == Returns(Completed, FailingRun(command, notice, out, code), duration, [])
    requires Unreported(command, notice, out, code, duration)
    ensures var o := RunTask(lim, st, t);
            && o.chain.Some? && o.chain.value.passedAt == Some(0) && |o.chain.value.calls| == 1
            && o.st.rows == L.Marked(st.rows, id, L.Completed)
  {
    hide Contains, InnerText, ExtractTaskId, Chain, ChainText, L.Marked, L.Advanced, AfterInner, Replay, SomeHookCompletes,
         TextPasses, CallsAsNumbered, EventsPaired, HasFailureMarker, SomeExecuteFails, FailingRun, MarkerWritten, Ahead,
         VerifierSignalsSuccess, FormatResult, L.HasCompleted, NthText;
    FailureMissedIff(command, notice, out, code, duration);
    CoderTaskMarksRow(lim, st, t, id);
    var task := ChainTask(t.description, InnerText(Coder, t.main), t.callId);
    ChainProtocolHolds(lim.verifyAttempts, task, t.chain, AfterInner(st, Coder, t.description, t.main));
    assert Passes(t.chain, 0) by { PassesAsReported(t.chain, FailingRun(command, notice, out, code), duration); }
    assert !Continues(t.chain, 0);
  }

  lemma PassesAsReported(oracle: nat -> Invocation, r: RoleResult, duration: string)
    requires oracle(0) == Returns(Completed, r, duration, [])
    requires TextPasses(FormatResult("verifier", r, Completed, duration))
    ensures Passes(oracle, 0)
  {
    hide TextPasses, FormatResult;
  }

  /** A verifier the orchestrator delegates to completes the row by its own end hook if its only command failed
      after more output than the shell tool returns; and if it failed after less, it does not. */
  lemma SilencedFailureCompletesRow(lim: Limits, st: ToolState, t: Task, id: string,
                                    command: string, notice: string, out: string, code: int, duration: string)
    requires t.role == Verifier && t.main == Returns(Completed, FailingRun(command, notice, out, code), duration, [])
    requires ExtractTaskId(t.description) == Some(id) && Harmless(command) && Harmless(duration)
    requires code != 0 && Harmless(notice) && Harmless(out) && (notice == "" || !IsSpace(notice[0]))
    ensures RunTask(lim, st, t).st.rows == L.Marked(st.rows, id,
              if L.HasCompleted(st.rows, id) || |out| + 12 > MAX_CHARS then L.Completed else L.InProgress)
  {
    hide Contains, InnerText, ExtractTaskId, Chain, ChainText, L.Marked, L.Advanced, AfterInner, HasFailureMarker,
         SomeExecuteFails, FailingRun, Ahead, VerifierSignalsSuccess, FormatResult, TextPasses, L.HasCompleted;
    FailureMissedIff(command, notice, out, code, duration);
    VerifierMarks(st, t.description, t.main, id);
  }

  lemma VerifierMarks(st: ToolState, description: string, inv: Invocation, id: string)
    requires inv.Returns? && ExtractTaskId(description) == Some(id)
    ensures AfterInner(st, Verifier, description, inv).rows
            == L.Marked(st.rows, id, DoneOr(L.HasCompleted(st.rows, id) || HookCompletes(Verifier, inv), L.InProgress))
  {
    hide ExtractTaskId, L.Marked, L.Advanced, VerifierSignalsSuccess, FormatVerifierOutput, L.HasCompleted;
    var done := L.HasCompleted(st.rows, id);
    L.AdvancedIsMarked(st.rows, id, L.InProgress);
    AdvanceMarked(st.rows, id, done, L.InProgress, L.Completed);
    assert DoneOr(done, L.Completed) == L.Completed;
  }

  // ---------- a failed chain that leaves its row completed ----------

  /** Once the first verifier did not pass and the fixer after it ended COMPLETED, the row ends completed
      whatever the rest of the chain finds. */
  lemma FixerHookCompletesRow(lim: Limits, st: ToolState, t: Task, id: string)
    requires t.role == Coder && t.main.Returns? && Contains(InnerText(Coder, t.main), COMPLETED_MARK)
    requires ExtractTaskId(t.description) == Some(id)
    requires ExtractTaskId(Cut(t.description, DESCRIPTION_LIMIT)) == Some(id)
    requires lim.verifyAttempts >= 2 && Continues(t.chain, 0)
    requires t.chain(1).Returns? && t.chain(1).tag == Completed
    ensures RunTask(lim, st, t).st.rows == L.Marked(st.rows, id, L.Completed)
    ensures var r := RunTask(lim, st, t).chain; r.Some? && (t.chain(2).Raises? ==> r.value.passedAt.None?)
  {
    hide Contains, InnerText, ExtractTaskId, Chain, ChainText, L.Marked, L.Advanced, AfterInner, Replay, MarkerWritten,
         TextPasses, EventsPaired, VerifierSignalsSuccess, CallsAsNumbered, Verdict, FormatResult, L.HasCompleted, NthText;
    CoderTaskMarksRow(lim, st, t, id);
    var task := ChainTask(t.description, InnerText(Coder, t.main), t.callId);
    ChainProtocolHolds(lim.verifyAttempts, task, t.chain, AfterInner(st, Coder, t.description, t.main));
    var r := RunTask(lim, st, t).chain.value;
    var last := |r.calls| - 1;
    assert StopsWhenDue(lim.verifyAttempts, t.chain, 0, r);
    assert Continues(t.chain, 1);
    assert last >= 2;
    assert HookCompletes(r.calls[1].role, t.chain(0 + 1));
    assert t.chain(2).Raises? ==> !Continues(t.chain, 2) && last == 2;
  }

  function Silent(tag: StatusTag): Invocation {
    Returns(tag, RoleResult("", [], []), "d", [])
  }

  /** A coder that is done, a verifier that is not, a fixer that is, and then an exception. */
  function FixedButUnverified(description: string): Task {
    Task(Coder, description, "c", Silent(Completed),
         (k: nat) => if k == 0 then Silent(Incomplete) else if k == 1 then Silent(Completed) else Raises(false, "", []))
  }

  lemma SilentText(role: Role, tag: StatusTag)
    ensures InnerText(role, Silent(tag)) == Join("\n", [Header(tag, RoleText(role)), "", "d"])
  {
    hide Join, Header, SanitizeSummary;
    var r := RoleResult("", [], []);
    NoSummary();
    assert FormatVerifierOutput(r) == "" by { NothingToReport(); }
    assert WrittenFiles([], []) == [];
    assert [Header(tag, RoleText(role)), ""] + [] + ["d"] == [Header(tag, RoleText(role)), "", "d"];
  }

  lemma NothingToReport()
    ensures FormatVerifierOutput(RoleResult("", [], [])) == ""
  {
    hide SanitizeSummary;
    NoSummary();
    var none: seq<string> := [];
    assert none + none == none;
  }

  lemma NotInFront(h: string, m: string, d: nat)
    requires d < |m| && d < |h| && h[d] != m[d]
    ensures !OccursAt(h, m, 0)
  {
    assert |m| <= |h| ==> h[0..|m|][d] == h[d];
  }

  lemma OccursStart(h: string, m: string, i: nat)
    requires m != ""
    ensures OccursAt(h, m, i) ==> i < |h| && h[i] == m[0]
  {
    if OccursAt(h, m, i) { OccursDeep(h, m, i, 0); }
  }

  /** A marker that starts with a bracket is not in a text whose only bracket starts otherwise. */
  lemma OtherBracket(h: string, m: string, d: nat)
    requires h != "" && '[' !in h[1..] && d < |m| && m[0] == '[' && d < |h| && h[d] != m[d]
    ensures !Contains(h, m)
  {
    forall i: nat ensures OccursAt(h, m, i) ==> i < |h| && h[i] == m[0] {
      OccursStart(h, m, i);
    }
    assert forall x :: 0 < x < |h| ==> h[x] == h[1..][x - 1];
    NotInFront(h, m, d);
  }

  lemma Regroup(a: string, b: string, c: string, d: string, e: string, f: string)
    ensures a + b + c + d + e + f == a + (b + c + d + e + f)
  {
  }

  lemma HeaderBrackets(tag: StatusTag, role: string)
    requires '[' !in role
    ensures '[' !in Header(tag, role)[1..] && |Header(tag, role)| > 6
    ensures Header(tag, role)[1] == 'T' && Header(tag, role)[6] == TagText(tag)[0]
  {
    hide TagText;
    TagBrackets(tag);
    var rest := "Task " + TagText(tag) + " — " + role + "]";
    assert "[Task " == "[" + "Task ";
    Regroup("[", "Task ", TagText(tag), " — ", role, "]");
    assert '[' !in "Task " && '[' !in " — " && '[' !in "]";
    assert ("[" + rest)[1..] == rest && rest[5] == TagText(tag)[0];
  }

  lemma TagBrackets(tag: StatusTag)
    ensures '[' !in TagText(tag) && TagText(tag) != "" && (TagText(tag)[0] == 'C' <==> tag == Completed)
  {
  }

  lemma RoleBrackets(role: Role)
    ensures '[' !in RoleText(role)
  {
  }

  lemma SilentReads(role: Role, tag: StatusTag)
    ensures !Contains(InnerText(role, Silent(tag)), PASSED_MARKER)
    ensures Contains(InnerText(role, Silent(tag)), COMPLETED_MARK) <==> tag == Completed
  {
    hide Contains, Join, Header, InnerText, RoleText;
    var h := Header(tag, RoleText(role));
    var lines := [h, "", "d"];
    SilentText(role, tag);
    RoleBrackets(role);
    HeaderBrackets(tag, RoleText(role));
    ContainsInLines(lines, PASSED_MARKER);
    ContainsInLines(lines, COMPLETED_MARK);
    OtherBracket(h, PASSED_MARKER, 1);
    NoBracketNoMarker("");
    NoBracketNoMarker("d");
    NotBracketed("");
    NotBracketed("d");
    assert Contains(h, COMPLETED_MARK) <==> tag == Completed by { HeaderSaysCompleted(tag, RoleText(role)); }
    assert lines[0] == h;
  }

  lemma NotBracketed(s: string)
    requires '[' !in s
    ensures !Contains(s, COMPLETED_MARK)
  {
    hide Contains;
    ContainsBehind(s, "", COMPLETED_MARK);
    assert s + "" == s;
    assert !Contains("", COMPLETED_MARK) by { NothingContained(); }
  }

  lemma NothingContained()
    ensures !Contains("", COMPLETED_MARK)
  {
  }

  lemma HeaderSaysCompleted(tag: StatusTag, role: string)
    requires '[' !in role
    ensures Contains(Header(tag, role), COMPLETED_MARK) <==> tag == Completed
  {
    hide Contains, Header, TagText;
    HeaderBrackets(tag, role);
    TagBrackets(tag);
    if tag == Completed {
      CompletedStarts(role);
      ContainsPrefix(Header(tag, role), COMPLETED_MARK);
    } else {
      OtherBracket(Header(tag, role), COMPLETED_MARK, 6);
    }
  }

  lemma CompletedStarts(role: string)
    ensures COMPLETED_MARK <= Header(Completed, role)
  {
    assert Header(Completed, role) == COMPLETED_MARK + (" — " + role + "]");
  }

  /** Concretely: the chain fails, nobody writes a marker, and the row ends completed. */
  lemma UnverifiedRowCompleted(lim: Limits, st: ToolState, description: string, id: string)
    requires lim.verifyAttempts >= 2
    requires ExtractTaskId(description) == Some(id)
    requires ExtractTaskId(Cut(description, DESCRIPTION_LIMIT)) == Some(id)
    ensures var t, out := FixedButUnverified(description), RunTask(lim, st, FixedButUnverified(description));
            && out.chain.Some? && out.chain.value.passedAt.None?
            && !MarkerWritten(ChainTask(description, InnerText(Coder, t.main), t.callId), t.chain, out.chain.value)
            && out.st.rows == L.Marked(st.rows, id, L.Completed)
  {
    hide Contains, InnerText, ExtractTaskId, Chain, ChainText, L.Marked, L.Advanced, AfterInner, Replay, CallsAsNumbered,
         EventsPaired, NthRole;
    var t := FixedButUnverified(description);
    SilentReads(Coder, Completed);
    SilentReads(Verifier, Incomplete);
    SilentReads(Fixer, Completed);
    UnverifiedTexts(description);
    assert Continues(t.chain, 0);
    FixerHookCompletesRow(lim, st, t, id);
    var task := ChainTask(description, InnerText(Coder, t.main), t.callId);
    ChainProtocolHolds(lim.verifyAttempts, task, t.chain, AfterInner(st, Coder, description, t.main));
    var r := RunTask(lim, st, t).chain.value;
    assert StopsWhenDue(lim.verifyAttempts, t.chain, 0, r);
    assert !Continues(t.chain, 2);
    assert |r.calls| <= 3;
    NoBracketNoMarker("");
    forall k | 0 <= k < |r.calls| ensures !Contains(NthText(t.chain, k), PASSED_MARKER) {
      assert k == 0 || k == 1 || k == 2;
    }
  }

  lemma UnverifiedTexts(description: string)
    ensures var f := FixedButUnverified(description).chain;
            && NthText(f, 0) == InnerText(Verifier, Silent(Incomplete))
            && NthText(f, 1) == InnerText(Fixer, Silent(Completed))
            && NthText(f, 2) == ""
  {
    hide InnerText;
  }
}
