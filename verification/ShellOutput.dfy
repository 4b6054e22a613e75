/** What `execute` returns for a failing command, and which of the two checks still sees the failure. */
module ShellOutput {
  import opened Prelude
  import opened Text
  import opened VerifierReport

  // ---------- the output ----------

  const MAX_CHARS := 10000

  /** The line the shell tool appends last; `ExitLine` without the line break before it. */
  function ExitLine(code: int): string {
    "[exit code: " + IntText(code) + "]"
  }

  function CutNote(length: nat): string {
    "... (truncated, " + NatText(length) + " total chars)"
  }

  function CutOutput(full: string): string {
    if |full| > MAX_CHARS then full[..MAX_CHARS] + "\n" + CutNote(|full|) else full
  }

  /** `notice` is the text about an auto-corrected command, without its last line break, "" if there is none;
      `out` what the command printed. */
  function Executed(notice: string, out: string, code: int): string {
    var full := if code != 0 then out + "\n" + ExitLine(code) else out;
    var all := Noticed(notice) + Strip(CutOutput(full));
    if all == "" then "(no output)" else all
  }

  function Noticed(notice: string): string {
    if notice == "" then "" else notice + "\n"
  }

  /** A command that succeeds with up to 10,000 characters returns them without the white space around, or says that
      there was nothing but that. */
  lemma SuccessReturned(out: string) returns (a: string, b: string)
    requires |out| <= 10000
    ensures AllSpace(a) && AllSpace(b) && |a| + |b| <= |out|
    ensures var s := out[|a|..|out| - |b|];
            && out == a + s + b && (s != "" ==> !IsSpace(s[0]) && !IsSpace(s[|s| - 1]))
            && Executed("", out, 0) == if s == "" then "(no output)" else s
  {
    a, b := StripSplits(out);
    assert "" + Strip(out) == Strip(out);
  }

  // ---------- texts without failure markers ----------

  predicate Harmless(s: string) {
    !HasFailureMarker(s)
  }

  lemma MarkersAcross(a: string, b: string)
    ensures HasFailureMarker(a + "\n" + b) <==> HasFailureMarker(a) || HasFailureMarker(b)
  {
    hide Contains;
    forall k | 0 <= k < |EXECUTE_FAILURE_MARKERS|
      ensures Contains(a + "\n" + b, EXECUTE_FAILURE_MARKERS[k]) <==>
              Contains(a, EXECUTE_FAILURE_MARKERS[k]) || Contains(b, EXECUTE_FAILURE_MARKERS[k])
    {
      MarkerShapes(k);
      ContainsAcrossNewline(a, b, EXECUTE_FAILURE_MARKERS[k]);
    }
  }

  lemma PartIsHarmless(a: string, s: string, b: string)
    requires Harmless(a + s + b)
    ensures Harmless(s)
  {
    hide Contains;
    forall k | 0 <= k < |EXECUTE_FAILURE_MARKERS| ensures !Contains(s, EXECUTE_FAILURE_MARKERS[k]) {
      if Contains(s, EXECUTE_FAILURE_MARKERS[k]) { ContainsInside(a, s, b, EXECUTE_FAILURE_MARKERS[k]); }
    }
  }

  lemma PrefixIsHarmless(s: string, n: nat)
    requires Harmless(s) && n <= |s|
    ensures Harmless(s[..n])
  {
    assert "" + s[..n] + s[n..] == s;
    PartIsHarmless("", s[..n], s[n..]);
  }

  lemma WithoutStartsIsHarmless(s: string)
    requires StartsNone(s)
    ensures Harmless(s)
  {
    hide Contains;
    forall k | 0 <= k < |EXECUTE_FAILURE_MARKERS| ensures !Contains(s, EXECUTE_FAILURE_MARKERS[k]) {
      MarkerStarts(k);
      NoMarkerWithoutStart(s, EXECUTE_FAILURE_MARKERS[k]);
    }
  }

  lemma NoteIsHarmless(length: nat)
    ensures Harmless(CutNote(length))
  {
    hide Harmless, NatText;
    NatTextDigits(length);
    NoteWords();
    assert StartsNone(CutNote(length));
    WithoutStartsIsHarmless(CutNote(length));
  }

  lemma NoteWords()
    ensures StartsNone("... (truncated, ") && StartsNone(" total chars)")
  {
  }

  lemma StripKeepsMarkers(s: string)
    ensures HasFailureMarker(Strip(s)) <==> HasFailureMarker(s)
  {
    hide Contains, Strip, IsSpace;
    forall k | 0 <= k < |EXECUTE_FAILURE_MARKERS|
      ensures Contains(Strip(s), EXECUTE_FAILURE_MARKERS[k]) <==> Contains(s, EXECUTE_FAILURE_MARKERS[k])
    {
      MarkerShapes(k);
      StripKeepsMarker(s, EXECUTE_FAILURE_MARKERS[k]);
    }
  }

  // ---------- how much of the exit line is left ----------

  const EXIT_START := "[exit code:"

  lemma ExitStartShows(x: string)
    requires EXIT_START <= x
    ensures HasFailureMarker(x)
  {
    ContainsPrefix(x, EXIT_START);
    assert EXECUTE_FAILURE_MARKERS[0] == EXIT_START;
  }

  lemma ExitStartIsLower(i: nat)
    requires 0 < i < |EXIT_START|
    ensures !CanStartMarker(EXIT_START[i])
  {
  }

  /** Less than its first eleven characters is no marker. */
  lemma ShortExitIsHarmless(i: nat)
    requires i < |EXIT_START|
    ensures Harmless(EXIT_START[..i])
  {
    hide Contains, CanStartMarker;
    var y := EXIT_START[..i];
    forall k | 0 <= k < |EXECUTE_FAILURE_MARKERS| ensures !Contains(y, EXECUTE_FAILURE_MARKERS[k]) {
      ShortExitHasNot(i, k);
    }
  }

  lemma ShortExitHasNot(i: nat, k: nat)
    requires i < |EXIT_START| && k < |EXECUTE_FAILURE_MARKERS|
    ensures !Contains(EXIT_START[..i], EXECUTE_FAILURE_MARKERS[k])
  {
    var y, m := EXIT_START[..i], EXECUTE_FAILURE_MARKERS[k];
    MarkerStarts(k);
    forall j: nat ensures OccursAt(y, m, j) ==> j < |y| && y[j] == m[0] {
      if OccursAt(y, m, j) { OccursFirst(y, m, j); }
    }
    forall j | 0 < j < |y| ensures !CanStartMarker(y[j]) {
      ExitStartIsLower(j);
    }
    NotAtFront(i, k);
  }

  lemma NotAtFront(i: nat, k: nat)
    requires i < |EXIT_START| && k < |EXECUTE_FAILURE_MARKERS|
    ensures !OccursAt(EXIT_START[..i], EXECUTE_FAILURE_MARKERS[k], 0)
  {
    var y, m := EXIT_START[..i], EXECUTE_FAILURE_MARKERS[k];
    assert k == 0 || k == 1 || k == 2 || k == 3;
    assert |m| <= |y| ==> y[0..|m|][0] == y[0] && y[0..|m|][1] == y[1];
  }

  /** A harmless text, a line break, and the start of an exit line: the failure shows once eleven characters of it are there. */
  lemma ShowsFromEleven(b: string, x: string, i: nat)
    requires Harmless(b) && EXIT_START <= x && i <= |x|
    ensures HasFailureMarker(b + "\n" + x[..i]) <==> i >= |EXIT_START|
    ensures HasFailureMarker(x[..i]) <==> i >= |EXIT_START|
  {
    hide HasFailureMarker;
    MarkersAcross(b, x[..i]);
    if i >= |EXIT_START| {
      assert EXIT_START <= x[..i];
      ExitStartShows(x[..i]);
    } else {
      assert x[..i] == EXIT_START[..i];
      ShortExitIsHarmless(i);
    }
  }

  lemma ExitLineShape(code: int)
    ensures EXIT_START <= ExitLine(code) && |ExitLine(code)| > |EXIT_START| && ExitLine(code)[|ExitLine(code)| - 1] == ']'
  {
    hide IntText;
    assert EXIT_START + " " == "[exit code: ";
    assert ExitLine(code)[..|EXIT_START|] == EXIT_START;
  }

  /** What the cut leaves of a failing command's output. */
  lemma CutShows(out: string, code: int)
    requires Harmless(out)
    ensures HasFailureMarker(CutOutput(out + "\n" + ExitLine(code))) <==> |out| + 12 <= MAX_CHARS
  {
    hide HasFailureMarker, ExitLine;
    var x := ExitLine(code);
    var full := out + "\n" + x;
    ExitLineShape(code);
    if |full| <= MAX_CHARS {
      assert x[..|x|] == x;
      ShowsFromEleven(out, x, |x|);
    } else {
      NoteIsHarmless(|full|);
      MarkersAcross(full[..MAX_CHARS], CutNote(|full|));
      if |out| >= MAX_CHARS {
        assert full[..MAX_CHARS] == out[..MAX_CHARS];
        PrefixIsHarmless(out, MAX_CHARS);
      } else {
        var i := MAX_CHARS - |out| - 1;
        assert full[..MAX_CHARS] == out + "\n" + x[..i];
        ShowsFromEleven(out, x, i);
      }
    }
  }

  /** The failure of a command is in what `execute` returns exactly if the command printed at most 9,988
      characters: the exit line is appended before the output is cut. */
  lemma FailureReturnedIff(notice: string, out: string, code: int)
    requires code != 0 && Harmless(notice) && Harmless(out)
    ensures HasFailureMarker(Executed(notice, out, code)) <==> |out| + 12 <= MAX_CHARS
    ensures Executed(notice, out, code) == Noticed(notice) + Strip(CutOutput(out + "\n" + ExitLine(code)))
    ensures Executed(notice, out, code) != ""
  {
    hide HasFailureMarker, CutOutput, ExitLine, Strip;
    var cut := CutOutput(out + "\n" + ExitLine(code));
    CutShows(out, code);
    StripKeepsMarkers(cut);
    if notice == "" {
      assert "" + Strip(cut) == Strip(cut);
    } else {
      MarkersAcross(notice, Strip(cut));
    }
    SomethingLeft(out, code);
  }

  lemma LastCharacter(out: string, code: int)
    ensures var cut := CutOutput(out + "\n" + ExitLine(code)); cut != "" && !IsSpace(cut[|cut| - 1])
  {
    hide NatText, IntText;
  }

  lemma SomethingLeft(out: string, code: int)
    ensures Strip(CutOutput(out + "\n" + ExitLine(code))) != ""
  {
    hide CutOutput, ExitLine, IsSpace;
    var cut := CutOutput(out + "\n" + ExitLine(code));
    LastCharacter(out, code);
    var a, b := StripSplits(cut);
    assert Strip(cut) == "" ==> cut == a + b && AllSpace(a + b);
  }

  // ---------- where the failure stands in the output ----------

  /** What is left of the exit line, with what the cut puts behind it. */
  function ExitPart(out: string, code: int): string
    requires |out| < MAX_CHARS
  {
    var full, x := out + "\n" + ExitLine(code), ExitLine(code);
    if |full| <= MAX_CHARS then x else x[..MAX_CHARS - |out| - 1] + "\n" + CutNote(|full|)
  }

  lemma ExitPartShape(out: string, code: int)
    requires |out| + 12 <= MAX_CHARS
    ensures var x := ExitPart(out, code);
            && EXIT_START <= x && !IsSpace(x[|x| - 1])
            && CutOutput(out + "\n" + ExitLine(code)) == out + "\n" + x
  {
    hide ExitLine, NatText, IsSpace;
    ExitLineShape(code);
    var full, x := out + "\n" + ExitLine(code), ExitLine(code);
    assert !IsSpace(']') && !IsSpace(')') by { BracketsAreNoSpace(); }
    if |full| > MAX_CHARS {
      var i := MAX_CHARS - |out| - 1;
      assert full[..MAX_CHARS] == out + "\n" + x[..i];
      assert EXIT_START <= x[..i];
      assert out + "\n" + x[..i] + "\n" + CutNote(|full|) == out + "\n" + (x[..i] + "\n" + CutNote(|full|));
      assert CutNote(|full|)[|CutNote(|full|)| - 1] == ')';
    }
  }

  lemma BracketsAreNoSpace()
    ensures !IsSpace(']') && !IsSpace(')') && !IsSpace('[')
  {
  }

  lemma {:induction false} LStripInFront(s: string, x: string)
    requires x != "" && !IsSpace(x[0])
    ensures LStrip(s + x) == LStrip(s) + x
  {
    hide IsSpace;
    if s != "" {
      assert (s + x)[1..] == s[1..] + x;
      if IsSpace(s[0]) { LStripInFront(s[1..], x); }
    } else {
      assert s + x == x;
    }
  }

  lemma {:induction false} LStripEnds(s: string)
    ensures LStrip(s + "\n") == "" || (LStrip(s + "\n") == LStrip(s) + "\n" && LStrip(s) != "" && !IsSpace(LStrip(s)[0]))
  {
    if s == "" {
      assert s + "\n" == "\n" && "\n"[1..] == "";
      assert LStrip("\n") == LStrip("");
    } else {
      assert (s + "\n")[1..] == s[1..] + "\n";
      if IsSpace(s[0]) { LStripEnds(s[1..]); }
    }
  }

  /** Everything the report shows ahead of the exit line. */
  function Ahead(notice: string, out: string): string {
    Noticed(notice) + LStrip(out + "\n")
  }

  lemma ReturnedParts(notice: string, out: string, code: int)
    requires code != 0 && |out| + 12 <= MAX_CHARS
    ensures Executed(notice, out, code) == Ahead(notice, out) + ExitPart(out, code)
  {
    hide ExitLine, IsSpace, CutOutput, ExitPart, LStrip, Noticed, Strip;
    var x, s := ExitPart(out, code), out + "\n";
    ExitPartShape(out, code);
    BracketsAreNoSpace();
    LStripInFront(s, x);
    StripBehind(s + x, LStrip(s), x);
    assert Noticed(notice) + (LStrip(s) + x) == Noticed(notice) + LStrip(s) + x;
  }

  lemma StripBehind(s: string, a: string, x: string)
    requires LStrip(s) == a + x && x != "" && !IsSpace(x[|x| - 1])
    ensures Strip(s) == a + x
  {
    hide IsSpace, LStrip;
    assert (a + x)[|a + x| - 1] == x[|x| - 1];
  }

  /** A harmless text that is empty or ends a line. */
  ghost predicate HarmlessLines(a: string) {
    a == "" || exists b :: a == b + "\n" && Harmless(b)
  }

  lemma AheadIsHarmless(notice: string, out: string)
    requires Harmless(notice) && Harmless(out)
    ensures HarmlessLines(Ahead(notice, out))
  {
    hide HasFailureMarker, IsSpace;
    var rest := LStrip(out + "\n");
    LStripEnds(out);
    var cutOff := LStripSplits(out);
    assert cutOff + LStrip(out) + "" == out;
    PartIsHarmless(cutOff, LStrip(out), "");
    if rest == "" {
      assert Ahead(notice, out) == Noticed(notice);
    } else if notice == "" {
      assert Ahead(notice, out) == LStrip(out) + "\n";
    } else {
      MarkersAcross(notice, LStrip(out));
      assert Ahead(notice, out) == (notice + "\n" + LStrip(out)) + "\n";
    }
  }

  lemma LinesThenExit(a: string, x: string, i: nat)
    requires HarmlessLines(a) && EXIT_START <= x && i <= |x|
    ensures HasFailureMarker(a + x[..i]) <==> i >= |EXIT_START|
  {
    hide HasFailureMarker;
    if a == "" {
      assert a + x[..i] == x[..i];
      NothingIsHarmless();
      ShowsFromEleven("", x, i);
    } else {
      var b :| a == b + "\n" && Harmless(b);
      ShowsFromEleven(b, x, i);
    }
  }

  lemma NothingIsHarmless()
    ensures Harmless("")
  {
    assert StartsNone("");
    WithoutStartsIsHarmless("");
  }

  lemma LinesAreHarmless(a: string, n: nat)
    requires HarmlessLines(a) && n <= |a|
    ensures Harmless(a[..n])
  {
    hide HasFailureMarker;
    NothingIsHarmless();
    if n > 0 {
      var b :| a == b + "\n" && Harmless(b);
      if n < |a| {
        assert a[..n] == b[..n];
        PrefixIsHarmless(b, n);
      } else {
        MarkersAcross(b, "");
        assert a[..n] == b + "\n" + "";
      }
    }
  }

  lemma SnippetOfParts(a: string, x: string)
    requires HarmlessLines(a) && EXIT_START <= x && Strip(a + x) == a + x
    ensures HasFailureMarker(Snippet(a + x)) <==> |a| + 11 <= SNIPPET_LIMIT
  {
    hide HasFailureMarker, HarmlessLines, Strip;
    var s := a + x;
    if |s| <= SNIPPET_LIMIT {
      assert x[..|x|] == x;
      LinesThenExit(a, x, |x|);
    } else {
      MarkersAcross(s[..SNIPPET_LIMIT], "... (truncated)");
      assert TRUNCATED == "\n" + "... (truncated)";
      assert s[..SNIPPET_LIMIT] + TRUNCATED == s[..SNIPPET_LIMIT] + "\n" + "... (truncated)";
      TruncatedIsHarmless();
      if |a| >= SNIPPET_LIMIT {
        assert s[..SNIPPET_LIMIT] == a[..SNIPPET_LIMIT];
        LinesAreHarmless(a, SNIPPET_LIMIT);
      } else {
        var i := SNIPPET_LIMIT - |a|;
        assert s[..SNIPPET_LIMIT] == a + x[..i];
        LinesThenExit(a, x, i);
      }
    }
  }

  lemma TruncatedIsHarmless()
    ensures Harmless("... (truncated)")
  {
    assert StartsNone("... (truncated)");
    WithoutStartsIsHarmless("... (truncated)");
  }

  lemma SnippetOfHarmless(s: string)
    requires Harmless(s)
    ensures Harmless(Snippet(s))
  {
    hide HasFailureMarker, Strip;
    StripKeepsMarkers(s);
    if |Strip(s)| > SNIPPET_LIMIT {
      PrefixIsHarmless(Strip(s), SNIPPET_LIMIT);
      TruncatedIsHarmless();
      MarkersAcross(Strip(s)[..SNIPPET_LIMIT], "... (truncated)");
      assert Strip(s)[..SNIPPET_LIMIT] + TRUNCATED == Strip(s)[..SNIPPET_LIMIT] + "\n" + "... (truncated)";
    }
  }

  lemma AheadStartsTight(notice: string, out: string, x: string)
    requires (notice == "" || !IsSpace(notice[0])) && EXIT_START <= x && !IsSpace(x[|x| - 1])
    ensures Strip(Ahead(notice, out) + x) == Ahead(notice, out) + x
  {
    hide IsSpace;
    var s := Ahead(notice, out) + x;
    LStripEnds(out);
    assert !IsSpace(s[0]) by {
      BracketsAreNoSpace();
      assert x[0] == '[';
    }
    assert s[|s| - 1] == x[|x| - 1];
  }

  /** The failure of a command is in the report exactly if it is in the output at all and its first eleven
      characters come within the 800 the report shows. */
  lemma FailureReportedIff(notice: string, out: string, code: int)
    requires code != 0 && Harmless(notice) && Harmless(out) && (notice == "" || !IsSpace(notice[0]))
    ensures HasFailureMarker(Snippet(Executed(notice, out, code))) <==>
            |out| + 12 <= MAX_CHARS && |Ahead(notice, out)| + 11 <= SNIPPET_LIMIT
  {
    hide HasFailureMarker, Executed, Snippet, ExitPart, Ahead, IsSpace;
    FailureReturnedIff(notice, out, code);
    if |out| + 12 <= MAX_CHARS {
      ReturnedParts(notice, out, code);
      ExitPartShape(out, code);
      AheadIsHarmless(notice, out);
      AheadStartsTight(notice, out, ExitPart(out, code));
      SnippetOfParts(Ahead(notice, out), ExitPart(out, code));
    } else {
      SnippetOfHarmless(Executed(notice, out, code));
    }
  }

  // ---------- main results ----------

  /** A verifier whose only command failed. */
  function FailingRun(command: string, notice: string, out: string, code: int): RoleResult {
    SingleRun(command, Executed(notice, out, code))
  }

  /** For any failing command whose own output holds no marker: the text check misses the failure exactly if the
      exit line does not begin within the report's 800 characters or the output's 10,000, and the structured
      check misses it exactly in the latter case. */
  lemma FailureMissedIff(command: string, notice: string, out: string, code: int, duration: string)
    requires code != 0 && Harmless(notice) && Harmless(out) && (notice == "" || !IsSpace(notice[0]))
    requires Harmless(command) && Harmless(duration)
    ensures var r := FailingRun(command, notice, out, code);
            && (TextPasses(FormatResult("verifier", r, Completed, duration)) <==>
                |out| + 12 > MAX_CHARS || |Ahead(notice, out)| + 11 > SNIPPET_LIMIT)
            && (VerifierSignalsSuccess(r) <==> |out| + 12 > MAX_CHARS)
            && (SomeExecuteFails(r) <==> |out| + 12 <= MAX_CHARS)
  {
    hide HasFailureMarker, Executed, Snippet, Ahead, IsSpace, FormatResult, TextPasses, VerifierSignalsSuccess, SomeExecuteFails, SingleRun;
    FailureReturnedIff(notice, out, code);
    FailureReportedIff(notice, out, code);
    SingleRunJudged(command, Executed(notice, out, code), duration);
  }

  /** The markers that `ChecksDisagreeIff` speaks of are those between the two limits. */
  lemma FailureCutOffIff(notice: string, out: string, code: int)
    requires code != 0 && Harmless(notice) && Harmless(out) && (notice == "" || !IsSpace(notice[0]))
    ensures MarkerCutOff(ToolResult(true, Text(Executed(notice, out, code)), "")) <==>
            |out| + 12 <= MAX_CHARS && |Ahead(notice, out)| + 11 > SNIPPET_LIMIT
  {
    hide HasFailureMarker, Executed, Snippet, Ahead, IsSpace;
    FailureReturnedIff(notice, out, code);
    FailureReportedIff(notice, out, code);
  }

  /** So a failure printed after much output passes the text check only, and one printed after too much both. */
  lemma LongFailurePasses(command: string, out: string, code: int, duration: string)
    requires code != 0 && Harmless(out) && Harmless(command) && Harmless(duration)
    requires |out| >= SNIPPET_LIMIT && !IsSpace(out[0])
    ensures var r := FailingRun(command, "", out, code);
            && TextPasses(FormatResult("verifier", r, Completed, duration))
            && (VerifierSignalsSuccess(r) <==> |out| > 9988)
  {
    hide HasFailureMarker, Executed, Snippet, IsSpace, FormatResult, TextPasses, VerifierSignalsSuccess, SomeExecuteFails, SingleRun;
    NothingIsHarmless();
    FailureMissedIff(command, "", out, code, duration);
    assert LStrip(out + "\n") == out + "\n" by { assert (out + "\n")[0] == out[0]; }
  }

  function Padding(n: nat): string {
    seq(n, _ => 'x')
  }

  /** Outputs without a marker exist at every length. */
  lemma PaddingIsHarmless(n: nat)
    ensures Harmless(Padding(n)) && (n > 0 ==> !IsSpace(Padding(n)[0]))
  {
    assert StartsNone(Padding(n));
    WithoutStartsIsHarmless(Padding(n));
  }

  /** A failing command that prints `n` letters: from 800 on the text check misses it, from 9,989 on both do. */
  lemma PaddedFailure(n: nat)
    requires n >= SNIPPET_LIMIT
    ensures var r := FailingRun("pytest", "", Padding(n), 1);
            && TextPasses(FormatResult("verifier", r, Completed, "[Duration: 9.9s]"))
            && (VerifierSignalsSuccess(r) <==> n > 9988)
  {
    hide HasFailureMarker, IsSpace, FormatResult, TextPasses, VerifierSignalsSuccess, FailingRun;
    PaddingIsHarmless(n);
    WordIsHarmless();
    DurationIsHarmless();
    LongFailurePasses("pytest", Padding(n), 1, "[Duration: 9.9s]");
  }

  lemma WordIsHarmless()
    ensures Harmless("pytest")
  {
    assert StartsNone("pytest");
    WithoutStartsIsHarmless("pytest");
  }

  lemma DurationIsHarmless()
    ensures Harmless("[Duration: 9.9s]")
  {
    var d, rest := "[Duration: 9.9s]", "Duration: 9.9s]";
    assert d == "[" + rest && StartsNone(rest);
    hide Contains;
    forall k | 0 <= k < |EXECUTE_FAILURE_MARKERS| ensures !Contains(d, EXECUTE_FAILURE_MARKERS[k]) {
      DurationHasNot(k);
    }
  }

  lemma DurationHasNot(k: nat)
    requires k < |EXECUTE_FAILURE_MARKERS| && StartsNone("Duration: 9.9s]")
    ensures !Contains("[Duration: 9.9s]", EXECUTE_FAILURE_MARKERS[k])
  {
    var d, rest, m := "[Duration: 9.9s]", "Duration: 9.9s]", EXECUTE_FAILURE_MARKERS[k];
    MarkerStarts(k);
    assert forall j :: 0 < j < |d| ==> d[j] == rest[j - 1] && rest[j - 1] in rest;
    forall j: nat ensures OccursAt(d, m, j) ==> j < |d| && d[j] == m[0] {
      if OccursAt(d, m, j) { OccursFirst(d, m, j); }
    }
    assert k == 0 || k == 1 || k == 2 || k == 3;
    assert !OccursAt(d, m, 0) by {
      assert |m| <= |d| ==> d[0..|m|][0] == d[0] && d[0..|m|][1] == d[1];
    }
  }
}
