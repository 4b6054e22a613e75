/** The verifier's report as text, and the two ways the harness judges whether verification succeeded. */
module VerifierReport {
  import opened Prelude
  import opened Text

  // ---------- what a SubAgent returns ----------

  /** `Data` is any non-text value, known by its JSON dump ("" when it is falsy). */
  datatype ToolValue = Text(text: string) | Data(dump: string)

  datatype ToolResult = ToolResult(ok: bool, value: ToolValue, error: string)

  datatype ToolRequest = ToolRequest(name: string, command: string, path: Option<string>)

  datatype RoleResult = RoleResult(output: string, requests: seq<ToolRequest>, results: seq<ToolResult>)

  datatype StatusTag = Completed | Incomplete | Failed | Aborted

  function TagText(t: StatusTag): string {
    match t case Completed => "COMPLETED" case Incomplete => "INCOMPLETE" case Failed => "FAILED" case Aborted => "ABORTED"
  }

  /** The execute calls, each with its result; requests without a result are dropped. */
  function Executes(requests: seq<ToolRequest>, results: seq<ToolResult>): seq<(ToolRequest, ToolResult)> {
    if requests == [] || results == [] then []
    else (if requests[0].name == "execute" then [(requests[0], results[0])] else [])
         + Executes(requests[1..], results[1..])
  }

  // ---------- the report ----------

  const SUMMARY_LIMIT := 400
  const SNIPPET_LIMIT := 800
  const TRUNCATED := "\n... (truncated)"

  /** Position of the first occurrence, or the length. */
  function FindText(s: string, m: string): (k: nat)
    ensures k <= |s|
  {
    if m <= s then 0 else if s == "" then 0 else 1 + FindText(s[1..], m)
  }

  /** Everything before the first instruction-style heading. */
  function BeforeHeadings(text: string): string {
    var cut := Min(Min(Min(FindText(text, "## Error Report"), FindText(text, "## Fixer Instructions")),
                       Min(FindText(text, "## Success Criteria"), FindText(text, "## Fix Plan"))),
                   FindText(text, "## Recommendations"));
    text[..cut]
  }

  function SanitizeSummary(text: string): string {
    var head := RStrip(BeforeHeadings(text));
    if |head| > SUMMARY_LIMIT then RStrip(head[..SUMMARY_LIMIT]) + " … (truncated)" else head
  }

  function Snippet(text: string): string {
    var s := Strip(text);
    if |s| > SNIPPET_LIMIT then s[..SNIPPET_LIMIT] + TRUNCATED else s
  }

  /** The text a result shows: its value if the call was ok, its error otherwise. */
  function ShownText(r: ToolResult): string {
    if r.ok then (match r.value case Text(t) => t case Data(d) => d) else r.error
  }

  function ExecuteLines(pairs: seq<(ToolRequest, ToolResult)>): seq<string> {
    if pairs == [] then []
    else
      var shown := ShownText(pairs[0].1);
      ["- command: " + pairs[0].0.command]
      + (if shown == "" then [] else ["  result: " + Snippet(shown)])
      + ExecuteLines(pairs[1..])
  }

  const PAIRS_HEADING := "### execute(command, result) pairs"

  function FormatVerifierOutput(r: RoleResult): string {
    var summary := SanitizeSummary(r.output);
    var pairs := Executes(r.requests, r.results);
    Join("\n", (if summary != "" then [summary] else [])
               + (if pairs != [] then ["", PAIRS_HEADING] + ExecuteLines(pairs) else []))
  }

  function WrittenFiles(requests: seq<ToolRequest>, seen: seq<string>): seq<string> {
    if requests == [] then seen
    else
      var q := requests[0];
      if (q.name == "write_file" || q.name == "edit_file") && q.path.Some? && q.path.value !in seen
      then WrittenFiles(requests[1..], seen + [q.path.value])
      else WrittenFiles(requests[1..], seen)
  }

  function Header(tag: StatusTag, role: string): string {
    "[Task " + TagText(tag) + " — " + role + "]"
  }

  /** `_format_result`; `body` is the verifier report or the plain output, `duration` the last line. */
  function FormatResult(role: string, r: RoleResult, tag: StatusTag, duration: string): string {
    var body := if role == "verifier" then FormatVerifierOutput(r) else r.output;
    var written := WrittenFiles(r.requests, []);
    Join("\n", [Header(tag, role), body]
               + (if written != [] then ["Files written: " + Join(", ", written)] else [])
               + [duration])
  }

  // ---------- the two judgements ----------

  /** What the shell tool writes into its output instead of failing. */
  const EXECUTE_FAILURE_MARKERS: seq<string> := ["[exit code:", "[TIMEOUT]", "REJECTED:", "Error:"]

  predicate HasFailureMarker(text: string) {
    exists k :: 0 <= k < |EXECUTE_FAILURE_MARKERS| && Contains(text, EXECUTE_FAILURE_MARKERS[k])
  }

  /** The structured check finds this execute call failing. */
  predicate ExecuteFails(r: ToolResult) {
    !r.ok || (r.value.Text? && HasFailureMarker(r.value.text))
  }

  /** `_verifier_signals_success`: some execute ran, and none failed. */
  function SignalsSuccess(requests: seq<ToolRequest>, results: seq<ToolResult>, sawExecute: bool): bool {
    if requests == [] || results == [] then sawExecute
    else if requests[0].name != "execute" then SignalsSuccess(requests[1..], results[1..], sawExecute)
    else if ExecuteFails(results[0]) then false
    else SignalsSuccess(requests[1..], results[1..], true)
  }

  predicate VerifierSignalsSuccess(r: RoleResult) {
    SignalsSuccess(r.requests, r.results, false)
  }

  /** The text-level check of the chain: completed, and no failure marker anywhere in the report. */
  predicate TextPasses(text: string) {
    Contains(text, "[Task COMPLETED") && !HasFailureMarker(text)
  }

  // ---------- how far they agree ----------

  ghost predicate SomeExecuteFails(r: RoleResult) {
    exists e :: e in Executes(r.requests, r.results) && ExecuteFails(e.1)
  }

  lemma {:induction false} SignalsSuccessMeans(requests: seq<ToolRequest>, results: seq<ToolResult>, saw: bool)
    ensures var es := Executes(requests, results);
            SignalsSuccess(requests, results, saw) <==> (saw || es != []) && forall e :: e in es ==> !ExecuteFails(e.1)
  {
    hide ExecuteFails;
    if requests != [] && results != [] {
      SignalsSuccessMeans(requests[1..], results[1..], saw);
      SignalsSuccessMeans(requests[1..], results[1..], true);
    }
  }

  /** A marker of this result that the report no longer shows: it lies past the snippet limit. */
  ghost predicate MarkerCutOff(r: ToolResult) {
    r.ok && r.value.Text? && HasFailureMarker(r.value.text) && !HasFailureMarker(Snippet(r.value.text))
  }

  lemma MarkerShapes(k: nat)
    requires k < |EXECUTE_FAILURE_MARKERS|
    ensures var m := EXECUTE_FAILURE_MARKERS[k];
            |m| >= 3 && '\n' !in m && !IsSpace(m[0]) && !IsSpace(m[|m| - 1])
  {
    assert k == 0 || k == 1 || k == 2 || k == 3;
  }

  lemma {:induction false} ExecuteLineShown(pairs: seq<(ToolRequest, ToolResult)>, e: (ToolRequest, ToolResult))
    requires e in pairs && ShownText(e.1) != ""
    ensures "  result: " + Snippet(ShownText(e.1)) in ExecuteLines(pairs)
  {
    if pairs[0] != e {
      assert e in pairs[1..];
      ExecuteLineShown(pairs[1..], e);
    }
  }

  lemma MarkerInOneOfLines(lines: seq<string>, line: string, k: nat)
    requires line in lines && k < |EXECUTE_FAILURE_MARKERS| && Contains(line, EXECUTE_FAILURE_MARKERS[k])
    ensures Contains(Join("\n", lines), EXECUTE_FAILURE_MARKERS[k])
  {
    MarkerShapes(k);
    ContainsInLines(lines, EXECUTE_FAILURE_MARKERS[k]);
    var i :| 0 <= i < |lines| && lines[i] == line;
  }

  /** A marker in a snippet is a marker in the formatted report. */
  lemma SnippetMarkerShows(r: RoleResult, tag: StatusTag, duration: string, e: (ToolRequest, ToolResult))
    requires e in Executes(r.requests, r.results) && HasFailureMarker(Snippet(ShownText(e.1)))
    ensures HasFailureMarker(FormatResult("verifier", r, tag, duration))
  {
    hide Contains, Snippet, SanitizeSummary, WrittenFiles, Join;
    var snippet := Snippet(ShownText(e.1));
    var k :| 0 <= k < |EXECUTE_FAILURE_MARKERS| && Contains(snippet, EXECUTE_FAILURE_MARKERS[k]);
    var m := EXECUTE_FAILURE_MARKERS[k];
    assert ShownText(e.1) != "" by { EmptyShowsNothing(k); }
    var pairs := Executes(r.requests, r.results);
    ExecuteLineShown(pairs, e);
    var line := "  result: " + snippet;
    assert Contains(line, m) by {
      ContainsInside("  result: ", snippet, "", m);
      assert "  result: " + snippet + "" == line;
    }
    var summary := SanitizeSummary(r.output);
    var lines := (if summary != "" then [summary] else [])
                 + (if pairs != [] then ["", PAIRS_HEADING] + ExecuteLines(pairs) else []);
    assert line in lines;
    MarkerInOneOfLines(lines, line, k);
    var body := FormatVerifierOutput(r);
    var written := WrittenFiles(r.requests, []);
    var parts := [Header(tag, "verifier"), body]
                 + (if written != [] then ["Files written: " + Join(", ", written)] else []) + [duration];
    assert parts[1] == body;
    MarkerInOneOfLines(parts, body, k);
  }

  lemma EmptyShowsNothing(k: nat)
    requires k < |EXECUTE_FAILURE_MARKERS|
    ensures !Contains(Snippet(""), EXECUTE_FAILURE_MARKERS[k])
  {
    MarkerShapes(k);
  }

  /** Short outputs are shown whole, so their markers survive into the snippet. */
  lemma ShortOutputsKeepMarkers(text: string)
    requires |Strip(text)| <= SNIPPET_LIMIT
    ensures HasFailureMarker(Snippet(text)) <==> HasFailureMarker(text)
  {
    hide Contains, Strip, IsSpace;
    forall k | 0 <= k < |EXECUTE_FAILURE_MARKERS|
      ensures Contains(Strip(text), EXECUTE_FAILURE_MARKERS[k]) <==> Contains(text, EXECUTE_FAILURE_MARKERS[k])
    {
      MarkerShapes(k);
      StripKeepsMarker(text, EXECUTE_FAILURE_MARKERS[k]);
    }
    assert Snippet(text) == Strip(text);
  }

  /** On a report the text check passes, the structured check sees a failure exactly if some execute call
      was not ok, or had its only markers cut off by the snippet limit. */
  lemma ChecksDisagreeIff(r: RoleResult, tag: StatusTag, duration: string)
    requires TextPasses(FormatResult("verifier", r, tag, duration))
    ensures SomeExecuteFails(r) <==>
            exists e :: e in Executes(r.requests, r.results) && (!e.1.ok || MarkerCutOff(e.1))
  {
    hide FormatResult, HasFailureMarker, Snippet, Contains;
    forall e | e in Executes(r.requests, r.results) ensures ExecuteFails(e.1) <==> !e.1.ok || MarkerCutOff(e.1) {
      if e.1.ok && e.1.value.Text? && HasFailureMarker(Snippet(e.1.value.text)) {
        SnippetMarkerShows(r, tag, duration, e);
      }
    }
    if SomeExecuteFails(r) {
      var e :| e in Executes(r.requests, r.results) && ExecuteFails(e.1);
    }
  }

  /** When every execute call was ok and showed at most 800 characters, a clean report means what it says:
      no execute failed, and the structured check holds exactly if any execute ran at all. */
  lemma ChecksAgreeOnShortOutputs(r: RoleResult, tag: StatusTag, duration: string)
    requires forall e :: e in Executes(r.requests, r.results) ==>
               e.1.ok && (e.1.value.Text? ==> |Strip(e.1.value.text)| <= SNIPPET_LIMIT)
    requires TextPasses(FormatResult("verifier", r, tag, duration))
    ensures !SomeExecuteFails(r)
    ensures VerifierSignalsSuccess(r) <==> Executes(r.requests, r.results) != []
  {
    hide FormatResult, HasFailureMarker, Snippet, Contains, Strip, TextPasses;
    ChecksDisagreeIff(r, tag, duration);
    forall e | e in Executes(r.requests, r.results) ensures !MarkerCutOff(e.1) {
      if e.1.value.Text? { ShortOutputsKeepMarkers(e.1.value.text); }
    }
    SignalsSuccessMeans(r.requests, r.results, false);
    forall e | e in Executes(r.requests, r.results) ensures !ExecuteFails(e.1) {
      assert !SomeExecuteFails(r);
    }
  }

  // ---------- a verifier that ran one command ----------

  /** One execute call with this output, and nothing said besides. */
  function SingleRun(command: string, value: string): RoleResult {
    RoleResult("", [ToolRequest("execute", command, None)], [ToolResult(true, Text(value), "")])
  }

  lemma SingleExecute(command: string, value: string)
    ensures var r := SingleRun(command, value);
            Executes(r.requests, r.results) == [(r.requests[0], r.results[0])] && WrittenFiles(r.requests, []) == []
  {
    var r := SingleRun(command, value);
    assert r.requests[1..] == [] && r.results[1..] == [];
  }

  lemma SingleReportLines(command: string, value: string, duration: string)
    requires value != ""
    ensures FormatResult("verifier", SingleRun(command, value), Completed, duration)
            == Join("\n", [Header(Completed, "verifier"),
                           Join("\n", ["", PAIRS_HEADING, "- command: " + command, "  result: " + Snippet(value)]),
                           duration])
  {
    hide Join, Header, Snippet, Executes, WrittenFiles;
    var r := SingleRun(command, value);
    SingleExecute(command, value);
    var pairs := [(r.requests[0], r.results[0])];
    assert pairs[1..] == [];
    assert ExecuteLines(pairs) == ["- command: " + command, "  result: " + Snippet(value)];
    assert SanitizeSummary("") == "" by { NoSummary(); }
    assert [] + (["", PAIRS_HEADING] + ExecuteLines(pairs))
           == ["", PAIRS_HEADING, "- command: " + command, "  result: " + Snippet(value)];
    var body := FormatVerifierOutput(r);
    assert [Header(Completed, "verifier"), body] + [] + [duration] == [Header(Completed, "verifier"), body, duration];
  }

  lemma NoSummary()
    ensures SanitizeSummary("") == ""
  {
  }

  predicate CanStartMarker(c: char) {
    c == '[' || c == 'R' || c == 'E'
  }

  lemma MarkerStarts(k: nat)
    requires k < |EXECUTE_FAILURE_MARKERS|
    ensures EXECUTE_FAILURE_MARKERS[k] != "" && CanStartMarker(EXECUTE_FAILURE_MARKERS[k][0])
  {
    assert k == 0 || k == 1 || k == 2 || k == 3;
  }

  ghost predicate StartsNone(s: string) {
    forall c :: c in s ==> !CanStartMarker(c)
  }

  /** None of the report's own words can start a failure marker. */
  lemma OwnWords()
    ensures StartsNone("- command: ") && StartsNone("  result: ") && StartsNone(PAIRS_HEADING)
    ensures StartsNone(TRUNCATED) && StartsNone(" — verifier]") && StartsNone("")
  {
    hide StartsNone;
    LineWords();
    HeadingWords();
  }

  lemma LineWords()
    ensures StartsNone("- command: ") && StartsNone("  result: ") && StartsNone("")
  {
  }

  lemma HeadingWords()
    ensures StartsNone(PAIRS_HEADING) && StartsNone(TRUNCATED) && StartsNone(" — verifier]")
  {
    TruncatedWords();
  }

  lemma TruncatedWords()
    ensures StartsNone(TRUNCATED)
  {
  }

  lemma NoMarkerWithoutStart(s: string, m: string)
    requires m != "" && m[0] !in s
    ensures !Contains(s, m)
  {
    ContainsBehind(s, "", m);
    assert s + "" == s;
  }

  lemma OccursInHead(a: string, b: string, m: string, i: nat)
    requires m != "" && m[0] !in b && OccursAt(a + b, m, i)
    ensures i < |a|
  {
    assert forall x :: |a| <= x < |a + b| ==> (a + b)[x] == b[x - |a|];
    OccursFirst(a + b, m, i);
  }

  lemma HeaderHasNoMarker(k: nat)
    requires k < |EXECUTE_FAILURE_MARKERS|
    ensures !Contains(Header(Completed, "verifier"), EXECUTE_FAILURE_MARKERS[k])
  {
    hide OccursAt, Header;
    var m, a, b := EXECUTE_FAILURE_MARKERS[k], "[Task COMPLETED", " — verifier]";
    assert a + b == COMPLETED_VERIFIER;
    assert Header(Completed, "verifier") == COMPLETED_VERIFIER by { CompletedHeader(); }
    MarkerStarts(k);
    OwnWords();
    forall i: nat | OccursAt(COMPLETED_VERIFIER, m, i) ensures i < 15 && Agrees(m, i) {
      OccursInHead(a, b, m, i);
      MarkerShapes(k);
      OccursDeep(COMPLETED_VERIFIER, m, i, 0);
      OccursDeep(COMPLETED_VERIFIER, m, i, 1);
      OccursDeep(COMPLETED_VERIFIER, m, i, 2);
    }
    forall i: nat | i < 15 ensures !Agrees(m, i) {
      HeaderStart(k, i);
    }
  }

  const COMPLETED_VERIFIER := "[Task COMPLETED — verifier]"

  predicate Agrees(m: string, i: nat)
    requires |m| >= 3
  {
    i + 3 <= |COMPLETED_VERIFIER| && COMPLETED_VERIFIER[i] == m[0] && COMPLETED_VERIFIER[i + 1] == m[1]
    && COMPLETED_VERIFIER[i + 2] == m[2]
  }

  lemma CompletedHeader()
    ensures Header(Completed, "verifier") == COMPLETED_VERIFIER
    ensures Contains(COMPLETED_VERIFIER, "[Task COMPLETED")
  {
    hide Contains;
    ContainsPrefix(COMPLETED_VERIFIER, "[Task COMPLETED");
  }

  lemma HeaderStart(k: nat, i: nat)
    requires k < |EXECUTE_FAILURE_MARKERS| && i < 15
    ensures !Agrees(EXECUTE_FAILURE_MARKERS[k], i)
  {
    assert k == 0 || k == 1 || k == 2 || k == 3;
  }

  lemma CompletedShows(text: string, header: string, body: string, duration: string)
    requires text == Join("\n", [header, body, duration]) && Contains(header, "[Task COMPLETED")
    ensures Contains(text, "[Task COMPLETED")
  {
    hide Contains, Join;
    var lines := [header, body, duration];
    assert lines[0] == header;
    ContainsInLines(lines, "[Task COMPLETED");
  }

  /** A marker is in the report exactly if it is in the snippet. */
  lemma SingleReportReads(command: string, value: string, duration: string, k: nat)
    requires k < |EXECUTE_FAILURE_MARKERS| && value != ""
    requires !HasFailureMarker(command) && !HasFailureMarker(duration)
    ensures Contains(FormatResult("verifier", SingleRun(command, value), Completed, duration), EXECUTE_FAILURE_MARKERS[k])
            <==> Contains(Snippet(value), EXECUTE_FAILURE_MARKERS[k])
  {
    hide Contains, Join, Header, FormatResult, Snippet;
    var m, snippet := EXECUTE_FAILURE_MARKERS[k], Snippet(value);
    SingleReportLines(command, value, duration);
    MarkerShapes(k);
    MarkerStarts(k);
    OwnWords();
    NoMarkerWithoutStart("", m);
    NoMarkerWithoutStart(PAIRS_HEADING, m);
    ContainsBehind("- command: ", command, m);
    ContainsBehind("  result: ", snippet, m);
    var lines := ["", PAIRS_HEADING, "- command: " + command, "  result: " + snippet];
    ContainsInLines(lines, m);
    assert lines[3] == "  result: " + snippet;
    HeaderHasNoMarker(k);
    var parts := [Header(Completed, "verifier"), Join("\n", lines), duration];
    ContainsInLines(parts, m);
    assert parts[1] == Join("\n", lines);
  }

  /** What the two checks make of a verifier that ran one command: the text check looks at the snippet, the
      structured check at the whole output. */
  lemma SingleRunJudged(command: string, value: string, duration: string)
    requires value != "" && !HasFailureMarker(command) && !HasFailureMarker(duration)
    ensures TextPasses(FormatResult("verifier", SingleRun(command, value), Completed, duration))
            <==> !HasFailureMarker(Snippet(value))
    ensures SomeExecuteFails(SingleRun(command, value)) <==> HasFailureMarker(value)
    ensures VerifierSignalsSuccess(SingleRun(command, value)) <==> !HasFailureMarker(value)
  {
    hide Contains, Join, Header, FormatResult, Snippet, Executes;
    var r, text := SingleRun(command, value), FormatResult("verifier", SingleRun(command, value), Completed, duration);
    forall k | 0 <= k < |EXECUTE_FAILURE_MARKERS|
      ensures Contains(text, EXECUTE_FAILURE_MARKERS[k]) <==> Contains(Snippet(value), EXECUTE_FAILURE_MARKERS[k])
    {
      SingleReportReads(command, value, duration, k);
    }
    SingleReportLines(command, value, duration);
    CompletedHeader();
    CompletedShows(text, Header(Completed, "verifier"),
                   Join("\n", ["", PAIRS_HEADING, "- command: " + command, "  result: " + Snippet(value)]), duration);
    SingleExecute(command, value);
    SignalsSuccessMeans(r.requests, r.results, false);
    assert (r.requests[0], r.results[0]) in Executes(r.requests, r.results);
  }
}
