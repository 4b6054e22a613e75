/** What a verifier's report and a formatted result say, and what they leave out. */
module ReportLaws {
  import opened Prelude
  import opened Text
  import opened VerifierReport

  // ---------- which calls are reported ----------

  /** Call by call: an execute is taken with the result at its place, anything else is not. */
  lemma {:induction false} ExecutesAppend(requests: seq<ToolRequest>, results: seq<ToolResult>, q: ToolRequest, r: ToolResult)
    requires |requests| == |results|
    ensures Executes(requests + [q], results + [r])
            == Executes(requests, results) + if q.name == "execute" then [(q, r)] else []
    decreases |requests|
  {
    var qs, rs := requests + [q], results + [r];
    if requests == [] {
      assert qs[1..] == [] && rs[1..] == [];
    } else {
      assert qs[1..] == requests[1..] + [q] && rs[1..] == results[1..] + [r];
      ExecutesAppend(requests[1..], results[1..], q, r);
    }
  }

  /** Requests without a result, and results without a request, are not looked at. */
  lemma {:induction false} ExecutesPaired(requests: seq<ToolRequest>, results: seq<ToolResult>)
    ensures var n := Min(|requests|, |results|);
            Executes(requests, results) == Executes(requests[..n], results[..n])
    decreases |requests|
  {
    var n := Min(|requests|, |results|);
    if n > 0 {
      assert requests[..n][1..] == requests[1..][..n - 1] && results[..n][1..] == results[1..][..n - 1];
      ExecutesPaired(requests[1..], results[1..]);
    }
  }

  /** Each pair has its own lines: the command, and behind it what the call showed, if it showed anything. */
  lemma {:induction false} LinesAppend(pairs: seq<(ToolRequest, ToolResult)>, q: ToolRequest, r: ToolResult)
    ensures ExecuteLines(pairs + [(q, r)])
            == ExecuteLines(pairs) + ["- command: " + q.command]
               + if ShownText(r) == "" then [] else ["  result: " + Snippet(ShownText(r))]
  {
    hide ShownText, Snippet;
    if pairs == [] {
      assert [(q, r)][1..] == [] && [] + [(q, r)] == [(q, r)];
    } else {
      assert (pairs + [(q, r)])[1..] == pairs[1..] + [(q, r)];
      LinesAppend(pairs[1..], q, r);
    }
  }

  /** A result shows its error if it failed, and otherwise its value. */
  lemma ShownIs(text: string, error: string, ok: bool)
    ensures ShownText(ToolResult(ok, Text(text), error)) == ShownText(ToolResult(ok, Data(text), error))
            == if ok then text else error
  {
  }

  /** Of what a call showed the first 800 characters are reported, white space around it not counted, and whether
      there was more. */
  lemma SnippetShows(text: string) returns (a: string, b: string)
    ensures AllSpace(a) && AllSpace(b) && |a| + |b| <= |text|
    ensures var s := text[|a|..|text| - |b|];
            && text == a + s + b && (s != "" ==> !IsSpace(s[0]) && !IsSpace(s[|s| - 1]))
            && Snippet(text) == if |s| <= 800 then s else s[..800] + "\n... (truncated)"
  {
    a, b := StripSplits(text);
  }

  // ---------- the summary ----------

  const HEADINGS: seq<string> :=
    ["## Error Report", "## Fixer Instructions", "## Success Criteria", "## Fix Plan", "## Recommendations"]

  lemma OccursLater(s: string, m: string, i: int)
    requires s != ""
    ensures OccursAt(s[1..], m, i - 1) <==> OccursAt(s, m, i) && i > 0
    ensures OccursAt(s, m, 0) <==> m <= s
  {
    if i > 0 && i + |m| <= |s| { assert s[1..][i - 1..i - 1 + |m|] == s[i..i + |m|]; }
  }

  lemma {:induction false} FindTextIs(s: string, m: string)
    requires m != ""
    ensures FindText(s, m) < |s| ==> OccursAt(s, m, FindText(s, m))
    ensures forall i :: OccursAt(s, m, i) ==> FindText(s, m) <= i
  {
    forall i | OccursAt(s, m, i) ensures 0 <= i < |s| { OccursFirst(s, m, i); }
    hide OccursAt;
    if s != "" {
      OccursLater(s, m, 0);
      if !(m <= s) {
        FindTextIs(s[1..], m);
        OccursLater(s, m, FindText(s[1..], m) + 1);
        forall i | OccursAt(s, m, i) ensures FindText(s, m) <= i {
          OccursLater(s, m, i);
        }
      }
    }
  }

  /** The summary is cut right before the first heading that instructs, wherever and whichever it is. */
  lemma SummaryEndsAtHeading(text: string)
    ensures var t := BeforeHeadings(text);
            && t <= text
            && (forall h, i :: h in HEADINGS && OccursAt(text, h, i) ==> |t| <= i)
            && (t != text ==> exists h :: h in HEADINGS && OccursAt(text, h, |t|))
  {
    hide OccursAt, FindText, HEADINGS;
    HeadingsAre();
    FindTextIs(text, HEADINGS[0]);
    FindTextIs(text, HEADINGS[1]);
    FindTextIs(text, HEADINGS[2]);
    FindTextIs(text, HEADINGS[3]);
    FindTextIs(text, HEADINGS[4]);
    FiveMins(FindText(text, HEADINGS[0]), FindText(text, HEADINGS[1]), FindText(text, HEADINGS[2]),
             FindText(text, HEADINGS[3]), FindText(text, HEADINGS[4]));
    hide Min;
    var t := BeforeHeadings(text);
    if |t| < |text| {
      var k :| 0 <= k < 5 && FindText(text, HEADINGS[k]) == |t|;
      assert HEADINGS[k] in HEADINGS;
    } else {
      assert t == text;
    }
  }

  lemma FiveMins(a: int, b: int, c: int, d: int, e: int)
    ensures var m := Min(Min(Min(a, b), Min(c, d)), e);
            m <= a && m <= b && m <= c && m <= d && m <= e && (m == a || m == b || m == c || m == d || m == e)
  {
  }

  lemma HeadingsAre()
    ensures |HEADINGS| == 5
    ensures HEADINGS[0] == "## Error Report" && HEADINGS[1] == "## Fixer Instructions"
    ensures HEADINGS[2] == "## Success Criteria" && HEADINGS[3] == "## Fix Plan" && HEADINGS[4] == "## Recommendations"
    ensures forall h :: h in HEADINGS <==> exists k :: 0 <= k < 5 && h == HEADINGS[k]
  {
  }

  /** Without the white space behind it, it is kept whole up to 400 characters; of a longer one that many are, with a
      note. No white space is left at the end of what is kept. */
  lemma SummaryIsShort(text: string) returns (kept: string, space: string)
    ensures var s, t := SanitizeSummary(text), BeforeHeadings(text);
            && AllSpace(space) && (kept != "" ==> !IsSpace(kept[|kept| - 1]))
            && if s == kept then t == kept + space && |kept| <= 400
               else s == kept + " … (truncated)" && |t| > 400 && t[..400] == kept + space && !AllSpace(t[400..])
  {
    hide BeforeHeadings, IsSpace;
    var t := BeforeHeadings(text);
    space := RStripSplits(t);
    kept := RStrip(t);
    if |kept| > 400 {
      assert t[..400] == kept[..400];
      assert t[400..][|kept| - 1 - 400] == kept[|kept| - 1];
      space := RStripSplits(kept[..400]);
      kept := RStrip(kept[..400]);
    }
  }

  // ---------- the files written ----------

  predicate WritesTo(q: ToolRequest, p: string) {
    (q.name == "write_file" || q.name == "edit_file") && q.path == Some(p)
  }

  ghost predicate Written(requests: seq<ToolRequest>, p: string) {
    exists q :: q in requests && WritesTo(q, p)
  }

  lemma WrittenStep(requests: seq<ToolRequest>, p: string)
    requires requests != []
    ensures Written(requests, p) <==> WritesTo(requests[0], p) || Written(requests[1..], p)
  {
    assert requests == [requests[0]] + requests[1..];
  }

  /** The paths written or edited, each once, after those already seen. */
  lemma {:induction false} WrittenFilesAre(requests: seq<ToolRequest>, seen: seq<string>)
    ensures var w := WrittenFiles(requests, seen);
            && seen <= w
            && (forall p :: p in w <==> p in seen || Written(requests, p))
            && ((forall i, j :: 0 <= i < j < |seen| ==> seen[i] != seen[j]) ==>
                  forall i, j :: 0 <= i < j < |w| ==> w[i] != w[j])
  {
    if requests != [] {
      var q := requests[0];
      forall p ensures Written(requests, p) <==> WritesTo(q, p) || Written(requests[1..], p) {
        WrittenStep(requests, p);
      }
      hide Written;
      if (q.name == "write_file" || q.name == "edit_file") && q.path.Some? && q.path.value !in seen {
        WrittenFilesAre(requests[1..], seen + [q.path.value]);
      } else {
        WrittenFilesAre(requests[1..], seen);
      }
    }
  }

  /** … and in the order of their first write. */
  lemma {:induction false} WrittenFilesInOrder(requests: seq<ToolRequest>, seen: seq<string>, q: ToolRequest)
    ensures var w := WrittenFiles(requests, seen);
            WrittenFiles(requests + [q], seen)
            == w + if q.path.Some? && WritesTo(q, q.path.value) && q.path.value !in w then [q.path.value] else []
  {
    if requests == [] {
      assert [q][1..] == [] && [] + [q] == [q];
    } else {
      assert (requests + [q])[1..] == requests[1..] + [q];
      var p := requests[0];
      WrittenFilesInOrder(requests[1..], if (p.name == "write_file" || p.name == "edit_file") && p.path.Some? && p.path.value !in seen
                                         then seen + [p.path.value] else seen, q);
    }
  }

  // ---------- the formatted result ----------

  const TAGS: map<StatusTag, string> :=
    map[Completed := "COMPLETED", Incomplete := "INCOMPLETE", Failed := "FAILED", Aborted := "ABORTED"]

  /** First the tag and the role, then the report of a verifier or else the plain output, then the files, last the
      duration: line by line, and nothing else. */
  lemma ResultReads(role: string, r: RoleResult, tag: StatusTag, duration: string)
    ensures var text, written := FormatResult(role, r, tag, duration), WrittenFiles(r.requests, []);
            var head := ("[Task " + TAGS[tag] + " — " + role + "]") + "\n" + if role == "verifier" then FormatVerifierOutput(r) else r.output;
            text == head + (if written == [] then "" else "\nFiles written: " + Join(", ", written)) + "\n" + duration
  {
    assert TagText(tag) == TAGS[tag];
    hide FormatVerifierOutput, WrittenFiles, TagText, Join, TAGS;
    var body := if role == "verifier" then FormatVerifierOutput(r) else r.output;
    var written := WrittenFiles(r.requests, []);
    var h := Header(tag, role);
    if written == [] {
      assert [h, body] + [] + [duration] == [h, body, duration];
      JoinThree(h, body, duration);
      assert h + "\n" + body + "" == h + "\n" + body;
    } else {
      var files := Join(", ", written);
      assert [h, body] + ["Files written: " + files] + [duration] == [h, body, "Files written: " + files, duration];
      JoinFour(h, body, "Files written: " + files, duration);
      SameLines(h + "\n" + body, files, duration);
    }
  }

  lemma SameLines(head: string, files: string, duration: string)
    ensures head + "\n" + ("Files written: " + files) + "\n" + duration == head + ("\nFiles written: " + files) + "\n" + duration
  {
    assert "\n" + ("Files written: " + files) == "\nFiles written: " + files;
    assert head + "\n" + ("Files written: " + files) == head + ("\n" + ("Files written: " + files));
  }

  lemma JoinThree(a: string, b: string, c: string)
    ensures Join("\n", [a, b, c]) == a + "\n" + b + "\n" + c
  {
    assert [a, b, c][1..] == [b, c] && [b, c][1..] == [c];
    assert Join("\n", [b, c]) == b + "\n" + c;
  }

  lemma JoinFour(a: string, b: string, c: string, d: string)
    ensures Join("\n", [a, b, c, d]) == a + "\n" + b + "\n" + c + "\n" + d
  {
    assert [a, b, c, d][1..] == [b, c, d];
    JoinThree(b, c, d);
  }

  lemma HeaderAt(a: StatusTag, role: string)
    ensures |Header(a, role)| > 7 && Header(a, role)[6] == TagText(a)[0] && Header(a, role)[7] == TagText(a)[1]
  {
    assert Header(a, role) == "[Task " + (TagText(a) + (" — " + role + "]"));
  }

  lemma CompletedFirst(role: string)
    ensures "[Task COMPLETED" <= Header(Completed, role)
  {
    assert Header(Completed, role) == "[Task COMPLETED" + (" — " + role + "]");
  }

  /** The four tags are told apart, and only the first opens the text with the mark the chain looks for. */
  lemma TagsDiffer(a: StatusTag, b: StatusTag, role: string)
    ensures Header(a, role) == Header(b, role) ==> a == b
    ensures "[Task COMPLETED" <= Header(a, role) <==> a == Completed
  {
    hide Header;
    HeaderAt(a, role);
    HeaderAt(b, role);
    CompletedFirst(role);
    if "[Task COMPLETED" <= Header(a, role) {
      assert Header(a, role)[6] == 'C';
    }
  }
}
