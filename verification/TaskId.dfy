/** Finding the task id in a delegation's description, and the descriptions the harness builds itself. */
module TaskId {
  import opened Prelude
  import opened Text

  // ---------- the id pattern ----------

  /** Letters, digits and underscore; beyond ASCII the Latin, Greek, Cyrillic, kana, CJK and Hangul blocks. */
  predicate IsWord(c: char) {
    || IsDigit(c) || 'a' <= c <= 'z' || 'A' <= c <= 'Z' || c == '_'
    || '\U{c0}' <= c <= '\U{24f}' || '\U{370}' <= c <= '\U{52f}'
    || '\U{3041}' <= c <= '\U{30ff}' || '\U{3400}' <= c <= '\U{9fff}' || '\U{ac00}' <= c <= '\U{d7a3}'
  }

  function DigitsEnd(s: string, i: nat): (j: nat)
    requires i <= |s|
    ensures i <= j <= |s|
    ensures forall k :: i <= k < j ==> IsDigit(s[k])
    decreases |s| - i
  {
    if i < |s| && IsDigit(s[i]) then DigitsEnd(s, i + 1) else i
  }

  /** No word character at `j`. */
  predicate WordEnds(s: string, j: nat) {
    j < |s| ==> !IsWord(s[j])
  }

  predicate TaskDash(s: string, i: nat) {
    && i + 5 <= |s|
    && LowerChar(s[i]) == 't' && LowerChar(s[i + 1]) == 'a' && LowerChar(s[i + 2]) == 's'
    && LowerChar(s[i + 3]) == 'k' && s[i + 4] == '-'
  }

  /** End of the pattern's tail once the first digits end at `d`: with a decimal part if one fits. */
  function TailEnd(s: string, d: nat): (r: Option<nat>)
    requires d <= |s|
    ensures r.Some? ==> d <= r.value <= |s|
  {
    var e := if d < |s| && s[d] == '.' then DigitsEnd(s, d + 1) else d;
    if e > d + 1 && WordEnds(s, e) then Some(e)
    else if WordEnds(s, d) then Some(d)
    else None
  }

  /** End of the match of "\bTASK-\d+(?:\.\d+)?\b" starting at `i`. The digits are taken greedily; since a
      word boundary never lies between two digits, the only other ending is before the decimal point. */
  function MatchEnd(s: string, i: nat): (r: Option<nat>)
    ensures r.Some? ==> i + 5 < r.value <= |s| && s[i] != '\n'
  {
    if !TaskDash(s, i) || (i > 0 && IsWord(s[i - 1])) then None
    else
      var d := DigitsEnd(s, i + 5);
      if d == i + 5 then None else TailEnd(s, d)
  }

  function FindFrom(s: string, i: nat): Option<string>
    requires i <= |s|
    decreases |s| - i
  {
    if i == |s| then None
    else
      match MatchEnd(s, i)
      case Some(e) => Some(Upper(s[i..e]))
      case None => FindFrom(s, i + 1)
  }

  /** `_extract_task_id`: the first id, in upper case. */
  function ExtractTaskId(description: string): Option<string> {
    FindFrom(description, 0)
  }

  function OrElse(a: Option<string>, b: Option<string>): Option<string> {
    if a.Some? then a else b
  }

  // ---------- the search against the pattern ----------

  ghost predicate Digits(s: string, i: int, j: int) {
    0 <= i < j <= |s| && forall k :: i <= k < j ==> IsDigit(s[k])
  }

  /** The whole pattern between `i` and `e`: "TASK-" in any case, digits, perhaps a point and more digits, and no
      word character at either edge. */
  ghost predicate Matches(s: string, i: int, e: int) {
    && 0 <= i && i + 5 < e <= |s|
    && Upper(s[i..i + 5]) == "TASK-"
    && (i == 0 || !IsWord(s[i - 1]))
    && (e == |s| || !IsWord(s[e]))
    && (Digits(s, i + 5, e) || exists d :: Digits(s, i + 5, d) && d < |s| && s[d] == '.' && Digits(s, d + 1, e))
  }

  /** The match the search is after: the first place where one begins, and the longest there. */
  ghost predicate FirstLongest(s: string, i: int, e: int) {
    && Matches(s, i, e)
    && (forall i', e' :: Matches(s, i', e') ==> i <= i')
    && (forall e' :: Matches(s, i, e') ==> e' <= e)
  }

  lemma {:induction false} DigitsEndIs(s: string, i: nat, j: int)
    requires i <= |s|
    ensures DigitsEnd(s, i) > i ==> Digits(s, i, DigitsEnd(s, i))
    ensures Digits(s, i, j) && (j == |s| || !IsDigit(s[j])) ==> DigitsEnd(s, i) == j
    ensures Digits(s, i, j) ==> j <= DigitsEnd(s, i)
    ensures DigitsEnd(s, i) < |s| ==> !IsDigit(s[DigitsEnd(s, i)])
    decreases |s| - i
  {
    hide IsDigit;
    if i < |s| && IsDigit(s[i]) {
      DigitsEndIs(s, i + 1, j);
    }
  }

  lemma UpperDash(s: string, i: nat)
    requires i + 5 <= |s|
    ensures Upper(s[i..i + 5]) == "TASK-" <==> TaskDash(s, i)
  {
    var t, u := s[i..i + 5], Upper(s[i..i + 5]);
    assert t[0] == s[i] && t[1] == s[i + 1] && t[2] == s[i + 2] && t[3] == s[i + 3] && t[4] == s[i + 4];
    assert u == [u[0], u[1], u[2], u[3], u[4]];
    UpperIsLower(s[i], 't', 'T');
    UpperIsLower(s[i + 1], 'a', 'A');
    UpperIsLower(s[i + 2], 's', 'S');
    UpperIsLower(s[i + 3], 'k', 'K');
    assert UpperChar(s[i + 4]) == '-' <==> s[i + 4] == '-';
  }

  lemma UpperIsLower(c: char, low: char, up: char)
    requires 'a' <= low <= 'z' && up == low - 'a' + 'A'
    ensures UpperChar(c) == up <==> LowerChar(c) == low
  {
  }

  lemma DigitsAreWords(c: char)
    ensures IsDigit(c) ==> IsWord(c)
    ensures !IsDigit('.') && !IsWord('.')
  {
  }

  lemma MatchEndIsPattern(s: string, i: nat, e: int)
    requires i < |s|
    ensures match MatchEnd(s, i)
            case Some(r) => Matches(s, i, r) && (Matches(s, i, e) ==> e <= r)
            case None => !Matches(s, i, e)
  {
    hide IsWord, IsDigit, TaskDash, DigitsEnd, Upper;
    if i + 5 <= |s| {
      UpperDash(s, i);
      if TaskDash(s, i) && (i == 0 || !IsWord(s[i - 1])) {
        TailIsPattern(s, i, e);
      }
    } else {
      assert !TaskDash(s, i) by { if TaskDash(s, i) { DashFits(s, i); } }
    }
  }

  lemma TailIsPattern(s: string, i: nat, e: int)
    requires i + 5 <= |s| && Upper(s[i..i + 5]) == "TASK-" && (i == 0 || !IsWord(s[i - 1]))
    ensures var d := DigitsEnd(s, i + 5);
            var r := if d == i + 5 then None else TailEnd(s, d);
            if r.Some? then Matches(s, i, r.value) && (Matches(s, i, e) ==> e <= r.value) else !Matches(s, i, e)
  {
    hide IsWord, IsDigit, DigitsEnd, Upper;
    DigitsAreWords('0');
    var d := DigitsEnd(s, i + 5);
    DigitsEndIs(s, i + 5, e);
    if d < |s| && s[d] == '.' {
      DigitsEndIs(s, d + 1, e);
    }
    if 0 <= e < |s| { DigitsAreWords(s[e]); }
    if Matches(s, i, e) && !Digits(s, i + 5, e) {
      var p :| Digits(s, i + 5, p) && p < |s| && s[p] == '.' && Digits(s, p + 1, e);
      DigitsEndIs(s, i + 5, p);
      assert p == d;
    }
  }

  lemma MatchesInside(s: string, i: int, e: int)
    requires Matches(s, i, e)
    ensures 0 <= i && i + 5 < e <= |s|
  {
  }

  /** From `i` on, the search finds the first longest match, or there is none. */
  lemma {:induction false} FindFromIs(s: string, i: nat) returns (b: int, e: int)
    requires i <= |s|
    ensures match FindFrom(s, i)
            case Some(x) => i <= b && Matches(s, b, e) && x == Upper(s[b..e])
                            && (forall i', e' :: i <= i' && Matches(s, i', e') ==> b <= i')
                            && (forall e' :: Matches(s, b, e') ==> e' <= e)
            case None => forall i', e' :: i <= i' ==> !Matches(s, i', e')
    decreases |s| - i
  {
    hide Matches, MatchEnd, Upper;
    b, e := 0, 0;
    if i == |s| {
      forall i', e' | i <= i' ensures !Matches(s, i', e') {
        if Matches(s, i', e') { MatchesInside(s, i', e'); }
      }
    } else {
      forall e' ensures match MatchEnd(s, i) case Some(r) => Matches(s, i, r) && (Matches(s, i, e') ==> e' <= r)
                                             case None => !Matches(s, i, e')
      {
        MatchEndIsPattern(s, i, e');
      }
      match MatchEnd(s, i)
      case Some(r) => b, e := i, r;
      case None => b, e := FindFromIs(s, i + 1);
    }
  }

  lemma FirstLongestUnique(s: string, i: int, e: int, j: int, f: int)
    requires FirstLongest(s, i, e) && FirstLongest(s, j, f)
    ensures i == j && e == f
  {
    hide Matches;
  }

  /** The id of a description is the first, and there the longest, match of the pattern, in upper case; there is
      none exactly if nothing matches. */
  lemma ExtractIsPattern(s: string, x: string)
    ensures ExtractTaskId(s) == Some(x) <==> exists i, e :: FirstLongest(s, i, e) && x == Upper(s[i..e])
    ensures ExtractTaskId(s).None? <==> forall i, e :: !Matches(s, i, e)
  {
    hide FindFrom, Upper;
    var b, e := FindFromIs(s, 0);
    hide Matches;
    forall i, e | Matches(s, i, e) ensures 0 <= i { MatchesInside(s, i, e); }
    if ExtractTaskId(s).Some? {
      assert FirstLongest(s, b, e);
      forall i, f | FirstLongest(s, i, f) ensures i == b && f == e {
        FirstLongestUnique(s, i, f, b, e);
      }
    }
  }

  lemma UpperOfDigits(s: string)
    requires forall k :: 0 <= k < |s| ==> IsDigit(s[k]) || s[k] == '.'
    ensures Upper(s) == s
  {
  }

  lemma UpperSum(a: string, b: string)
    ensures Upper(a + b) == Upper(a) + Upper(b)
  {
    assert forall k :: 0 <= k < |a| ==> (a + b)[k] == a[k];
  }

  /** A text that is one match from end to end is its own id. */
  lemma WholeIsId(s: string)
    requires Matches(s, 0, |s|)
    ensures ExtractTaskId(s) == Some(Upper(s))
  {
    hide Matches, Upper, ExtractTaskId;
    assert FirstLongest(s, 0, |s|) by {
      forall i, e | Matches(s, i, e) ensures 0 <= i && e <= |s| { MatchesInside(s, i, e); }
    }
    assert s[0..|s|] == s;
    ExtractIsPattern(s, Upper(s));
  }

  lemma UpperLength(s: string)
    ensures |Upper(s)| == |s|
  {
  }

  lemma AllDigits(prefix: string, a: string, rest: string)
    requires a != "" && forall k :: 0 <= k < |a| ==> IsDigit(a[k])
    ensures Digits(prefix + a + rest, |prefix|, |prefix + a|)
  {
    hide IsDigit;
    forall k | |prefix| <= k < |prefix + a| ensures IsDigit((prefix + a + rest)[k]) {
      assert (prefix + a + rest)[k] == a[k - |prefix|];
    }
  }

  lemma WholeMatches(prefix: string, a: string, b: string)
    requires Upper(prefix) == "TASK-" && a != "" && forall k :: 0 <= k < |a| ==> IsDigit(a[k])
    requires b == "" || (b[0] == '.' && |b| > 1 && forall k :: 1 <= k < |b| ==> IsDigit(b[k]))
    ensures Matches(prefix + a + b, 0, |prefix + a + b|)
  {
    hide IsDigit, Upper, IsWord;
    UpperLength(prefix);
    var s := prefix + a + b;
    assert s[0..5] == prefix;
    AllDigits(prefix, a, b);
    if b != "" {
      assert s[|prefix + a|] == '.';
      AllDigits(prefix + a + ".", b[1..], "");
      assert s == prefix + a + "." + b[1..] + "";
    } else {
      assert s == prefix + a;
    }
  }

  /** Every task number is found whole, with or without a sub-task, in whatever case it is written. */
  lemma NumberedIds(prefix: string, n: nat, m: nat)
    requires Upper(prefix) == "TASK-"
    ensures ExtractTaskId(prefix + NatText(n)) == Some("TASK-" + NatText(n))
    ensures ExtractTaskId(prefix + (NatText(n) + "." + NatText(m))) == Some("TASK-" + (NatText(n) + "." + NatText(m)))
  {
    hide NatText, ExtractTaskId, Upper, IsDigit, Matches;
    var a, b := NatText(n), NatText(m);
    NatTextDigits(n);
    NatTextDigits(m);
    WholeMatches(prefix, a, "");
    assert prefix + a + "" == prefix + a;
    WholeMatches(prefix, a, "." + b);
    assert prefix + a + ("." + b) == prefix + (a + "." + b);
    WholeIsId(prefix + a);
    WholeIsId(prefix + (a + "." + b));
    UpperSum(prefix, a);
    UpperSum(prefix, a + "." + b);
    UpperOfDigits(a);
    UpperOfDigits(a + "." + b);
  }

  /** Letters, digits and the underscore by their codes. */
  predicate AsciiWord(c: char) {
    var n := c as int;
    48 <= n <= 57 || 65 <= n <= 90 || n == 95 || 97 <= n <= 122
  }

  lemma AsciiWords(c: char)
    requires c as int < 128
    ensures IsWord(c) <==> AsciiWord(c)
  {
  }

  lemma DashMustBeThere(s: string, i: int, e: int)
    requires Matches(s, i, e)
    ensures 0 <= i && i + 5 < e <= |s| && s[i + 4] == '-' && (i > 0 ==> !IsWord(s[i - 1])) && (e < |s| ==> !IsWord(s[e]))
    ensures IsDigit(s[e - 1])
  {
    hide IsWord;
    assert i + 5 <= |s|;
    UpperDash(s, i);
    if !Digits(s, i + 5, e) {
      var d :| Digits(s, i + 5, d) && d < |s| && s[d] == '.' && Digits(s, d + 1, e);
    }
  }

  /** A task number glued to a word character is no id. */
  lemma GluedIsNoId(c: char, n: nat)
    requires AsciiWord(c)
    ensures ExtractTaskId([c] + "TASK-" + NatText(n)) == None
    ensures !IsDigit(c) ==> ExtractTaskId("TASK-" + NatText(n) + [c]) == None
  {
    hide ExtractTaskId, NatText, IsWord, IsDigit, Matches;
    AsciiWords(c);
    var a := NatText(n);
    NatTextDigits(n);
    var s, t := [c] + "TASK-" + a, "TASK-" + a + [c];
    forall k | 6 <= k < |s| ensures s[k] != '-' { NoDashDigit(a[k - 6]); }
    forall i, e | Matches(s, i, e) ensures false {
      DashMustBeThere(s, i, e);
    }
    ExtractIsPattern(s, "");
    if !IsDigit(c) {
      forall k | 5 <= k < |t| - 1 ensures t[k] == a[k - 5] && t[k] != '-' && IsWord(t[k]) {
        NoDashDigit(a[k - 5]);
        DigitsAreWords(a[k - 5]);
      }
      forall i, e | Matches(t, i, e) ensures false {
        DashMustBeThere(t, i, e);
      }
      ExtractIsPattern(t, "");
    }
  }

  lemma NoDashDigit(c: char)
    ensures IsDigit(c) ==> c != '-'
  {
  }

  // ---------- ids do not cross line breaks ----------

  lemma {:induction false} DigitsBefore(a: string, b: string, i: nat)
    requires i <= |a|
    ensures DigitsEnd(a + "\n" + b, i) == DigitsEnd(a, i)
    decreases |a| - i
  {
    var s := a + "\n" + b;
    if i < |a| {
      assert s[i] == a[i];
      if IsDigit(a[i]) { DigitsBefore(a, b, i + 1); }
    } else {
      assert s[i] == '\n';
    }
  }

  lemma {:induction false} DigitsAfter(a: string, b: string, i: nat)
    requires i <= |b|
    ensures DigitsEnd(a + "\n" + b, |a| + 1 + i) == |a| + 1 + DigitsEnd(b, i)
    decreases |b| - i
  {
    if i < |b| {
      assert (a + "\n" + b)[|a| + 1 + i] == b[i];
      if IsDigit(b[i]) { DigitsAfter(a, b, i + 1); }
    }
  }

  lemma LowerNewline()
    ensures LowerChar('\n') == '\n'
  {
  }

  lemma NewlineIsNoWord()
    ensures !IsWord('\n') && !IsDigit('\n')
  {
  }

  lemma TailBefore(a: string, b: string, d: nat)
    requires d <= |a|
    ensures TailEnd(a + "\n" + b, d) == TailEnd(a, d)
  {
    hide IsWord, IsDigit, DigitsEnd;
    var s := a + "\n" + b;
    NewlineIsNoWord();
    assert s[|a|] == '\n' && forall k :: 0 <= k < |a| ==> s[k] == a[k];
    if d < |a| && a[d] == '.' {
      DigitsBefore(a, b, d + 1);
    }
  }

  lemma MatchBefore(a: string, b: string, i: nat)
    requires i < |a|
    ensures MatchEnd(a + "\n" + b, i) == MatchEnd(a, i)
    ensures MatchEnd(a, i).Some? ==> (a + "\n" + b)[i..MatchEnd(a, i).value] == a[i..MatchEnd(a, i).value]
  {
    hide IsWord, IsDigit, DigitsEnd, TailEnd, LowerChar;
    var s := a + "\n" + b;
    assert s[|a|] == '\n' && forall k :: 0 <= k < |a| ==> s[k] == a[k];
    assert TaskDash(s, i) == TaskDash(a, i) by {
      assert i + 5 > |a| >= i + 1 ==> s[|a|] != '-' && LowerChar('\n') == '\n' by { LowerNewline(); }
    }
    if TaskDash(a, i) {
      DigitsBefore(a, b, i + 5);
      TailBefore(a, b, DigitsEnd(a, i + 5));
    }
  }

  lemma TailAfter(a: string, b: string, d: nat)
    requires d <= |b|
    ensures var n := |a| + 1;
            TailEnd(a + "\n" + b, n + d) == match TailEnd(b, d) case None => None case Some(e) => Some(n + e)
  {
    hide IsWord, IsDigit, DigitsEnd;
    var s, n := a + "\n" + b, |a| + 1;
    assert d < |b| ==> s[n + d] == b[d];
    if d < |b| && b[d] == '.' {
      DigitsAfter(a, b, d + 1);
      var e := DigitsEnd(b, d + 1);
      assert e < |b| ==> s[n + e] == b[e];
    }
  }

  lemma DashAfter(a: string, b: string, i: nat)
    requires i < |b|
    ensures var s, n := a + "\n" + b, |a| + 1;
            TaskDash(s, n + i) == TaskDash(b, i) && s[n + i - 1] == if i == 0 then '\n' else b[i - 1]
  {
    hide LowerChar;
    var s, n := a + "\n" + b, |a| + 1;
    assert i > 0 ==> s[n + (i - 1)] == b[i - 1];
    if i + 5 <= |b| {
      assert s[n + i] == b[i] && s[n + (i + 1)] == b[i + 1] && s[n + (i + 2)] == b[i + 2];
      assert s[n + (i + 3)] == b[i + 3] && s[n + (i + 4)] == b[i + 4];
    }
  }

  lemma MatchAfter(a: string, b: string, i: nat)
    requires i < |b|
    ensures var n := |a| + 1;
            match MatchEnd(b, i)
            case None => MatchEnd(a + "\n" + b, n + i).None?
            case Some(e) => MatchEnd(a + "\n" + b, n + i) == Some(n + e) && (a + "\n" + b)[n + i..n + e] == b[i..e]
  {
    hide IsWord, IsDigit, DigitsEnd, TailEnd, TaskDash;
    NewlineIsNoWord();
    DashAfter(a, b, i);
    if TaskDash(b, i) {
      assert i + 5 <= |b| by { DashFits(b, i); }
      DigitsAfter(a, b, i + 5);
      TailAfter(a, b, DigitsEnd(b, i + 5));
    }
  }

  lemma DashFits(s: string, i: nat)
    requires TaskDash(s, i)
    ensures i + 5 <= |s|
  {
  }

  lemma {:induction false} FindAfter(a: string, b: string, i: nat)
    requires i <= |b|
    ensures FindFrom(a + "\n" + b, |a| + 1 + i) == FindFrom(b, i)
    decreases |b| - i
  {
    hide MatchEnd;
    if i < |b| {
      MatchAfter(a, b, i);
      FindAfter(a, b, i + 1);
    }
  }

  lemma {:induction false} FindBefore(a: string, b: string, i: nat)
    requires i <= |a|
    ensures FindFrom(a + "\n" + b, i) == OrElse(FindFrom(a, i), FindFrom(b, 0))
    decreases |a| - i
  {
    hide MatchEnd;
    if i < |a| {
      MatchBefore(a, b, i);
      FindBefore(a, b, i + 1);
    } else {
      assert (a + "\n" + b)[i] == '\n';
      FindAfter(a, b, 0);
    }
  }

  /** The id of two texts on separate lines is the first one's, or else the second one's. */
  lemma ExtractAcrossNewline(a: string, b: string)
    ensures ExtractTaskId(a + "\n" + b) == OrElse(ExtractTaskId(a), ExtractTaskId(b))
  {
    FindBefore(a, b, 0);
  }

  function FirstId(parts: seq<string>): Option<string> {
    if parts == [] then None else OrElse(ExtractTaskId(parts[0]), FirstId(parts[1..]))
  }

  lemma {:induction false} ExtractFromLines(parts: seq<string>)
    ensures ExtractTaskId(Join("\n", parts)) == FirstId(parts)
  {
    if |parts| == 1 {
      assert FirstId(parts[1..]) == None;
    } else if |parts| > 1 {
      ExtractFromLines(parts[1..]);
      ExtractAcrossNewline(parts[0], Join("\n", parts[1..]));
    }
  }

  /** A text in which no dash follows a "k" holds no id. */
  lemma {:induction false} NoTaskDash(s: string, i: nat)
    requires i <= |s| && forall k :: 0 < k < |s| && s[k] == '-' ==> LowerChar(s[k - 1]) != 'k'
    ensures FindFrom(s, i) == None
    decreases |s| - i
  {
    if i < |s| {
      assert !TaskDash(s, i) by {
        assert i + 5 <= |s| && s[i + 4] == '-' ==> LowerChar(s[(i + 4) - 1]) != 'k';
      }
      NoTaskDash(s, i + 1);
    }
  }

  // ---------- the descriptions the harness builds ----------

  function Cut(s: string, n: nat): string {
    if |s| > n then s[..n] else s
  }

  function Tail(s: string, n: nat): string {
    if |s| > n then s[|s| - n..] else s
  }

  const DESCRIPTION_LIMIT := 800

  const AUTO_INVOKE := "invoke, v22 #2)"
  const VERIFY_TITLE := "## verify TASK 산출물 (harness auto" + "-" + AUTO_INVOKE
  const VERIFY_SOURCE := "### 원 task description (coder 가 받은 것)"
  const VERIFY_REPORT := "### coder 보고 결과 (자가 보고 — 그대로 믿지 말 것)"
  const VERIFY_ORDERS := "### 검증 지시 (반드시 결정론적 증거로 답할 것)"

  function VerifierDescription(coderDescription: string, coderResult: string): string {
    Join("\n", [VERIFY_TITLE, "", VERIFY_SOURCE, Cut(coderDescription, DESCRIPTION_LIMIT), "",
                VERIFY_REPORT, Tail(coderResult, 1500), "", VERIFY_ORDERS])
  }

  const FIX_TITLE := "## fix TASK (harness auto" + "-" + AUTO_INVOKE
  const FIX_SOURCE := "### 원 task description (coder 가 받았던 것)"
  const FIX_EVIDENCE := "### 직전 verifier 실패 증거"
  const FIX_ORDERS := "### fix 지시"

  function FixerDescription(coderDescription: string, verifierResult: string): string {
    Join("\n", [FIX_TITLE, "", FIX_SOURCE, Cut(coderDescription, DESCRIPTION_LIMIT), "",
                FIX_EVIDENCE, Tail(verifierResult, 2500), "", FIX_ORDERS])
  }

  const EVIDENCE_LIMIT := 8000
  const EVIDENCE_TITLE := "## 직전 verifier 결과 (harness 자동 첨부)"
  const EVIDENCE_CUT := "\n... (truncated)"
  const EVIDENCE_RULE := "----"

  function CappedEvidence(evidence: string): string {
    if |evidence| > EVIDENCE_LIMIT then evidence[..EVIDENCE_LIMIT] + EVIDENCE_CUT else evidence
  }

  function PrependEvidence(description: string, evidence: string): string {
    Join("\n", [EVIDENCE_TITLE, CappedEvidence(evidence), "", EVIDENCE_RULE, "", description])
  }

  lemma CutShows(s: string, n: nat, x: string)
    ensures |Cut(s, n)| == Min(|s|, n) && Cut(s, n) <= s
    ensures x <= s && |x| <= n ==> Contains(Cut(s, n), x)
  {
    if x <= s && |x| <= n { ContainsPrefix(Cut(s, n), x); }
  }

  predicate EndsWith(s: string, x: string) {
    |x| <= |s| && s[|s| - |x|..] == x
  }

  lemma TailShows(s: string, n: nat, x: string)
    ensures |Tail(s, n)| == Min(|s|, n) && EndsWith(s, Tail(s, n))
    ensures EndsWith(s, x) && |x| <= n ==> Contains(Tail(s, n), x)
  {
    var t := Tail(s, n);
    if EndsWith(s, x) && |x| <= n {
      assert t[|t| - |x|..|t| - |x| + |x|] == x;
      assert OccursAt(t, x, |t| - |x|);
    }
  }

  lemma {:induction false} JoinUpdated(sep: string, parts: seq<string>, k: nat, x: string)
    requires k < |parts|
    ensures |Join(sep, parts[k := x])| == |Join(sep, parts)| - |parts[k]| + |x|
  {
    if |parts| > 1 {
      if k == 0 {
        assert parts[k := x][1..] == parts[1..];
      } else {
        assert parts[k := x][1..] == parts[1..][k - 1 := x];
        JoinUpdated(sep, parts[1..], k - 1, x);
      }
    }
  }

  /** What the chain's SubAgents get to see: of the coder's description its first 800 characters, of the coder's
      report its last 1,500, of the verifier's its last 2,500, and not a character more. */
  lemma ChainDescriptionsShow(description: string, text: string, head: string, tail: string)
    requires head <= description && |head| <= 800 && EndsWith(text, tail)
    ensures var v := VerifierDescription(description, text);
            && Contains(v, head) && (|tail| <= 1500 ==> Contains(v, tail))
            && |v| == |VerifierDescription("", "")| + Min(|description|, 800) + Min(|text|, 1500)
    ensures var f := FixerDescription(description, text);
            && Contains(f, head) && (|tail| <= 2500 ==> Contains(f, tail))
            && |f| == |FixerDescription("", "")| + Min(|description|, 800) + Min(|text|, 2500)
  {
    DescriptionShows(VERIFY_TITLE, VERIFY_SOURCE, VERIFY_REPORT, VERIFY_ORDERS, description, text, 1500, head, tail);
    DescriptionShows(FIX_TITLE, FIX_SOURCE, FIX_EVIDENCE, FIX_ORDERS, description, text, 2500, head, tail);
  }

  function Described(title: string, source: string, report: string, orders: string, d: string, r: string, n: nat): seq<string> {
    [title, "", source, Cut(d, 800), "", report, Tail(r, n), "", orders]
  }

  lemma DescriptionShows(title: string, source: string, report: string, orders: string,
                         description: string, text: string, n: nat, head: string, tail: string)
    requires head <= description && |head| <= 800 && EndsWith(text, tail)
    ensures var v := Join("\n", Described(title, source, report, orders, description, text, n));
            && Contains(v, head) && (|tail| <= n ==> Contains(v, tail))
            && |v| == |Join("\n", Described(title, source, report, orders, "", "", n))| + Min(|description|, 800) + Min(|text|, n)
  {
    hide Join, Contains, Cut, Tail;
    var parts := Described(title, source, report, orders, description, text, n);
    CutShows(description, 800, head);
    TailShows(text, n, tail);
    JoinHasPart("\n", parts, 3);
    JoinHasPart("\n", parts, 6);
    ContainsTrans(Join("\n", parts), Cut(description, 800), head);
    if |tail| <= n { ContainsTrans(Join("\n", parts), Tail(text, n), tail); }
    DescribedLength(title, source, report, orders, description, text, n);
  }

  lemma DescribedLength(title: string, source: string, report: string, orders: string, d: string, r: string, n: nat)
    ensures |Join("\n", Described(title, source, report, orders, d, r, n))|
            == |Join("\n", Described(title, source, report, orders, "", "", n))| + |Cut(d, 800)| + |Tail(r, n)|
  {
    hide Join;
    var none, cut, tail := Described(title, source, report, orders, "", "", n), Cut(d, 800), Tail(r, n);
    hide Cut, Tail;
    JoinUpdated("\n", none, 3, cut);
    JoinUpdated("\n", none[3 := cut], 6, tail);
    assert none[3 := cut][6 := tail] == Described(title, source, report, orders, d, r, n);
  }

  lemma {:induction false} JoinEnds(sep: string, parts: seq<string>)
    requires parts != []
    ensures EndsWith(Join(sep, parts), parts[|parts| - 1])
  {
    if |parts| > 1 { JoinEnds(sep, parts[1..]); }
  }

  /** What a fixer gets to see of the cached evidence: its first 8,000 characters, a note if there was more, and
      the description, which comes last. */
  lemma EvidenceShown(description: string, evidence: string, head: string)
    requires head <= evidence && |head| <= 8000
    ensures var p, bare := PrependEvidence(description, evidence), PrependEvidence("", "");
            && Contains(p, head) && EndsWith(p, description)
            && |p| == |bare| + |description| + if |evidence| <= 8000 then |evidence| else 8000 + |EVIDENCE_CUT|
  {
    var none := [EVIDENCE_TITLE, CappedEvidence(""), "", EVIDENCE_RULE, "", ""];
    var parts := [EVIDENCE_TITLE, CappedEvidence(evidence), "", EVIDENCE_RULE, "", description];
    assert Contains(CappedEvidence(evidence), head) by { ContainsPrefix(CappedEvidence(evidence), head); }
    hide Join, Contains, EndsWith;
    JoinEnds("\n", parts);
    JoinHasPart("\n", parts, 1);
    ContainsTrans(Join("\n", parts), CappedEvidence(evidence), head);
    JoinUpdated("\n", none, 1, CappedEvidence(evidence));
    JoinUpdated("\n", none[1 := CappedEvidence(evidence)], 5, description);
    assert none[1 := CappedEvidence(evidence)][5 := description] == parts;
  }

  lemma OneDash(x: string, y: string)
    requires x != "" && '-' !in x && '-' !in y && LowerChar(x[|x| - 1]) != 'k'
    ensures ExtractTaskId(x + "-" + y) == None
  {
    var s := x + "-" + y;
    assert forall k :: 0 <= k < |x| ==> s[k] == x[k];
    assert forall k :: |x| < k < |s| ==> s[k] == y[k - |x| - 1];
    assert s[|x| - 1] == x[|x| - 1];
    NoTaskDash(s, 0);
  }

  lemma NoDash(s: string)
    requires '-' !in s
    ensures ExtractTaskId(s) == None
  {
    NoTaskDash(s, 0);
  }

  lemma VerifyTitlesHaveNoId()
    ensures ExtractTaskId(VERIFY_TITLE) == None && ExtractTaskId(VERIFY_SOURCE) == None
  {
    hide ExtractTaskId;
    OneDash("## verify TASK 산출물 (harness auto", AUTO_INVOKE);
    NoDash(VERIFY_SOURCE);
  }

  lemma FixTitlesHaveNoId()
    ensures ExtractTaskId(FIX_TITLE) == None && ExtractTaskId(FIX_SOURCE) == None
  {
    hide ExtractTaskId;
    OneDash("## fix TASK (harness auto", AUTO_INVOKE);
    NoDash(FIX_SOURCE);
  }

  lemma EvidenceTitlesHaveNoId()
    ensures ExtractTaskId(EVIDENCE_TITLE) == None && ExtractTaskId(EVIDENCE_RULE) == None
  {
    NoDash(EVIDENCE_TITLE);
    NoTaskDash(EVIDENCE_RULE, 0);
  }

  lemma FirstIdUnfold(parts: seq<string>, k: nat)
    requires k <= |parts| && forall i :: 0 <= i < k ==> ExtractTaskId(parts[i]) == None
    ensures FirstId(parts) == FirstId(parts[k..])
    decreases k
  {
    if k == 0 {
      assert parts[0..] == parts;
    } else {
      assert parts[1..][k - 1..] == parts[k..];
      assert forall i :: 0 <= i < k - 1 ==> parts[1..][i] == parts[i + 1];
      FirstIdUnfold(parts[1..], k - 1);
    }
  }

  /** The chain's verifier and fixer work under the coder's id whenever that id survives the cut of the
      description to its first 800 characters. */
  lemma ChainKeepsId(coderDescription: string, text: string, id: string)
    requires ExtractTaskId(Cut(coderDescription, DESCRIPTION_LIMIT)) == Some(id)
    ensures ExtractTaskId(VerifierDescription(coderDescription, text)) == Some(id)
    ensures ExtractTaskId(FixerDescription(coderDescription, text)) == Some(id)
  {
    hide ExtractTaskId, Join;
    VerifyTitlesHaveNoId();
    FixTitlesHaveNoId();
    assert ExtractTaskId("") == None by { EmptyHasNoId(); }
    var v := [VERIFY_TITLE, "", VERIFY_SOURCE, Cut(coderDescription, DESCRIPTION_LIMIT), "",
              VERIFY_REPORT, Tail(text, 1500), "", VERIFY_ORDERS];
    ExtractFromLines(v);
    FirstIdUnfold(v, 3);
    var f := [FIX_TITLE, "", FIX_SOURCE, Cut(coderDescription, DESCRIPTION_LIMIT), "",
              FIX_EVIDENCE, Tail(text, 2500), "", FIX_ORDERS];
    ExtractFromLines(f);
    FirstIdUnfold(f, 3);
  }

  lemma EmptyHasNoId()
    ensures ExtractTaskId("") == None
  {
  }

  /** Prepended evidence takes precedence: the first id in it, if any, hides the description's own. */
  lemma PrependedId(description: string, evidence: string)
    ensures ExtractTaskId(PrependEvidence(description, evidence)) ==
            OrElse(ExtractTaskId(CappedEvidence(evidence)), ExtractTaskId(description))
  {
    hide ExtractTaskId, Join, CappedEvidence;
    EvidenceTitlesHaveNoId();
    EmptyHasNoId();
    var p := [EVIDENCE_TITLE, CappedEvidence(evidence), "", EVIDENCE_RULE, "", description];
    ExtractFromLines(p);
    FirstIdUnfold(p, 1);
    var q := p[1..];
    assert q == [CappedEvidence(evidence), "", EVIDENCE_RULE, "", description];
    assert q[1..] == ["", EVIDENCE_RULE, "", description];
    FirstIdUnfold(q[1..], 3);
    assert q[1..][3..] == [description];
    assert [description][1..] == [];
  }
}
