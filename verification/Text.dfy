/** Python-style text operations: substring search, joining, stripping and decimal numerals. */
module Text {

  // ---------- substring search ----------

  predicate OccursAt(s: string, m: string, i: int) {
    0 <= i && i + |m| <= |s| && s[i..i + |m|] == m
  }

  /** Python's `m in s`. */
  predicate Contains(s: string, m: string) {
    exists i :: 0 <= i <= |s| && OccursAt(s, m, i)
  }

  lemma OccursFirst(s: string, m: string, i: nat)
    requires OccursAt(s, m, i) && m != ""
    ensures i < |s| && s[i] == m[0]
  {
    assert s[i] == s[i..i + |m|][0];
  }

  lemma OccursDeep(s: string, m: string, i: nat, d: nat)
    requires OccursAt(s, m, i) && d < |m|
    ensures i + d < |s| && s[i + d] == m[d]
  {
    assert s[i + d] == s[i..i + |m|][d];
  }

  lemma ContainsInside(a: string, s: string, b: string, m: string)
    requires Contains(s, m)
    ensures Contains(a + s + b, m)
  {
    var i :| 0 <= i <= |s| && OccursAt(s, m, i);
    assert (a + s + b)[|a| + i..|a| + i + |m|] == s[i..i + |m|];
    assert OccursAt(a + s + b, m, |a| + i);
  }

  lemma ContainsPrefix(s: string, m: string)
    requires m <= s
    ensures Contains(s, m)
  {
    assert OccursAt(s, m, 0);
  }

  /** A text that lacks a marker's first character can be put in front without adding an occurrence. */
  lemma ContainsBehind(a: string, s: string, m: string)
    requires m != "" && m[0] !in a
    ensures Contains(a + s, m) <==> Contains(s, m)
  {
    if Contains(s, m) {
      ContainsInside(a, s, "", m);
      assert a + s + "" == a + s;
    }
    assert forall x :: 0 <= x < |a| ==> (a + s)[x] == a[x] && (a + s)[x] != m[0];
    if Contains(a + s, m) {
      var i :| 0 <= i <= |a + s| && OccursAt(a + s, m, i);
      OccursFirst(a + s, m, i);
      assert i >= |a|;
      assert (a + s)[i..i + |m|] == s[i - |a|..i - |a| + |m|];
      assert OccursAt(s, m, i - |a|);
    }
  }

  lemma OccursBeforeOrAfter(a: string, b: string, m: string, i: nat)
    requires '\n' !in m && OccursAt(a + "\n" + b, m, i)
    ensures OccursAt(a, m, i) || OccursAt(b, m, i - |a| - 1)
  {
    var s := a + "\n" + b;
    assert forall x :: 0 <= x < |m| ==> m[x] == s[i + x];
    if i + |m| <= |a| {
      assert forall x :: 0 <= x < |m| ==> a[i + x] == m[x];
    } else {
      assert i > |a| by {
        assert s[|a|] == '\n';
        assert forall x :: i <= x < i + |m| ==> s[x] == m[x - i];
      }
      assert forall x :: 0 <= x < |m| ==> b[i - |a| - 1 + x] == m[x];
    }
  }

  /** A marker without line breaks cannot straddle a line break. */
  lemma ContainsAcrossNewline(a: string, b: string, m: string)
    requires '\n' !in m && m != ""
    ensures Contains(a + "\n" + b, m) <==> Contains(a, m) || Contains(b, m)
  {
    var s := a + "\n" + b;
    if Contains(a, m) {
      ContainsInside("", a, "\n" + b, m);
      assert "" + a + ("\n" + b) == s;
    }
    if Contains(b, m) {
      ContainsInside(a + "\n", b, "", m);
      assert (a + "\n") + b + "" == s;
    }
    if Contains(s, m) {
      var i :| 0 <= i <= |s| && OccursAt(s, m, i);
      OccursBeforeOrAfter(a, b, m, i);
    }
  }

  // ---------- joining ----------

  /** Python's `sep.join(parts)`. */
  function Join(sep: string, parts: seq<string>): string {
    if parts == [] then ""
    else if |parts| == 1 then parts[0]
    else parts[0] + sep + Join(sep, parts[1..])
  }

  /** Every part is in the joined text. */
  lemma {:induction false} JoinHasPart(sep: string, parts: seq<string>, k: nat)
    requires k < |parts|
    ensures Contains(Join(sep, parts), parts[k])
  {
    hide Contains;
    if |parts| == 1 {
      ContainsPrefix(parts[0], parts[0]);
    } else if k == 0 {
      assert Join(sep, parts) == parts[0] + (sep + Join(sep, parts[1..]));
      ContainsPrefix(Join(sep, parts), parts[0]);
    } else {
      JoinHasPart(sep, parts[1..], k - 1);
      var rest := Join(sep, parts[1..]);
      assert parts[1..][k - 1] == parts[k];
      ContainsInside(parts[0] + sep, rest, "", parts[k]);
      assert parts[0] + sep + rest + "" == parts[0] + sep + rest;
    }
  }

  lemma ContainsTrans(s: string, m: string, x: string)
    requires Contains(s, m) && Contains(m, x)
    ensures Contains(s, x)
  {
    var i :| 0 <= i <= |s| && OccursAt(s, m, i);
    var j :| 0 <= j <= |m| && OccursAt(m, x, j);
    forall k | 0 <= k < |x| ensures s[i + j + k] == x[k] {
      OccursDeep(m, x, j, k);
      OccursDeep(s, m, i, j + k);
    }
    assert s[i + j..i + j + |x|] == x;
    assert OccursAt(s, x, i + j);
  }

  /** A one-line marker occurs in newline-joined lines iff it occurs in one of them. */
  lemma {:induction false} ContainsInLines(parts: seq<string>, m: string)
    requires '\n' !in m && m != ""
    ensures Contains(Join("\n", parts), m) <==> exists k :: 0 <= k < |parts| && Contains(parts[k], m)
  {
    if parts == [] {
      assert !Contains("", m);
    } else if |parts| == 1 {
    } else {
      ContainsAcrossNewline(parts[0], Join("\n", parts[1..]), m);
      ContainsInLines(parts[1..], m);
      if k :| 0 <= k < |parts| && Contains(parts[k], m) {
        assert k == 0 || parts[1..][k - 1] == parts[k];
      }
      if k :| 0 <= k < |parts[1..]| && Contains(parts[1..][k], m) {
        assert parts[k + 1] == parts[1..][k];
      }
    }
  }

  /** The same for parts joined by a blank line. */
  lemma {:induction false} ContainsInParagraphs(parts: seq<string>, m: string)
    requires '\n' !in m && m != ""
    ensures Contains(Join("\n\n", parts), m) <==> exists k :: 0 <= k < |parts| && Contains(parts[k], m)
  {
    if parts == [] {
      assert !Contains("", m);
    } else if |parts| > 1 {
      var rest := Join("\n\n", parts[1..]);
      assert parts[0] + "\n\n" + rest == parts[0] + "\n" + ("" + "\n" + rest);
      ContainsAcrossNewline(parts[0], "" + "\n" + rest, m);
      ContainsAcrossNewline("", rest, m);
      assert !Contains("", m);
      ContainsInParagraphs(parts[1..], m);
      if k :| 0 <= k < |parts| && Contains(parts[k], m) {
        assert k == 0 || parts[1..][k - 1] == parts[k];
      }
      if k :| 0 <= k < |parts[1..]| && Contains(parts[1..][k], m) {
        assert parts[k + 1] == parts[1..][k];
      }
    }
  }

  // ---------- stripping ----------

  /** Characters Python's str.strip() removes. */
  predicate IsSpace(c: char) {
    || '\t' <= c <= '\r' || c == ' ' || '\U{1c}' <= c <= '\U{1f}'
    || c == '\U{85}' || c == '\U{a0}' || c == '\U{1680}' || '\U{2000}' <= c <= '\U{200a}'
    || c == '\U{2028}' || c == '\U{2029}' || c == '\U{202f}' || c == '\U{205f}' || c == '\U{3000}'
  }

  /** In ASCII: tab to carriage return, the four separators and the blank. */
  lemma AsciiSpaces(c: char)
    requires c as int < 128
    ensures IsSpace(c) <==> 9 <= c as int <= 13 || 28 <= c as int <= 32
  {
  }

  predicate AllSpace(s: string) {
    forall i :: 0 <= i < |s| ==> IsSpace(s[i])
  }

  function LStrip(s: string): string {
    if s != "" && IsSpace(s[0]) then LStrip(s[1..]) else s
  }

  function RStrip(s: string): string {
    if s != "" && IsSpace(s[|s| - 1]) then RStrip(s[..|s| - 1]) else s
  }

  function Strip(s: string): string {
    RStrip(LStrip(s))
  }

  lemma {:induction false} RStripDropsSpace(s: string, w: string)
    requires s != "" && !IsSpace(s[|s| - 1]) && AllSpace(w)
    ensures RStrip(s + w) == s
  {
    if w == "" {
      assert s + w == s;
    } else {
      assert (s + w)[..|s + w| - 1] == s + w[..|w| - 1];
      RStripDropsSpace(s, w[..|w| - 1]);
    }
  }

  lemma {:induction false} StripSplits(s: string) returns (a: string, b: string)
    ensures s == a + Strip(s) + b && AllSpace(a) && AllSpace(b)
    ensures Strip(s) != "" ==> !IsSpace(Strip(s)[0]) && !IsSpace(Strip(s)[|Strip(s)| - 1])
  {
    a := LStripSplits(s);
    b := RStripSplits(LStrip(s));
  }

  lemma {:induction false} LStripSplits(s: string) returns (a: string)
    ensures s == a + LStrip(s) && AllSpace(a) && (LStrip(s) != "" ==> !IsSpace(LStrip(s)[0]))
  {
    if s != "" && IsSpace(s[0]) {
      var r := LStripSplits(s[1..]);
      a := [s[0]] + r;
    } else {
      a := "";
    }
  }

  lemma {:induction false} RStripSplits(s: string) returns (b: string)
    ensures s == RStrip(s) + b && AllSpace(b) && (RStrip(s) != "" ==> !IsSpace(RStrip(s)[|RStrip(s)| - 1]))
  {
    if s != "" && IsSpace(s[|s| - 1]) {
      var r := RStripSplits(s[..|s| - 1]);
      b := r + [s[|s| - 1]];
    } else {
      b := "";
    }
  }

  /** A marker that neither starts nor ends with white space survives stripping. */
  lemma StripKeepsMarker(s: string, m: string)
    requires m != "" && !IsSpace(m[0]) && !IsSpace(m[|m| - 1])
    ensures Contains(Strip(s), m) <==> Contains(s, m)
  {
    var a, b := StripSplits(s);
    var t := Strip(s);
    if Contains(t, m) {
      ContainsInside(a, t, b, m);
    }
    if Contains(s, m) {
      var i :| 0 <= i <= |s| && OccursAt(s, m, i);
      assert s[i] == s[i..i + |m|][0] && s[i + |m| - 1] == s[i..i + |m|][|m| - 1];
      assert i >= |a|;
      assert i + |m| <= |a| + |t|;
      assert t[i - |a|..i - |a| + |m|] == s[i..i + |m|];
      assert OccursAt(t, m, i - |a|);
    }
  }

  // ---------- letter case (ASCII) ----------

  function LowerChar(c: char): char {
    if 'A' <= c <= 'Z' then c - 'A' + 'a' else c
  }

  function UpperChar(c: char): char {
    if 'a' <= c <= 'z' then c - 'a' + 'A' else c
  }

  /** Two characters are one letter in different case, or the same. */
  predicate SameLetter(c: char, d: char) {
    c == d || ('a' <= c <= 'z' && c as int == d as int + 32) || ('a' <= d <= 'z' && d as int == c as int + 32)
  }

  /** Folding to one case keeps the letters and leaves none of the other case. */
  lemma CaseFolds(s: string)
    ensures |Lower(s)| == |Upper(s)| == |s|
    ensures forall i :: 0 <= i < |s| ==> SameLetter(Lower(s)[i], s[i]) && !('A' <= Lower(s)[i] <= 'Z')
    ensures forall i :: 0 <= i < |s| ==> SameLetter(Upper(s)[i], s[i]) && !('a' <= Upper(s)[i] <= 'z')
  {
  }

  function Lower(s: string): string {
    seq(|s|, i requires 0 <= i < |s| => LowerChar(s[i]))
  }

  function Upper(s: string): string {
    seq(|s|, i requires 0 <= i < |s| => UpperChar(s[i]))
  }

  // ---------- decimal numerals ----------

  function Digit(d: nat): char
    requires d < 10
  {
    '0' + d as char
  }

  predicate IsDigit(c: char) {
    '0' <= c <= '9'
  }

  function NatText(n: nat): string {
    if n < 10 then [Digit(n)] else NatText(n / 10) + [Digit(n % 10)]
  }

  function IntText(n: int): string {
    if n < 0 then "-" + NatText(-n) else NatText(n)
  }

  lemma {:induction false} NatTextDigits(n: nat)
    ensures NatText(n) != "" && forall i :: 0 <= i < |NatText(n)| ==> IsDigit(NatText(n)[i])
  {
    if n >= 10 {
      NatTextDigits(n / 10);
    }
  }

  lemma {:induction false} NatTextInjective(m: nat, n: nat)
    requires NatText(m) == NatText(n)
    ensures m == n
  {
    NatTextDigits(m / 10);
    NatTextDigits(n / 10);
    var s := NatText(m);
    if m < 10 || n < 10 {
      assert |s| == 1;
    } else {
      assert s[..|s| - 1] == NatText(m / 10) == NatText(n / 10);
      assert s[|s| - 1] == Digit(m % 10) == Digit(n % 10);
      NatTextInjective(m / 10, n / 10);
    }
  }

  /** The number a text of digits stands for. */
  function NatValue(s: string): int {
    if s == "" then 0 else 10 * NatValue(s[..|s| - 1]) + (s[|s| - 1] as int - '0' as int)
  }

  /** A numeral reads back as its number, and has no leading zero. */
  lemma {:induction false} NatTextReadsBack(n: nat)
    ensures NatValue(NatText(n)) == n
    ensures NatText(n) != "" && (n > 0 ==> NatText(n)[0] != '0')
  {
    if n < 10 {
      assert NatText(n)[..0] == "";
    } else {
      NatTextReadsBack(n / 10);
      assert NatText(n)[..|NatText(n)| - 1] == NatText(n / 10);
    }
  }

  lemma IntTextInjective(m: int, n: int)
    requires IntText(m) == IntText(n)
    ensures m == n
  {
    NatTextDigits(if m < 0 then -m else m);
    NatTextDigits(if n < 0 then -n else n);
    assert m < 0 <==> IntText(m)[0] == '-';
    assert n < 0 <==> IntText(n)[0] == '-';
    if m < 0 && n < 0 {
      assert IntText(m)[1..] == NatText(-m) && IntText(n)[1..] == NatText(-n);
      NatTextInjective(-m, -n);
    } else if m >= 0 && n >= 0 {
      NatTextInjective(m, n);
    }
  }

  lemma IntTextHasNoColon(n: int)
    ensures ':' !in IntText(n)
  {
    NatTextDigits(if n < 0 then -n else n);
  }
}
