/** The JSON grammar (RFC 8259, sections 2 to 7, with Python's three extra number names), and that `Loads` accepts
    exactly the texts of this grammar and reads each as what it means. */
module JsonGrammar {
  import opened Prelude
  import opened Json

  // ---------- syntax trees ----------

  /** A character of a string: written plainly, by a short escape, or by four hexadecimal digits. */
  datatype Char = Plain(c: char) | Short(c: char) | Hex(digits: string)

  datatype Doc =
    | Name(word: string)
    | Numeral(text: string)
    | Str(chars: seq<Char>)
    | EmptyArr(ws: string)
    | Arr(items: seq<Padded>)
    | EmptyObj(ws: string)
    | Obj(members: seq<Pair>)

  /** A value with the white space around it. */
  datatype Padded = Padded(before: string, doc: Doc, after: string)

  /** A member: the white space before the key, the key, the white space before the colon, and the value. */
  datatype Pair = Pair(before: string, key: seq<Char>, colon: string, value: Padded)

  // ---------- what the grammar allows ----------

  predicate AllWs(w: string) {
    forall c :: c in w ==> c in {' ', '\t', '\n', '\r'}
  }

  /** The short escapes and the characters they stand for. */
  const SHORT: map<char, nat> :=
    map['"' := 34, '\\' := 92, '/' := 47, 'b' := 8, 'f' := 12, 'n' := 10, 'r' := 13, 't' := 9]

  const HEX := "0123456789abcdef"
  const HEX_UPPER := "0123456789ABCDEF"

  predicate IsHex(c: char) {
    c in HEX || c in HEX_UPPER
  }

  predicate CharOk(c: Char) {
    match c
    case Plain(p) => p as int >= 32 && p != '"' && p != '\\'
    case Short(e) => e in SHORT
    case Hex(d) => |d| == 4 && IsHex(d[0]) && IsHex(d[1]) && IsHex(d[2]) && IsHex(d[3])
  }

  predicate CharsOk(cs: seq<Char>) {
    forall c :: c in cs ==> CharOk(c)
  }

  const NAMES: map<string, Value> :=
    map["true" := Bool(true), "false" := Bool(false), "null" := Null, "NaN" := Number("NaN"),
        "Infinity" := Number("Infinity"), "-Infinity" := Number("-Infinity")]

  predicate AllDigits(t: string) {
    t != "" && forall c :: c in t ==> '0' <= c <= '9'
  }

  predicate IsFraction(t: string) {
    t == "" || (t[0] == '.' && AllDigits(t[1..]))
  }

  predicate IsExponent(t: string) {
    t == "" || (t[0] in {'e', 'E'} && (AllDigits(t[1..]) || (|t| > 1 && t[1] in {'+', '-'} && AllDigits(t[2..]))))
  }

  /** number = [ minus ] int [ frac ] [ exp ]; an int does not begin with a zero unless it is one. */
  ghost predicate NumeralParts(t: string, sign: string, whole: string, fraction: string, exponent: string) {
    && t == sign + whole + fraction + exponent
    && (sign == "" || sign == "-")
    && AllDigits(whole) && (whole != "" && whole[0] == '0' ==> whole == "0")
    && IsFraction(fraction) && IsExponent(exponent)
  }

  ghost predicate IsNumeral(t: string) {
    exists sign, whole, fraction, exponent :: NumeralParts(t, sign, whole, fraction, exponent)
  }

  ghost predicate DocOk(d: Doc) {
    match d
    case Name(w) => w in NAMES
    case Numeral(t) => IsNumeral(t)
    case Str(cs) => CharsOk(cs)
    case EmptyArr(w) => AllWs(w)
    case Arr(items) => items != [] && forall i :: 0 <= i < |items| ==> PaddedOk(items[i])
    case EmptyObj(w) => AllWs(w)
    case Obj(members) => members != [] && forall i :: 0 <= i < |members| ==> PairOk(members[i])
  }

  ghost predicate PaddedOk(p: Padded) {
    AllWs(p.before) && DocOk(p.doc) && AllWs(p.after)
  }

  ghost predicate PairOk(p: Pair) {
    AllWs(p.before) && CharsOk(p.key) && AllWs(p.colon) && PaddedOk(p.value)
  }

  // ---------- the text of a tree ----------

  function CharText(c: Char): string {
    match c
    case Plain(p) => [p]
    case Short(e) => ['\\', e]
    case Hex(d) => "\\u" + d
  }

  function CharsText(cs: seq<Char>): string {
    if cs == [] then "" else CharText(cs[0]) + CharsText(cs[1..])
  }

  function StrText(cs: seq<Char>): string {
    "\"" + CharsText(cs) + "\""
  }

  function DocText(d: Doc): string {
    match d
    case Name(w) => w
    case Numeral(t) => t
    case Str(cs) => StrText(cs)
    case EmptyArr(w) => "[" + w + "]"
    case Arr(items) => "[" + ItemsText(items)
    case EmptyObj(w) => "{" + w + "}"
    case Obj(members) => "{" + MembersText(members)
  }

  function PaddedText(p: Padded): string {
    p.before + DocText(p.doc) + p.after
  }

  /** Items behind the opening bracket, closing bracket included. */
  function ItemsText(items: seq<Padded>): string {
    if items == [] then "]" else PaddedText(items[0]) + (if |items| == 1 then "]" else "," + ItemsText(items[1..]))
  }

  function PairText(p: Pair): string {
    p.before + StrText(p.key) + p.colon + ":" + PaddedText(p.value)
  }

  function MembersText(members: seq<Pair>): string {
    if members == [] then "}" else PairText(members[0]) + (if |members| == 1 then "}" else "," + MembersText(members[1..]))
  }

  // ---------- what a tree means ----------

  function HexDigit(c: char): nat
    requires IsHex(c)
  {
    if '0' <= c <= '9' then c as int - 48 else if c >= 'a' then c as int - 87 else c as int - 55
  }

  /** The code units of one character. */
  function CharMeans(c: Char): Units
    requires CharOk(c)
  {
    match c
    case Plain(p) =>
      var n := p as int;
      if n <= 0xFFFF then [n] else [0xD800 + (n - 0x10000) / 0x400, 0xDC00 + (n - 0x10000) % 0x400]
    case Short(e) => [SHORT[e]]
    case Hex(d) => [4096 * HexDigit(d[0]) + 256 * HexDigit(d[1]) + 16 * HexDigit(d[2]) + HexDigit(d[3])]
  }

  function CharsMean(cs: seq<Char>): Units
    requires CharsOk(cs)
  {
    if cs == [] then [] else CharMeans(cs[0]) + CharsMean(cs[1..])
  }

  ghost function DocMeans(d: Doc): Value
    requires DocOk(d)
  {
    match d
    case Name(w) => NAMES[w]
    case Numeral(t) => Number(t)
    case Str(cs) => String(CharsMean(cs))
    case EmptyArr(_) => Array([])
    case Arr(items) => Array(ItemsMean(items))
    case EmptyObj(_) => Object(map[])
    case Obj(members) => Object(MembersMean(map[], members))
  }

  ghost predicate AllPadded(items: seq<Padded>) {
    forall i :: 0 <= i < |items| ==> PaddedOk(items[i])
  }

  ghost predicate AllPairs(members: seq<Pair>) {
    forall i :: 0 <= i < |members| ==> PairOk(members[i])
  }

  ghost function ItemsMean(items: seq<Padded>): seq<Value>
    requires AllPadded(items)
  {
    if items == [] then [] else [DocMeans(items[0].doc)] + ItemsMean(items[1..])
  }

  /** Of two members with one key the later counts. */
  ghost function MembersMean(before: map<Units, Value>, members: seq<Pair>): map<Units, Value>
    requires AllPairs(members)
    decreases members
  {
    if members == [] then before
    else
      assert PairOk(members[0]) && PaddedOk(members[0].value);
      MembersMean(before[CharsMean(members[0].key) := DocMeans(members[0].value.doc)], members[1..])
  }

  // ---------- texts inside texts ----------

  ghost predicate Holds(s: string, i: int, t: string) {
    0 <= i && i + |t| <= |s| && s[i..i + |t|] == t
  }

  lemma HoldsSum(s: string, i: int, a: string, b: string)
    ensures Holds(s, i, a + b) <==> Holds(s, i, a) && Holds(s, i + |a|, b)
  {
    if 0 <= i && i + |a + b| <= |s| {
      var t := s[i..i + |a + b|];
      assert t[..|a|] == s[i..i + |a|] && t[|a|..] == s[i + |a|..i + |a| + |b|];
      assert (a + b)[..|a|] == a && (a + b)[|a|..] == b;
      assert t == t[..|a|] + t[|a|..];
    }
  }

  lemma HoldsAt(s: string, i: int, t: string, k: nat)
    requires Holds(s, i, t) && k < |t|
    ensures i + k < |s| && s[i + k] == t[k]
  {
    assert s[i..i + |t|][k] == s[i + k];
  }

  lemma HoldsCut(s: string, i: nat, j: nat)
    requires i <= j <= |s|
    ensures Holds(s, i, s[i..j]) && i + |s[i..j]| == j
  {
  }

  lemma {:induction false} WsRead(s: string, i: nat, w: string)
    requires Holds(s, i, w) && AllWs(w) && (i + |w| == |s| || !IsWs(s[i + |w|]))
    ensures SkipWs(s, i) == i + |w|
    decreases |w|
  {
    hide Holds;
    if w != "" {
      HoldsAt(s, i, w, 0);
      assert w == [w[0]] + w[1..] && w[0] in w;
      assert forall c :: c in w[1..] ==> c in w;
      HoldsSum(s, i, [w[0]], w[1..]);
      WsRead(s, i + 1, w[1..]);
    }
  }

  lemma WsFound(s: string, i: nat)
    requires i <= |s|
    ensures Holds(s, i, s[i..SkipWs(s, i)]) && AllWs(s[i..SkipWs(s, i)])
  {
    forall c | c in s[i..SkipWs(s, i)] ensures c in {' ', '\t', '\n', '\r'} {
      var k :| 0 <= k < SkipWs(s, i) - i && s[i..SkipWs(s, i)][k] == c;
      assert IsWs(s[i + k]);
    }
  }

  // ---------- strings ----------

  lemma EscapeIs(c: char)
    ensures SimpleEscape(c) == if c in SHORT then Some(SHORT[c]) else None
    ensures 'u' !in SHORT
  {
  }

  lemma HexIs(c: char)
    ensures HexValue(c) == if IsHex(c) then Some(HexDigit(c)) else None
  {
    assert c in HEX <==> '0' <= c <= '9' || 'a' <= c <= 'f' by { InHex(c); }
    assert c in HEX_UPPER <==> '0' <= c <= '9' || 'A' <= c <= 'F' by { InHexUpper(c); }
  }

  lemma InHex(c: char)
    ensures c in HEX <==> '0' <= c <= '9' || 'a' <= c <= 'f'
  {
    if '0' <= c <= '9' { assert HEX[c as int - 48] == c; }
    if 'a' <= c <= 'f' { assert HEX[c as int - 87] == c; }
  }

  lemma InHexUpper(c: char)
    ensures c in HEX_UPPER <==> '0' <= c <= '9' || 'A' <= c <= 'F'
  {
    if '0' <= c <= '9' { assert HEX_UPPER[c as int - 48] == c; }
    if 'A' <= c <= 'F' { assert HEX_UPPER[c as int - 55] == c; }
  }

  lemma CharRead(s: string, i: nat, c: Char, acc: Units)
    requires CharOk(c) && Holds(s, i, CharText(c))
    ensures i + |CharText(c)| <= |s|
    ensures ParseChars(s, i, acc) == ParseChars(s, i + |CharText(c)|, acc + CharMeans(c))
  {
    hide SimpleEscape, SHORT, HexValue, HexDigit, IsHex;
    HoldsAt(s, i, CharText(c), 0);
    match c {
      case Plain(p) =>
      case Short(e) =>
        HoldsAt(s, i, CharText(c), 1);
        EscapeIs(e);
      case Hex(d) =>
        HoldsAt(s, i, CharText(c), 1);
        HoldsAt(s, i, CharText(c), 2);
        HoldsAt(s, i, CharText(c), 3);
        HoldsAt(s, i, CharText(c), 4);
        HoldsAt(s, i, CharText(c), 5);
        HexIs(d[0]);
        HexIs(d[1]);
        HexIs(d[2]);
        HexIs(d[3]);
    }
  }

  lemma {:induction false} CharsRead(s: string, i: nat, cs: seq<Char>, acc: Units)
    requires CharsOk(cs) && Holds(s, i, CharsText(cs) + "\"")
    ensures ParseChars(s, i, acc) == Parsed(acc + CharsMean(cs), i + |CharsText(cs)| + 1)
    decreases |cs|
  {
    hide CharOk, CharText, CharMeans, Holds;
    if cs == [] {
      assert CharsText(cs) + "\"" == "\"" && acc + [] == acc;
      HoldsAt(s, i, "\"", 0);
    } else {
      assert cs[0] in cs;
      var t, rest := CharText(cs[0]), CharsText(cs[1..]);
      assert CharsText(cs) + "\"" == t + (rest + "\"");
      HoldsSum(s, i, t, rest + "\"");
      CharRead(s, i, cs[0], acc);
      CharsRead(s, i + |t|, cs[1..], acc + CharMeans(cs[0]));
      assert acc + CharMeans(cs[0]) + CharsMean(cs[1..]) == acc + CharsMean(cs);
    }
  }

  lemma CharFound(s: string, i: nat, acc: Units) returns (c: Char)
    requires i < |s| && s[i] != '"' && ParseChars(s, i, acc).Parsed?
    ensures CharOk(c) && Holds(s, i, CharText(c))
    ensures i + |CharText(c)| <= |s| && |CharText(c)| > 0
    ensures ParseChars(s, i, acc) == ParseChars(s, i + |CharText(c)|, acc + CharMeans(c))
  {
    hide SimpleEscape, SHORT, HexValue, HexDigit, IsHex, Hex4;
    if s[i] != '\\' {
      c := Plain(s[i]);
    } else if s[i + 1] != 'u' {
      c := Short(s[i + 1]);
      EscapeIs(s[i + 1]);
      assert s[i..i + 2] == [s[i], s[i + 1]];
    } else {
      c := HexFound(s, i);
    }
  }

  lemma HexFound(s: string, i: nat) returns (c: Char)
    requires i + 2 <= |s| && s[i] == '\\' && s[i + 1] == 'u' && Hex4(s, i + 2).Some?
    ensures CharOk(c) && Holds(s, i, CharText(c)) && |CharText(c)| == 6 && CharMeans(c) == [Hex4(s, i + 2).value]
  {
    hide HexValue, HexDigit, IsHex;
    c := Hex(s[i + 2..i + 6]);
    HexIs(s[i + 2]);
    HexIs(s[i + 3]);
    HexIs(s[i + 4]);
    HexIs(s[i + 5]);
    assert s[i..i + 6] == "\\u" + s[i + 2..i + 6];
  }

  lemma {:induction false} CharsFound(s: string, i: nat, acc: Units) returns (cs: seq<Char>)
    requires i <= |s| && ParseChars(s, i, acc).Parsed?
    ensures CharsOk(cs) && Holds(s, i, CharsText(cs) + "\"")
    ensures ParseChars(s, i, acc) == Parsed(acc + CharsMean(cs), i + |CharsText(cs)| + 1)
    decreases |s| - i
  {
    hide CharOk, CharText, CharMeans, Holds;
    if s[i] == '"' {
      cs := [];
      HoldsOne(s, i, '"');
      assert CharsText(cs) + "\"" == "\"" && acc + [] == acc;
    } else {
      var c := CharFound(s, i, acc);
      var rest := CharsFound(s, i + |CharText(c)|, acc + CharMeans(c));
      cs := [c] + rest;
      assert cs[1..] == rest;
      assert CharsText(cs) + "\"" == CharText(c) + (CharsText(rest) + "\"");
      HoldsSum(s, i, CharText(c), CharsText(rest) + "\"");
      assert acc + CharMeans(c) + CharsMean(rest) == acc + CharsMean(cs);
    }
  }

  // ---------- numbers ----------

  lemma {:induction false} DigitsRun(t: string, i: nat, j: nat)
    requires i <= j <= |t| && (forall k :: i <= k < j ==> '0' <= t[k] <= '9') && (j == |t| || !('0' <= t[j] <= '9'))
    ensures DigitsEnd(t, i) == j
    decreases j - i
  {
    if i < j { DigitsRun(t, i + 1, j); }
  }

  lemma {:induction false} DigitsStop(t: string, i: nat)
    requires i <= |t|
    ensures var j := DigitsEnd(t, i); forall k :: i <= k < j ==> '0' <= t[k] <= '9'
    decreases |t| - i
  {
    if i < |t| && IsDigit(t[i]) { DigitsStop(t, i + 1); }
  }

  lemma DigitsBetween(t: string, i: nat, a: string, b: string, c: string)
    requires t == a + b + c && |a| == i && AllDigits(b)
    ensures forall k :: i <= k < i + |b| ==> '0' <= t[k] <= '9'
  {
    forall k | i <= k < i + |b| ensures '0' <= t[k] <= '9' {
      assert t[k] == b[k - i] && b[k - i] in b;
    }
  }

  lemma CutDigits(t: string, i: nat, j: nat)
    requires i < j <= |t| && forall k :: i <= k < j ==> '0' <= t[k] <= '9'
    ensures AllDigits(t[i..j])
  {
    forall c | c in t[i..j] ensures '0' <= c <= '9' {
      var k :| 0 <= k < j - i && t[i..j][k] == c;
      assert t[i + k] == c;
    }
  }

  /** The digits of an exponent reach to the end. */
  lemma ExponentDigits(t: string, m: nat)
    requires m <= |t| && AllDigits(t[m..])
    ensures m < |t| && '0' <= t[m] <= '9' && DigitsEnd(t, m) == |t|
  {
    hide AllDigits, DigitsEnd;
    assert t == t[..m] + t[m..] + "";
    WholeDigits(t[m..]);
    DigitsBetween(t, m, t[..m], t[m..], "");
    DigitsRun(t, m, |t|);
  }

  /** What comes behind the fraction, at `k`. */
  ghost predicate EndsAfter(t: string, k: nat) {
    var hasExp := At(t, k, 'e') || At(t, k, 'E');
    var m := if hasExp && (At(t, k + 1, '+') || At(t, k + 1, '-')) then k + 2 else k + 1;
    if hasExp then m < |t| && DigitsEnd(t, m) == |t| else k == |t|
  }

  lemma ExponentWellFormed(t: string, k: nat)
    requires k <= |t| && IsExponent(t[k..])
    ensures EndsAfter(t, k)
  {
    hide AllDigits, DigitsEnd;
    var x := t[k..];
    if x != "" {
      assert t[k] == x[0];
      if AllDigits(x[1..]) {
        assert x[1..] == t[k + 1..];
        ExponentDigits(t, k + 1);
      } else {
        assert x[2..] == t[k + 2..] && x[1] == t[k + 1];
        ExponentDigits(t, k + 2);
      }
    }
  }

  lemma FractionRun(t: string, j: nat, k: nat)
    requires j <= k <= |t| && IsFraction(t[j..k]) && (k < |t| ==> t[k] == 'e' || t[k] == 'E')
    ensures At(t, j, '.') <==> k > j
    ensures k > j ==> k > j + 1 && DigitsEnd(t, j + 1) == k
  {
    hide AllDigits, DigitsEnd;
    if k > j {
      var x := t[j..k];
      assert x[0] == t[j] && x[1..] == t[j + 1..k];
      assert t == t[..j + 1] + t[j + 1..k] + t[k..];
      WholeDigits(t[j + 1..k]);
      DigitsBetween(t, j + 1, t[..j + 1], t[j + 1..k], t[k..]);
      DigitsRun(t, j + 1, k);
    }
  }

  lemma WholeRun(t: string, i: nat, j: nat)
    requires i <= j <= |t| && AllDigits(t[i..j]) && (i < j && t[i..j][0] == '0' ==> t[i..j] == "0")
    requires j < |t| ==> !('0' <= t[j] <= '9')
    ensures j > i && t[i] != '-' && (if At(t, i, '0') then i + 1 else DigitsEnd(t, i)) == j
  {
    hide AllDigits, DigitsEnd;
    var x := t[i..j];
    WholeDigits(x);
    assert x[0] == t[i];
    assert t == t[..i] + x + t[j..];
    DigitsBetween(t, i, t[..i], x, t[j..]);
    DigitsRun(t, i, j);
  }

  lemma NumeralIsWellFormed(t: string, i: nat, j: nat, k: nat)
    requires i <= j <= k <= |t| && (t[..i] == "" || t[..i] == "-")
    requires AllDigits(t[i..j]) && (i < j && t[i..j][0] == '0' ==> t[i..j] == "0") && IsFraction(t[j..k]) && IsExponent(t[k..])
    ensures WellFormedNumber(t)
  {
    hide IsExponent, AllDigits, DigitsEnd;
    ExponentStart(t, k);
    FractionRun(t, j, k);
    FractionStart(t, j, k);
    WholeRun(t, i, j);
    assert At(t, 0, '-') <==> i == 1 by { assert i == 1 ==> t[..i][0] == t[0]; }
    ExponentWellFormed(t, k);
  }

  lemma FractionStart(t: string, j: nat, k: nat)
    requires j <= k <= |t| && IsFraction(t[j..k])
    ensures k > j ==> t[j] == '.'
  {
  }

  lemma ExponentStart(t: string, k: nat)
    requires k <= |t| && IsExponent(t[k..])
    ensures k < |t| ==> t[k] == 'e' || t[k] == 'E'
  {
  }

  lemma WholeDigits(whole: string)
    requires AllDigits(whole)
    ensures whole != "" && '0' <= whole[0] <= '9'
  {
    assert whole[0] in whole;
  }

  lemma WellFormedIsNumeral(t: string)
    requires WellFormedNumber(t)
    ensures IsNumeral(t)
  {
    hide AllDigits, IsExponent, IsFraction, DigitsEnd, NumeralParts;
    var i := if At(t, 0, '-') then 1 else 0;
    var j := if At(t, i, '0') then i + 1 else DigitsEnd(t, i);
    var k := if At(t, j, '.') then DigitsEnd(t, j + 1) else j;
    PartsFound(t, i, j, k);
  }

  lemma PartsFound(t: string, i: nat, j: nat, k: nat)
    requires i <= |t| && (if At(t, 0, '-') then i == 1 else i == 0)
    requires j == (if At(t, i, '0') then i + 1 else DigitsEnd(t, i)) && j > i
    requires k == (if At(t, j, '.') then DigitsEnd(t, j + 1) else j) && (At(t, j, '.') ==> k > j + 1)
    requires EndsAfter(t, k)
    ensures NumeralParts(t, t[..i], t[i..j], t[j..k], t[k..])
  {
    hide AllDigits, IsExponent, IsFraction, DigitsEnd, EndsAfter;
    WholeFound(t, i);
    FractionFound(t, j);
    ExponentFound(t, k);
    assert t == t[..i] + t[i..j] + t[j..k] + t[k..];
    assert i == 1 ==> t[..i] == "-";
  }

  lemma WholeFound(t: string, i: nat)
    requires i <= |t|
    requires (if At(t, i, '0') then i + 1 else DigitsEnd(t, i)) > i
    ensures var x := t[i..if At(t, i, '0') then i + 1 else DigitsEnd(t, i)];
            AllDigits(x) && (x[0] == '0' ==> x == "0")
  {
    hide AllDigits, DigitsEnd;
    DigitsStop(t, i);
    CutDigits(t, i, if At(t, i, '0') then i + 1 else DigitsEnd(t, i));
  }

  lemma FractionFound(t: string, j: nat)
    requires j <= |t| && (At(t, j, '.') ==> DigitsEnd(t, j + 1) > j + 1)
    ensures IsFraction(t[j..if At(t, j, '.') then DigitsEnd(t, j + 1) else j])
  {
    hide AllDigits, DigitsEnd;
    if At(t, j, '.') {
      var k := DigitsEnd(t, j + 1);
      DigitsStop(t, j + 1);
      CutDigits(t, j + 1, k);
      assert t[j..k][0] == '.' && t[j..k][1..] == t[j + 1..k];
    }
  }

  lemma ExponentFound(t: string, k: nat)
    requires k <= |t| && EndsAfter(t, k)
    ensures IsExponent(t[k..])
  {
    hide AllDigits, DigitsEnd;
    var x := t[k..];
    if k < |t| {
      var m := if At(t, k + 1, '+') || At(t, k + 1, '-') then k + 2 else k + 1;
      DigitsStop(t, m);
      CutDigits(t, m, |t|);
      assert t[m..|t|] == x[m - k..];
      assert x[0] == t[k] && (m == k + 2 ==> x[1] == t[k + 1]);
    }
  }

  /** The scan of a number accepts exactly the grammar's numbers. */
  lemma WellFormedIff(t: string)
    ensures WellFormedNumber(t) <==> IsNumeral(t)
  {
    hide WellFormedNumber, AllDigits, IsFraction, IsExponent;
    if IsNumeral(t) {
      var sign, whole, fraction, exponent :| NumeralParts(t, sign, whole, fraction, exponent);
      var i, j, k := |sign|, |sign + whole|, |sign + whole + fraction|;
      assert t[..i] == sign && t[i..j] == whole && t[j..k] == fraction && t[k..] == exponent;
      NumeralIsWellFormed(t, i, j, k);
    }
    if WellFormedNumber(t) { WellFormedIsNumeral(t); }
  }

  predicate NumeralChar(c: char) {
    '0' <= c <= '9' || c in {'-', '+', '.', 'e', 'E'}
  }

  lemma DigitsAreChars(t: string)
    requires AllDigits(t)
    ensures forall c :: c in t ==> NumeralChar(c)
  {
  }

  lemma TailChars(x: string)
    requires IsFraction(x) || IsExponent(x)
    ensures forall c :: c in x ==> NumeralChar(c)
  {
    hide AllDigits, NumeralChar;
    assert NumeralChar('.') && NumeralChar('e') && NumeralChar('E') && NumeralChar('+') && NumeralChar('-') by { SomeChars(); }
    if x != "" {
      assert x == [x[0]] + x[1..];
      if AllDigits(x[1..]) {
        DigitsAreChars(x[1..]);
      } else {
        DigitsAreChars(x[2..]);
        assert x == [x[0]] + [x[1]] + x[2..];
      }
    }
  }

  lemma SomeChars()
    ensures NumeralChar('.') && NumeralChar('e') && NumeralChar('E') && NumeralChar('+') && NumeralChar('-')
  {
  }

  /** A number is made of number characters, and begins with a digit, perhaps behind a minus. */
  lemma NumeralShape(t: string)
    requires IsNumeral(t)
    ensures t != "" && forall c :: c in t ==> NumeralChar(c)
    ensures '0' <= t[0] <= '9' || (t[0] == '-' && |t| > 1 && '0' <= t[1] <= '9')
  {
    hide AllDigits, IsFraction, IsExponent, NumeralChar;
    var sign, whole, fraction, exponent :| NumeralParts(t, sign, whole, fraction, exponent);
    SomeChars();
    WholeDigits(whole);
    DigitsAreChars(whole);
    TailChars(fraction);
    TailChars(exponent);
    assert t[|sign|] == whole[0];
    assert sign != "" ==> t[0] == '-';
  }

  lemma {:induction false} NumberEndRun(s: string, i: nat, j: nat)
    requires i <= j <= |s| && (forall k :: i <= k < j ==> NumberChar(s[k])) && (j < |s| ==> !NumberChar(s[j]))
    ensures NumberEnd(s, i) == j
    decreases j - i
  {
    if i < j { NumberEndRun(s, i + 1, j); }
  }

  lemma NumberRead(s: string, i: nat, t: string)
    requires IsNumeral(t) && Holds(s, i, t) && (i + |t| < |s| ==> !NumberChar(s[i + |t|]))
    ensures t != "" && i < |s| && ParseScalar(s, i) == Parsed(Number(t), i + |t|)
  {
    hide IsNumeral, WellFormedNumber, ParseChars, NumberEnd;
    NumeralShape(t);
    forall k | i <= k < i + |t| ensures NumberChar(s[k]) {
      HoldsAt(s, i, t, k - i);
      assert t[k - i] in t;
    }
    NumberEndRun(s, i, i + |t|);
    WellFormedIff(t);
    HoldsAt(s, i, t, 0);
    if |t| > 1 { HoldsAt(s, i, t, 1); }
    assert ParseNumber(s, i) == Parsed(Number(t), i + |t|);
  }

  lemma NameRead(s: string, i: nat, w: string)
    requires w in NAMES && Holds(s, i, w)
    ensures w != "" && i < |s| && ParseScalar(s, i) == Parsed(NAMES[w], i + |w|)
  {
    hide ParseNumber, ParseChars;
    NameFirst(w);
    HoldsAt(s, i, w, 0);
    HoldsAt(s, i, w, 1);
    assert WordAt(s, i, w);
  }

  lemma NameFirst(w: string)
    requires w in NAMES
    ensures |w| > 1 && w[0] in {'t', 'f', 'n', 'N', 'I', '-'} && (w[0] == '-' <==> w == "-Infinity")
    ensures (w[0] == 't' <==> w == "true") && (w[0] == 'f' <==> w == "false") && (w[0] == 'n' <==> w == "null")
    ensures (w[0] == 'N' <==> w == "NaN") && (w[0] == 'I' <==> w == "Infinity") && (w[0] == '-' ==> w[1] == 'I')
  {
  }

  lemma ScalarFound(s: string, i: nat) returns (d: Doc)
    requires i < |s| && ParseScalar(s, i).Parsed?
    ensures (d.Name? || d.Numeral? || d.Str?) && DocOk(d) && Holds(s, i, DocText(d))
    ensures ParseScalar(s, i) == Parsed(DocMeans(d), i + |DocText(d)|)
  {
    hide ParseChars, IsNumeral, WellFormedNumber, NumberEnd, CharsOk, CharsText, CharsMean;
    if s[i] == '"' {
      var cs := CharsFound(s, i + 1, []);
      d := Str(cs);
      assert DocText(d) == "\"" + (CharsText(cs) + "\"");
      assert s[i..i + 1] == "\"";
      HoldsSum(s, i, "\"", CharsText(cs) + "\"");
      assert [] + CharsMean(cs) == CharsMean(cs);
    } else if s[i] == 't' { d := Name("true"); }
    else if s[i] == 'f' { d := Name("false"); }
    else if s[i] == 'n' { d := Name("null"); }
    else if s[i] == 'N' { d := Name("NaN"); }
    else if s[i] == 'I' { d := Name("Infinity"); }
    else if s[i] == '-' && At(s, i + 1, 'I') { d := Name("-Infinity"); }
    else {
      var j := NumberEnd(s, i);
      WellFormedIff(s[i..j]);
      d := Numeral(s[i..j]);
    }
  }

  // ---------- every text of the grammar is read ----------

  /** A number must not run on into what follows. */
  predicate Delimited(d: Doc, s: string, j: int) {
    d.Numeral? && 0 <= j < |s| ==> !NumberChar(s[j])
  }

  /** The first character of a value's text. */
  lemma DocStart(d: Doc)
    requires DocOk(d)
    ensures var t := DocText(d);
            && t != "" && !IsWs(t[0]) && t[0] != ']' && t[0] != '}' && t[0] != BOM
            && ((d.Arr? || d.EmptyArr?) <==> t[0] == '[') && ((d.Obj? || d.EmptyObj?) <==> t[0] == '{')
  {
    hide IsNumeral, CharsText, ItemsText, MembersText;
    match d
    case Name(w) => NameFirst(w);
    case Numeral(t) => NumeralShape(t);
    case _ =>
  }

  lemma ScalarRead(s: string, i: nat, d: Doc)
    requires DocOk(d) && (d.Name? || d.Numeral? || d.Str?)
    requires Holds(s, i, DocText(d)) && Delimited(d, s, i + |DocText(d)|)
    ensures ParseValue(s, i) == Parsed(DocMeans(d), i + |DocText(d)|)
  {
    hide ParseScalar, IsNumeral, CharsOk, CharsText, CharsMean, NAMES, ParseChars;
    DocStart(d);
    HoldsAt(s, i, DocText(d), 0);
    ScalarParts(s, i);
    match d
    case Name(w) => NameRead(s, i, w);
    case Numeral(t) => NumberRead(s, i, t);
    case Str(cs) => StrRead(s, i, cs);
  }

  lemma StrRead(s: string, i: nat, cs: seq<Char>)
    requires CharsOk(cs) && Holds(s, i, StrText(cs))
    ensures i < |s| && ParseChars(s, i + 1, []) == Parsed(CharsMean(cs), i + |StrText(cs)|)
    ensures ParseScalar(s, i) == Parsed(String(CharsMean(cs)), i + |StrText(cs)|)
  {
    hide CharsOk, CharsText, CharsMean, ParseChars;
    assert StrText(cs) == "\"" + (CharsText(cs) + "\"");
    HoldsSum(s, i, "\"", CharsText(cs) + "\"");
    HoldsAt(s, i, "\"", 0);
    CharsRead(s, i + 1, cs, []);
    assert [] + CharsMean(cs) == CharsMean(cs);
  }

  predicate Closes(tail: string) {
    tail != "" && tail[0] in {',', ']', '}'}
  }

  lemma NotInNumbers(c: char)
    ensures IsWs(c) || c in {',', ']', '}'} ==> !NumberChar(c)
    ensures c in {',', ']', '}', ':', '"'} ==> !IsWs(c)
  {
  }

  lemma WsFirst(w: string)
    requires AllWs(w) && w != ""
    ensures IsWs(w[0])
  {
    assert w[0] in w;
  }

  /** A value with white space around it, and something behind that closes it. */
  lemma {:induction false} PaddedRead(s: string, i: nat, p: Padded, tail: string)
    requires PaddedOk(p) && Holds(s, i, PaddedText(p) + tail) && Closes(tail)
    ensures var b := i + |p.before|;
            var e := b + |DocText(p.doc)|;
            var n := e + |p.after|;
            && b < e && n < |s| && s[b] == DocText(p.doc)[0] && SkipWs(s, i) == b
            && ParseValue(s, b) == Parsed(DocMeans(p.doc), e) && Behind(s, e) == (n, Some(tail[0])) && Holds(s, n, tail)
    decreases p
  {
    hide ParseValue, SkipWs, DocText, AllWs, DocMeans, DocOk, NumberChar, Holds, PaddedText;
    var t := DocText(p.doc);
    var b := i + |p.before|;
    var e := b + |t|;
    PaddedParts(p);
    PaddedPlaces(s, i, p, tail);
    DocStart(p.doc);
    HoldsAt(s, b, t, 0);
    WsRead(s, i, p.before);
    NotInNumbers(tail[0]);
    WsRead(s, e, p.after);
    DocRead(s, b, p.doc);
  }

  /** Where the parts of a padded value stand, and what stands behind the value. */
  lemma PaddedPlaces(s: string, i: nat, p: Padded, tail: string)
    requires AllWs(p.after) && Holds(s, i, PaddedText(p) + tail) && Closes(tail)
    ensures var b := i + |p.before|;
            var e := b + |DocText(p.doc)|;
            var n := e + |p.after|;
            && Holds(s, i, p.before) && Holds(s, b, DocText(p.doc)) && Holds(s, e, p.after) && Holds(s, n, tail)
            && e < |s| && !NumberChar(s[e]) && n < |s| && s[n] == tail[0]
  {
    hide DocText, AllWs, NumberChar, Holds;
    var t := DocText(p.doc);
    var b := i + |p.before|;
    var e := b + |t|;
    assert PaddedText(p) + tail == p.before + (t + (p.after + tail));
    HoldsSum(s, i, p.before, t + (p.after + tail));
    HoldsSum(s, b, t, p.after + tail);
    HoldsSum(s, e, p.after, tail);
    HoldsAt(s, e, p.after + tail, 0);
    HoldsAt(s, e + |p.after|, tail, 0);
    NotInNumbers(tail[0]);
    if p.after != "" {
      WsFirst(p.after);
      NotInNumbers(p.after[0]);
    }
  }

  lemma {:induction false} ItemsRead(s: string, i: nat, items: seq<Padded>, acc: seq<Value>)
    requires AllPadded(items) && items != [] && Holds(s, i, ItemsText(items))
    ensures var b := i + |items[0].before|;
            && b < |s| && SkipWs(s, i) == b && s[b] != ']'
            && ParseItems(s, b, acc) == Parsed(Array(acc + ItemsMean(items)), i + |ItemsText(items)|)
    decreases items
  {
    hide ParseValue, SkipWs, ParseItems, PaddedText, PaddedOk, Behind, DocText, DocMeans, Holds, DocOk, AllWs, IsWs;
    var p, last := items[0], |items| == 1;
    var tail := if last then "]" else "," + ItemsText(items[1..]);
    assert ItemsText(items) == PaddedText(p) + tail;
    PaddedRead(s, i, p, tail);
    PaddedParts(p);
    DocStart(p.doc);
    var b := i + |p.before|;
    var e := b + |DocText(p.doc)|;
    var n := e + |p.after|;
    ItemsStep(s, b, acc, DocMeans(p.doc), e);
    if last {
      assert items[1..] == [];
      assert ItemsMean(items) == [DocMeans(p.doc)];
    } else {
      HoldsSum(s, n, ",", ItemsText(items[1..]));
      ItemsRead(s, n + 1, items[1..], acc + [DocMeans(p.doc)]);
      assert acc + [DocMeans(p.doc)] + ItemsMean(items[1..]) == acc + ItemsMean(items);
    }
  }

  lemma PaddedParts(p: Padded)
    ensures PaddedOk(p) ==> DocOk(p.doc) && AllWs(p.before) && AllWs(p.after)
    ensures |PaddedText(p)| == |p.before| + |DocText(p.doc)| + |p.after|
  {
  }

  lemma {:induction false} PairRead(s: string, i: nat, p: Pair, tail: string)
    requires PairOk(p) && Holds(s, i, PairText(p) + tail) && Closes(tail)
    ensures DocOk(p.value.doc)
    ensures var b := i + |p.before|;
            var n := i + |PairText(p)|;
            var e := n - |p.value.after|;
            && b < e <= n < |s| && s[b] == '"' && SkipWs(s, i) == b
            && ParseMember(s, b) == Parsed(Member(CharsMean(p.key), DocMeans(p.value.doc)), e)
            && Behind(s, e) == (n, Some(tail[0])) && Holds(s, n, tail)
    decreases p
  {
    hide ParseValue, SkipWs, ParseChars, PaddedText, PaddedOk, Behind, DocText, DocMeans, CharsOk, CharsMean, StrText,
         AllWs, Holds, DocOk, PairText;
    var b := i + |p.before|;
    var q := b + |StrText(p.key)|;
    var k := q + |p.colon|;
    PairPlaces(s, i, p, tail);
    NotInNumbers('"');
    NotInNumbers(':');
    WsRead(s, i, p.before);
    StrRead(s, b, p.key);
    WsRead(s, q, p.colon);
    PaddedParts(p.value);
    PaddedRead(s, k + 1, p.value, tail);
    MemberParts(s, b, q, k, i + |PairText(p)| - |p.value.after|, CharsMean(p.key), DocMeans(p.value.doc));
  }

  /** Where the parts of a member stand. */
  lemma PairPlaces(s: string, i: nat, p: Pair, tail: string)
    requires Holds(s, i, PairText(p) + tail) && Closes(tail)
    ensures var b := i + |p.before|;
            var q := b + |StrText(p.key)|;
            var k := q + |p.colon|;
            && Holds(s, i, p.before) && Holds(s, b, StrText(p.key)) && Holds(s, q, p.colon)
            && Holds(s, k + 1, PaddedText(p.value) + tail) && i + |PairText(p)| == k + 1 + |PaddedText(p.value)|
            && k < |s| && s[b] == '"' && s[k] == ':'
  {
    hide PaddedText, Holds, CharsText;
    var b := i + |p.before|;
    var q := b + |StrText(p.key)|;
    var k := q + |p.colon|;
    var behind := ":" + (PaddedText(p.value) + tail);
    assert PairText(p) + tail == p.before + (StrText(p.key) + (p.colon + behind));
    HoldsSum(s, i, p.before, StrText(p.key) + (p.colon + behind));
    HoldsSum(s, b, StrText(p.key), p.colon + behind);
    HoldsSum(s, q, p.colon, behind);
    HoldsSum(s, k, ":", PaddedText(p.value) + tail);
    HoldsAt(s, b, StrText(p.key), 0);
    HoldsAt(s, k, behind, 0);
  }

  lemma MemberParts(s: string, b: nat, q: nat, k: nat, e: nat, key: Units, v: Value)
    requires b < q <= k < |s| && s[b] == '"' && s[k] == ':'
    requires ParseChars(s, b + 1, []) == Parsed(key, q) && SkipWs(s, q) == k
    requires ParseValue(s, SkipWs(s, k + 1)) == Parsed(v, e)
    ensures ParseMember(s, b) == Parsed(Member(key, v), e)
  {
    hide ParseChars, SkipWs, ParseValue;
  }

  lemma {:induction false} MembersRead(s: string, i: nat, members: seq<Pair>, acc: map<Units, Value>)
    requires AllPairs(members) && members != [] && Holds(s, i, MembersText(members))
    ensures var b := i + |members[0].before|;
            && b < |s| && SkipWs(s, i) == b && s[b] != '}'
            && ParseMembers(s, b, acc) == Parsed(Object(MembersMean(acc, members)), i + |MembersText(members)|)
    decreases members
  {
    hide ParseMember, SkipWs, ParseMembers, PairText, PairOk, Behind, DocMeans, CharsMean, Holds, DocOk, CharsOk;
    var p, last := members[0], |members| == 1;
    var tail := if last then "}" else "," + MembersText(members[1..]);
    assert MembersText(members) == PairText(p) + tail;
    PairRead(s, i, p, tail);
    var b := i + |p.before|;
    var n := i + |PairText(p)|;
    var e := n - |p.value.after|;
    assert CharsOk(p.key) by { PairParts(p); }
    var m := Member(CharsMean(p.key), DocMeans(p.value.doc));
    MembersStep(s, b, acc, m, e);
    if last {
      assert members[1..] == [];
      assert MembersMean(acc, members) == acc[m.key := m.value];
    } else {
      HoldsSum(s, n, ",", MembersText(members[1..]));
      MembersRead(s, n + 1, members[1..], acc[m.key := m.value]);
    }
  }

  lemma PairParts(p: Pair)
    ensures PairOk(p) ==> CharsOk(p.key) && PaddedOk(p.value)
  {
  }

  /** Wherever the text of a value stands, the parser reads it as what it means. */
  lemma {:induction false} DocRead(s: string, i: nat, d: Doc)
    requires DocOk(d) && Holds(s, i, DocText(d)) && Delimited(d, s, i + |DocText(d)|)
    ensures ParseValue(s, i) == Parsed(DocMeans(d), i + |DocText(d)|)
    decreases d
  {
    hide ParseValue, SkipWs, ParseItems, ParseMembers, ItemsText, MembersText, IsNumeral, CharsOk, Holds, AllWs, IsWs,
         PaddedOk, PairOk, ItemsMean, MembersMean, DocMeans;
    DocStart(d);
    DocParts(d);
    HoldsAt(s, i, DocText(d), 0);
    match d
    case EmptyArr(w) =>
      NotInNumbers(']');
      EmptyRead(s, i, "[", w, "]");
      ArrayParts(s, i);
    case EmptyObj(w) =>
      NotInNumbers('}');
      EmptyRead(s, i, "{", w, "}");
      ObjectParts(s, i);
    case Arr(items) =>
      HoldsSum(s, i, "[", ItemsText(items));
      ItemsRead(s, i + 1, items, []);
      ArrayParts(s, i);
      assert [] + ItemsMean(items) == ItemsMean(items);
    case Obj(members) =>
      HoldsSum(s, i, "{", MembersText(members));
      MembersRead(s, i + 1, members, map[]);
      ObjectParts(s, i);
    case _ => ScalarRead(s, i, d);
  }

  lemma DocParts(d: Doc)
    requires DocOk(d)
    ensures d.Arr? ==> d.items != [] && AllPadded(d.items) && DocMeans(d) == Array(ItemsMean(d.items))
    ensures d.Obj? ==> d.members != [] && AllPairs(d.members) && DocMeans(d) == Object(MembersMean(map[], d.members))
    ensures d.EmptyArr? ==> DocMeans(d) == Array([])
    ensures d.EmptyObj? ==> DocMeans(d) == Object(map[])
  {
  }

  lemma EmptyRead(s: string, i: nat, open: string, w: string, close: string)
    requires |open| == |close| == 1 && !IsWs(close[0]) && AllWs(w) && Holds(s, i, open + w + close)
    ensures SkipWs(s, i + 1) == i + 1 + |w| && At(s, i + 1 + |w|, close[0])
  {
    assert open + w + close == open + (w + close);
    HoldsSum(s, i, open, w + close);
    HoldsSum(s, i + 1, w, close);
    HoldsAt(s, i + 1 + |w|, close, 0);
    WsRead(s, i + 1, w);
  }

  // ---------- whatever is read is a text of the grammar ----------

  function WithBefore(items: seq<Padded>, w: string): seq<Padded>
    requires items != []
  {
    [items[0].(before := w)] + items[1..]
  }

  lemma ItemsTextIs(items: seq<Padded>)
    requires items != []
    ensures ItemsText(items) == PaddedText(items[0]) + if |items| == 1 then "]" else "," + ItemsText(items[1..])
  {
  }

  lemma ItemsBefore(items: seq<Padded>, w: string)
    requires items != [] && items[0].before == "" && AllPadded(items) && AllWs(w)
    ensures AllPadded(WithBefore(items, w)) && ItemsMean(WithBefore(items, w)) == ItemsMean(items)
    ensures ItemsText(WithBefore(items, w)) == w + ItemsText(items)
  {
    hide DocText, DocMeans, DocOk, AllWs;
    var more := WithBefore(items, w);
    assert more[1..] == items[1..];
    assert PaddedOk(items[0]) && PaddedOk(more[0]);
    forall i | 0 <= i < |more| ensures PaddedOk(more[i]) { if i > 0 { assert more[i] == items[i]; } }
    assert PaddedText(more[0]) == w + PaddedText(items[0]);
    hide PaddedText, PaddedOk, WithBefore;
    ItemsTextIs(items);
    ItemsTextIs(more);
  }

  function WithBeforeKey(members: seq<Pair>, w: string): seq<Pair>
    requires members != []
  {
    [members[0].(before := w)] + members[1..]
  }

  lemma MembersBefore(members: seq<Pair>, w: string, acc: map<Units, Value>)
    requires members != [] && members[0].before == "" && AllPairs(members) && AllWs(w)
    ensures AllPairs(WithBeforeKey(members, w))
    ensures MembersMean(acc, WithBeforeKey(members, w)) == MembersMean(acc, members)
    ensures MembersText(WithBeforeKey(members, w)) == w + MembersText(members)
  {
    hide PaddedText, DocMeans, PaddedOk, AllWs, CharsOk, CharsMean, StrText;
    var more := WithBeforeKey(members, w);
    assert more[1..] == members[1..];
    assert PairOk(members[0]) && PairOk(more[0]);
    assert PairText(more[0]) == w + PairText(members[0]);
  }

  /** One item as it was read: the value, the white space behind it and the character behind that. */
  lemma OneItem(s: string, i: nat, d: Doc, n: nat, close: string)
    requires DocOk(d) && i <= |s| && Holds(s, i, DocText(d)) && i + |DocText(d)| <= n <= |s|
    requires AllWs(s[i + |DocText(d)|..n]) && Holds(s, n, close)
    ensures var p := Padded("", d, s[i + |DocText(d)|..n]);
            PaddedOk(p) && |PaddedText(p)| == n - i && Holds(s, i, PaddedText(p) + close)
  {
    hide DocText, DocOk, Holds;
    var e := i + |DocText(d)|;
    var after := s[e..n];
    HoldsCut(s, e, n);
    assert AllWs("");
    assert PaddedText(Padded("", d, after)) + close == DocText(d) + (after + close);
    HoldsSum(s, i, DocText(d), after + close);
    HoldsSum(s, e, after, close);
  }

  lemma HoldsOne(s: string, i: nat, c: char)
    requires i < |s| && s[i] == c
    ensures Holds(s, i, [c])
  {
  }

  lemma {:induction false} ItemsFound(s: string, i: nat, acc: seq<Value>) returns (items: seq<Padded>)
    requires i <= |s| && ParseItems(s, i, acc).Parsed?
    ensures items != [] && AllPadded(items) && items[0].before == "" && Holds(s, i, ItemsText(items))
    ensures ParseItems(s, i, acc) == Parsed(Array(acc + ItemsMean(items)), i + |ItemsText(items)|)
    decreases |s| - i, 2
  {
    hide ParseValue, ParseItems, SkipWs, DocText, DocMeans, DocOk, AllWs, Holds, PaddedText, PaddedOk, IsWs, ItemsMean,
         ItemsText;
    ItemsHaveFirst(s, i, acc);
    var d := DocFound(s, i);
    var e := i + |DocText(d)|;
    ItemsStep(s, i, acc, DocMeans(d), e);
    var n := SkipWs(s, e);
    WsFound(s, e);
    var p := Padded("", d, s[e..n]);
    if s[n] == ']' {
      HoldsOne(s, n, ']');
      OneItem(s, i, d, n, "]");
      items := [p] + [];
      OneItemMore(p, []);
    } else {
      HoldsOne(s, n, ',');
      var j := SkipWs(s, n + 1);
      WsFound(s, n + 1);
      var rest := ItemsFound(s, j, acc + [DocMeans(d)]);
      var more := WithBefore(rest, s[n + 1..j]);
      ItemsBefore(rest, s[n + 1..j]);
      HoldsSum(s, n + 1, s[n + 1..j], ItemsText(rest));
      HoldsSum(s, n, ",", ItemsText(more));
      OneItem(s, i, d, n, "," + ItemsText(more));
      items := [p] + more;
      OneItemMore(p, more);
      assert acc + [DocMeans(d)] + ItemsMean(rest) == acc + ([DocMeans(d)] + ItemsMean(rest));
    }
  }

  lemma OneItemMore(p: Padded, more: seq<Padded>)
    requires PaddedOk(p) && AllPadded(more)
    ensures DocOk(p.doc) && AllPadded([p] + more) && ItemsMean([p] + more) == [DocMeans(p.doc)] + ItemsMean(more)
    ensures ItemsText([p] + more) == PaddedText(p) + if more == [] then "]" else "," + ItemsText(more)
    ensures more == [] ==> ItemsMean([p] + more) == [DocMeans(p.doc)]
  {
    hide PaddedText, AllWs, DocMeans;
    assert ([p] + more)[1..] == more;
  }

  lemma {:induction false} MemberFound(s: string, i: nat) returns (p: Pair)
    requires i <= |s| && ParseMember(s, i).Parsed?
    ensures PairOk(p) && p.before == "" && p.value.after == "" && Holds(s, i, PairText(p)) && DocOk(p.value.doc)
    ensures ParseMember(s, i) == Parsed(Member(CharsMean(p.key), DocMeans(p.value.doc)), i + |PairText(p)|)
    decreases |s| - i, 1
  {
    hide ParseChars, SkipWs, ParseValue, DocText, DocMeans, DocOk, CharsOk, CharsText, CharsMean, AllWs, Holds;
    var cs := CharsFound(s, i + 1, []);
    var q := i + 1 + |CharsText(cs)| + 1;
    assert [] + CharsMean(cs) == CharsMean(cs);
    var k := SkipWs(s, q);
    WsFound(s, q);
    var b := SkipWs(s, k + 1);
    WsFound(s, k + 1);
    var d := DocFound(s, b);
    var colon, before := s[q..k], s[k + 1..b];
    var v := Padded(before, d, "");
    p := Pair("", cs, colon, v);
    assert AllWs("") by { NoWs(); }
    HoldsOne(s, i, '"');
    HoldsOne(s, k, ':');
    HoldsCut(s, q, k);
    HoldsCut(s, k + 1, b);
    HoldsSum(s, k + 1, before, DocText(d));
    HoldsSum(s, k, ":", before + DocText(d));
    HoldsSum(s, q, colon, ":" + (before + DocText(d)));
    HoldsSum(s, i, "\"", CharsText(cs) + "\"");
    HoldsSum(s, i, "\"" + (CharsText(cs) + "\""), colon + (":" + (before + DocText(d))));
    PairTextIs(cs, colon, before, d);
  }

  lemma NoWs()
    ensures AllWs("")
  {
  }

  lemma PairTextIs(cs: seq<Char>, colon: string, before: string, d: Doc)
    ensures PairText(Pair("", cs, colon, Padded(before, d, "")))
            == "\"" + (CharsText(cs) + "\"") + (colon + (":" + (before + DocText(d))))
  {
    hide CharsText, DocText;
  }

  lemma OneMember(s: string, i: nat, p: Pair, n: nat, close: string) returns (p': Pair)
    requires PairOk(p) && p.before == "" && p.value.after == "" && i <= |s| && Holds(s, i, PairText(p))
    requires i + |PairText(p)| <= n <= |s| && AllWs(s[i + |PairText(p)|..n]) && Holds(s, n, close)
    ensures PairOk(p') && p'.before == "" && p'.key == p.key && p'.value.doc == p.value.doc
    ensures |PairText(p')| == n - i && Holds(s, i, PairText(p') + close)
  {
    hide DocText, DocOk, Holds, CharsOk, StrText;
    var e := i + |PairText(p)|;
    var after := s[e..n];
    p' := p.(value := p.value.(after := after));
    HoldsCut(s, e, n);
    assert PairText(p') == PairText(p) + after;
    assert PairText(p') + close == PairText(p) + (after + close);
    HoldsSum(s, i, PairText(p), after + close);
    HoldsSum(s, e, after, close);
  }

  lemma {:induction false} MembersFound(s: string, i: nat, acc: map<Units, Value>) returns (members: seq<Pair>)
    requires i <= |s| && ParseMembers(s, i, acc).Parsed?
    ensures members != [] && AllPairs(members) && members[0].before == "" && Holds(s, i, MembersText(members))
    ensures ParseMembers(s, i, acc) == Parsed(Object(MembersMean(acc, members)), i + |MembersText(members)|)
    decreases |s| - i, 2
  {
    hide ParseMember, ParseMembers, SkipWs, DocMeans, DocOk, CharsOk, CharsMean, AllWs, Holds, PairText, PairOk, IsWs,
         MembersMean;
    MembersHaveFirst(s, i, acc);
    var q := MemberFound(s, i);
    assert CharsOk(q.key) by { PairParts(q); }
    var m := Member(CharsMean(q.key), DocMeans(q.value.doc));
    var e := i + |PairText(q)|;
    MembersStep(s, i, acc, m, e);
    var n := SkipWs(s, e);
    WsFound(s, e);
    if s[n] == '}' {
      HoldsOne(s, n, '}');
      var p := OneMember(s, i, q, n, "}");
      members := [p];
      MembersMeanOne(acc, members);
      assert members[1..] == [] && MembersText(members) == PairText(p) + "}";
    } else {
      HoldsOne(s, n, ',');
      var j := SkipWs(s, n + 1);
      WsFound(s, n + 1);
      var acc' := acc[m.key := m.value];
      var rest := MembersFound(s, j, acc');
      var more := WithBeforeKey(rest, s[n + 1..j]);
      MembersBefore(rest, s[n + 1..j], acc');
      HoldsCut(s, n + 1, j);
      HoldsSum(s, n + 1, s[n + 1..j], MembersText(rest));
      HoldsSum(s, n, ",", MembersText(more));
      var p := OneMember(s, i, q, n, "," + MembersText(more));
      members := [p] + more;
      assert members[1..] == more && MembersText(members) == PairText(p) + ("," + MembersText(more));
      MembersMeanOne(acc, members);
    }
  }

  lemma MembersMeanOne(acc: map<Units, Value>, members: seq<Pair>)
    requires AllPairs(members) && members != []
    ensures CharsOk(members[0].key) && DocOk(members[0].value.doc) && AllPairs(members[1..])
    ensures MembersMean(acc, members)
            == MembersMean(acc[CharsMean(members[0].key) := DocMeans(members[0].value.doc)], members[1..])
    ensures forall acc' :: MembersMean(acc', []) == acc'
  {
    assert PairOk(members[0]) && PaddedOk(members[0].value);
  }

  /** Whatever the parser reads as a value is the text of one, and means what it was read as. */
  lemma {:induction false} DocFound(s: string, i: nat) returns (d: Doc)
    requires i <= |s| && ParseValue(s, i).Parsed?
    ensures DocOk(d) && Holds(s, i, DocText(d))
    ensures ParseValue(s, i) == Parsed(DocMeans(d), i + |DocText(d)|)
    decreases |s| - i, 0
  {
    hide ParseValue, ParseScalar, SkipWs, ParseItems, ParseMembers, DocText, DocOk, DocMeans, Holds;
    assert i < |s| by { ValueInside(s, i); }
    if s[i] == '[' {
      ArrayParts(s, i);
      var j := SkipWs(s, i + 1);
      if At(s, j, ']') {
        d := EmptyFound(s, i, j);
      } else {
        var items := ItemsFound(s, j, []);
        d := ArrFound(s, i, j, items);
      }
    } else if s[i] == '{' {
      ObjectParts(s, i);
      var j := SkipWs(s, i + 1);
      if At(s, j, '}') {
        d := EmptyFound(s, i, j);
      } else {
        var members := MembersFound(s, j, map[]);
        d := ObjFound(s, i, j, members);
      }
    } else {
      ScalarParts(s, i);
      d := ScalarFound(s, i);
    }
  }

  lemma ArrFound(s: string, i: nat, j: nat, items: seq<Padded>) returns (d: Doc)
    requires i < |s| && s[i] == '[' && j == SkipWs(s, i + 1)
    requires items != [] && AllPadded(items) && items[0].before == "" && Holds(s, j, ItemsText(items))
    ensures DocOk(d) && Holds(s, i, DocText(d)) && i + |DocText(d)| == j + |ItemsText(items)|
    ensures DocMeans(d) == Array([] + ItemsMean(items))
  {
    hide SkipWs, ItemsText, Holds, AllWs, PaddedOk, ItemsMean;
    WsFound(s, i + 1);
    HoldsOne(s, i, '[');
    d := Arr(WithBefore(items, s[i + 1..j]));
    ItemsBefore(items, s[i + 1..j]);
    HoldsSum(s, i + 1, s[i + 1..j], ItemsText(items));
    HoldsSum(s, i, "[", ItemsText(d.items));
    assert [] + ItemsMean(items) == ItemsMean(items);
  }

  lemma ObjFound(s: string, i: nat, j: nat, members: seq<Pair>) returns (d: Doc)
    requires i < |s| && s[i] == '{' && j == SkipWs(s, i + 1)
    requires members != [] && AllPairs(members) && members[0].before == "" && Holds(s, j, MembersText(members))
    ensures DocOk(d) && Holds(s, i, DocText(d)) && i + |DocText(d)| == j + |MembersText(members)|
    ensures DocMeans(d) == Object(MembersMean(map[], members))
  {
    hide SkipWs, MembersText, Holds, AllWs, PairOk, MembersMean;
    WsFound(s, i + 1);
    HoldsOne(s, i, '{');
    d := Obj(WithBeforeKey(members, s[i + 1..j]));
    MembersBefore(members, s[i + 1..j], map[]);
    HoldsSum(s, i + 1, s[i + 1..j], MembersText(members));
    HoldsSum(s, i, "{", MembersText(d.members));
  }

  lemma ValueInside(s: string, i: nat)
    requires i <= |s| && ParseValue(s, i).Parsed?
    ensures i < |s|
  {
  }

  lemma EmptyFound(s: string, i: nat, j: nat) returns (d: Doc)
    requires i < |s| && j == SkipWs(s, i + 1) && ((s[i] == '[' && At(s, j, ']')) || (s[i] == '{' && At(s, j, '}')))
    ensures DocOk(d) && Holds(s, i, DocText(d)) && i + |DocText(d)| == j + 1
    ensures DocMeans(d) == if s[i] == '[' then Array([]) else Object(map[])
  {
    hide SkipWs, AllWs;
    WsFound(s, i + 1);
    d := if s[i] == '[' then EmptyArr(s[i + 1..j]) else EmptyObj(s[i + 1..j]);
    assert s[i..j + 1] == [s[i]] + s[i + 1..j] + [s[j]];
  }

  // ---------- main result ----------

  /** `s` is white space, the text of `d`, and white space again. */
  ghost predicate IsTextOf(s: string, d: Doc) {
    DocOk(d) && exists a, b :: AllWs(a) && AllWs(b) && s == a + DocText(d) + b
  }

  /** `json.loads` accepts exactly the texts of the grammar, and reads each as what it means. */
  lemma LoadsIsGrammar(s: string, v: Value)
    ensures Loads(s) == Some(v) <==> exists d :: IsTextOf(s, d) && DocMeans(d) == v
  {
    hide ParseValue, SkipWs, DocText, DocOk, DocMeans, AllWs;
    if Loads(s) == Some(v) {
      var i := SkipWs(s, 0);
      var d := DocFound(s, i);
      var j := i + |DocText(d)|;
      WsFound(s, 0);
      WsFound(s, j);
      assert s == s[0..i] + DocText(d) + s[j..SkipWs(s, j)];
      assert IsTextOf(s, d) && DocMeans(d) == v;
    }
    if d :| IsTextOf(s, d) && DocMeans(d) == v {
      var a, b :| AllWs(a) && AllWs(b) && s == a + DocText(d) + b;
      TextLoads(a, d, b);
    }
  }

  lemma TextLoads(a: string, d: Doc, b: string)
    requires DocOk(d) && AllWs(a) && AllWs(b)
    ensures Loads(a + DocText(d) + b) == Some(DocMeans(d))
  {
    hide ParseValue, SkipWs, DocText, DocOk, DocMeans, AllWs, Holds, NumberChar, IsWs;
    var s, t := a + DocText(d) + b, DocText(d);
    assert s == a + (t + b);
    WholeHolds(s);
    HoldsSum(s, 0, a, t + b);
    HoldsSum(s, |a|, t, b);
    DocStart(d);
    HoldsAt(s, |a|, t, 0);
    WsRead(s, 0, a);
    WsRead(s, |a + t|, b);
    DelimitedByWs(d, s, |a + t|, b);
    DocRead(s, |a|, d);
    NoBomFirst(s, a);
  }

  lemma DelimitedByWs(d: Doc, s: string, j: nat, b: string)
    requires Holds(s, j, b) && AllWs(b) && j + |b| == |s|
    ensures Delimited(d, s, j)
  {
    if b != "" {
      HoldsAt(s, j, b, 0);
      WsFirst(b);
      NotInNumbers(b[0]);
    }
  }

  lemma NoBomFirst(s: string, a: string)
    requires Holds(s, 0, a) && AllWs(a) && (a == "" ==> s != "" && s[0] != BOM)
    ensures !At(s, 0, BOM)
  {
    if a != "" {
      HoldsAt(s, 0, a, 0);
      WsFirst(a);
    }
  }

  lemma WholeHolds(s: string)
    ensures Holds(s, 0, s)
  {
  }
}
