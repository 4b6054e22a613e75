/** JSON texts (RFC 8259, sections 2 to 7) as Python's `json.loads` reads them, NaN and Infinity included. */
module Json {
  import opened Prelude

  /** Strings are UTF-16 code units, so an escaped surrogate pair equals the character it stands for. */
  type Units = seq<nat>

  datatype Value =
    | Null
    | Bool(b: bool)
    | Number(text: string)
    | String(units: Units)
    | Array(items: seq<Value>)
    | Object(members: map<Units, Value>)

  datatype Parsed<+T> = Fail | Parsed(value: T, next: nat)

  // ---------- tokens ----------

  predicate IsWs(c: char) {
    c == ' ' || c == '\t' || c == '\n' || c == '\r'
  }

  function SkipWs(s: string, i: nat): (j: nat)
    requires i <= |s|
    ensures i <= j <= |s|
    ensures j < |s| ==> !IsWs(s[j])
    ensures forall k :: i <= k < j ==> IsWs(s[k])
    decreases |s| - i
  {
    if i < |s| && IsWs(s[i]) then SkipWs(s, i + 1) else i
  }

  /** The character at `i`, if there is one, is `c`. */
  predicate At(s: string, i: nat, c: char) {
    i < |s| && s[i] == c
  }

  predicate WordAt(s: string, i: nat, w: string) {
    i + |w| <= |s| && s[i..i + |w|] == w
  }

  function Word(s: string, i: nat, w: string, v: Value): (r: Parsed<Value>)
    ensures r.Parsed? ==> r.next == i + |w| <= |s|
  {
    if WordAt(s, i, w) then Parsed(v, i + |w|) else Fail
  }

  predicate IsDigit(c: char) {
    '0' <= c <= '9'
  }

  predicate NumberChar(c: char) {
    IsDigit(c) || c == '-' || c == '+' || c == '.' || c == 'e' || c == 'E'
  }

  function NumberEnd(s: string, i: nat): (j: nat)
    requires i <= |s|
    ensures i <= j <= |s|
    ensures j < |s| ==> !NumberChar(s[j])
    ensures forall k :: i <= k < j ==> NumberChar(s[k])
    decreases |s| - i
  {
    if i < |s| && NumberChar(s[i]) then NumberEnd(s, i + 1) else i
  }

  function DigitsEnd(t: string, i: nat): (j: nat)
    requires i <= |t|
    ensures i <= j <= |t|
    decreases |t| - i
  {
    if i < |t| && IsDigit(t[i]) then DigitsEnd(t, i + 1) else i
  }

  /** [ minus ] int [ frac ] [ exp ], nothing left over. */
  predicate WellFormedNumber(t: string) {
    var i := if At(t, 0, '-') then 1 else 0;
    var j := if At(t, i, '0') then i + 1 else DigitsEnd(t, i);
    var k := if At(t, j, '.') then DigitsEnd(t, j + 1) else j;
    var hasExp := At(t, k, 'e') || At(t, k, 'E');
    var m := if hasExp && (At(t, k + 1, '+') || At(t, k + 1, '-')) then k + 2 else k + 1;
    && j > i
    && (At(t, j, '.') ==> k > j + 1)
    && if hasExp then m < |t| && DigitsEnd(t, m) == |t| else k == |t|
  }

  /** A number is the longest run of number characters, which must be well formed as a whole: any
      shorter reading would leave a character that no JSON text allows after a value. */
  function ParseNumber(s: string, i: nat): (r: Parsed<Value>)
    requires i < |s|
    ensures r.Parsed? ==> i < r.next <= |s|
  {
    var j := NumberEnd(s, i);
    if j > i && WellFormedNumber(s[i..j]) then Parsed(Number(s[i..j]), j) else Fail
  }

  function CharUnits(c: char): Units {
    var n := c as int;
    if n < 0x10000 then [n] else [0xD800 + (n - 0x10000) / 0x400, 0xDC00 + (n - 0x10000) % 0x400]
  }

  function HexValue(c: char): Option<nat> {
    if '0' <= c <= '9' then Some((c - '0') as nat)
    else if 'a' <= c <= 'f' then Some((c - 'a') as nat + 10)
    else if 'A' <= c <= 'F' then Some((c - 'A') as nat + 10)
    else None
  }

  /** The four hexadecimal digits at `i`. */
  function Hex4(s: string, i: nat): Option<nat> {
    if i + 4 > |s| then None
    else
      match (HexValue(s[i]), HexValue(s[i + 1]), HexValue(s[i + 2]), HexValue(s[i + 3]))
      case (Some(a), Some(b), Some(c), Some(d)) => Some(((a * 16 + b) * 16 + c) * 16 + d)
      case _ => None
  }

  function SimpleEscape(c: char): Option<nat> {
    match c
    case '"' => Some(0x22)
    case '\\' => Some(0x5C)
    case '/' => Some(0x2F)
    case 'b' => Some(0x08)
    case 'f' => Some(0x0C)
    case 'n' => Some(0x0A)
    case 'r' => Some(0x0D)
    case 't' => Some(0x09)
    case _ => None
  }

  /** The rest of a string, from `i` up to and including the closing quote. */
  function ParseChars(s: string, i: nat, acc: Units): (r: Parsed<Units>)
    requires i <= |s|
    ensures r.Parsed? ==> i < r.next <= |s| && s[r.next - 1] == '"'
    decreases |s| - i
  {
    if i >= |s| then Fail
    else if s[i] == '"' then Parsed(acc, i + 1)
    else if s[i] == '\\' then
      if i + 1 >= |s| then Fail
      else if s[i + 1] == 'u' then
        match Hex4(s, i + 2)
        case None => Fail
        case Some(n) => ParseChars(s, i + 6, acc + [n])
      else
        match SimpleEscape(s[i + 1])
        case None => Fail
        case Some(n) => ParseChars(s, i + 2, acc + [n])
    else if s[i] < ' ' then Fail
    else ParseChars(s, i + 1, acc + CharUnits(s[i]))
  }

  // ---------- values ----------

  /** Strings, literal names and numbers. */
  function ParseScalar(s: string, i: nat): (r: Parsed<Value>)
    requires i < |s|
    ensures r.Parsed? ==> i < r.next <= |s| && s[r.next - 1] != '}' && !r.value.Object?
  {
    if s[i] == '"' then
      match ParseChars(s, i + 1, [])
      case Fail => Fail
      case Parsed(u, j) => Parsed(String(u), j)
    else if s[i] == 't' then Word(s, i, "true", Bool(true))
    else if s[i] == 'f' then Word(s, i, "false", Bool(false))
    else if s[i] == 'n' then Word(s, i, "null", Null)
    else if s[i] == 'N' then Word(s, i, "NaN", Number("NaN"))
    else if s[i] == 'I' then Word(s, i, "Infinity", Number("Infinity"))
    else if s[i] == '-' && At(s, i + 1, 'I') then Word(s, i, "-Infinity", Number("-Infinity"))
    else ParseNumber(s, i)
  }

  /** A value; only an object ends with a closing brace. */
  function ParseValue(s: string, i: nat): (r: Parsed<Value>)
    requires i <= |s|
    ensures r.Parsed? ==> i < r.next <= |s| && (s[r.next - 1] == '}' <==> s[i] == '{')
    ensures r.Parsed? ==> (r.value.Object? <==> s[i] == '{')
    decreases |s| - i, 0
  {
    if i >= |s| then Fail
    else if s[i] == '{' then
      var j := SkipWs(s, i + 1);
      if At(s, j, '}') then Parsed(Object(map[]), j + 1) else ParseMembers(s, j, map[])
    else if s[i] == '[' then
      var j := SkipWs(s, i + 1);
      if At(s, j, ']') then Parsed(Array([]), j + 1) else ParseItems(s, j, [])
    else hide ParseScalar; ParseScalar(s, i)
  }

  datatype Member = Member(key: Units, value: Value)

  /** A key, a colon and a value. */
  function ParseMember(s: string, i: nat): (r: Parsed<Member>)
    requires i <= |s|
    ensures r.Parsed? ==> i < r.next <= |s|
    decreases |s| - i, 1
  {
    hide ParseChars, SkipWs, ParseValue;
    if !At(s, i, '"') then Fail
    else
      match ParseChars(s, i + 1, [])
      case Fail => Fail
      case Parsed(key, j) =>
        var k := SkipWs(s, j);
        if !At(s, k, ':') then Fail
        else
          match ParseValue(s, SkipWs(s, k + 1))
          case Fail => Fail
          case Parsed(v, m) => Parsed(Member(key, v), m)
  }

  /** The next character that is not white space, and where it is. */
  function Behind(s: string, i: nat): (r: (nat, Option<char>))
    requires i <= |s|
    ensures i <= r.0 <= |s| && (r.1.Some? ==> r.0 < |s| && s[r.0] == r.1.value)
  {
    var n := SkipWs(s, i);
    (n, if n < |s| then Some(s[n]) else None)
  }

  /** Members of an object up to its closing brace; a repeated key takes the later value. */
  function ParseMembers(s: string, i: nat, acc: map<Units, Value>): (r: Parsed<Value>)
    requires i <= |s|
    ensures r.Parsed? ==> i < r.next <= |s| && r.value.Object? && s[r.next - 1] == '}'
    decreases |s| - i, 2
  {
    hide ParseMember, SkipWs, Behind;
    match ParseMember(s, i)
    case Fail => Fail
    case Parsed(p, m) =>
      var (n, c) := Behind(s, m);
      if c == Some('}') then Parsed(Object(acc[p.key := p.value]), n + 1)
      else if c == Some(',') then ParseMembers(s, SkipWs(s, n + 1), acc[p.key := p.value])
      else Fail
  }

  function ParseItems(s: string, i: nat, acc: seq<Value>): (r: Parsed<Value>)
    requires i <= |s|
    ensures r.Parsed? ==> i < r.next <= |s| && r.value.Array? && s[r.next - 1] == ']'
    decreases |s| - i, 2
  {
    hide ParseValue, SkipWs, Behind;
    match ParseValue(s, i)
    case Fail => Fail
    case Parsed(v, m) =>
      var (n, c) := Behind(s, m);
      if c == Some(']') then Parsed(Array(acc + [v]), n + 1)
      else if c == Some(',') then ParseItems(s, SkipWs(s, n + 1), acc + [v])
      else Fail
  }

  const BOM := '\U{feff}'

  /** `json.loads`: one value, white space around it, nothing else, and no byte order mark. */
  function Loads(s: string): Option<Value> {
    if At(s, 0, BOM) then None
    else
      match ParseValue(s, SkipWs(s, 0))
      case Fail => None
      case Parsed(v, j) => if SkipWs(s, j) == |s| then Some(v) else None
  }

  // ---------- locality ----------

  /** `s` repeats the first `n` characters of `t` from position `d` on. */
  ghost predicate Repeats(t: string, s: string, d: nat, n: nat) {
    n <= |t| && d + n <= |s| && forall k :: 0 <= k < n ==> s[d + k] == t[k]
  }

  lemma RepeatsAt(t: string, s: string, d: nat, n: nat, k: nat)
    requires Repeats(t, s, d, n) && k < n
    ensures k < |t| && d + k < |s| && s[d + k] == t[k]
  {
  }

  /** Only a number needs a look at the character behind it. */
  predicate SelfDelimiting(c: char) {
    c == '{' || c == '[' || c == '"'
  }

  lemma {:induction false} SkipWsLocal(t: string, s: string, d: nat, n: nat, i: nat)
    requires Repeats(t, s, d, n) && i <= |t| && SkipWs(t, i) < n
    ensures d + i <= |s| && SkipWs(s, d + i) == d + SkipWs(t, i)
    decreases |t| - i
  {
    if i < |t| && IsWs(t[i]) {
      SkipWsLocal(t, s, d, n, i + 1);
    }
  }

  lemma {:induction false} NumberEndLocal(t: string, s: string, d: nat, n: nat, i: nat)
    requires Repeats(t, s, d, n) && i <= |t| && NumberEnd(t, i) < n
    ensures d + i <= |s| && NumberEnd(s, d + i) == d + NumberEnd(t, i)
    decreases |t| - i
  {
    if i < |t| && NumberChar(t[i]) {
      NumberEndLocal(t, s, d, n, i + 1);
    }
  }

  lemma Hex4Local(t: string, s: string, d: nat, n: nat, i: nat)
    requires Repeats(t, s, d, n) && i + 4 <= n
    ensures Hex4(s, d + i) == Hex4(t, i)
  {
    assert s[d + i] == t[i] && s[d + i + 1] == t[i + 1] && s[d + i + 2] == t[i + 2] && s[d + i + 3] == t[i + 3];
  }

  lemma {:induction false} ParseCharsLocal(t: string, s: string, d: nat, n: nat, i: nat, acc: Units)
    requires Repeats(t, s, d, n) && i <= |t|
    requires ParseChars(t, i, acc).Parsed? && ParseChars(t, i, acc).next <= n
    ensures d + i <= |s|
    ensures ParseChars(s, d + i, acc) == ParseChars(t, i, acc).(next := d + ParseChars(t, i, acc).next)
    decreases |t| - i
  {
    hide Repeats, Hex4, SimpleEscape, CharUnits;
    RepeatsAt(t, s, d, n, i);
    if t[i] == '"' {
    } else if t[i] == '\\' {
      RepeatsAt(t, s, d, n, i + 1);
      if t[i + 1] == 'u' {
        ParseCharsLocal(t, s, d, n, i + 6, acc + [Hex4(t, i + 2).value]);
        Hex4Local(t, s, d, n, i + 2);
      } else {
        ParseCharsLocal(t, s, d, n, i + 2, acc + [SimpleEscape(t[i + 1]).value]);
      }
    } else {
      ParseCharsLocal(t, s, d, n, i + 1, acc + CharUnits(t[i]));
    }
  }

  lemma WordLocal(t: string, s: string, d: nat, n: nat, i: nat, w: string)
    requires Repeats(t, s, d, n) && WordAt(t, i, w) && i + |w| <= n
    ensures WordAt(s, d + i, w)
  {
    var x, y := s[d + i..d + i + |w|], t[i..i + |w|];
    forall k | 0 <= k < |w| ensures x[k] == y[k] {
      assert s[d + (i + k)] == t[i + k];
    }
  }

  lemma ParseNumberLocal(t: string, s: string, d: nat, n: nat, i: nat)
    requires Repeats(t, s, d, n) && i < |t| && ParseNumber(t, i).Parsed? && ParseNumber(t, i).next < n
    ensures d + i < |s|
    ensures ParseNumber(s, d + i) == ParseNumber(t, i).(next := d + ParseNumber(t, i).next)
  {
    hide WellFormedNumber, NumberEnd;
    NumberEndLocal(t, s, d, n, i);
    var j := NumberEnd(t, i);
    assert s[d + i..d + j] == t[i..j];
  }

  lemma ParseScalarLocal(t: string, s: string, d: nat, n: nat, i: nat)
    requires Repeats(t, s, d, n) && i < |t| && ParseScalar(t, i).Parsed?
    requires ParseScalar(t, i).next < n || (ParseScalar(t, i).next == n && t[i] == '"')
    ensures d + i < |s|
    ensures ParseScalar(s, d + i) == ParseScalar(t, i).(next := d + ParseScalar(t, i).next)
  {
    hide ParseChars, ParseNumber, WordAt, Repeats;
    RepeatsAt(t, s, d, n, i);
    if t[i] == '"' { ParseCharsLocal(t, s, d, n, i + 1, []); }
    else if t[i] == 't' { WordLocal(t, s, d, n, i, "true"); }
    else if t[i] == 'f' { WordLocal(t, s, d, n, i, "false"); }
    else if t[i] == 'n' { WordLocal(t, s, d, n, i, "null"); }
    else if t[i] == 'N' { WordLocal(t, s, d, n, i, "NaN"); }
    else if t[i] == 'I' { WordLocal(t, s, d, n, i, "Infinity"); }
    else {
      if t[i] == '-' { RepeatsAt(t, s, d, n, i + 1); }
      if t[i] == '-' && At(t, i + 1, 'I') {
        WordLocal(t, s, d, n, i, "-Infinity");
      } else {
        ParseNumberLocal(t, s, d, n, i);
      }
    }
  }

  /** A value that was read from `t` without looking past its first `n` characters is read the same
      way wherever those characters occur. */
  lemma {:induction false} ParseValueLocal(t: string, s: string, d: nat, n: nat, i: nat)
    requires Repeats(t, s, d, n) && i < |t|
    requires ParseValue(t, i).Parsed?
    requires ParseValue(t, i).next < n || (ParseValue(t, i).next == n && SelfDelimiting(t[i]))
    ensures d + i < |s|
    ensures ParseValue(s, d + i) == ParseValue(t, i).(next := d + ParseValue(t, i).next)
    decreases |t| - i, 0
  {
    hide ParseScalar, SkipWs, ParseMembers, ParseItems, Repeats, ParseValue;
    RepeatsAt(t, s, d, n, i);
    if t[i] == '{' {
      ObjectParts(t, i);
      var j := SkipWs(t, i + 1);
      SkipWsLocal(t, s, d, n, i + 1);
      RepeatsAt(t, s, d, n, j);
      ObjectParts(s, d + i);
      if t[j] != '}' {
        ParseMembersLocal(t, s, d, n, j, map[]);
      }
    } else if t[i] == '[' {
      ArrayParts(t, i);
      var j := SkipWs(t, i + 1);
      SkipWsLocal(t, s, d, n, i + 1);
      RepeatsAt(t, s, d, n, j);
      ArrayParts(s, d + i);
      if t[j] != ']' {
        ParseItemsLocal(t, s, d, n, j, []);
      }
    } else {
      ScalarParts(t, i);
      ParseScalarLocal(t, s, d, n, i);
      ScalarParts(s, d + i);
    }
  }

  lemma ObjectParts(s: string, i: nat)
    requires i < |s| && s[i] == '{'
    ensures var j := SkipWs(s, i + 1);
            ParseValue(s, i) == if At(s, j, '}') then Parsed(Object(map[]), j + 1) else ParseMembers(s, j, map[])
  {
    hide ParseMembers, SkipWs;
  }

  lemma ArrayParts(s: string, i: nat)
    requires i < |s| && s[i] == '['
    ensures var j := SkipWs(s, i + 1);
            ParseValue(s, i) == if At(s, j, ']') then Parsed(Array([]), j + 1) else ParseItems(s, j, [])
  {
    hide ParseItems, SkipWs;
  }

  lemma ScalarParts(s: string, i: nat)
    requires i < |s| && s[i] != '[' && s[i] != '{'
    ensures ParseValue(s, i) == ParseScalar(s, i)
  {
    hide ParseScalar;
  }

  lemma {:induction false} ParseMemberLocal(t: string, s: string, d: nat, n: nat, i: nat)
    requires Repeats(t, s, d, n) && i <= |t|
    requires ParseMember(t, i).Parsed? && ParseMember(t, i).next < n
    ensures d + i <= |s|
    ensures ParseMember(s, d + i) == ParseMember(t, i).(next := d + ParseMember(t, i).next)
    decreases |t| - i, 1
  {
    hide ParseChars, SkipWs, ParseValue;
    assert s[d + i] == t[i];
    var key := ParseChars(t, i + 1, []);
    ParseCharsLocal(t, s, d, n, i + 1, []);
    var k := SkipWs(t, key.next);
    SkipWsLocal(t, s, d, n, key.next);
    assert s[d + k] == t[k];
    SkipWsLocal(t, s, d, n, k + 1);
    ParseValueLocal(t, s, d, n, SkipWs(t, k + 1));
  }

  lemma BehindLocal(t: string, s: string, d: nat, n: nat, i: nat)
    requires Repeats(t, s, d, n) && i <= |t| && SkipWs(t, i) < n
    ensures d + i <= |s| && Behind(s, d + i) == (d + Behind(t, i).0, Behind(t, i).1)
  {
    SkipWsLocal(t, s, d, n, i);
    RepeatsAt(t, s, d, n, SkipWs(t, i));
  }

  lemma MembersStep(s: string, i: nat, acc: map<Units, Value>, p: Member, m: nat)
    requires i <= |s| && ParseMember(s, i) == Parsed(p, m)
    ensures m <= |s|
    ensures var (n, c) := Behind(s, m);
            ParseMembers(s, i, acc) ==
              if c == Some('}') then Parsed(Object(acc[p.key := p.value]), n + 1)
              else if c == Some(',') then ParseMembers(s, SkipWs(s, n + 1), acc[p.key := p.value])
              else Fail
  {
    hide ParseMember, SkipWs, Behind;
  }

  lemma MembersHaveFirst(s: string, i: nat, acc: map<Units, Value>)
    requires i <= |s| && ParseMembers(s, i, acc).Parsed?
    ensures i < |s| && ParseMember(s, i).Parsed? && ParseMember(s, i).next < ParseMembers(s, i, acc).next
  {
    hide ParseMember, SkipWs, Behind;
  }

  lemma {:induction false} ParseMembersLocal(t: string, s: string, d: nat, n: nat, i: nat, acc: map<Units, Value>)
    requires Repeats(t, s, d, n) && i <= |t|
    requires ParseMembers(t, i, acc).Parsed? && ParseMembers(t, i, acc).next <= n
    ensures d + i <= |s|
    ensures ParseMembers(s, d + i, acc) == ParseMembers(t, i, acc).(next := d + ParseMembers(t, i, acc).next)
    decreases |t| - i, 2
  {
    hide ParseMember, ParseMembers, SkipWs, Repeats;
    MembersHaveFirst(t, i, acc);
    var Parsed(p, m) := ParseMember(t, i);
    MembersStep(t, i, acc, p, m);
    ParseMemberLocal(t, s, d, n, i);
    MembersStep(s, d + i, acc, p, d + m);
    BehindLocal(t, s, d, n, m);
    if Behind(t, m).1 == Some(',') {
      var b := SkipWs(t, m);
      SkipWsLocal(t, s, d, n, b + 1);
      ParseMembersLocal(t, s, d, n, SkipWs(t, b + 1), acc[p.key := p.value]);
    }
  }

  lemma ItemsStep(s: string, i: nat, acc: seq<Value>, v: Value, m: nat)
    requires i <= |s| && ParseValue(s, i) == Parsed(v, m)
    ensures m <= |s|
    ensures var (n, c) := Behind(s, m);
            ParseItems(s, i, acc) ==
              if c == Some(']') then Parsed(Array(acc + [v]), n + 1)
              else if c == Some(',') then ParseItems(s, SkipWs(s, n + 1), acc + [v])
              else Fail
  {
    hide ParseValue, SkipWs, Behind;
  }

  lemma ItemsHaveFirst(s: string, i: nat, acc: seq<Value>)
    requires i <= |s| && ParseItems(s, i, acc).Parsed?
    ensures i < |s| && ParseValue(s, i).Parsed? && ParseValue(s, i).next < ParseItems(s, i, acc).next
  {
    hide ParseValue, SkipWs, Behind;
  }

  lemma {:induction false} ParseItemsLocal(t: string, s: string, d: nat, n: nat, i: nat, acc: seq<Value>)
    requires Repeats(t, s, d, n) && i <= |t|
    requires ParseItems(t, i, acc).Parsed? && ParseItems(t, i, acc).next <= n
    ensures d + i <= |s|
    ensures ParseItems(s, d + i, acc) == ParseItems(t, i, acc).(next := d + ParseItems(t, i, acc).next)
    decreases |t| - i, 2
  {
    hide ParseValue, ParseItems, SkipWs, Repeats;
    ItemsHaveFirst(t, i, acc);
    var Parsed(v, m) := ParseValue(t, i);
    ItemsStep(t, i, acc, v, m);
    ParseValueLocal(t, s, d, n, i);
    ItemsStep(s, d + i, acc, v, d + m);
    BehindLocal(t, s, d, n, m);
    if Behind(t, m).1 == Some(',') {
      var b := SkipWs(t, m);
      SkipWsLocal(t, s, d, n, b + 1);
      ParseItemsLocal(t, s, d, n, SkipWs(t, b + 1), acc + [v]);
    }
  }
}
