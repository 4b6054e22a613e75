/** Recovering a tool call's arguments from almost-JSON text. */
module JsonRepair {
  import opened Prelude
  import opened Text
  import opened Json

  type Arguments = map<Units, Value>

  function AsArguments(v: Value): Arguments {
    if v.Object? then v.members else map[]
  }

  predicate EndsInTwoBraces(s: string) {
    |s| >= 2 && s[|s| - 2..] == "}}"
  }

  function FirstOf(s: string, c: char): (k: nat)
    ensures k <= |s|
    ensures k < |s| ==> s[k] == c
    ensures forall i :: 0 <= i < k ==> s[i] != c
  {
    if s == "" || s[0] == c then 0 else 1 + FirstOf(s[1..], c)
  }

  /** Python's `rfind`: one more than the last position, 0 when there is none. */
  function AfterLastOf(s: string, c: char): (k: nat)
    ensures k <= |s|
    ensures k > 0 ==> s[k - 1] == c
    ensures forall i :: k <= i < |s| ==> s[i] != c
  {
    if s == "" then 0 else if s[|s| - 1] == c then |s| else AfterLastOf(s[..|s| - 1], c)
  }

  /** Second attempt: closing braces come off the end one at a time. */
  function StripBraces(s: string): Option<Value> {
    if !EndsInTwoBraces(s) then None
    else
      match Loads(s[..|s| - 1])
      case Some(v) => Some(v)
      case None => StripBraces(s[..|s| - 1])
  }

  /** Third attempt: from the first opening to the last closing brace. */
  function Bracketed(raw: string): Option<Value> {
    var first, end := FirstOf(raw, '{'), AfterLastOf(raw, '}');
    if first < |raw| && end > first + 1 then Loads(raw[first..end]) else None
  }

  function Repair(raw: string): Arguments {
    match Loads(raw)
    case Some(v) => AsArguments(v)
    case None =>
      match StripBraces(RStrip(raw))
      case Some(v) => AsArguments(v)
      case None =>
        match Bracketed(raw)
        case Some(v) => AsArguments(v)
        case None => map[]
  }

  /** `_try_parse_json_args`. */
  method TryParseJsonArgs(raw: string) returns (args: Arguments)
    ensures args == Repair(raw)
  {
    hide Loads;
    match Loads(raw) {
      case Some(v) => return AsArguments(v);
      case None =>
    }
    var stripped := RStrip(raw);
    while EndsInTwoBraces(stripped)
      invariant StripBraces(stripped) == StripBraces(RStrip(raw))
      decreases |stripped|
    {
      stripped := stripped[..|stripped| - 1];
      match Loads(stripped) {
        case Some(v) => return AsArguments(v);
        case None =>
      }
    }
    var firstBrace, afterLast := FirstOf(raw, '{'), AfterLastOf(raw, '}');
    if firstBrace < |raw| && afterLast > firstBrace + 1 {
      match Loads(raw[firstBrace..afterLast]) {
        case Some(v) => return AsArguments(v);
        case None =>
      }
    }
    args := map[];
  }

  // ---------- the text of one object inside a larger text ----------

  /** `v` is exactly the text of the JSON object with these members. */
  ghost predicate ObjectText(v: string, members: Arguments) {
    v != "" && v[0] == '{' && ParseValue(v, 0) == Parsed(Object(members), |v|)
  }

  /** `raw` holds `v` from position `d` on, with no opening brace before it. */
  ghost predicate Embeds(raw: string, d: nat, v: string) {
    d + |v| <= |raw| && raw[d..d + |v|] == v && '{' !in raw[..d]
  }

  lemma ReadInPlace(raw: string, d: nat, v: string, members: Arguments)
    requires ObjectText(v, members) && Embeds(raw, d, v)
    ensures d < |raw| && raw[d] == '{' && ParseValue(raw, d) == Parsed(Object(members), d + |v|)
    ensures v[|v| - 1] == '}' && |v| >= 2
  {
    hide ParseValue;
    forall k | 0 <= k < |v| ensures raw[d + k] == v[k] {
      assert raw[d..d + |v|][k] == raw[d + k];
    }
    ParseValueLocal(v, raw, d, |v|, 0);
  }

  /** Whatever prefix of `raw` loads as an object loads as that very object. */
  lemma PrefixLoadsSame(raw: string, d: nat, v: string, members: Arguments, c: string, x: Value)
    requires ObjectText(v, members) && Embeds(raw, d, v)
    requires c <= raw && Loads(c) == Some(x) && x.Object?
    ensures x == Object(members)
  {
    ReadInPlace(raw, d, v, members);
    var p := SkipWs(c, 0);
    hide ParseValue, SkipWs;
    assert c[p] == '{';
    assert forall i :: 0 <= i < |c| ==> c[i] == raw[i];
    assert forall i :: 0 <= i < d ==> raw[i] == raw[..d][i];
    assert p == d;
    var j := ParseValue(c, p).next;
    ParseValueLocal(c, raw, 0, j, p);
  }

  /** Text that ends with a closing brace loads as an object or not at all. */
  lemma BraceEndLoadsObject(c: string, x: Value)
    requires c != "" && c[|c| - 1] == '}' && Loads(c) == Some(x)
    ensures x.Object?
  {
    var p := SkipWs(c, 0);
    var j := ParseValue(c, p).next;
    hide ParseValue;
    assert SkipWs(c, j) == |c|;
    assert j == |c|;
  }

  /** The second attempt can only come up with that object. */
  lemma {:induction false} StripFindsSame(raw: string, d: nat, v: string, members: Arguments, s: string)
    requires ObjectText(v, members) && Embeds(raw, d, v) && s <= raw
    ensures StripBraces(s).Some? ==> StripBraces(s) == Some(Object(members))
  {
    hide Loads;
    if EndsInTwoBraces(s) {
      var c := s[..|s| - 1];
      assert c[|c| - 1] == s[|s| - 2..][0];
      assert c <= raw;
      match Loads(c) {
        case Some(x) =>
          BraceEndLoadsObject(c, x);
          PrefixLoadsSame(raw, d, v, members, c, x);
        case None => StripFindsSame(raw, d, v, members, c);
      }
    }
  }

  lemma {:induction false} RStripPrefix(s: string)
    ensures RStrip(s) <= s
  {
    var b := RStripSplits(s);
  }

  lemma ObjectTextLoads(v: string, members: Arguments)
    requires ObjectText(v, members)
    ensures Loads(v) == Some(Object(members))
  {
    hide ParseValue;
  }

  /** The third attempt cuts out exactly the object when no brace lies outside it. */
  lemma BracketedFinds(a: string, v: string, b: string, members: Arguments)
    requires ObjectText(v, members) && '{' !in a && '}' !in b
    ensures Bracketed(a + v + b) == Some(Object(members))
  {
    hide ParseValue;
    var raw := a + v + b;
    assert Embeds(raw, |a|, v) by { assert raw[..|a|] == a && raw[|a|..|a| + |v|] == v; }
    ReadInPlace(raw, |a|, v, members);
    var first, end := FirstOf(raw, '{'), AfterLastOf(raw, '}');
    assert first == |a| by {
      assert raw[|a|] == '{';
      assert forall i :: 0 <= i < |a| ==> raw[i] == a[i];
    }
    assert end == |a| + |v| by {
      assert raw[|a| + |v| - 1] == '}';
      assert forall i :: 0 <= i < |b| ==> raw[|a| + |v| + i] == b[i];
      assert forall i :: |a| + |v| <= i < |raw| ==> raw[i] == b[i - |a| - |v|];
    }
    assert raw[first..end] == v;
    ObjectTextLoads(v, members);
  }

  /** An object in the middle of other text is recovered, except exactly when the whole text happens to
      be some other JSON value: then the first attempt succeeds and yields no arguments. */
  lemma RepairFindsObject(a: string, v: string, b: string, members: Arguments)
    requires ObjectText(v, members) && '{' !in a && '}' !in b
    ensures var whole := Loads(a + v + b);
            Repair(a + v + b) == if whole.Some? && !whole.value.Object? then map[] else members
  {
    var raw := a + v + b;
    assert Embeds(raw, |a|, v) by { assert raw[..|a|] == a && raw[|a|..|a| + |v|] == v; }
    hide Loads, StripBraces, Bracketed;
    match Loads(raw) {
      case Some(x) =>
        if x.Object? { PrefixLoadsSame(raw, |a|, v, members, raw, x); }
      case None =>
        RStripPrefix(raw);
        StripFindsSame(raw, |a|, v, members, RStrip(raw));
        BracketedFinds(a, v, b, members);
    }
  }

  /** The exception is real: alone inside the brackets of an array every object is lost. */
  lemma ObjectInArrayIsLost(v: string, members: Arguments)
    requires ObjectText(v, members)
    ensures Repair("[" + v + "]") == map[]
  {
    hide ParseValue, StripBraces, Bracketed, Loads, ParseItems, RStrip;
    var raw := "[" + v + "]";
    assert raw[..1] == "[" && raw[1..1 + |v|] == v;
    ReadInPlace(raw, 1, v, members);
    var n := 1 + |v|;
    assert raw[n] == ']';
    assert SkipWs(raw, n) == n && SkipWs(raw, 0) == 0 && SkipWs(raw, 1) == 1;
    ItemsStep(raw, 1, [], Object(members), n);
    assert [] + [Object(members)] == [Object(members)];
    ArrayLoads(raw, Array([Object(members)]));
  }

  lemma ArrayLoads(raw: string, x: Value)
    requires |raw| > 1 && raw[0] == '[' && SkipWs(raw, 1) == 1 && raw[1] != ']'
    requires ParseItems(raw, 1, []) == Parsed(x, |raw|)
    ensures Loads(raw) == Some(x)
  {
    hide ParseItems;
    assert SkipWs(raw, 0) == 0;
  }

  /** Object texts with members exist. */
  lemma NullMember()
    ensures ObjectText("{\"\":null}", map[[] := Null])
  {
    var v := "{\"\":null}";
    assert ParseChars(v, 2, []) == Parsed([], 3);
    assert v[4..8] == "null";
    assert ParseValue(v, 4) == Parsed(Null, 8);
    assert ParseMember(v, 1) == Parsed(Member([], Null), 8);
    MembersStep(v, 1, map[], Member([], Null), 8);
  }

  // ---------- surplus closing braces ----------

  function Braces(k: nat): string {
    if k == 0 then "" else Braces(k - 1) + "}"
  }

  lemma {:induction false} BracesAll(k: nat)
    ensures |Braces(k)| == k && forall i :: 0 <= i < k ==> Braces(k)[i] == '}'
  {
    if k > 0 { BracesAll(k - 1); }
  }

  lemma OneBraceLess(v: string, k: nat)
    requires v != "" && v[|v| - 1] == '}' && k > 0
    ensures var s := v + Braces(k);
            EndsInTwoBraces(s) && s[..|s| - 1] == v + Braces(k - 1)
  {
    BracesAll(k);
    BracesAll(k - 1);
    var s := v + Braces(k);
    assert s[|s| - 2] == '}' && s[|s| - 1] == '}';
    assert s[..|s| - 1] == v + Braces(k - 1);
  }

  lemma {:induction false} StripReachesObject(v: string, members: Arguments, k: nat)
    requires ObjectText(v, members) && k > 0
    ensures StripBraces(v + Braces(k)) == Some(Object(members))
  {
    hide Loads, ParseValue, Braces;
    var s := v + Braces(k);
    assert Embeds(v, 0, v) && Embeds(s, 0, v);
    ReadInPlace(v, 0, v, members);
    OneBraceLess(v, k);
    StripFindsSame(s, 0, v, members, s);
    if k == 1 {
      assert v + Braces(0) == v by { BracesAll(0); }
      ObjectTextLoads(v, members);
    } else {
      StripReachesObject(v, members, k - 1);
    }
  }

  lemma FirstBraceLoadsObject(raw: string, x: Value)
    requires raw != "" && raw[0] == '{' && Loads(raw) == Some(x)
    ensures x.Object?
  {
    hide ParseValue;
    assert SkipWs(raw, 0) == 0;
  }

  lemma RepairPlainObject(v: string, members: Arguments, w: string)
    requires ObjectText(v, members) && AllSpace(w)
    ensures Repair(v + w) == members
  {
    hide Loads, ParseValue;
    assert "" + v + w == v + w;
    RepairFindsObject("", v, w, members);
    if Loads(v + w).Some? {
      FirstBraceLoadsObject(v + w, Loads(v + w).value);
    }
  }

  /** Surplus closing braces and white space behind an object are ignored, however many. */
  lemma RepairDropsSurplusBraces(v: string, members: Arguments, k: nat, w: string)
    requires ObjectText(v, members) && AllSpace(w)
    ensures Repair(v + Braces(k) + w) == members
  {
    hide Loads, StripBraces, ParseValue, Bracketed, Braces;
    var s := v + Braces(k);
    var raw := s + w;
    BracesAll(k);
    if k == 0 {
      assert s == v;
      RepairPlainObject(v, members, w);
    } else {
      assert Embeds(raw, 0, v);
      RStripDropsSpace(s, w);
      StripReachesObject(v, members, k);
      if Loads(raw).Some? {
        FirstBraceLoadsObject(raw, Loads(raw).value);
        PrefixLoadsSame(raw, 0, v, members, raw, Loads(raw).value);
      }
    }
  }
}
