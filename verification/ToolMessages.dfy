/** Preparing a message history for a strict provider: every tool call answered, every answer called for. */
module ToolMessages {
  import opened Prelude

  /** Arguments as they stand in `additional_kwargs`: a JSON text, a dict (known by its dump), or nothing. */
  datatype Arguments = Missing | JsonText(text: string) | Dict(dump: string)

  datatype ToolCall = ToolCall(
    name: string,
    fnName: Option<Option<string>>,   // the "function" entry, if it is a dict, and the name in it
    kind: Option<string>,               // the "type" entry
    id: Option<string>,
    altId: Option<string>,              // the "tool_call_id" entry
    args: Arguments)

  datatype KwCall = KwCall(id: string, hasFunction: bool, name: string, args: Arguments)

  /** `callId` is "" when a tool message carries none. `otherKwargs` is the rest of `additional_kwargs`. */
  datatype Message =
    | AI(content: string, calls: seq<ToolCall>, kwCalls: seq<KwCall>, otherKwargs: string, id: Option<string>)
    | Tool(callId: string, content: string)
    | Other(kind: string, content: string)

  type History = seq<Message>

  // ---------- accessors ----------

  predicate Truthy(s: Option<string>) {
    s.Some? && s.value != ""
  }

  function TcName(c: ToolCall): Option<string> {
    if c.name != "" then Some(c.name)
    else if c.fnName.Some? then c.fnName.value
    else c.kind
  }

  function TcId(c: ToolCall): Option<string> {
    if Truthy(c.id) then c.id else c.altId
  }

  predicate Calls(m: Message) {
    m.AI? && m.calls != []
  }

  /** Ids of the calls that have one. */
  function IdsOf(calls: seq<ToolCall>): set<string> {
    set c | c in calls && Truthy(TcId(c)) :: TcId(c).value
  }

  predicate AllHaveIds(calls: seq<ToolCall>) {
    forall c :: c in calls ==> Truthy(TcId(c))
  }

  function CallIds(ms: History): set<string> {
    if ms == [] then {} else (if Calls(ms[0]) then IdsOf(ms[0].calls) else {}) + CallIds(ms[1..])
  }

  function ResultIds(ms: History): set<string> {
    if ms == [] then {}
    else (if ms[0].Tool? && ms[0].callId != "" then {ms[0].callId} else {}) + ResultIds(ms[1..])
  }

  /** Ids answered by the unbroken block of tool messages at the front. */
  function BlockIds(ms: History): set<string> {
    if ms == [] || !ms[0].Tool? then {}
    else (if ms[0].callId != "" then {ms[0].callId} else {}) + BlockIds(ms[1..])
  }

  // ---------- dropping calls from one message ----------

  const OMITTED := "[도구 호출 생략됨]"
  const DEMOTED := "[도구 호출 짝 부족 — 강등됨]"
  const INVALID := "[잘못된 도구 호출 제거됨]"

  /** A fresh text message in place of one that lost all its calls. */
  function Bare(m: Message, placeholder: string): Message
    requires m.AI?
  {
    AI(if m.content != "" then m.content else placeholder, [], [], "", None)
  }

  function CallsWith(calls: seq<ToolCall>, ids: set<string>): seq<ToolCall> {
    if calls == [] then []
    else
      var keep := Truthy(TcId(calls[0])) && TcId(calls[0]).value in ids;
      (if keep then [calls[0]] else []) + CallsWith(calls[1..], ids)
  }

  function CallsNamed(calls: seq<ToolCall>): seq<ToolCall> {
    if calls == [] then []
    else (if Truthy(TcName(calls[0])) then [calls[0]] else []) + CallsNamed(calls[1..])
  }

  function KwCallsWith(kws: seq<KwCall>, ids: set<Option<string>>): seq<KwCall> {
    if kws == [] then []
    else (if Some(kws[0].id) in ids then [kws[0]] else []) + KwCallsWith(kws[1..], ids)
  }

  /** The message with only the calls in `valid`, its serialised calls cut down to the same ids. */
  function Narrowed(m: Message, valid: seq<ToolCall>, placeholder: string): Message
    requires m.AI?
  {
    if |valid| == |m.calls| then m
    else if valid != [] then
      m.(calls := valid, kwCalls := KwCallsWith(m.kwCalls, set c | c in valid :: TcId(c)))
    else Bare(m, placeholder)
  }

  // ---------- the three passes ----------

  function FilterMessage(m: Message): Message {
    if Calls(m) then Narrowed(m, CallsNamed(m.calls), INVALID) else m
  }

  function FilterInvalid(ms: History): History {
    if ms == [] then [] else [FilterMessage(ms[0])] + FilterInvalid(ms[1..])
  }

  /** First half of sanitising: unanswered calls and uncalled-for answers go. */
  function CleanMessage(m: Message, results: set<string>, called: set<string>): History {
    if Calls(m) then [Narrowed(m, CallsWith(m.calls, results), OMITTED)]
    else if m.Tool? && m.callId != "" && m.callId !in called then []
    else [m]
  }

  function Clean(ms: History, results: set<string>, called: set<string>): History {
    if ms == [] then [] else CleanMessage(ms[0], results, called) + Clean(ms[1..], results, called)
  }

  /** Second half: a message whose calls are not all answered by the block right behind it loses them. */
  function DemoteMessage(m: Message, seen: set<string>): Message {
    if Calls(m) && !(IdsOf(m.calls) <= seen) then Bare(m, DEMOTED) else m
  }

  function Demote(ms: History): History {
    if ms == [] then [] else [DemoteMessage(ms[0], BlockIds(ms[1..]))] + Demote(ms[1..])
  }

  function Cleaned(ms: History): History {
    Clean(ms, ResultIds(ms), CallIds(ms))
  }

  function Sanitize(ms: History): History {
    Demote(Cleaned(ms))
  }

  function Dumped(a: Arguments): Arguments {
    if a.Dict? then JsonText(a.dump) else a
  }

  function DumpKw(k: KwCall): KwCall {
    if k.hasFunction then k.(args := Dumped(k.args)) else k
  }

  function DumpAll(kws: seq<KwCall>): seq<KwCall> {
    if kws == [] then [] else [DumpKw(kws[0])] + DumpAll(kws[1..])
  }

  function KwFromCall(c: ToolCall): KwCall {
    KwCall(if c.id.Some? then c.id.value else "", true, c.name,
           match c.args case Missing => JsonText("{}") case JsonText(t) => JsonText(t) case Dict(d) => JsonText(d))
  }

  function KwFromCalls(calls: seq<ToolCall>): seq<KwCall> {
    if calls == [] then [] else [KwFromCall(calls[0])] + KwFromCalls(calls[1..])
  }

  function SerializableMessage(m: Message): Message {
    if !Calls(m) then m
    else if m.kwCalls != [] then m.(kwCalls := DumpAll(m.kwCalls))
    else m.(kwCalls := KwFromCalls(m.calls))
  }

  function EnsureSerializable(ms: History): History {
    if ms == [] then [] else [SerializableMessage(ms[0])] + EnsureSerializable(ms[1..])
  }

  function Prepare(ms: History): History {
    EnsureSerializable(Sanitize(FilterInvalid(ms)))
  }

  // ---------- pairing ----------

  /** Every message with calls has ids on all of them, all answered by the unbroken block behind it. */
  ghost predicate Covered(ms: History) {
    ms != [] ==>
      && (Calls(ms[0]) ==> AllHaveIds(ms[0].calls) && IdsOf(ms[0].calls) <= BlockIds(ms[1..]))
      && Covered(ms[1..])
  }

  /** Every tool message that names a call names one made in the history. */
  ghost predicate NoOrphans(ms: History, called: set<string>) {
    forall k :: 0 <= k < |ms| && ms[k].Tool? && ms[k].callId != "" ==> ms[k].callId in called
  }

  ghost predicate WellPaired(ms: History) {
    Covered(ms) && NoOrphans(ms, CallIds(ms))
  }

  /** Tool messages that name a call outside `called` dropped, everything else kept. */
  function DropOrphans(ms: History, called: set<string>): History {
    if ms == [] then []
    else (if ms[0].Tool? && ms[0].callId != "" && ms[0].callId !in called then [] else [ms[0]]) + DropOrphans(ms[1..], called)
  }

  lemma {:induction false} BlockIdsAreResults(ms: History)
    ensures BlockIds(ms) <= ResultIds(ms)
  {
    if ms != [] {
      BlockIdsAreResults(ms[1..]);
    }
  }

  lemma IdsOfCons(c: ToolCall, rest: seq<ToolCall>)
    ensures IdsOf([c] + rest) == (if Truthy(TcId(c)) then {TcId(c).value} else {}) + IdsOf(rest)
    ensures AllHaveIds([c] + rest) <==> Truthy(TcId(c)) && AllHaveIds(rest)
  {
    var both := [c] + rest;
    assert forall d :: d in both <==> d == c || d in rest;
    forall x | x in IdsOf(rest) ensures x in IdsOf(both) {
      var d :| d in rest && Truthy(TcId(d)) && TcId(d).value == x;
      assert d in both;
    }
    assert c in both;
  }

  lemma {:induction false} CallsWithIds(calls: seq<ToolCall>, ids: set<string>)
    ensures AllHaveIds(CallsWith(calls, ids)) && IdsOf(CallsWith(calls, ids)) == IdsOf(calls) * ids
  {
    if calls != [] {
      hide AllHaveIds, IdsOf;
      var c, rest := calls[0], CallsWith(calls[1..], ids);
      CallsWithIds(calls[1..], ids);
      assert calls == [c] + calls[1..];
      IdsOfCons(c, calls[1..]);
      IdsOfCons(c, rest);
      assert CallsWith(calls, ids) == if Truthy(TcId(c)) && TcId(c).value in ids then [c] + rest else rest;
    } else {
      assert IdsOf(calls) == {};
    }
  }

  lemma {:induction false} CallsWithLength(calls: seq<ToolCall>, ids: set<string>)
    ensures var v := CallsWith(calls, ids);
            |v| <= |calls| && (|v| == |calls| ==> v == calls) && forall c :: c in v ==> c in calls
  {
    if calls != [] {
      CallsWithLength(calls[1..], ids);
      assert calls == [calls[0]] + calls[1..];
    }
  }

  lemma {:induction false} CallsWithAll(calls: seq<ToolCall>, ids: set<string>)
    requires AllHaveIds(calls) && IdsOf(calls) <= ids
    ensures CallsWith(calls, ids) == calls
  {
    if calls != [] {
      assert calls == [calls[0]] + calls[1..];
      IdsOfCons(calls[0], calls[1..]);
      CallsWithAll(calls[1..], ids);
    }
  }

  /** Keeping the calls with given ids keeps the answered ones, and all of them if all are answered. */
  lemma CallsWithProps(calls: seq<ToolCall>, ids: set<string>)
    ensures var v := CallsWith(calls, ids);
            && AllHaveIds(v) && IdsOf(v) == IdsOf(calls) * ids && |v| <= |calls|
            && (|v| == |calls| ==> v == calls)
            && (AllHaveIds(calls) && IdsOf(calls) <= ids ==> v == calls)
            && (forall c :: c in v ==> c in calls)
  {
    CallsWithIds(calls, ids);
    CallsWithLength(calls, ids);
    if AllHaveIds(calls) && IdsOf(calls) <= ids {
      CallsWithAll(calls, ids);
    }
  }

  lemma {:induction false} BlockOfDemoted(ms: History)
    ensures BlockIds(Demote(ms)) == BlockIds(ms)
  {
    if ms != [] {
      assert Demote(ms)[1..] == Demote(ms[1..]);
      BlockOfDemoted(ms[1..]);
    }
  }

  ghost predicate IdsEverywhere(ms: History) {
    forall k :: 0 <= k < |ms| && Calls(ms[k]) ==> AllHaveIds(ms[k].calls)
  }

  lemma {:induction false} DemoteCovers(ms: History)
    requires IdsEverywhere(ms)
    ensures Covered(Demote(ms))
  {
    if ms != [] {
      assert Demote(ms)[1..] == Demote(ms[1..]);
      assert forall k :: 0 <= k < |ms[1..]| ==> ms[1..][k] == ms[k + 1];
      DemoteCovers(ms[1..]);
      BlockOfDemoted(ms[1..]);
    }
  }

  lemma {:induction false} DemoteFixes(ms: History)
    requires Covered(ms)
    ensures Demote(ms) == ms
  {
    if ms != [] {
      DemoteFixes(ms[1..]);
    }
  }

  lemma CallIdsOfCons(m: Message, rest: History)
    requires IdsEverywhere(rest) && (Calls(m) ==> AllHaveIds(m.calls))
    ensures IdsEverywhere([m] + rest)
    ensures CallIds([m] + rest) == (if Calls(m) then IdsOf(m.calls) else {}) + CallIds(rest)
  {
    hide AllHaveIds, IdsOf;
    assert ([m] + rest)[1..] == rest;
  }

  lemma NarrowedIds(m: Message, results: set<string>)
    requires Calls(m)
    ensures var n := Narrowed(m, CallsWith(m.calls, results), OMITTED);
            && (Calls(n) ==> AllHaveIds(n.calls))
            && (if Calls(n) then IdsOf(n.calls) else {}) == IdsOf(m.calls) * results
  {
    hide AllHaveIds, IdsOf, KwCallsWith;
    CallsWithProps(m.calls, results);
    assert IdsOf([]) == {} by { NoIds(); }
  }

  lemma NoIds()
    ensures IdsOf([]) == {}
  {
  }

  lemma {:induction false} CleanHasIds(ms: History, results: set<string>, called: set<string>)
    ensures IdsEverywhere(Clean(ms, results, called))
    ensures CallIds(Clean(ms, results, called)) == CallIds(ms) * results
  {
    hide IdsEverywhere, Narrowed, IdsOf, AllHaveIds;
    if ms == [] {
      assert IdsEverywhere([]) by { NothingLacksIds(); }
    } else {
      var m, rest := ms[0], Clean(ms[1..], results, called);
      CleanHasIds(ms[1..], results, called);
      if Calls(m) {
        NarrowedIds(m, results);
        CallIdsOfCons(Narrowed(m, CallsWith(m.calls, results), OMITTED), rest);
      } else if m.Tool? && m.callId != "" && m.callId !in called {
        assert Clean(ms, results, called) == rest;
      } else {
        CallIdsOfCons(m, rest);
      }
    }
  }

  lemma NothingLacksIds()
    ensures IdsEverywhere([])
  {
  }

  /** Sanitising covers every call, whatever it is given. */
  lemma SanitizeCovers(ms: History)
    ensures Covered(Sanitize(ms))
  {
    CleanHasIds(ms, ResultIds(ms), CallIds(ms));
    DemoteCovers(Cleaned(ms));
  }

  /** On covered histories the first half only drops orphans. */
  lemma {:induction false} CleanOfCovered(ms: History, results: set<string>, called: set<string>)
    requires Covered(ms) && ResultIds(ms) <= results
    ensures Clean(ms, results, called) == DropOrphans(ms, called)
  {
    if ms != [] {
      CleanOfCovered(ms[1..], results, called);
      if Calls(ms[0]) {
        BlockIdsAreResults(ms[1..]);
        CallsWithProps(ms[0].calls, results);
      }
    }
  }

  lemma {:induction false} DropKeepsPairing(ms: History, called: set<string>)
    requires Covered(ms) && CallIds(ms) <= called
    ensures var d := DropOrphans(ms, called);
            && Covered(d) && CallIds(d) == CallIds(ms) && NoOrphans(d, called)
            && BlockIds(d) == BlockIds(ms) * called
  {
    if ms != [] {
      var rest := DropOrphans(ms[1..], called);
      DropKeepsPairing(ms[1..], called);
      if !(ms[0].Tool? && ms[0].callId != "" && ms[0].callId !in called) {
        assert DropOrphans(ms, called) == [ms[0]] + rest;
        assert ([ms[0]] + rest)[1..] == rest;
      } else {
        assert DropOrphans(ms, called) == rest;
      }
    }
  }

  lemma {:induction false} DropNothing(ms: History, called: set<string>)
    ensures |DropOrphans(ms, called)| <= |ms|
    ensures NoOrphans(ms, called) <==> DropOrphans(ms, called) == ms
    ensures NoOrphans(ms, called) <==> |DropOrphans(ms, called)| == |ms|
  {
    if ms != [] {
      DropNothing(ms[1..], called);
      assert NoOrphans(ms, called) <==>
             !(ms[0].Tool? && ms[0].callId != "" && ms[0].callId !in called) && NoOrphans(ms[1..], called) by {
        assert forall k :: 0 <= k < |ms[1..]| ==> ms[1..][k] == ms[k + 1];
        assert forall k :: 1 <= k < |ms| ==> ms[k] == ms[1..][k - 1];
      }
    }
  }

  /** The second pass deletes exactly the orphans the first one left. */
  lemma SecondPassDropsOrphans(ms: History)
    ensures var r := Sanitize(ms); Sanitize(r) == DropOrphans(r, CallIds(r))
  {
    var r := Sanitize(ms);
    SanitizeCovers(ms);
    CleanOfCovered(r, ResultIds(r), CallIds(r));
    DropKeepsPairing(r, CallIds(r));
    DemoteFixes(DropOrphans(r, CallIds(r)));
  }

  /** Two passes pair everything, and a third changes nothing. */
  lemma TwoPassesConverge(ms: History)
    ensures WellPaired(Sanitize(Sanitize(ms)))
    ensures Sanitize(Sanitize(Sanitize(ms))) == Sanitize(Sanitize(ms))
  {
    var r := Sanitize(ms);
    SanitizeCovers(ms);
    SecondPassDropsOrphans(ms);
    DropKeepsPairing(r, CallIds(r));
    WellPairedIsFixed(Sanitize(r));
  }

  lemma WellPairedIsFixed(ms: History)
    requires WellPaired(ms)
    ensures Sanitize(ms) == ms
  {
    CleanOfCovered(ms, ResultIds(ms), CallIds(ms));
    DropNothing(ms, CallIds(ms));
    DemoteFixes(ms);
  }

  lemma {:induction false} DemoteKeepsLength(ms: History)
    ensures |Demote(ms)| == |ms|
  {
    if ms != [] {
      DemoteKeepsLength(ms[1..]);
    }
  }

  lemma {:induction false} CleanLength(ms: History, results: set<string>, called: set<string>)
    ensures |Clean(ms, results, called)| == |DropOrphans(ms, called)|
  {
    if ms != [] {
      CleanLength(ms[1..], results, called);
    }
  }

  /** The histories sanitising leaves alone are exactly the well-paired ones. */
  lemma FixedIffWellPaired(ms: History)
    ensures Sanitize(ms) == ms <==> WellPaired(ms)
  {
    if WellPaired(ms) {
      WellPairedIsFixed(ms);
    } else if Sanitize(ms) == ms {
      SanitizeCovers(ms);
      DemoteKeepsLength(Cleaned(ms));
      CleanLength(ms, ResultIds(ms), CallIds(ms));
      DropNothing(ms, CallIds(ms));
      assert false;
    }
  }

  // ---------- what one pass can leave behind ----------

  lemma {:induction false} ToolsAfterClean(ms: History, results: set<string>, called: set<string>)
    ensures ResultIds(Clean(ms, results, called)) == ResultIds(ms) * called
  {
    if ms != [] {
      var rest := Clean(ms[1..], results, called);
      ToolsAfterClean(ms[1..], results, called);
      if ms[0].Tool? && ms[0].callId != "" && ms[0].callId !in called {
        assert Clean(ms, results, called) == rest;
      } else {
        var c := Clean(ms, results, called);
        assert c[1..] == rest && c[0].Tool? == ms[0].Tool? && (ms[0].Tool? ==> c[0] == ms[0]);
      }
    }
  }

  lemma {:induction false} DemoteIds(ms: History)
    ensures ResultIds(Demote(ms)) == ResultIds(ms) && CallIds(Demote(ms)) <= CallIds(ms)
  {
    if ms != [] {
      assert Demote(ms)[1..] == Demote(ms[1..]);
      DemoteIds(ms[1..]);
    }
  }

  lemma {:induction false} NoOrphansIffIds(ms: History, called: set<string>)
    ensures NoOrphans(ms, called) <==> ResultIds(ms) <= called
  {
    if ms != [] {
      NoOrphansIffIds(ms[1..], called);
      DropNothing(ms, called);
      DropNothing(ms[1..], called);
    }
  }

  /** What the first pass leaves orphaned are answers to calls it demoted: the id was called for in the
      input, survived the first half, and is gone only because no message carrying it was fully answered. */
  lemma OrphansComeFromDemotion(ms: History, k: nat)
    requires k < |Sanitize(ms)| && Sanitize(ms)[k].Tool? && Sanitize(ms)[k].callId != ""
    requires Sanitize(ms)[k].callId !in CallIds(Sanitize(ms))
    ensures Sanitize(ms)[k].callId in CallIds(ms) && Sanitize(ms)[k].callId in CallIds(Cleaned(ms))
  {
    var x := Sanitize(ms)[k].callId;
    NoOrphansIffIds(Sanitize(ms), ResultIds(Sanitize(ms)));
    DemoteIds(Cleaned(ms));
    ToolsAfterClean(ms, ResultIds(ms), CallIds(ms));
    CleanHasIds(ms, ResultIds(ms), CallIds(ms));
  }

  /** Some message calling for `x` has all its answered calls answered in the unbroken block behind it. */
  ghost predicate AnsweredAtOnce(ms: History, results: set<string>, x: string) {
    exists k :: 0 <= k < |ms| && Calls(ms[k]) && x in IdsOf(ms[k].calls) * results
                && IdsOf(ms[k].calls) * results <= BlockIds(ms[k + 1..])
  }

  lemma {:induction false} BlockOfClean(ms: History, results: set<string>, called: set<string>)
    ensures BlockIds(Clean(ms, results, called)) == BlockIds(ms) * called
  {
    if ms != [] {
      var rest := Clean(ms[1..], results, called);
      BlockOfClean(ms[1..], results, called);
      if ms[0].Tool? && ms[0].callId != "" && ms[0].callId !in called {
        assert Clean(ms, results, called) == rest;
      } else {
        var c := Clean(ms, results, called);
        assert c[1..] == rest && c[0].Tool? == ms[0].Tool? && (ms[0].Tool? ==> c[0] == ms[0]);
      }
    }
  }

  lemma AnsweredStep(ms: History, results: set<string>, x: string)
    requires ms != []
    ensures AnsweredAtOnce(ms, results, x) <==>
            || (Calls(ms[0]) && x in IdsOf(ms[0].calls) * results && IdsOf(ms[0].calls) * results <= BlockIds(ms[1..]))
            || AnsweredAtOnce(ms[1..], results, x)
  {
    hide IdsOf, BlockIds;
    forall k | 0 <= k < |ms[1..]| ensures ms[1..][k] == ms[k + 1] && ms[1..][k + 1..] == ms[k + 2..] {
    }
    if k :| 0 <= k < |ms| && Calls(ms[k]) && x in IdsOf(ms[k].calls) * results
            && IdsOf(ms[k].calls) * results <= BlockIds(ms[k + 1..]) {
      if k > 0 {
        assert ms[1..][k - 1] == ms[k] && ms[1..][(k - 1) + 1..] == ms[k + 1..];
      }
    }
    if k :| 0 <= k < |ms[1..]| && Calls(ms[1..][k]) && x in IdsOf(ms[1..][k].calls) * results
            && IdsOf(ms[1..][k].calls) * results <= BlockIds(ms[1..][k + 1..]) {
      assert ms[k + 1] == ms[1..][k] && ms[(k + 1) + 1..] == ms[1..][k + 1..];
    }
  }

  lemma DemotedHead(m: Message, results: set<string>, rest: History, seen: set<string>)
    requires Calls(m)
    ensures var n := DemoteMessage(Narrowed(m, CallsWith(m.calls, results), OMITTED), seen);
            CallIds([n] + rest) == (if IdsOf(m.calls) * results <= seen then IdsOf(m.calls) * results else {}) + CallIds(rest)
  {
    hide IdsOf, CallsWith, Narrowed;
    NarrowedIds(m, results);
    var n := DemoteMessage(Narrowed(m, CallsWith(m.calls, results), OMITTED), seen);
    assert ([n] + rest)[1..] == rest;
  }

  lemma UncalledHead(m: Message, rest: History)
    requires !Calls(m)
    ensures CallIds([m] + rest) == CallIds(rest)
  {
    assert ([m] + rest)[1..] == rest;
  }

  /** Which call ids one pass keeps, read off its input. */
  lemma {:induction false} KeptIds(ms: History, results: set<string>, called: set<string>, x: string)
    requires CallIds(ms) <= called
    ensures x in CallIds(Demote(Clean(ms, results, called))) <==> AnsweredAtOnce(ms, results, x)
  {
    hide IdsOf, BlockIds, AnsweredAtOnce, Narrowed, CallsWith, DemoteMessage;
    if ms == [] {
      assert !AnsweredAtOnce(ms, results, x) by { NothingAnswered(results, x); }
    } else {
      var m, rest := ms[0], Clean(ms[1..], results, called);
      KeptIds(ms[1..], results, called, x);
      AnsweredStep(ms, results, x);
      BlockOfClean(ms[1..], results, called);
      if Calls(m) {
        var n := Narrowed(m, CallsWith(m.calls, results), OMITTED);
        assert Clean(ms, results, called) == [n] + rest;
        assert ([n] + rest)[1..] == rest;
        DemotedHead(m, results, Demote(rest), BlockIds(rest));
        assert IdsOf(m.calls) * results <= BlockIds(rest) <==> IdsOf(m.calls) * results <= BlockIds(ms[1..]);
      } else if m.Tool? && m.callId != "" && m.callId !in called {
        assert Clean(ms, results, called) == rest;
      } else {
        assert Clean(ms, results, called) == [m] + rest;
        assert ([m] + rest)[1..] == rest;
        assert DemoteMessage(m, BlockIds(rest)) == m by { NothingToDemote(m, BlockIds(rest)); }
        UncalledHead(m, Demote(rest));
      }
    }
  }

  lemma NothingAnswered(results: set<string>, x: string)
    ensures !AnsweredAtOnce([], results, x)
  {
  }

  lemma NothingToDemote(m: Message, seen: set<string>)
    requires !Calls(m)
    ensures DemoteMessage(m, seen) == m
  {
  }

  /** No call id gets lost: whatever is both called for and answered somewhere is answered at once for some caller. */
  ghost predicate NoAnswerAstray(ms: History) {
    forall x :: x in CallIds(ms) && x in ResultIds(ms) ==> AnsweredAtOnce(ms, ResultIds(ms), x)
  }

  lemma OnePassLosesNothing(ms: History)
    ensures WellPaired(Sanitize(ms)) <==> CallIds(Sanitize(ms)) == CallIds(Cleaned(ms))
  {
    SanitizeCovers(ms);
    NoOrphansIffIds(Sanitize(ms), CallIds(Sanitize(ms)));
    DemoteIds(Cleaned(ms));
    ToolsAfterClean(ms, ResultIds(ms), CallIds(ms));
    CleanHasIds(ms, ResultIds(ms), CallIds(ms));
  }

  /** One pass is enough exactly when every id that is called for and answered in the input has a caller
      whose answered calls are all answered in the unbroken block right behind it. */
  lemma OnePassEnoughIff(ms: History)
    ensures WellPaired(Sanitize(ms)) <==> NoAnswerAstray(ms)
  {
    hide WellPaired, Demote, Clean, AnsweredAtOnce;
    OnePassLosesNothing(ms);
    CleanHasIds(ms, ResultIds(ms), CallIds(ms));
    DemoteIds(Cleaned(ms));
    forall x ensures x in CallIds(Sanitize(ms)) <==> AnsweredAtOnce(ms, ResultIds(ms), x) {
      KeptIds(ms, ResultIds(ms), CallIds(ms), x);
    }
  }

  /** It is not always enough: an answer separated from its call by another message stays as an orphan. */
  lemma OnePassCanLeaveOrphan(c: ToolCall, human: Message, text: string)
    requires Truthy(TcId(c)) && human.Other?
    ensures var x := TcId(c).value;
            var ms := [AI(text, [c], [], "", None), human, Tool(x, text)];
            && Sanitize(ms) == [Bare(ms[0], DEMOTED), human, Tool(x, text)]
            && !WellPaired(Sanitize(ms))
            && Sanitize(Sanitize(ms)) == [Bare(ms[0], DEMOTED), human]
  {
    var x := TcId(c).value;
    var ai, tool := AI(text, [c], [], "", None), Tool(x, text);
    var ms := [ai, human, tool];
    assert IdsOf([c]) == {x} by { assert c in [c]; }
    ThreeIds(ai, human, tool);
    assert CallsWith([c], {x}) == [c];
    ThreeClean(ai, human, tool, {x}, {x});
    assert Cleaned(ms) == ms;
    ThreeDemote(ai, human, tool);
    var r := [Bare(ai, DEMOTED), human, tool];
    assert Sanitize(ms) == r;
    ThreeIds(r[0], human, tool);
    assert CallIds(r) == {};
    assert r[2].Tool? && r[2].callId !in CallIds(r);
    SecondPassDropsOrphans(ms);
    assert DropOrphans(r, {}) == [r[0], human] by {
      assert r[1..] == [human, tool] && [human, tool][1..] == [tool];
      OneTool(tool, {}, {});
      assert DropOrphans([human, tool], {}) == [human];
    }
  }

  lemma ThreeIds(a: Message, b: Message, t: Message)
    requires a.AI? && b.Other? && t.Tool? && t.callId != ""
    ensures CallIds([a, b, t]) == if a.calls == [] then {} else IdsOf(a.calls)
    ensures ResultIds([a, b, t]) == {t.callId}
    ensures BlockIds([b, t]) == {}
  {
    assert [a, b, t][1..] == [b, t] && [b, t][1..] == [t];
    OneTool(t, {}, {});
    assert CallIds([b, t]) == {} && ResultIds([b, t]) == {t.callId};
  }

  lemma OneTool(t: Message, results: set<string>, called: set<string>)
    requires t.Tool?
    ensures CallIds([t]) == {} && ResultIds([t]) == (if t.callId != "" then {t.callId} else {})
    ensures Demote([t]) == [t]
    ensures t.callId in called ==> Clean([t], results, called) == [t]
    ensures t.callId != "" && t.callId !in called ==> DropOrphans([t], called) == []
  {
    assert [t][1..] == [];
  }

  lemma ThreeClean(a: Message, b: Message, t: Message, results: set<string>, called: set<string>)
    requires a.AI? && a.calls != [] && CallsWith(a.calls, results) == a.calls
    requires b.Other? && t.Tool? && t.callId in called
    ensures Clean([a, b, t], results, called) == [a, b, t]
  {
    assert [a, b, t][1..] == [b, t] && [b, t][1..] == [t];
    OneTool(t, results, called);
    assert Clean([b, t], results, called) == [b, t];
  }

  lemma ThreeDemote(a: Message, b: Message, t: Message)
    requires a.AI? && a.calls != [] && IdsOf(a.calls) != {} && b.Other? && t.Tool?
    ensures Demote([a, b, t]) == [Bare(a, DEMOTED), b, t]
  {
    assert [a, b, t][1..] == [b, t] && [b, t][1..] == [t];
    OneTool(t, {}, {});
    assert Demote([b, t]) == [b, t];
    assert BlockIds([b, t]) == {};
  }
}
