/** The whole preparation pipeline: what its result promises, and the list-building loops that compute it. */
module PrepareMessages {
  import opened Prelude
  import opened ToolMessages

  // ---------- what survives ----------

  function NonTool(ms: History): History {
    if ms == [] then [] else (if ms[0].Tool? then [] else [ms[0]]) + NonTool(ms[1..])
  }

  /** `a` is what is left of `b` after dropping some elements; the rest keeps its order. */
  predicate LeftOf<T(==)>(a: seq<T>, b: seq<T>) {
    a == [] || (b != [] && ((a[0] == b[0] && LeftOf(a[1..], b[1..])) || LeftOf(a, b[1..])))
  }

  /** A message may lose calls. One that keeps some is otherwise unchanged but for its serialised calls; one
      that loses them all becomes plain text, with a placeholder if it had none. Nothing else changes. */
  ghost predicate Keeps(m: Message, m': Message) {
    if !Calls(m) then m' == m
    else
      && m'.AI? && LeftOf(m'.calls, m.calls)
      && (m.content != "" ==> m'.content == m.content)
      && if m'.calls == [] then m' == AI(m'.content, [], [], "", None)
         else m' == m.(calls := m'.calls, kwCalls := m'.kwCalls)
  }

  lemma {:induction false} LeftOfSelf<T>(a: seq<T>)
    ensures LeftOf(a, a)
  {
    if a != [] { LeftOfSelf(a[1..]); }
  }

  lemma {:induction false} LeftOfTrans<T>(a: seq<T>, b: seq<T>, c: seq<T>)
    requires LeftOf(a, b) && LeftOf(b, c)
    ensures LeftOf(a, c)
    decreases |c|
  {
    if a != [] {
      if b[0] == c[0] && LeftOf(b[1..], c[1..]) {
        if a[0] == b[0] && LeftOf(a[1..], b[1..]) {
          LeftOfTrans(a[1..], b[1..], c[1..]);
        } else {
          LeftOfTrans(a, b[1..], c[1..]);
        }
      } else {
        LeftOfTrans(a, b, c[1..]);
      }
    }
  }

  lemma {:induction false} NamedLeft(calls: seq<ToolCall>)
    ensures LeftOf(CallsNamed(calls), calls)
  {
    if calls != [] {
      NamedLeft(calls[1..]);
      var rest := CallsNamed(calls[1..]);
      assert ([calls[0]] + rest)[1..] == rest;
      assert [] + rest == rest;
    }
  }

  lemma {:induction false} AnsweredLeft(calls: seq<ToolCall>, ids: set<string>)
    ensures LeftOf(CallsWith(calls, ids), calls)
  {
    if calls != [] {
      AnsweredLeft(calls[1..], ids);
      var rest := CallsWith(calls[1..], ids);
      assert ([calls[0]] + rest)[1..] == rest;
      assert [] + rest == rest;
    }
  }

  lemma KeepsTrans(a: Message, b: Message, c: Message)
    requires Keeps(a, b) && Keeps(b, c)
    ensures Keeps(a, c)
  {
    hide LeftOf;
    if Calls(a) && Calls(b) {
      LeftOfTrans(c.calls, b.calls, a.calls);
    }
  }

  lemma NarrowedKept(m: Message, valid: seq<ToolCall>, placeholder: string)
    requires Calls(m) && LeftOf(valid, m.calls) && (|valid| == |m.calls| ==> valid == m.calls)
    ensures Keeps(m, Narrowed(m, valid, placeholder))
  {
    hide LeftOf, KwCallsWith;
    LeftOfSelf(m.calls);
    assert LeftOf([], m.calls) by { LeftOfNothing(m.calls); }
  }

  lemma LeftOfNothing<T>(b: seq<T>)
    ensures LeftOf([], b)
  {
  }

  lemma DemotedKept(m: Message, seen: set<string>)
    ensures Keeps(m, DemoteMessage(m, seen))
  {
    hide LeftOf, IdsOf;
    if Calls(m) {
      LeftOfSelf(m.calls);
      LeftOfNothing(m.calls);
    }
  }

  lemma SerializedKept(m: Message)
    ensures Keeps(m, SerializableMessage(m))
  {
    hide LeftOf, DumpAll, KwFromCalls;
    if Calls(m) { LeftOfSelf(m.calls); }
  }

  ghost predicate KeepsAll(ms: History, ms': History) {
    |ms| == |ms'| && forall k :: 0 <= k < |ms| ==> Keeps(ms[k], ms'[k])
  }

  lemma KeepsAllTrans(a: History, b: History, c: History)
    requires KeepsAll(a, b) && KeepsAll(b, c)
    ensures KeepsAll(a, c)
  {
    hide Keeps;
    forall k | 0 <= k < |a| ensures Keeps(a[k], c[k]) {
      KeepsTrans(a[k], b[k], c[k]);
    }
  }

  lemma KeepsAllCons(m: Message, m': Message, a: History, b: History)
    requires Keeps(m, m') && KeepsAll(a, b)
    ensures KeepsAll([m] + a, [m'] + b)
  {
    hide Keeps;
  }

  lemma {:induction false} CallsNamedProps(calls: seq<ToolCall>)
    ensures var v := CallsNamed(calls);
            && |v| <= |calls| && (|v| == |calls| ==> v == calls)
            && (forall c :: c in v ==> c in calls && Truthy(TcName(c)))
            && ((forall c :: c in calls ==> Truthy(TcName(c))) ==> v == calls)
  {
    if calls != [] {
      CallsNamedProps(calls[1..]);
      assert calls == [calls[0]] + calls[1..];
    }
  }

  lemma {:induction false} FilterKeeps(ms: History)
    ensures KeepsAll(NonTool(ms), NonTool(FilterInvalid(ms)))
  {
    if ms != [] {
      FilterKeeps(ms[1..]);
      var m, rest := FilterInvalid(ms)[0], FilterInvalid(ms[1..]);
      assert FilterInvalid(ms)[1..] == rest;
      if !ms[0].Tool? {
        if Calls(ms[0]) {
          CallsNamedProps(ms[0].calls);
          NamedLeft(ms[0].calls);
          NarrowedKept(ms[0], CallsNamed(ms[0].calls), INVALID);
        }
        KeepsAllCons(ms[0], m, NonTool(ms[1..]), NonTool(rest));
      }
    }
  }

  lemma {:induction false} CleanKeeps(ms: History, results: set<string>, called: set<string>)
    ensures KeepsAll(NonTool(ms), NonTool(Clean(ms, results, called)))
  {
    if ms != [] {
      CleanKeeps(ms[1..], results, called);
      var out, rest := Clean(ms, results, called), Clean(ms[1..], results, called);
      if ms[0].Tool? {
        assert out == rest || (out == [ms[0]] + rest && out[1..] == rest);
      } else {
        if Calls(ms[0]) {
          CallsWithProps(ms[0].calls, results);
          AnsweredLeft(ms[0].calls, results);
          NarrowedKept(ms[0], CallsWith(ms[0].calls, results), OMITTED);
        }
        assert out[1..] == rest;
        KeepsAllCons(ms[0], out[0], NonTool(ms[1..]), NonTool(rest));
      }
    }
  }

  lemma {:induction false} DemoteKeeps(ms: History)
    ensures KeepsAll(NonTool(ms), NonTool(Demote(ms)))
  {
    if ms != [] {
      DemoteKeeps(ms[1..]);
      assert Demote(ms)[1..] == Demote(ms[1..]);
      if !ms[0].Tool? {
        DemotedKept(ms[0], BlockIds(ms[1..]));
        KeepsAllCons(ms[0], Demote(ms)[0], NonTool(ms[1..]), NonTool(Demote(ms[1..])));
      }
    }
  }

  lemma {:induction false} EnsureKeeps(ms: History)
    ensures KeepsAll(NonTool(ms), NonTool(EnsureSerializable(ms)))
  {
    if ms != [] {
      EnsureKeeps(ms[1..]);
      assert EnsureSerializable(ms)[1..] == EnsureSerializable(ms[1..]);
      if !ms[0].Tool? {
        SerializedKept(ms[0]);
        KeepsAllCons(ms[0], SerializableMessage(ms[0]), NonTool(ms[1..]), NonTool(EnsureSerializable(ms[1..])));
      }
    }
  }

  /** Every message that is not a tool result survives preparation, in order, with its content, its id and its
      other kwargs; assistant messages only lose calls, and the kept calls keep their order. */
  lemma PrepareKeepsMessages(ms: History)
    ensures KeepsAll(NonTool(ms), NonTool(Prepare(ms)))
  {
    var f := FilterInvalid(ms);
    var c := Cleaned(f);
    FilterKeeps(ms);
    CleanKeeps(f, ResultIds(f), CallIds(f));
    KeepsAllTrans(NonTool(ms), NonTool(f), NonTool(c));
    DemoteKeeps(c);
    KeepsAllTrans(NonTool(ms), NonTool(c), NonTool(Demote(c)));
    EnsureKeeps(Demote(c));
    KeepsAllTrans(NonTool(ms), NonTool(Demote(c)), NonTool(Prepare(ms)));
  }

  // ---------- pairing and names ----------

  ghost predicate AllNamed(ms: History) {
    forall k :: 0 <= k < |ms| && Calls(ms[k]) ==> forall c :: c in ms[k].calls ==> Truthy(TcName(c))
  }

  lemma {:induction false} EnsurePairing(ms: History)
    ensures BlockIds(EnsureSerializable(ms)) == BlockIds(ms)
    ensures Covered(EnsureSerializable(ms)) <==> Covered(ms)
  {
    if ms != [] {
      EnsurePairing(ms[1..]);
      assert EnsureSerializable(ms)[1..] == EnsureSerializable(ms[1..]);
    }
  }

  lemma AllNamedStep(ms: History)
    requires ms != []
    ensures AllNamed(ms) <==> (Calls(ms[0]) ==> forall c :: c in ms[0].calls ==> Truthy(TcName(c))) && AllNamed(ms[1..])
  {
    assert forall k :: 0 <= k < |ms[1..]| ==> ms[1..][k] == ms[k + 1];
    assert forall k :: 1 <= k < |ms| ==> ms[k] == ms[1..][k - 1];
  }

  lemma {:induction false} FilterNames(ms: History)
    ensures AllNamed(FilterInvalid(ms))
    ensures AllNamed(ms) ==> FilterInvalid(ms) == ms
  {
    if ms != [] {
      FilterNames(ms[1..]);
      AllNamedStep(ms);
      AllNamedStep(FilterInvalid(ms));
      assert FilterInvalid(ms)[1..] == FilterInvalid(ms[1..]);
      if Calls(ms[0]) { CallsNamedProps(ms[0].calls); }
    }
  }

  lemma {:induction false} CleanNames(ms: History, results: set<string>, called: set<string>)
    requires AllNamed(ms)
    ensures AllNamed(Clean(ms, results, called))
  {
    if ms != [] {
      AllNamedStep(ms);
      CleanNames(ms[1..], results, called);
      var out, rest := Clean(ms, results, called), Clean(ms[1..], results, called);
      if Calls(ms[0]) { CallsWithProps(ms[0].calls, results); }
      if out != rest {
        assert out[1..] == rest;
        AllNamedStep(out);
      }
    }
  }

  lemma {:induction false} LaterNames(ms: History)
    requires AllNamed(ms)
    ensures AllNamed(Demote(ms)) && AllNamed(EnsureSerializable(ms))
  {
    if ms != [] {
      AllNamedStep(ms);
      LaterNames(ms[1..]);
      AllNamedStep(Demote(ms));
      AllNamedStep(EnsureSerializable(ms));
      assert Demote(ms)[1..] == Demote(ms[1..]);
      assert EnsureSerializable(ms)[1..] == EnsureSerializable(ms[1..]);
    }
  }

  /** After preparation every call has a name and an id, and an answer in the unbroken block right behind it. */
  lemma PreparePairs(ms: History)
    ensures Covered(Prepare(ms)) && AllNamed(Prepare(ms))
  {
    var f := FilterInvalid(ms);
    SanitizeCovers(f);
    EnsurePairing(Sanitize(f));
    FilterNames(ms);
    CleanNames(f, ResultIds(f), CallIds(f));
    LaterNames(Cleaned(f));
    LaterNames(Sanitize(f));
  }

  // ---------- serialised arguments ----------

  predicate HasDict(m: Message) {
    m.AI? && exists k :: 0 <= k < |m.kwCalls| && m.kwCalls[k].hasFunction && m.kwCalls[k].args.Dict?
  }

  lemma {:induction false} DumpAllClean(kws: seq<KwCall>)
    ensures |DumpAll(kws)| == |kws|
    ensures forall k :: 0 <= k < |kws| ==> !(DumpAll(kws)[k].hasFunction && DumpAll(kws)[k].args.Dict?)
    ensures (forall k :: 0 <= k < |kws| ==> !(kws[k].hasFunction && kws[k].args.Dict?)) ==> DumpAll(kws) == kws
  {
    if kws != [] {
      DumpAllClean(kws[1..]);
      assert kws == [kws[0]] + kws[1..];
    }
  }

  lemma {:induction false} KwFromCallsClean(calls: seq<ToolCall>)
    ensures |KwFromCalls(calls)| == |calls|
    ensures forall k :: 0 <= k < |calls| ==> !KwFromCalls(calls)[k].args.Dict?
  {
    if calls != [] {
      KwFromCallsClean(calls[1..]);
    }
  }

  lemma SerializableHasNoDict(m: Message)
    ensures Calls(m) ==> !HasDict(SerializableMessage(m)) && SerializableMessage(m).kwCalls != []
    ensures SerializableMessage(SerializableMessage(m)) == SerializableMessage(m)
  {
    if Calls(m) {
      DumpAllClean(m.kwCalls);
      KwFromCallsClean(m.calls);
      DumpAllClean(SerializableMessage(m).kwCalls);
    }
  }

  /** A call-less assistant message: preparation never looks inside it. */
  predicate CallFree(m: Message) {
    m.AI? && m.calls == []
  }

  lemma {:induction false} CallFreeThroughPasses(ms: History, results: set<string>, called: set<string>, m: Message)
    requires CallFree(m)
    ensures m in ms ==> m in FilterInvalid(ms) && m in Clean(ms, results, called) && m in Demote(ms)
    ensures m in FilterInvalid(ms) || m in Clean(ms, results, called) || m in Demote(ms) ==> m in ms || m.kwCalls == []
  {
    if ms != [] {
      CallFreeThroughPasses(ms[1..], results, called, m);
      assert ms == [ms[0]] + ms[1..];
      if Calls(ms[0]) {
        CallsNamedProps(ms[0].calls);
        CallsWithProps(ms[0].calls, results);
      }
    }
  }

  lemma {:induction false} EnsureDicts(ms: History, m: Message)
    requires HasDict(m)
    ensures m in EnsureSerializable(ms) <==> m in ms && CallFree(m)
  {
    if ms != [] {
      EnsureDicts(ms[1..], m);
      SerializableHasNoDict(ms[0]);
      assert ms == [ms[0]] + ms[1..];
    }
  }

  /** A dict is left among the serialised arguments exactly where an assistant message without calls
      carried one: no message with calls ever does. */
  lemma PrepareLeavesDictIff(ms: History, m: Message)
    requires HasDict(m)
    ensures m in Prepare(ms) <==> m in ms && CallFree(m)
  {
    var f := FilterInvalid(ms);
    var c := Cleaned(f);
    EnsureDicts(Demote(c), m);
    if CallFree(m) {
      CallFreeThroughPasses(ms, {}, {}, m);
      CallFreeThroughPasses(f, ResultIds(f), CallIds(f), m);
      CallFreeThroughPasses(c, {}, {}, m);
    }
  }

  // ---------- histories that were fine already ----------

  predicate OnlyKwargsDiffer(m: Message, m': Message) {
    m == m' || (m.AI? && m'.AI? && m' == m.(kwCalls := m'.kwCalls))
  }

  lemma {:induction false} EnsureChangesKwargsOnly(ms: History)
    ensures |EnsureSerializable(ms)| == |ms|
    ensures forall k :: 0 <= k < |ms| ==> OnlyKwargsDiffer(ms[k], EnsureSerializable(ms)[k])
    ensures EnsureSerializable(EnsureSerializable(ms)) == EnsureSerializable(ms)
  {
    if ms != [] {
      EnsureChangesKwargsOnly(ms[1..]);
      SerializableHasNoDict(ms[0]);
      assert EnsureSerializable(ms)[1..] == EnsureSerializable(ms[1..]);
    }
  }

  /** A well-paired, well-named history changes in its serialised kwargs only, and settles at once. */
  lemma PrepareOfWellPaired(ms: History)
    requires WellPaired(ms) && AllNamed(ms)
    ensures |Prepare(ms)| == |ms| && forall k :: 0 <= k < |ms| ==> OnlyKwargsDiffer(ms[k], Prepare(ms)[k])
    ensures Prepare(Prepare(ms)) == Prepare(ms)
  {
    FilterNames(ms);
    FixedIffWellPaired(ms);
    assert Prepare(ms) == EnsureSerializable(ms);
    EnsureChangesKwargsOnly(ms);
    var e := EnsureSerializable(ms);
    LaterNames(ms);
    FilterNames(e);
    EnsurePairing(ms);
    EnsureIds(ms);
    NoOrphansIffIds(ms, CallIds(ms));
    NoOrphansIffIds(e, CallIds(e));
    FixedIffWellPaired(e);
  }

  lemma {:induction false} EnsureIds(ms: History)
    ensures CallIds(EnsureSerializable(ms)) == CallIds(ms) && ResultIds(EnsureSerializable(ms)) == ResultIds(ms)
  {
    if ms != [] {
      EnsureIds(ms[1..]);
      assert EnsureSerializable(ms)[1..] == EnsureSerializable(ms[1..]);
    }
  }

  /** Preparation runs one sanitising pass only: its result is well paired exactly when, among the named
      calls, every id called for and answered has a caller that is answered at once. */
  lemma PrepareWellPairedIff(ms: History)
    ensures WellPaired(Prepare(ms)) <==> NoAnswerAstray(FilterInvalid(ms))
  {
    hide NoAnswerAstray;
    var r := Sanitize(FilterInvalid(ms));
    OnePassEnoughIff(FilterInvalid(ms));
    EnsurePairing(r);
    EnsureIds(r);
    NoOrphansIffIds(r, CallIds(r));
    NoOrphansIffIds(Prepare(ms), CallIds(Prepare(ms)));
  }

  // ---------- the loops ----------

  lemma FilterStep(ms: History, i: nat, done: History)
    requires i < |ms| && done + FilterInvalid(ms[i..]) == FilterInvalid(ms)
    ensures done + [FilterMessage(ms[i])] + FilterInvalid(ms[i + 1..]) == FilterInvalid(ms)
  {
    assert ms[i..][0] == ms[i] && ms[i..][1..] == ms[i + 1..];
  }

  method FilterInvalidToolCalls(messages: History) returns (result: History)
    ensures result == FilterInvalid(messages)
  {
    result := [];
    assert messages[0..] == messages;
    assert FilterInvalid([]) == [];
    hide FilterInvalid;
    for i := 0 to |messages|
      invariant result + FilterInvalid(messages[i..]) == FilterInvalid(messages)
    {
      FilterStep(messages, i, result);
      var msg := messages[i];
      if !Calls(msg) {
        result := result + [msg];
        continue;
      }
      var valid := CallsNamed(msg.calls);
      if |valid| == |msg.calls| {
        result := result + [msg];
      } else if valid != [] {
        var validIds := set c | c in valid :: TcId(c);
        result := result + [msg.(calls := valid, kwCalls := KwCallsWith(msg.kwCalls, validIds))];
      } else {
        result := result + [Bare(msg, INVALID)];
      }
    }
  }

  method CollectIds(messages: History) returns (aiCallIds: set<string>, toolResultIds: set<string>)
    ensures aiCallIds == CallIds(messages) && toolResultIds == ResultIds(messages)
  {
    aiCallIds, toolResultIds := {}, {};
    for i := 0 to |messages|
      invariant aiCallIds + CallIds(messages[i..]) == CallIds(messages)
      invariant toolResultIds + ResultIds(messages[i..]) == ResultIds(messages)
    {
      var msg := messages[i];
      assert messages[i..][0] == msg && messages[i..][1..] == messages[i + 1..];
      if Calls(msg) {
        aiCallIds := aiCallIds + IdsOf(msg.calls);
      } else if msg.Tool? && msg.callId != "" {
        toolResultIds := toolResultIds + {msg.callId};
      }
    }
  }

  lemma CleanStep(ms: History, i: nat, done: History, results: set<string>, called: set<string>)
    requires i < |ms| && done + Clean(ms[i..], results, called) == Clean(ms, results, called)
    ensures done + CleanMessage(ms[i], results, called) + Clean(ms[i + 1..], results, called) == Clean(ms, results, called)
  {
    assert ms[i..][0] == ms[i] && ms[i..][1..] == ms[i + 1..];
  }

  method RemoveUnmatched(messages: History, aiCallIds: set<string>, toolResultIds: set<string>) returns (cleaned: History)
    ensures cleaned == Clean(messages, toolResultIds, aiCallIds)
  {
    cleaned := [];
    assert messages[0..] == messages;
    assert Clean([], toolResultIds, aiCallIds) == [];
    hide Clean;
    for i := 0 to |messages|
      invariant cleaned + Clean(messages[i..], toolResultIds, aiCallIds) == Clean(messages, toolResultIds, aiCallIds)
    {
      CleanStep(messages, i, cleaned, toolResultIds, aiCallIds);
      var msg := messages[i];
      if Calls(msg) {
        var valid := CallsWith(msg.calls, toolResultIds);
        if |valid| == |msg.calls| {
          cleaned := cleaned + [msg];
        } else if valid != [] {
          var validIds := set c | c in valid :: TcId(c);
          cleaned := cleaned + [msg.(calls := valid, kwCalls := KwCallsWith(msg.kwCalls, validIds))];
        } else {
          cleaned := cleaned + [Bare(msg, OMITTED)];
        }
        continue;
      }
      if msg.Tool? && msg.callId != "" && msg.callId !in aiCallIds {
        assert cleaned + [] == cleaned;
        continue;
      }
      cleaned := cleaned + [msg];
    }
  }

  /** The forward scan from `i + 1` over the tool messages that follow. */
  method SeenIds(cleaned: History, i: nat) returns (seen: set<string>)
    requires i < |cleaned|
    ensures seen == BlockIds(cleaned[i + 1..])
  {
    seen := {};
    var j := i + 1;
    while j < |cleaned| && cleaned[j].Tool?
      invariant i + 1 <= j <= |cleaned|
      invariant seen + BlockIds(cleaned[j..]) == BlockIds(cleaned[i + 1..])
    {
      assert cleaned[j..][0] == cleaned[j] && cleaned[j..][1..] == cleaned[j + 1..];
      if cleaned[j].callId != "" {
        seen := seen + {cleaned[j].callId};
      }
      j := j + 1;
    }
    assert BlockIds(cleaned[j..]) == {} by {
      assert j < |cleaned| ==> cleaned[j..][0] == cleaned[j];
    }
  }

  lemma DemoteStep(ms: History, i: nat, done: History)
    requires i < |ms| && done + Demote(ms[i..]) == Demote(ms)
    ensures done + [DemoteMessage(ms[i], BlockIds(ms[i + 1..]))] + Demote(ms[i + 1..]) == Demote(ms)
  {
    assert ms[i..][0] == ms[i] && ms[i..][1..] == ms[i + 1..];
  }

  method SanitizeMessages(messages: History) returns (final: History)
    ensures final == Sanitize(messages)
  {
    var aiCallIds, toolResultIds := CollectIds(messages);
    var cleaned := RemoveUnmatched(messages, aiCallIds, toolResultIds);
    final := [];
    assert cleaned[0..] == cleaned;
    assert Demote([]) == [];
    hide Demote, Clean;
    var i := 0;
    while i < |cleaned|
      invariant 0 <= i <= |cleaned|
      invariant final + Demote(cleaned[i..]) == Demote(cleaned)
    {
      DemoteStep(cleaned, i, final);
      var msg := cleaned[i];
      if Calls(msg) {
        var seen := SeenIds(cleaned, i);
        if IdsOf(msg.calls) <= seen {
          final := final + [msg];
        } else {
          final := final + [Bare(msg, DEMOTED)];
        }
      } else {
        final := final + [msg];
      }
      i := i + 1;
    }
  }

  lemma EnsureStep(ms: History, i: nat, done: History)
    requires i < |ms| && done + EnsureSerializable(ms[i..]) == EnsureSerializable(ms)
    ensures done + [SerializableMessage(ms[i])] + EnsureSerializable(ms[i + 1..]) == EnsureSerializable(ms)
  {
    assert ms[i..][0] == ms[i] && ms[i..][1..] == ms[i + 1..];
  }

  method DumpKwCalls(kwCalls: seq<KwCall>) returns (kws: seq<KwCall>)
    ensures kws == DumpAll(kwCalls)
  {
    kws := [];
    for k := 0 to |kwCalls|
      invariant kws + DumpAll(kwCalls[k..]) == DumpAll(kwCalls)
    {
      assert kwCalls[k..][0] == kwCalls[k] && kwCalls[k..][1..] == kwCalls[k + 1..];
      kws := kws + [DumpKw(kwCalls[k])];
    }
  }

  method BuildKwCalls(calls: seq<ToolCall>) returns (kws: seq<KwCall>)
    ensures kws == KwFromCalls(calls)
  {
    hide KwFromCall;
    kws := [];
    for k := 0 to |calls|
      invariant kws + KwFromCalls(calls[k..]) == KwFromCalls(calls)
    {
      assert calls[k..][0] == calls[k] && calls[k..][1..] == calls[k + 1..];
      kws := kws + [KwFromCall(calls[k])];
    }
  }

  method EnsureToolCallsSerializable(messages: History) returns (result: History)
    ensures result == EnsureSerializable(messages)
  {
    result := [];
    assert messages[0..] == messages;
    assert EnsureSerializable([]) == [];
    hide EnsureSerializable, DumpAll, KwFromCalls;
    for i := 0 to |messages|
      invariant result + EnsureSerializable(messages[i..]) == EnsureSerializable(messages)
    {
      EnsureStep(messages, i, result);
      var msg := messages[i];
      if !Calls(msg) {
        result := result + [msg];
      } else if msg.kwCalls != [] {
        var kws := DumpKwCalls(msg.kwCalls);
        result := result + [msg.(kwCalls := kws)];
      } else {
        var kws := BuildKwCalls(msg.calls);
        result := result + [msg.(kwCalls := kws)];
      }
    }
  }

  /** `prepare_messages_for_llm`: the three passes in their order. */
  method PrepareMessagesForLlm(messages: History) returns (result: History)
    ensures result == Prepare(messages)
    ensures Covered(result) && AllNamed(result)
  {
    result := FilterInvalidToolCalls(messages);
    result := SanitizeMessages(result);
    result := EnsureToolCallsSerializable(result);
    PreparePairs(messages);
  }
}
