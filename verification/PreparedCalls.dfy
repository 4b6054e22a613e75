/** Which calls a prepared message still makes, and what it sends about them. */
module PreparedCalls {
  import opened Prelude
  import opened ToolMessages
  import opened PrepareMessages

  // ---------- the filters keep exactly what they are meant to keep ----------

  /** `out` is `all` without the elements outside `keep`: same order, same number of each. */
  ghost predicate Exactly<T(!new)>(out: seq<T>, all: seq<T>, keep: T -> bool) {
    && LeftOf(out, all)
    && forall x :: multiset(out)[x] == if keep(x) then multiset(all)[x] else 0
  }

  lemma ExactlyStep<T(!new)>(x: T, out: seq<T>, all: seq<T>, keep: T -> bool)
    requires Exactly(out, all, keep)
    ensures Exactly((if keep(x) then [x] else []) + out, [x] + all, keep)
  {
    var more := (if keep(x) then [x] else []) + out;
    assert ([x] + all)[1..] == all;
    if keep(x) {
      assert more[1..] == out;
    } else {
      assert more == out;
    }
  }

  predicate Named(c: ToolCall) {
    if c.name != "" then true else if c.fnName.Some? then Truthy(c.fnName.value) else Truthy(c.kind)
  }

  predicate AnsweredIn(c: ToolCall, results: set<string>) {
    if Truthy(c.id) then c.id.value in results else Truthy(c.altId) && c.altId.value in results
  }

  function IsAnswered(results: set<string>): ToolCall -> bool {
    c => AnsweredIn(c, results)
  }

  function HasIdIn(ids: set<Option<string>>): KwCall -> bool {
    (k: KwCall) => Some(k.id) in ids
  }

  lemma NothingExactly<T(!new)>(keep: T -> bool)
    ensures Exactly([], [], keep)
  {
  }

  lemma {:induction false} NamedExactly(calls: seq<ToolCall>)
    ensures Exactly(CallsNamed(calls), calls, Named)
  {
    hide Exactly;
    NothingExactly(Named);
    if calls != [] {
      NamedExactly(calls[1..]);
      ExactlyStep(calls[0], CallsNamed(calls[1..]), calls[1..], Named);
      assert [calls[0]] + calls[1..] == calls;
    }
  }

  lemma {:induction false} AnsweredExactly(calls: seq<ToolCall>, results: set<string>)
    ensures Exactly(CallsWith(calls, results), calls, IsAnswered(results))
  {
    hide Exactly;
    NothingExactly(IsAnswered(results));
    if calls != [] {
      AnsweredExactly(calls[1..], results);
      ExactlyStep(calls[0], CallsWith(calls[1..], results), calls[1..], IsAnswered(results));
      assert [calls[0]] + calls[1..] == calls;
    }
  }

  lemma {:induction false} KwExactly(kws: seq<KwCall>, ids: set<Option<string>>)
    ensures Exactly(KwCallsWith(kws, ids), kws, HasIdIn(ids))
  {
    hide Exactly;
    NothingExactly(HasIdIn(ids));
    if kws != [] {
      KwExactly(kws[1..], ids);
      ExactlyStep(kws[0], KwCallsWith(kws[1..], ids), kws[1..], HasIdIn(ids));
      assert [kws[0]] + kws[1..] == kws;
    }
  }

  // ---------- one message through the passes ----------

  function AllIds(calls: seq<ToolCall>): set<Option<string>> {
    set c | c in calls :: TcId(c)
  }

  /** A message that still makes calls after losing some carries the serialised calls with the ids of the rest. */
  ghost predicate KwNarrowed(m: Message, m': Message) {
    Calls(m) && Calls(m') ==>
      m'.kwCalls == if |m'.calls| == |m.calls| then m.kwCalls else KwCallsWith(m.kwCalls, AllIds(m'.calls))
  }

  lemma {:induction false} KwTwice(kws: seq<KwCall>, a: set<Option<string>>, b: set<Option<string>>)
    requires b <= a
    ensures KwCallsWith(KwCallsWith(kws, a), b) == KwCallsWith(kws, b)
  {
    if kws != [] {
      KwTwice(kws[1..], a, b);
      var rest := KwCallsWith(kws[1..], a);
      assert ([kws[0]] + rest)[1..] == rest;
      assert [] + rest == rest;
    }
  }

  lemma {:induction false} LeftOfIn<T>(a: seq<T>, b: seq<T>)
    requires LeftOf(a, b)
    ensures |a| <= |b| && (|a| == |b| ==> a == b) && forall x :: x in a ==> x in b
    decreases |b|
  {
    if a != [] {
      assert b == [b[0]] + b[1..] && a == [a[0]] + a[1..];
      if a[0] == b[0] && LeftOf(a[1..], b[1..]) {
        LeftOfIn(a[1..], b[1..]);
      } else {
        LeftOfIn(a, b[1..]);
      }
    }
  }

  lemma KwNarrowedTrans(a: Message, b: Message, c: Message)
    requires KwNarrowed(a, b) && KwNarrowed(b, c) && Keeps(a, b) && Keeps(b, c)
    ensures KwNarrowed(a, c)
  {
    hide LeftOf, KwCallsWith;
    if Calls(a) && Calls(c) {
      assert Calls(b);
      LeftOfIn(b.calls, a.calls);
      LeftOfIn(c.calls, b.calls);
      if |c.calls| < |b.calls| < |a.calls| {
        KwTwice(a.kwCalls, AllIds(b.calls), AllIds(c.calls));
      }
    }
  }

  /** The text in place of an assistant message whose calls are all gone: its own, or a note on the reason. */
  function LastWords(m: Message, results: set<string>): string
    requires m.AI?
  {
    if m.content != "" then m.content
    else if CallsNamed(m.calls) == [] then INVALID
    else if CallsWith(CallsNamed(m.calls), results) == [] then OMITTED
    else DEMOTED
  }

  /** Before its calls are serialised: a message keeps all its named and answered calls, or none. */
  ghost predicate Sifted(m: Message, m': Message, results: set<string>) {
    && Keeps(m, m') && KwNarrowed(m, m')
    && (Calls(m) ==>
          && (m'.calls == [] || m'.calls == CallsWith(CallsNamed(m.calls), results))
          && m'.content == if m'.calls == [] then LastWords(m, results) else m.content)
  }

  /** The three passes that sift, on one message; `seen` are the ids answered right behind it. */
  function SiftedMessage(m: Message, results: set<string>, seen: set<string>): Message
    requires !m.Tool?
  {
    var f := FilterMessage(m);
    var c := if Calls(f) then Narrowed(f, CallsWith(f.calls, results), OMITTED) else f;
    DemoteMessage(c, seen)
  }

  lemma NarrowedSifts(m: Message, valid: seq<ToolCall>, placeholder: string)
    requires Calls(m) && LeftOf(valid, m.calls)
    ensures var m' := Narrowed(m, valid, placeholder);
            && m'.AI? && m'.calls == valid && KwNarrowed(m, m') && Keeps(m, m')
            && (valid == [] ==> m' == Bare(m, placeholder)) && (valid != [] ==> m'.content == m.content)
  {
    hide LeftOf, KwCallsWith;
    LeftOfIn(valid, m.calls);
    NarrowedKept(m, valid, placeholder);
    assert AllIds(valid) == set c | c in valid :: TcId(c);
  }

  lemma SiftedIs(m: Message, results: set<string>, seen: set<string>)
    requires !m.Tool?
    ensures Sifted(m, SiftedMessage(m, results, seen), results)
  {
    hide LeftOf, KwCallsWith, CallsWith, CallsNamed, Keeps, Narrowed, IdsOf;
    if Calls(m) {
      var named := CallsNamed(m.calls);
      NamedLeft(m.calls);
      NarrowedSifts(m, named, INVALID);
      var f := FilterMessage(m);
      var c := f;
      if Calls(f) {
        AnsweredLeft(f.calls, results);
        NarrowedSifts(f, CallsWith(f.calls, results), OMITTED);
        c := Narrowed(f, CallsWith(f.calls, results), OMITTED);
        KeepsTrans(m, f, c);
        KwNarrowedTrans(m, f, c);
      } else {
        assert CallsWith(named, results) == [] by { NoCallsWith(results); }
      }
      var d := DemoteMessage(c, seen);
      DemotedKept(c, seen);
      KeepsTrans(m, c, d);
    } else {
      KeepsSelf(m);
    }
  }

  lemma NoCallsWith(results: set<string>)
    ensures CallsWith([], results) == []
  {
  }

  lemma KeepsSelf(m: Message)
    requires !Calls(m)
    ensures Keeps(m, m)
  {
  }

  // ---------- the history through the passes ----------

  ghost predicate AllSifted(ms: History, ms': History, results: set<string>) {
    |ms| == |ms'| && forall k :: 0 <= k < |ms| ==> Sifted(ms[k], ms'[k], results)
  }

  lemma AllSiftedStep(m: Message, m': Message, a: History, b: History, results: set<string>)
    requires Sifted(m, m', results) && AllSifted(a, b, results)
    ensures AllSifted([m] + a, [m'] + b, results)
  {
    hide Sifted;
  }

  lemma {:induction false} PassesSift(ms: History, results: set<string>, called: set<string>)
    ensures AllSifted(NonTool(ms), NonTool(Demote(Clean(FilterInvalid(ms), results, called))), results)
  {
    hide Sifted, Narrowed, FilterMessage, DemoteMessage;
    if ms != [] {
      PassesSift(ms[1..], results, called);
      var m, f := ms[0], FilterInvalid(ms[1..]);
      var c := Clean(f, results, called);
      assert FilterInvalid(ms) == [FilterMessage(m)] + f && ([FilterMessage(m)] + f)[1..] == f;
      FilterSameKind(m);
      var head := CleanMessage(FilterMessage(m), results, called);
      if m.Tool? {
        if head == [] {
          assert head + c == c;
        } else {
          assert (head + c)[1..] == c;
          assert Demote(head + c)[1..] == Demote(c);
          DemoteSameKind(head[0], BlockIds(c));
        }
      } else {
        assert (head + c)[1..] == c && (head + c)[0] == head[0];
        var d := DemoteMessage(head[0], BlockIds(c));
        assert Demote(head + c) == [d] + Demote(c) && ([d] + Demote(c))[1..] == Demote(c);
        assert d == SiftedMessage(m, results, BlockIds(c));
        SiftedIs(m, results, BlockIds(c));
        AllSiftedStep(m, d, NonTool(ms[1..]), NonTool(Demote(c)), results);
        DemoteSameKind(head[0], BlockIds(c));
        NarrowedSameKind(FilterMessage(m), results);
      }
    }
  }

  lemma FilterSameKind(m: Message)
    ensures m.Tool? ==> FilterMessage(m) == m
    ensures !m.Tool? ==> !FilterMessage(m).Tool?
  {
  }

  lemma NarrowedSameKind(m: Message, results: set<string>)
    ensures Calls(m) ==> Narrowed(m, CallsWith(m.calls, results), OMITTED).AI?
  {
  }

  lemma DemoteSameKind(m: Message, seen: set<string>)
    ensures DemoteMessage(m, seen).Tool? <==> m.Tool?
  {
  }

  lemma {:induction false} FilterResults(ms: History)
    ensures ResultIds(FilterInvalid(ms)) == ResultIds(ms)
  {
    if ms != [] {
      FilterResults(ms[1..]);
      assert FilterInvalid(ms)[1..] == FilterInvalid(ms[1..]);
      FilterSameKind(ms[0]);
    }
  }

  // ---------- what is sent ----------

  /** A serialised call built from `c` says what `c` says; a dict of arguments is sent as its dump, missing ones as
      an empty object. */
  ghost predicate BuiltFrom(k: KwCall, c: ToolCall) {
    && k.hasFunction && k.name == c.name && k.id == (if c.id.None? then "" else c.id.value)
    && k.args.JsonText?
    && (c.args.JsonText? ==> k.args.text == c.args.text)
    && (c.args.Dict? ==> k.args.text == c.args.dump)
    && (c.args.Missing? ==> k.args.text == "{}")
  }

  /** A serialised call that was there is sent as it was, but for a dict of arguments, sent as its dump. */
  ghost predicate SentAs(k: KwCall, k': KwCall) {
    && k'.id == k.id && k'.name == k.name && k'.hasFunction == k.hasFunction
    && (k.hasFunction && k.args.Dict? ==> k'.args == JsonText(k.args.dump))
    && (!(k.hasFunction && k.args.Dict?) ==> k'.args == k.args)
  }

  /** The serialised calls a prepared message with calls carries: those it came with whose ids it still calls
      under, or, if none is left of these, one built from each of its calls. */
  ghost predicate Serialised(m: Message, m': Message) {
    Calls(m) && Calls(m') ==>
      var left := if |m'.calls| == |m.calls| then m.kwCalls else KwCallsWith(m.kwCalls, AllIds(m'.calls));
      if left != [] then |m'.kwCalls| == |left| && forall k :: 0 <= k < |left| ==> SentAs(left[k], m'.kwCalls[k])
      else |m'.kwCalls| == |m'.calls| && forall k :: 0 <= k < |m'.calls| ==> BuiltFrom(m'.kwCalls[k], m'.calls[k])
  }

  lemma {:induction false} DumpSends(kws: seq<KwCall>)
    ensures |DumpAll(kws)| == |kws| && forall k :: 0 <= k < |kws| ==> SentAs(kws[k], DumpAll(kws)[k])
  {
    if kws != [] { DumpSends(kws[1..]); }
  }

  lemma {:induction false} BuiltCalls(calls: seq<ToolCall>)
    ensures |KwFromCalls(calls)| == |calls| && forall k :: 0 <= k < |calls| ==> BuiltFrom(KwFromCalls(calls)[k], calls[k])
  {
    if calls != [] { BuiltCalls(calls[1..]); }
  }

  lemma SerialisedIs(m: Message, s: Message)
    requires KwNarrowed(m, s) && Keeps(m, s)
    ensures Serialised(m, SerializableMessage(s))
  {
    hide LeftOf, KwCallsWith, DumpAll, KwFromCalls, SentAs, BuiltFrom;
    if Calls(m) && Calls(s) {
      DumpSends(s.kwCalls);
      BuiltCalls(s.calls);
    }
  }

  /** A message of the input and what became of it. */
  ghost predicate Prepared(m: Message, m': Message, results: set<string>) {
    && Keeps(m, m') && Serialised(m, m')
    && (Calls(m) ==>
          && (m'.calls == [] || m'.calls == CallsWith(CallsNamed(m.calls), results))
          && m'.content == if m'.calls == [] then LastWords(m, results) else m.content)
  }

  lemma PreparedIs(m: Message, s: Message, results: set<string>)
    requires Sifted(m, s, results)
    ensures Prepared(m, SerializableMessage(s), results)
  {
    hide LeftOf, KwCallsWith, DumpAll, KwFromCalls, CallsWith, CallsNamed;
    SerialisedIs(m, s);
    SerializedKept(s);
    KeepsTrans(m, s, SerializableMessage(s));
  }

  lemma {:induction false} EnsureEach(ms: History)
    ensures |NonTool(EnsureSerializable(ms))| == |NonTool(ms)|
    ensures forall k :: 0 <= k < |NonTool(ms)| ==> NonTool(EnsureSerializable(ms))[k] == SerializableMessage(NonTool(ms)[k])
  {
    hide SerializableMessage;
    if ms != [] {
      EnsureEach(ms[1..]);
      SerializableSameKind(ms[0]);
      var out, rest := NonTool(EnsureSerializable(ms)), NonTool(EnsureSerializable(ms[1..]));
      assert EnsureSerializable(ms)[1..] == EnsureSerializable(ms[1..]);
      if !ms[0].Tool? {
        assert out == [SerializableMessage(ms[0])] + rest && NonTool(ms) == [ms[0]] + NonTool(ms[1..]);
        forall k | 0 < k < |out| ensures out[k] == SerializableMessage(NonTool(ms)[k]) {
          assert out[k] == rest[k - 1] && NonTool(ms)[k] == NonTool(ms[1..])[k - 1];
        }
      } else {
        assert out == rest && NonTool(ms) == NonTool(ms[1..]);
      }
    }
  }

  lemma SerializableSameKind(m: Message)
    ensures SerializableMessage(m).Tool? <==> m.Tool?
  {
  }

  /** Message by message: preparation keeps all named and answered calls or none, says why if none is left, and
      sends with the calls their own ids, names and arguments. */
  lemma PrepareSends(ms: History, k: nat)
    requires k < |NonTool(ms)|
    ensures |NonTool(Prepare(ms))| == |NonTool(ms)|
    ensures Prepared(NonTool(ms)[k], NonTool(Prepare(ms))[k], ResultIds(ms))
  {
    hide NonTool, Clean, Demote, FilterInvalid, EnsureSerializable, Sifted, Prepared, SerializableMessage;
    var f := FilterInvalid(ms);
    FilterResults(ms);
    PassesSift(ms, ResultIds(f), CallIds(f));
    EnsureEach(Sanitize(f));
    PreparedIs(NonTool(ms)[k], NonTool(Sanitize(f))[k], ResultIds(ms));
  }

  // ---------- tool results ----------

  function ToolsOf(ms: History): History {
    if ms == [] then [] else (if ms[0].Tool? then [ms[0]] else []) + ToolsOf(ms[1..])
  }

  predicate CalledFor(m: Message, called: set<string>) {
    m.Tool? && (m.callId == "" || m.callId in called)
  }

  function IsCalledFor(called: set<string>): Message -> bool {
    m => CalledFor(m, called)
  }

  lemma {:induction false} CleanTools(ms: History, results: set<string>, called: set<string>)
    ensures Exactly(ToolsOf(Clean(ms, results, called)), ToolsOf(ms), IsCalledFor(called))
  {
    hide Exactly, Narrowed;
    if ms == [] {
      NothingExactly(IsCalledFor(called));
    } else {
      CleanTools(ms[1..], results, called);
      var head, rest := CleanMessage(ms[0], results, called), Clean(ms[1..], results, called);
      NarrowedSameKind(ms[0], results);
      if ms[0].Tool? {
        ExactlyStep(ms[0], ToolsOf(rest), ToolsOf(ms[1..]), IsCalledFor(called));
        if CalledFor(ms[0], called) {
          assert head == [ms[0]] && (head + rest)[1..] == rest;
        } else {
          assert head == [] && head + rest == rest;
          assert [] + ToolsOf(rest) == ToolsOf(rest);
        }
      } else {
        assert (head + rest)[1..] == rest && (head + rest)[0] == head[0];
        assert [] + ToolsOf(rest) == ToolsOf(rest) && [] + ToolsOf(ms[1..]) == ToolsOf(ms[1..]);
      }
    }
  }

  lemma {:induction false} OthersKeepTools(ms: History)
    ensures ToolsOf(FilterInvalid(ms)) == ToolsOf(ms)
    ensures ToolsOf(Demote(ms)) == ToolsOf(ms)
    ensures ToolsOf(EnsureSerializable(ms)) == ToolsOf(ms)
  {
    hide FilterMessage, DemoteMessage, SerializableMessage;
    if ms != [] {
      OthersKeepTools(ms[1..]);
      assert FilterInvalid(ms)[1..] == FilterInvalid(ms[1..]);
      assert Demote(ms)[1..] == Demote(ms[1..]);
      assert EnsureSerializable(ms)[1..] == EnsureSerializable(ms[1..]);
      FilterSameKind(ms[0]);
      DemoteSameKind(ms[0], BlockIds(ms[1..]));
      SerializableSameKind(ms[0]);
      if ms[0].Tool? { ToolsUntouched(ms[0], BlockIds(ms[1..])); }
    }
  }

  lemma ToolsUntouched(m: Message, seen: set<string>)
    requires m.Tool?
    ensures DemoteMessage(m, seen) == m && SerializableMessage(m) == m
  {
  }

  /** Of the tool results exactly those go that answer no named call; the rest keep their order. */
  lemma PrepareKeepsResults(ms: History)
    ensures Exactly(ToolsOf(Prepare(ms)), ToolsOf(ms), IsCalledFor(CallIds(FilterInvalid(ms))))
  {
    hide Exactly;
    var f := FilterInvalid(ms);
    OthersKeepTools(ms);
    CleanTools(f, ResultIds(f), CallIds(f));
    OthersKeepTools(Cleaned(f));
    OthersKeepTools(Sanitize(f));
  }
}
