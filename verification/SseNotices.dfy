/** What a viewer of the event stream learns about the SubAgents the verify/fix chain calls. */
module SseNotices {
  import opened Prelude
  import opened Text
  import opened SseStream
  import opened SseLaws
  import D = Delegation
  import P = ChainProtocol

  // ---------- notices and frames ----------

  function NoticesIn(ticks: seq<Tick>): seq<Notice> {
    if ticks == [] then []
    else NoticesIn(ticks[..|ticks| - 1]) + if ticks[|ticks| - 1].Push? then [ticks[|ticks| - 1].notice] else []
  }

  /** Notices that begin or end a SubAgent's work; the listener ignores any other. */
  function Telling(ns: seq<Notice>): seq<Notice> {
    if ns == [] then []
    else Telling(ns[..|ns| - 1]) + if ns[|ns| - 1].eventType in {"start", "end"} then [ns[|ns| - 1]] else []
  }

  /** Everything the listener is told in the course of a stream, late notices included. */
  function Told(script: Script): seq<Notice> {
    NoticesIn(ReachedIn(script.run)) + script.late
  }

  /** What a start shows: the description, behind the attempt's number if it has one. */
  function StartText(description: string, attempt: nat): string {
    (if attempt == 0 then "" else "[auto-chain attempt " + NatText(attempt) + "] ") + description
  }

  /** The frame says what the notice says: who, how it ended, or the first 200 characters of what it is about. */
  ghost predicate Tells(n: Notice, e: Emitted) {
    && e.source == Listener
    && if n.eventType == "start" then
         && e.frame.InvokeStart? && e.frame.role == n.role
         && e.frame.description <= StartText(n.description, n.attempt)
         && |e.frame.description| == Min(200, |StartText(n.description, n.attempt)|)
       else e.frame.InvokeEnd? && e.frame.role == n.role && e.frame.success == n.success
  }

  ghost predicate TellsAll(ns: seq<Notice>, es: seq<Emitted>) {
    |ns| == |es| && forall k :: 0 <= k < |ns| ==> Tells(ns[k], es[k])
  }

  lemma TellsSum(a: seq<Notice>, b: seq<Notice>, x: seq<Emitted>, y: seq<Emitted>)
    requires TellsAll(a, x) && TellsAll(b, y)
    ensures TellsAll(a + b, x + y)
  {
    hide Tells;
  }

  lemma OneNoticeTells(n: Notice)
    ensures TellsAll(if n.eventType in {"start", "end"} then [n] else [], Listened(NoticeFrames(n)))
  {
    if n.eventType == "start" && n.attempt == 0 {
      assert "" + n.description == n.description;
    }
  }

  lemma ListenedSum(a: seq<Frame>, b: seq<Frame>)
    ensures Listened(a + b) == Listened(a) + Listened(b)
  {
  }

  lemma {:induction false} NoticesTell(ns: seq<Notice>)
    ensures TellsAll(Telling(ns), Listened(LateFrames(ns)))
  {
    hide NoticeFrames, Listened, TellsAll;
    if ns == [] {
      assert TellsAll([], Listened([])) by { NothingTells(); }
    } else {
      var n := |ns| - 1;
      NoticesTell(ns[..n]);
      OneNoticeTells(ns[n]);
      ListenedSum(LateFrames(ns[..n]), NoticeFrames(ns[n]));
      TellsSum(Telling(ns[..n]), if ns[n].eventType in {"start", "end"} then [ns[n]] else [],
               Listened(LateFrames(ns[..n])), Listened(NoticeFrames(ns[n])));
    }
  }

  lemma NothingTells()
    ensures TellsAll([], Listened([]))
  {
  }

  lemma {:induction false} PushedAreFrames(ticks: seq<Tick>)
    ensures Pushed(ticks) == LateFrames(NoticesIn(ticks))
  {
    hide NoticeFrames;
    if ticks != [] {
      var n := |ticks| - 1;
      PushedAreFrames(ticks[..n]);
      var before := NoticesIn(ticks[..n]);
      if ticks[n].Push? {
        assert (before + [ticks[n].notice])[..|before|] == before;
      } else {
        assert before + [] == before;
        assert Pushed(ticks[..n]) + [] == Pushed(ticks[..n]);
      }
    }
  }

  lemma {:induction false} FramesSum(a: seq<Notice>, b: seq<Notice>)
    ensures LateFrames(a + b) == LateFrames(a) + LateFrames(b)
  {
    hide NoticeFrames;
    if b == [] {
      assert a + b == a;
    } else {
      var n := |b| - 1;
      assert (a + b)[..|a + b| - 1] == a + b[..n];
      FramesSum(a, b[..n]);
    }
  }

  /** The listener's frames of a whole stream correspond one to one, in order, to the starts and ends it was told
      of. */
  lemma ListenerTells(script: Script)
    ensures TellsAll(Telling(Told(script)), Only(Stream(script), FromListener))
  {
    hide Stream, Only, Listened, NoticeFrames, ReachedIn, LateFrames, Pushed, Telling, NoticesIn, TellsAll;
    var seen := ReachedIn(script.run);
    StreamIsFaithful(script);
    PushedAreFrames(seen);
    FramesSum(NoticesIn(seen), script.late);
    NoticesTell(NoticesIn(seen) + script.late);
  }

  // ---------- the chain, as the viewer sees it ----------

  /** The chain's notice of an event that belongs to a call with this description. */
  function NoticeOf(e: D.Event, description: string): Notice {
    match e
    case Start(role, attempt) => Notice(D.RoleText(role), "start", Take(description, 200), attempt, true)
    case Ended(role, attempt, success) => Notice(D.RoleText(role), "end", "", attempt, success)
  }

  /** Each call has two events, its start and its end. */
  function ChainNotices(r: D.ChainRun): seq<Notice> {
    seq(|r.events|, i requires 0 <= i < |r.events| =>
      NoticeOf(r.events[i], if i / 2 < |r.calls| then r.calls[i / 2].description else ""))
  }

  /** How the k-th call of a chain shows: as the start of its role in its attempt, and as its end. */
  ghost predicate ShowsCall(t: D.ChainTask, oracle: nat -> D.Invocation, k: nat, start: Frame, end: Frame) {
    var text := StartText(Take(P.NthDescription(t, oracle, k), 200), k / 2 + 1);
    && start == InvokeStart(D.RoleText(P.NthRole(k)), Take(text, 200))
    && end == InvokeEnd(D.RoleText(P.NthRole(k)), P.Succeeds(oracle, k))
  }

  lemma TakeIs(s: string, x: string, n: nat)
    requires x <= s && |x| == Min(n, |s|)
    ensures x == Take(s, n)
  {
  }

  lemma AllTell(r: D.ChainRun)
    ensures Telling(ChainNotices(r)) == ChainNotices(r)
  {
    TellingAll(ChainNotices(r));
  }

  lemma {:induction false} TellingAll(ns: seq<Notice>)
    requires forall k :: 0 <= k < |ns| ==> ns[k].eventType in {"start", "end"}
    ensures Telling(ns) == ns
  {
    if ns != [] {
      TellingAll(ns[..|ns| - 1]);
      assert ns == ns[..|ns| - 1] + [ns[|ns| - 1]];
    }
  }

  lemma CallNotices(t: D.ChainTask, oracle: nat -> D.Invocation, r: D.ChainRun, k: nat, e: Emitted, e': Emitted)
    requires P.CallsAsNumbered(t, oracle, 0, r) && P.EventsPaired(oracle, 0, r) && k < |r.calls|
    requires Tells(ChainNotices(r)[2 * k], e) && Tells(ChainNotices(r)[2 * k + 1], e')
    ensures ShowsCall(t, oracle, k, e.frame, e'.frame)
  {
    hide P.Succeeds, P.NthDescription, P.NthId, P.NthEntry, NatText, P.NthRole, Take, D.RoleText;
    assert r.calls[k] == P.NthCall(t, oracle, 0 + k);
    assert r.events[2 * k..2 * k + 2] == P.NthEvents(oracle, 0 + k);
    assert r.events[2 * k] == P.NthEvents(oracle, k)[0] && r.events[2 * k + 1] == P.NthEvents(oracle, k)[1];
    var text := StartText(Take(P.NthDescription(t, oracle, k), 200), k / 2 + 1);
    assert (2 * k) / 2 == k;
    TakeIs(text, e.frame.description, 200);
  }

  lemma ChainEvents(max: nat, t: D.ChainTask, oracle: nat -> D.Invocation, st: D.ToolState)
    ensures var r := D.Chain(max, t, oracle, st);
            && P.CallsAsNumbered(t, oracle, 0, r) && P.EventsPaired(oracle, 0, r)
            && (r.passedAt.Some? <==> r.calls != [] && P.Passes(oracle, |r.calls| - 1))
            && (r.calls != [] ==> !r.passedAt.Some? ==> !P.Succeeds(oracle, |r.calls| - 1))
  {
    hide D.Chain, P.CallsAsNumbered, P.EventsPaired, P.NthEvents, P.NthEntry, P.NthDescription, P.Replay, P.NthId, P.NthText;
    var r := D.Chain(max, t, oracle, st);
    P.ChainProtocolHolds(max, t, oracle, st);
    if max == 0 {
      assert P.CallsAsNumbered(t, oracle, 0, r) && P.EventsPaired(oracle, 0, r) by { EmptyRun(t, oracle, st); }
    } else {
      var last: nat := |r.calls| - 1;
      assert P.StopsWhenDue(max, oracle, 0, r);
      assert P.Continues(oracle, last) ==> last % 2 == 0;
    }
  }

  lemma EmptyRun(t: D.ChainTask, oracle: nat -> D.Invocation, st: D.ToolState)
    ensures P.CallsAsNumbered(t, oracle, 0, D.GaveUp(st)) && P.EventsPaired(oracle, 0, D.GaveUp(st))
  {
  }

  /** A stream whose listener is told of one chain shows each of its calls, in order, as a start and an end under
      the call's role, and the last of these ends reports success exactly if the chain passed. */
  lemma ChainShown(script: Script, max: nat, t: D.ChainTask, oracle: nat -> D.Invocation, st: D.ToolState)
    requires Told(script) == ChainNotices(D.Chain(max, t, oracle, st))
    ensures var r, shown := D.Chain(max, t, oracle, st), Only(Stream(script), FromListener);
            && |shown| == 2 * |r.calls|
            && (forall k :: 0 <= k < |r.calls| ==> ShowsCall(t, oracle, k, shown[2 * k].frame, shown[2 * k + 1].frame))
            && (r.calls != [] ==> shown[|shown| - 1].frame.InvokeEnd?
                                  && (shown[|shown| - 1].frame.success <==> r.passedAt.Some?))
  {
    hide Stream, Only, Told, D.Chain, Tells, ShowsCall, P.CallsAsNumbered, P.Succeeds, P.Passes, P.NthEvents;
    var r, shown := D.Chain(max, t, oracle, st), Only(Stream(script), FromListener);
    ListenerTells(script);
    AllTell(r);
    ChainEvents(max, t, oracle, st);
    forall k | 0 <= k < |r.calls| ensures ShowsCall(t, oracle, k, shown[2 * k].frame, shown[2 * k + 1].frame) {
      CallNotices(t, oracle, r, k, shown[2 * k], shown[2 * k + 1]);
    }
    if r.calls != [] {
      var k: nat := |r.calls| - 1;
      assert 2 * k + 1 == |shown| - 1;
      LastEnd(t, oracle, k, shown[2 * k].frame, shown[2 * k + 1].frame);
    }
  }

  lemma LastEnd(t: D.ChainTask, oracle: nat -> D.Invocation, k: nat, start: Frame, end: Frame)
    requires ShowsCall(t, oracle, k, start, end)
    ensures end.InvokeEnd? && end.success == P.Succeeds(oracle, k)
    ensures P.Passes(oracle, k) ==> P.Succeeds(oracle, k)
  {
  }
}
