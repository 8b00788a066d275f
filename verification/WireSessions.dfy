/** What the Anthropic builder (internal/provider/anthropic.go) sends over whole sessions, in which
    any number of turns may have ended in loop detection. */
module WireSessions {
  import opened History
  import opened Options
  import opened Rounds
  import opened TurnSpec
  import opened Wire
  import Compaction
  import Detector
  import Executor
  import Padding
  import Recovery

  // ----- which questions matter -----

  /** The questions that are answered at once share no id with the orphaned ones. */
  lemma {:induction false} HealthyMeaning(ms: Messages, orphans: set<string>)
    ensures HealthyDisjoint(ms, orphans) <==>
            forall i :: 0 <= i < |ms| && Asks(ms[i]) && RunAnswers(ms, i) ==> Ids(ms[i].calls) !! orphans
  {
    if ms != [] {
      HealthyMeaning(ms[1..], orphans);
      forall i | 0 < i < |ms| ensures ms[i] == ms[1..][i - 1] && RunAnswers(ms, i) == RunAnswers(ms[1..], i - 1) {
        assert ms[i + 1..] == ms[1..][i..];
      }
      if forall i :: 0 <= i < |ms| && Asks(ms[i]) && RunAnswers(ms, i) ==> Ids(ms[i].calls) !! orphans {
        forall i | 0 <= i < |ms[1..]| && Asks(ms[1..][i]) && RunAnswers(ms[1..], i)
          ensures Ids(ms[1..][i].calls) !! orphans
        {
          assert RunAnswers(ms, i + 1);
        }
        assert Asks(ms[0]) && !Orphan(ms[0], ms[1..]) ==> RunAnswers(ms, 0);
      }
    }
  }

  lemma {:induction false} HealthyConcat(a: Messages, b: Messages, orphans: set<string>)
    requires b == [] || !b[0].role.Tool?
    ensures HealthyDisjoint(a + b, orphans) <==> HealthyDisjoint(a, orphans) && HealthyDisjoint(b, orphans)
  {
    if a == [] {
      assert a + b == b;
    } else {
      assert (a + b)[1..] == a[1..] + b;
      RunIdsConcat(a[1..], b);
      HealthyConcat(a[1..], b, orphans);
    }
  }

  lemma {:induction false} NoAsksHealthy(ms: Messages, orphans: set<string>)
    requires NoAsks(ms)
    ensures HealthyDisjoint(ms, orphans)
  {
    if ms != [] {
      NoAsksHealthy(ms[1..], orphans);
    }
  }

  lemma LoopStretchHealthy(ask: Message, other: Message, text: Message, pads: Messages, left: Messages,
                           orphans: set<string>)
    requires Asks(ask) && other.role.System? && text.role.Assistant? && text.calls == []
    requires AllTools(pads) && AllUsers(left)
    ensures HealthyDisjoint([ask, other, text] + pads + left, orphans)
  {
    var b := [ask, other, text] + pads + left;
    assert b[1..] == [other, text] + pads + left && b[1..][0] == other;
    NoAsksHealthy(b[1..], orphans);
    assert ask.calls[0].id in Ids(ask.calls);
  }

  /** No question among the messages shares an id with the given ones. */
  predicate SharesNone(ms: Messages, ids: set<string>) {
    forall i :: 0 <= i < |ms| && Asks(ms[i]) ==> Ids(ms[i].calls) !! ids
  }

  lemma ContiguousHealthy(ms: Messages, orphans: set<string>)
    requires Contiguous(ms)
    ensures HealthyDisjoint(ms, orphans) <==> SharesNone(ms, orphans)
  {
    HealthyMeaning(ms, orphans);
    assert forall i :: 0 <= i < |ms| && Asks(ms[i]) ==> RunAnswers(ms, i);
  }

  /** A turn that starts from a contiguous history and ends in loop detection leaves a well-formed
      Anthropic request exactly if no earlier question, of this turn or any before, shares an id
      with the one that was cut off. */
  lemma SharedIdIff(env: Env, cap: int, max: int, base: Messages)
    requires Contiguous(base) && IdsGiven(env) && ExitAt(env, max, Stop(env, cap, max, 0)).LoopDetected?
    ensures var n := Stop(env, cap, max, 0);
            Contiguous(AnthropicRequest(After(env, cap, max, base))) <==>
            SharesNone(base + Log(env, cap, n), Ids(Calls(env, n)))
  {
    hide After, Stop, ExitAt, Leftover, Log, LateOnly, OrphanIds, Contiguous, HealthyDisjoint, SharesNone;
    hide AnthropicRequest;
    var n := Stop(env, cap, max, 0);
    var pre, ask, text, pads := LoopEnd(env, cap, max, base);
    var left := Leftover(env, LoopDetected, n);
    var cut := Ids(ask.calls);
    ContiguousIsLate(base);
    LoopDetectionOnAnthropic(env, cap, max, base);
    assert {} + cut == cut;
    LogSound(env, cap, n, true);
    ContiguousConcat(base, Log(env, cap, n));
    ContiguousHealthy(pre, cut);
    LeftoverUsers(env, LoopDetected, n);
    LoopStretchHealthy(ask, LoopWarning(), text, pads, left, cut);
    HealthyConcat(pre, [ask, LoopWarning(), text] + pads + left, cut);
  }

  // ----- a model that repeats itself -----

  /** The model says and asks the same in every reply, and the executor answers the same. */
  function Insisting(said: string, call: ToolCall, rs: seq<Executor.Response>): Env {
    Env([], (i: nat) => Replied(said, [call]), (i: nat) => rs, (i: nat) => [], None, [], (t: string) => None)
  }

  lemma OneCall(call: ToolCall)
    ensures Detector.Sigs([call]) == [Detector.Sig(call.name, call.args)] && Ids([call]) == {call.id}
  {
    assert [call][1..] == [];
  }

  lemma Repeated(said: string, call: ToolCall, rs: seq<Executor.Response>)
    ensures var env, sig := Insisting(said, call, rs), Detector.Sig(call.name, call.args);
            && |CallsSoFar(env, 1)| == 1 && |CallsSoFar(env, 2)| == 2 && CallsSoFar(env, 3) == [sig, sig, sig]
  {
    var env := Insisting(said, call, rs);
    OneCall(call);
    hide Detector.Sigs, Ids;
    assert CallsSoFar(env, 0) == [];
    assert CallsSoFar(env, 1) == CallsSoFar(env, 0) + Detector.Sigs([call]);
    assert CallsSoFar(env, 2) == CallsSoFar(env, 1) + Detector.Sigs([call]);
    assert CallsSoFar(env, 3) == CallsSoFar(env, 2) + Detector.Sigs([call]);
  }

  lemma RoundRuns(env: Env, cap: int, i: nat, call: ToolCall)
    requires Calls(env, i) == [call] && !Executor.CrashesOn(call, env.exec(i)) && |CallsSoFar(env, i + 1)| < 3
    ensures Goes(env, cap, i)
  {
    var vs := Verdicts(env, cap, i);
    assert vs == Executor.Verdicts(Executor.RoundOutcomes([call], cap, env.exec(i)));
    assert |vs| == 1;
    hide Executor.CrashesOn, Executor.RoundOutcomes, Executor.Verdicts, Recorded, CallsSoFar;
    Executor.VerdictInRound([call], cap, env.exec(i), 0);
    RecordedAll(vs);
  }

  /** Two rounds run, and the third reply is cut off. */
  lemma ThirdTimeStops(said: string, call: ToolCall, rs: seq<Executor.Response>, cap: int, max: int)
    requires !Executor.CrashesOn(call, rs) && max > 2
    ensures var env := Insisting(said, call, rs);
            Stop(env, cap, max, 0) == 2 && ExitAt(env, max, 2).LoopDetected? && (call.id != "" ==> IdsGiven(env))
  {
    var env := Insisting(said, call, rs);
    Repeated(said, call, rs);
    OneCall(call);
    hide Executor.CrashesOn, CallsSoFar, Ids, Detector.Sigs;
    RoundRuns(env, cap, 0, call);
    RoundRuns(env, cap, 1, call);
    assert Detector.TripleAt(CallsSoFar(env, 3), 2);
    hide Verdicts;
    assert !Goes(env, cap, 2);
    hide Goes;
    assert Stop(env, cap, max, 2) == 2;
    assert Stop(env, cap, max, 1) == 2;
  }

  lemma FirstRoundShares(env: Env, cap: int, base: Messages, call: ToolCall)
    requires Calls(env, 0) == [call]
    ensures !SharesNone(base + Log(env, cap, 2), {call.id})
  {
    OneCall(call);
    var log := Log(env, cap, 2);
    assert log == Log(env, cap, 1) + StepLog(env, cap, 1);
    assert Log(env, cap, 1) == Log(env, cap, 0) + StepLog(env, cap, 0);
    assert Log(env, cap, 0) == [];
    assert log[0] == AssistantMessage(Said(env, 0), [call]);
    assert (base + log)[|base|] == log[0];
    assert Asks(log[0]) && call.id in Ids(log[0].calls) * {call.id};
  }

  /** The same call under the same id in three successive replies, behind any contiguous history:
      the loop detector fires, the sweep by id takes the answers of both rounds that ran, and the
      Anthropic request is malformed. */
  lemma SameIdThrice(said: string, call: ToolCall, rs: seq<Executor.Response>, cap: int, max: int, base: Messages)
    requires call.id != "" && !Executor.CrashesOn(call, rs) && max > 2 && Contiguous(base)
    ensures var env := Insisting(said, call, rs);
            && ExitAt(env, max, Stop(env, cap, max, 0)).LoopDetected?
            && !Contiguous(AnthropicRequest(After(env, cap, max, base)))
  {
    hide After, Stop, ExitAt, Contiguous, AnthropicRequest, SharesNone, Log, Executor.CrashesOn, IdsGiven;
    var env := Insisting(said, call, rs);
    ThirdTimeStops(said, call, rs, cap, max);
    OneCall(call);
    SharedIdIff(env, cap, max, base);
    FirstRoundShares(env, cap, base, call);
  }

  /** A recovered call as the turn sees it; `encode` writes its arguments. */
  function AsCall(r: Recovery.Recovered, encode: map<string, Recovery.Arg> -> string): ToolCall {
    ToolCall(r.id, r.name, encode(r.args))
  }

  /** So a model that leaks the same text with one call into three successive replies always ends
      there: its call is numbered from zero each time. */
  lemma LeakedThrice(text: string, valid: string -> bool, encode: map<string, Recovery.Arg> -> string,
                     rs: seq<Executor.Response>, cap: int, max: int, base: Messages)
    requires |Recovery.Recover(text, valid).0| == 1 && max > 2 && Contiguous(base)
    requires !Executor.CrashesOn(AsCall(Recovery.Recover(text, valid).0[0], encode), rs)
    ensures var (calls, residual) := Recovery.Recover(text, valid);
            var env := Insisting(residual, AsCall(calls[0], encode), rs);
            && ExitAt(env, max, Stop(env, cap, max, 0)).LoopDetected?
            && !Contiguous(AnthropicRequest(After(env, cap, max, base)))
  {
    hide Recovery.Recover, Recovery.RecoveredId, Executor.CrashesOn, Contiguous, After, Stop, ExitAt;
    Recovery.RecoveredIdsCollide(text, text, valid);
    Recovery.RecoveredIdGiven(0);
    var (calls, residual) := Recovery.Recover(text, valid);
    SameIdThrice(residual, AsCall(calls[0], encode), rs, cap, max, base);
  }

  // ----- whole sessions -----

  /** Late answers are the only misplaced ones, they belong to questions with the ids `cut`, and no
      question is left to be padded. */
  predicate Late(ms: Messages, cut: set<string>) {
    && OrphanIds(ms) == cut && LateOnly(ms, cut, {}) && Padding.PadsFor(ms) == []
    && (ms == [] || !ms[0].role.Tool?)
  }

  lemma LateConcat(a: Messages, b: Messages, cutA: set<string>, cutB: set<string>)
    requires Late(a, cutA) && Late(b, cutB)
    ensures Late(a + b, cutA + cutB)
  {
    hide LateOnly, OrphanIds, Padding.PadsFor;
    LateJoined(a, b, cutB);
    Padding.PadsAreLocal(a, b);
  }

  lemma ContiguousLate(ms: Messages)
    requires Contiguous(ms)
    ensures Late(ms, {})
  {
    hide LateOnly, OrphanIds, Padding.PadsFor, Contiguous;
    ContiguousIsLate(ms);
    Padding.ContiguousNeedsNoPad(ms);
  }

  lemma LateOnWire(ms: Messages, cut: set<string>)
    requires Late(ms, cut)
    ensures Contiguous(AnthropicRequest(ms)) <==> HealthyDisjoint(ms, cut)
  {
    hide Contiguous, AnthropicRequest, HealthyDisjoint, LateOnly, OrphanIds, Placed, Padding.PadsFor;
    AnthropicAcceptedIff(ms);
    LateIsPlaced(ms, cut, {}, {});
  }

  // ----- pruning changes none of this -----

  lemma {:induction false} AlikeOrphans(a: Messages, b: Messages)
    requires Compaction.Alike(a, b)
    ensures OrphanIds(a) == OrphanIds(b)
  {
    if a != [] {
      assert Compaction.SameShape(a[0], b[0]);
      Compaction.AlikeSuffix(a, b, 1);
      Compaction.AlikeIds(a[1..], b[1..]);
      AlikeOrphans(a[1..], b[1..]);
    }
  }

  lemma {:induction false} AlikeLateOnly(a: Messages, b: Messages, orphans: set<string>, open: set<string>)
    requires Compaction.Alike(a, b)
    ensures LateOnly(a, orphans, open) == LateOnly(b, orphans, open)
  {
    if a != [] {
      assert Compaction.SameShape(a[0], b[0]);
      Compaction.AlikeSuffix(a, b, 1);
      var next := if a[0].role.Tool? then open else if Asks(a[0]) then Ids(a[0].calls) else {};
      AlikeLateOnly(a[1..], b[1..], orphans, next);
    }
  }

  lemma {:induction false} AlikeLastAsk(a: Messages, b: Messages)
    requires Compaction.Alike(a, b)
    ensures LastAsk(a) == LastAsk(b)
  {
    if a != [] {
      var n := |a| - 1;
      assert Compaction.SameShape(a[n], b[n]);
      assert Compaction.Alike(a[..n], b[..n]) by {
        forall k | 0 <= k < n ensures Compaction.SameShape(a[..n][k], b[..n][k]) {
          assert Compaction.SameShape(a[k], b[k]);
        }
      }
      AlikeLastAsk(a[..n], b[..n]);
    }
  }

  lemma AlikePads(a: Messages, b: Messages)
    requires Compaction.Alike(a, b)
    ensures Padding.PadsFor(a) == Padding.PadsFor(b)
  {
    AlikeLastAsk(a, b);
    var i := LastAsk(a);
    if i >= 0 {
      assert Compaction.SameShape(a[i], b[i]);
      Compaction.AlikeSuffix(a, b, i + 1);
      Compaction.AlikeIds(a[i + 1..], b[i + 1..]);
    }
  }

  lemma AlikeLate(a: Messages, b: Messages, cut: set<string>)
    requires Compaction.Alike(a, b) && Late(a, cut)
    ensures Late(b, cut)
  {
    hide Compaction.Alike, LateOnly, OrphanIds, Padding.PadsFor;
    AlikeOrphans(a, b);
    AlikeLateOnly(a, b, cut, {});
    AlikePads(a, b);
    if b != [] {
      AlikeHead(a, b);
    }
  }

  lemma AlikeHead(a: Messages, b: Messages)
    requires Compaction.Alike(a, b) && b != []
    ensures a != [] && a[0].role == b[0].role
  {
    assert Compaction.SameShape(a[0], b[0]);
  }

  // ----- one turn -----

  /** The ids that a turn cuts off. */
  function CutIds(t: Input): set<string> {
    if LoopEnds(t) then Ids(Calls(t.env, Stop(t.env, t.cap, t.max, 0))) else {}
  }

  /** What the turn would leave of an empty session. */
  function Alone(t: Input): Messages {
    After(t.env, t.cap, t.max, [])
  }

  /** Behind a settled history a turn appends what it would append to an empty session. */
  lemma AfterSettled(t: Input, base: Messages)
    requires Padding.PadsFor(base) == []
    ensures After(t.env, t.cap, t.max, base) == base + Alone(t)
  {
    hide Stop, ExitAt, Body, Leftover, Padding.PadsFor;
    var n := Stop(t.env, t.cap, t.max, 0);
    var body := Body(t.env, t.cap, ExitAt(t.env, t.max, n), n);
    Padding.PadsAreLocal(base, body);
    assert [] + body == body && [] + Appended(t.env, t.cap, t.max, []) == Appended(t.env, t.cap, t.max, []);
  }

  lemma LoopSettles(pre: Messages, ask: Message, other: Message, text: Message, pads: Messages, left: Messages)
    requires Asks(ask) && "" !in Ids(ask.calls) && !Asks(other) && text.calls == []
    requires AllTools(pads) && AnsweredIds(pads) == Ids(ask.calls) && AllUsers(left)
    ensures Padding.PadsFor(pre + ([ask, other, text] + pads + left)) == []
  {
    var rest := [other, text] + pads + left;
    assert pre + ([ask, other, text] + pads + left) == pre + [ask] + rest;
    LastAskIs(pre, ask, rest);
    assert (pre + [ask] + rest)[|pre| + 1..] == rest;
    AnsweredConcat([other, text], pads);
    AnsweredConcat([other, text] + pads, left);
    Padding.PadsOfExact(ask.calls, Padding.RepliedIds(rest));
  }

  lemma LoopAlone(t: Input)
    requires IdsGiven(t.env) && LoopEnds(t)
    ensures Padding.PadsFor(Alone(t)) == [] && Alone(t) != [] && !Alone(t)[0].role.Tool?
  {
    hide After, Stop, ExitAt, Leftover, Log, Contiguous, Padding.PadsFor;
    var n := Stop(t.env, t.cap, t.max, 0);
    var pre, ask, text, pads := LoopEnd(t.env, t.cap, t.max, []);
    var left := Leftover(t.env, LoopDetected, n);
    LogSound(t.env, t.cap, n, true);
    LeftoverUsers(t.env, LoopDetected, n);
    assert pre == Log(t.env, t.cap, n);
    LoopSettles(pre, ask, LoopWarning(), text, pads, left);
  }

  lemma AloneLate(t: Input)
    requires IdsGiven(t.env)
    ensures Late(Alone(t), CutIds(t))
  {
    hide After, Stop, ExitAt, Contiguous, Padding.PadsFor, OrphanIds, LateOnly, IdsGiven;
    EmptyLate();
    if LoopEnds(t) {
      LoopDetectionOnAnthropic(t.env, t.cap, t.max, []);
      assert {} + CutIds(t) == CutIds(t);
      LoopAlone(t);
    } else {
      TurnKeepsPairing(t.env, t.cap, t.max, [], true);
      ContiguousLate(Alone(t));
    }
  }

  lemma EmptyLate()
    ensures Contiguous([]) && Resolved([]) && OrphanIds([]) == {} && LateOnly([], {}, {}) && Late([], {})
  {
    PlainContiguous([]);
    ContiguousLate([]);
  }

  /** The session before turn `t` of a session that compaction never summarizes. */
  lemma BaseLate(ms: Messages, t: Input, cut: set<string>)
    requires Late(ms, cut) && t.user.role.User? && !Compaction.Summarizes(ms + [t.user], t.env.chat)
    ensures Late(Base(ms, t), cut)
  {
    hide Compaction.Summarizes, Compaction.Compacted, Compaction.Alike, Late;
    PlainContiguous([t.user]);
    ContiguousLate([t.user]);
    LateConcat(ms, [t.user], cut, {});
    assert cut + {} == cut;
    Compaction.UnsummarizedAlike(ms + [t.user], t.env.chat);
    AlikeLate(ms + [t.user], Base(ms, t), cut);
  }

  lemma TurnedLate(ms: Messages, t: Input, cut: set<string>)
    requires Late(ms, cut) && IdsGiven(t.env) && t.user.role.User?
    requires !Compaction.Summarizes(ms + [t.user], t.env.chat)
    ensures Late(Turned(ms, t), cut + CutIds(t))
  {
    hide Compaction.Summarizes, After, Base, CutIds, OrphanIds, LateOnly, Padding.PadsFor, IdsGiven;
    BaseLate(ms, t, cut);
    AfterSettled(t, Base(ms, t));
    AloneLate(t);
    LateConcat(Base(ms, t), Alone(t), cut, CutIds(t));
  }

  // ----- any number of turns -----

  /** Every turn begins with a user's message, no reply holds a call without an id, and compaction
      replaces nothing by a summary. */
  ghost predicate Unsummarized(turns: seq<Input>) {
    turns != [] ==>
      var front, t := turns[..|turns| - 1], turns[|turns| - 1];
      && Unsummarized(front) && t.user.role.User? && IdsGiven(t.env)
      && !Compaction.Summarizes(SessionAfter(front) + [t.user], t.env.chat)
  }

  /** The ids that were cut off in any of the turns. */
  function AllCutIds(turns: seq<Input>): set<string> {
    if turns == [] then {} else AllCutIds(turns[..|turns| - 1]) + CutIds(turns[|turns| - 1])
  }

  lemma {:induction false} SessionLate(turns: seq<Input>)
    requires Unsummarized(turns)
    ensures Late(SessionAfter(turns), AllCutIds(turns))
  {
    hide Turned, Late, CutIds;
    if turns == [] {
      EmptyLate();
    } else {
      var front, t := turns[..|turns| - 1], turns[|turns| - 1];
      SessionLate(front);
      TurnedLate(SessionAfter(front), t, AllCutIds(front));
    }
  }

  /** Over any number of turns, however many end in loop detection: the request that shows the
      session is well-formed exactly if no question that was answered at once shares an id with
      one that was ever cut off. */
  lemma SessionsOnAnthropic(turns: seq<Input>)
    requires Unsummarized(turns)
    ensures var s := SessionAfter(turns);
            && Late(s, AllCutIds(turns))
            && (Contiguous(AnthropicRequest(s)) <==> HealthyDisjoint(s, AllCutIds(turns)))
  {
    hide Late, Contiguous, AnthropicRequest, HealthyDisjoint, SessionAfter, AllCutIds;
    SessionLate(turns);
    LateOnWire(SessionAfter(turns), AllCutIds(turns));
  }

  lemma FramedLate(system: Messages, base: Messages, log: Messages, extra: Messages, cut: set<string>)
    requires Plain(system) && Plain(extra) && Piece(log, true) && Late(base, cut)
    ensures Late(system + (base + log) + extra, cut)
  {
    hide Late, Contiguous, Resolved;
    PlainPiece(system, true);
    PlainPiece(extra, true);
    ContiguousLate(system);
    ContiguousLate(log);
    ContiguousLate(extra);
    assert {} + cut == cut && cut + {} == cut;
    LateConcat(base, log, cut, {});
    LateConcat(system, base + log, {}, cut);
    LateConcat(system + (base + log), extra, cut, {});
  }

  lemma ExtraIsPlain(tools: bool)
    ensures Plain(if tools then [] else [ToolsOff()])
  {
  }

  /** So is every request of the loop in the turn that follows. */
  lemma PromptsOnAnthropic(turns: seq<Input>, t: Input, i: nat)
    requires Unsummarized(turns + [t])
    ensures var h := PromptAt(t.env, t.cap, Base(SessionAfter(turns), t), i).history;
            Contiguous(AnthropicRequest(h)) <==> HealthyDisjoint(h, AllCutIds(turns))
  {
    hide Late, Contiguous, AnthropicRequest, HealthyDisjoint, SessionAfter, AllCutIds, Base, Log, Plain, Resolved;
    hide Compaction.Summarizes, IdsGiven;
    assert (turns + [t])[..|turns + [t]| - 1] == turns && (turns + [t])[|turns + [t]| - 1] == t;
    var base, tools := Base(SessionAfter(turns), t), PromptAt(t.env, t.cap, Base(SessionAfter(turns), t), i).tools;
    var extra := if tools then [] else [ToolsOff()];
    SessionLate(turns);
    BaseLate(SessionAfter(turns), t, AllCutIds(turns));
    LogSound(t.env, t.cap, i, true);
    ExtraIsPlain(tools);
    FramedLate(SystemMessages(t.env.system), base, Log(t.env, t.cap, i), extra, AllCutIds(turns));
    LateOnWire(PromptAt(t.env, t.cap, base, i).history, AllCutIds(turns));
  }
}
