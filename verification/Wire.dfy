/** What the providers are sent (internal/provider/openai.go and internal/provider/anthropic.go).
    Both drop tool calls that are not answered at once, and the answers that would then dangle;
    a provider accepts the result only if it is contiguous. */
module Wire {
  import opened History
  import opened Rounds
  import opened TurnSpec
  import Padding

  /** A question that is not answered in the run of tool messages right behind it. A call
      without an id is never answered. */
  predicate Orphan(m: Message, rest: Messages) {
    Asks(m) && !(Ids(m.calls) <= RunIds(rest))
  }

  function WithoutCalls(m: Message): Message {
    m.(calls := [])
  }

  // ----- contiguity, read from the front -----

  /** Every answer has its question at the head of its run; `open` is what the message before
      the first one asked for. */
  predicate ParentedFrom(ms: Messages, open: set<string>) {
    if ms == [] then true
    else if ms[0].role.Tool? then ms[0].callId in open && ParentedFrom(ms[1..], open)
    else ParentedFrom(ms[1..], if Asks(ms[0]) then Ids(ms[0].calls) else {})
  }

  predicate AnsweredFrom(ms: Messages) {
    ms == [] || (!Orphan(ms[0], ms[1..]) && AnsweredFrom(ms[1..]))
  }

  lemma {:induction false} OpenIdsTail(ms: Messages, j: nat, open: set<string>)
    requires 0 < j <= |ms|
    ensures OpenIds(ms, j, open) ==
            OpenIds(ms[1..], j - 1, if ms[0].role.Tool? then open else if Asks(ms[0]) then Ids(ms[0].calls) else {})
  {
    if j > 1 {
      OpenIdsTail(ms, j - 1, open);
    }
  }

  lemma {:induction false} ParentedFromIs(ms: Messages, open: set<string>)
    ensures ParentedFrom(ms, open) <==> AllParented(ms, open)
  {
    if ms != [] {
      var next := if ms[0].role.Tool? then open else if Asks(ms[0]) then Ids(ms[0].calls) else {};
      ParentedFromIs(ms[1..], next);
      ParentedStep(ms, open, next);
    }
  }

  lemma ParentedStep(ms: Messages, open: set<string>, next: set<string>)
    requires ms != []
    requires next == if ms[0].role.Tool? then open else if Asks(ms[0]) then Ids(ms[0].calls) else {}
    ensures AllParented(ms, open) <==> (ms[0].role.Tool? ==> ms[0].callId in open) && AllParented(ms[1..], next)
  {
    forall j | 0 < j < |ms| ensures Parented(ms, j, open) == Parented(ms[1..], j - 1, next) {
      OpenIdsTail(ms, j, open);
    }
    if AllParented(ms, open) {
      var first := Parented(ms, 0, open);
      forall j | 0 <= j < |ms[1..]| && ms[1..][j].role.Tool? ensures Parented(ms[1..], j, next) {
        assert Parented(ms, j + 1, open);
      }
    }
    if (ms[0].role.Tool? ==> ms[0].callId in open) && AllParented(ms[1..], next) {
      forall j | 0 <= j < |ms| && ms[j].role.Tool? ensures Parented(ms, j, open) {
        if j > 0 {
          assert Parented(ms[1..], j - 1, next);
        }
      }
    }
  }

  lemma {:induction false} AnsweredFromIs(ms: Messages)
    ensures AnsweredFrom(ms) <==> AsksAnswered(ms)
  {
    if ms != [] {
      AnsweredFromIs(ms[1..]);
      forall i | 0 < i < |ms| ensures RunAnswers(ms, i) == RunAnswers(ms[1..], i - 1) {
        assert ms[i + 1..] == ms[1..][i..];
      }
      if AsksAnswered(ms) {
        var first := RunAnswers(ms, 0);
        forall i | 0 <= i < |ms[1..]| && Asks(ms[1..][i]) ensures RunAnswers(ms[1..], i) {
          assert RunAnswers(ms, i + 1);
        }
      }
    }
  }

  lemma ContiguousFrom(ms: Messages)
    ensures Contiguous(ms) <==> AnsweredFrom(ms) && ParentedFrom(ms, {})
  {
    AnsweredFromIs(ms);
    ParentedFromIs(ms, {});
  }

  // ----- OpenAI -----

  /** The messages sent. Orphaned questions lose their calls, and in the run behind one the
      answers to it, `drop`, are left out. */
  function OpenAI(ms: Messages, drop: set<string>): Messages {
    if ms == [] then []
    else if ms[0].role.Tool? && ms[0].callId in drop then OpenAI(ms[1..], drop)
    else if ms[0].role.Tool? then [ms[0]] + OpenAI(ms[1..], drop)
    else if Orphan(ms[0], ms[1..]) then [WithoutCalls(ms[0])] + OpenAI(ms[1..], Ids(ms[0].calls))
    else [ms[0]] + OpenAI(ms[1..], {})
  }

  lemma {:induction false} OpenAIRun(ms: Messages)
    ensures RunIds(OpenAI(ms, {})) == RunIds(ms)
  {
    if ms != [] && ms[0].role.Tool? {
      OpenAIRun(ms[1..]);
      assert OpenAI(ms, {})[1..] == OpenAI(ms[1..], {});
    }
  }

  lemma Headed(m: Message, rest: Messages)
    ensures ([m] + rest)[1..] == rest && ([m] + rest)[0] == m
  {
  }

  lemma {:induction false} OpenAIAnswered(ms: Messages, drop: set<string>)
    ensures AnsweredFrom(OpenAI(ms, drop))
  {
    if ms != [] {
      var m, rest := ms[0], ms[1..];
      if m.role.Tool? {
        OpenAIAnswered(rest, drop);
        Headed(m, OpenAI(rest, drop));
      } else if Orphan(m, rest) {
        OpenAIAnswered(rest, Ids(m.calls));
        Headed(WithoutCalls(m), OpenAI(rest, Ids(m.calls)));
      } else {
        OpenAIAnswered(rest, {});
        OpenAIRun(rest);
        Headed(m, OpenAI(rest, {}));
      }
    }
  }

  /** Behind a healthy question the open ids are the same on the wire; behind an orphaned one
      nothing is open on the wire, and what was open is dropped. */
  lemma {:induction false} OpenAIParented(ms: Messages, open: set<string>, orphaned: bool)
    ensures ParentedFrom(OpenAI(ms, if orphaned then open else {}), if orphaned then {} else open) <==>
            ParentedFrom(ms, open)
  {
    if ms != [] {
      var m, rest := ms[0], ms[1..];
      var drop := if orphaned then open else {};
      if m.role.Tool? {
        OpenAIParented(rest, open, orphaned);
        Headed(m, OpenAI(rest, drop));
      } else if Orphan(m, rest) {
        OpenAIParented(rest, Ids(m.calls), true);
        Headed(WithoutCalls(m), OpenAI(rest, Ids(m.calls)));
      } else {
        OpenAIParented(rest, if Asks(m) then Ids(m.calls) else {}, false);
        Headed(m, OpenAI(rest, {}));
      }
    }
  }

  /** The OpenAI request is well-formed exactly if every tool message answers the question at the
      head of its run: unanswered questions are repaired, late and stray answers are not. */
  lemma OpenAIAcceptedIff(ms: Messages)
    ensures Contiguous(OpenAI(ms, {})) <==> AllParented(ms, {})
  {
    ContiguousFrom(OpenAI(ms, {}));
    OpenAIAnswered(ms, {});
    OpenAIParented(ms, {}, false);
    ParentedFromIs(ms, {});
  }

  /** A contiguous history is sent as it is. */
  lemma {:induction false} OpenAIFaithful(ms: Messages)
    requires AnsweredFrom(ms)
    ensures OpenAI(ms, {}) == ms
  {
    if ms != [] {
      OpenAIFaithful(ms[1..]);
    }
  }

  // ----- Anthropic -----

  /** The ids of all orphaned questions. */
  function OrphanIds(ms: Messages): set<string> {
    if ms == [] then {} else (if Orphan(ms[0], ms[1..]) then Ids(ms[0].calls) else {}) + OrphanIds(ms[1..])
  }

  /** The messages sent. System messages travel elsewhere; answers to any orphaned id are left out,
      wherever they stand; an orphaned question without text is left out altogether. */
  function Anthropic(ms: Messages, orphans: set<string>): Messages {
    if ms == [] then []
    else
      var m, rest := ms[0], Anthropic(ms[1..], orphans);
      if m.role.System? || (m.role.Tool? && m.callId in orphans) then rest
      else if Orphan(m, ms[1..]) then (if m.content == "" then rest else [WithoutCalls(m)] + rest)
      else [m] + rest
  }

  function AnthropicRequest(ms: Messages): Messages {
    Anthropic(ms, OrphanIds(ms))
  }

  /** No question that is answered at once shares an id with an orphaned one. */
  predicate HealthyDisjoint(ms: Messages, orphans: set<string>) {
    ms == [] ||
    ((Asks(ms[0]) && !Orphan(ms[0], ms[1..]) ==> Ids(ms[0].calls) !! orphans) && HealthyDisjoint(ms[1..], orphans))
  }

  /** Every answer stands behind its question, or answers an orphaned one. */
  predicate LateOnly(ms: Messages, orphans: set<string>, open: set<string>) {
    if ms == [] then true
    else if ms[0].role.Tool? then
      (ms[0].callId in orphans || ms[0].callId in open) && LateOnly(ms[1..], orphans, open)
    else LateOnly(ms[1..], orphans, if Asks(ms[0]) then Ids(ms[0].calls) else {})
  }

  lemma {:induction false} AnthropicRun(ms: Messages, orphans: set<string>)
    ensures RunIds(ms) - orphans <= RunIds(Anthropic(ms, orphans))
  {
    if ms != [] && ms[0].role.Tool? {
      AnthropicRun(ms[1..], orphans);
      Headed(ms[0], Anthropic(ms[1..], orphans));
    }
  }

  lemma {:induction false} AnthropicDrops(ms: Messages, orphans: set<string>)
    ensures RunIds(Anthropic(ms, orphans)) !! orphans
  {
    if ms != [] {
      var rest := Anthropic(ms[1..], orphans);
      AnthropicDrops(ms[1..], orphans);
      Headed(ms[0], rest);
      Headed(WithoutCalls(ms[0]), rest);
    }
  }

  lemma {:induction false} AnthropicAnswered(ms: Messages, orphans: set<string>)
    ensures AnsweredFrom(Anthropic(ms, orphans)) <==> HealthyDisjoint(ms, orphans)
  {
    if ms != [] {
      var m, rest := ms[0], Anthropic(ms[1..], orphans);
      AnthropicAnswered(ms[1..], orphans);
      Headed(m, rest);
      Headed(WithoutCalls(m), rest);
      if Asks(m) && !Orphan(m, ms[1..]) {
        HealthyAnswered(m, ms[1..], orphans);
      }
    }
  }

  lemma HealthyAnswered(m: Message, rest: Messages, orphans: set<string>)
    requires Asks(m) && !Orphan(m, rest)
    ensures !Orphan(m, Anthropic(rest, orphans)) <==> Ids(m.calls) !! orphans
  {
    AnthropicRun(rest, orphans);
    AnthropicDrops(rest, orphans);
  }

  /** Every answer kept finds its question at the head of the stretch it stands in. What is left
      out along the way does not end a stretch: system messages, answers to an orphaned id and
      orphaned questions without text. */
  predicate Placed(ms: Messages, orphans: set<string>, open: set<string>) {
    if ms == [] then true
    else if ms[0].role.System? then Placed(ms[1..], orphans, open)
    else if ms[0].role.Tool? then
      (ms[0].callId in orphans || ms[0].callId in open) && Placed(ms[1..], orphans, open)
    else if Orphan(ms[0], ms[1..]) then Placed(ms[1..], orphans, if ms[0].content == "" then open else {})
    else Placed(ms[1..], orphans, if Asks(ms[0]) then Ids(ms[0].calls) else {})
  }

  lemma {:induction false} AnthropicParented(ms: Messages, orphans: set<string>, open: set<string>)
    ensures ParentedFrom(Anthropic(ms, orphans), open) <==> Placed(ms, orphans, open)
  {
    if ms != [] {
      var m, rest := ms[0], Anthropic(ms[1..], orphans);
      Headed(m, rest);
      Headed(WithoutCalls(m), rest);
      if m.role.Tool? || m.role.System? || (Orphan(m, ms[1..]) && m.content == "") {
        AnthropicParented(ms[1..], orphans, open);
      } else {
        AnthropicParented(ms[1..], orphans, if Asks(m) && !Orphan(m, ms[1..]) then Ids(m.calls) else {});
      }
    }
  }

  /** The Anthropic request is well-formed exactly if every answer kept is well placed and no
      healthy question shares an id with an orphaned one. */
  lemma AnthropicAcceptedIff(ms: Messages)
    ensures Contiguous(AnthropicRequest(ms)) <==> Placed(ms, OrphanIds(ms), {}) && HealthyDisjoint(ms, OrphanIds(ms))
  {
    ContiguousFrom(AnthropicRequest(ms));
    AnthropicAnswered(ms, OrphanIds(ms));
    AnthropicParented(ms, OrphanIds(ms), {});
  }

  /** Late answers are well placed. */
  lemma {:induction false} LateIsPlaced(ms: Messages, orphans: set<string>, open: set<string>, wireOpen: set<string>)
    requires LateOnly(ms, orphans, open) && OrphanIds(ms) <= orphans && open - orphans <= wireOpen
    ensures Placed(ms, orphans, wireOpen)
  {
    if ms != [] {
      var m := ms[0];
      var next := if m.role.Tool? then open else if Asks(m) then Ids(m.calls) else {};
      if m.role.Tool? || m.role.System? || (Orphan(m, ms[1..]) && m.content == "") {
        LateIsPlaced(ms[1..], orphans, next, wireOpen);
      } else if Orphan(m, ms[1..]) {
        LateIsPlaced(ms[1..], orphans, next, {});
      } else {
        LateIsPlaced(ms[1..], orphans, next, next);
      }
    }
  }

  function WithoutSystem(ms: Messages): Messages {
    if ms == [] then [] else if ms[0].role.System? then WithoutSystem(ms[1..]) else [ms[0]] + WithoutSystem(ms[1..])
  }

  /** A contiguous history is sent as it is, apart from the system messages. */
  lemma {:induction false} AnthropicFaithful(ms: Messages)
    requires AnsweredFrom(ms)
    ensures OrphanIds(ms) == {} && Anthropic(ms, {}) == WithoutSystem(ms)
  {
    if ms != [] {
      AnthropicFaithful(ms[1..]);
    }
  }

  // ----- what is said on the wire -----

  /** What the messages other than answers say, by whom. */
  function Spoken(ms: Messages): seq<(Role, string)> {
    if ms == [] then []
    else (if ms[0].role.Tool? then [] else [(ms[0].role, ms[0].content)]) + Spoken(ms[1..])
  }

  /** The calls of the questions that are answered at once, question by question. */
  function HealthyCalls(ms: Messages): seq<seq<ToolCall>> {
    if ms == [] then []
    else (if Asks(ms[0]) && !Orphan(ms[0], ms[1..]) then [ms[0].calls] else []) + HealthyCalls(ms[1..])
  }

  function AllCalls(ms: Messages): seq<seq<ToolCall>> {
    if ms == [] then [] else (if Asks(ms[0]) then [ms[0].calls] else []) + AllCalls(ms[1..])
  }

  /** The OpenAI request says what the history says, word for word. */
  lemma {:induction false} OpenAISays(ms: Messages, drop: set<string>)
    ensures Spoken(OpenAI(ms, drop)) == Spoken(ms)
  {
    hide RunIds, Ids;
    if ms != [] {
      var m, rest := ms[0], ms[1..];
      if m.role.Tool? {
        OpenAISays(rest, drop);
        Headed(m, OpenAI(rest, drop));
      } else if Orphan(m, rest) {
        OpenAISays(rest, Ids(m.calls));
        Headed(WithoutCalls(m), OpenAI(rest, Ids(m.calls)));
      } else {
        OpenAISays(rest, {});
        Headed(m, OpenAI(rest, {}));
      }
    }
  }

  /** It asks exactly what was answered at once. */
  lemma {:induction false} OpenAIAsks(ms: Messages, drop: set<string>)
    ensures AllCalls(OpenAI(ms, drop)) == HealthyCalls(ms)
  {
    hide RunIds, Ids;
    if ms != [] {
      var m, rest := ms[0], ms[1..];
      if m.role.Tool? {
        OpenAIAsks(rest, drop);
        Headed(m, OpenAI(rest, drop));
      } else if Orphan(m, rest) {
        OpenAIAsks(rest, Ids(m.calls));
        Headed(WithoutCalls(m), OpenAI(rest, Ids(m.calls)));
      } else {
        OpenAIAsks(rest, {});
        Headed(m, OpenAI(rest, {}));
      }
    }
  }

  /** The answers without those to the orphaned question whose run they stand in. */
  function KeptAnswers(ms: Messages, drop: set<string>): Messages {
    if ms == [] then []
    else if ms[0].role.Tool? then (if ms[0].callId in drop then [] else [ms[0]]) + KeptAnswers(ms[1..], drop)
    else KeptAnswers(ms[1..], if Orphan(ms[0], ms[1..]) then Ids(ms[0].calls) else {})
  }

  function AnswersIn(ms: Messages): Messages {
    if ms == [] then [] else (if ms[0].role.Tool? then [ms[0]] else []) + AnswersIn(ms[1..])
  }

  /** It carries every answer unchanged, except those in the run behind an orphaned question that
      answer it. */
  lemma {:induction false} OpenAIAnswers(ms: Messages, drop: set<string>)
    ensures AnswersIn(OpenAI(ms, drop)) == KeptAnswers(ms, drop)
  {
    hide RunIds, Ids;
    if ms != [] {
      var m, rest := ms[0], ms[1..];
      if m.role.Tool? {
        OpenAIAnswers(rest, drop);
        Headed(m, OpenAI(rest, drop));
      } else if Orphan(m, rest) {
        OpenAIAnswers(rest, Ids(m.calls));
        Headed(WithoutCalls(m), OpenAI(rest, Ids(m.calls)));
      } else {
        OpenAIAnswers(rest, {});
        Headed(m, OpenAI(rest, {}));
      }
    }
  }

  /** What users and assistants say, without empty texts. */
  function Dialogue(ms: Messages): seq<(Role, string)> {
    if ms == [] then []
    else (if ms[0].role.Tool? || ms[0].role.System? || ms[0].content == "" then [] else [(ms[0].role, ms[0].content)])
         + Dialogue(ms[1..])
  }

  function AnswersBut(ms: Messages, ids: set<string>): Messages {
    if ms == [] then []
    else (if ms[0].role.Tool? && ms[0].callId !in ids then [ms[0]] else []) + AnswersBut(ms[1..], ids)
  }

  /** The Anthropic request holds the dialogue word for word, asks exactly what was answered at
      once, and carries every answer unchanged whose id belongs to no orphaned question. */
  lemma {:induction false} AnthropicSays(ms: Messages, orphans: set<string>)
    ensures var wire := Anthropic(ms, orphans);
            && Dialogue(wire) == Dialogue(ms) && AllCalls(wire) == HealthyCalls(ms)
            && AnswersIn(wire) == AnswersBut(ms, orphans) && forall m :: m in wire ==> !m.role.System?
  {
    hide RunIds, Ids;
    if ms != [] {
      var m, rest := ms[0], Anthropic(ms[1..], orphans);
      AnthropicSays(ms[1..], orphans);
      Headed(m, rest);
      Headed(WithoutCalls(m), rest);
    }
  }

  // ----- after loop detection -----

  /** Answers that do not stand directly behind their question are never accepted, whatever else
      the history holds. */
  lemma LateAnswerDangles(pre: Messages, text: Message, late: Message, more: Messages)
    requires text.role.Assistant? && text.calls == [] && late.role.Tool?
    ensures !AllParented(pre + [text, late] + more, {})
  {
    var ms, j := pre + [text, late] + more, |pre| + 1;
    assert ms[j] == late && ms[j - 1] == text;
    assert OpenIds(ms, j, {}) == {};
    assert !Parented(ms, j, {});
  }

  /** All calls of an open question are padded if nothing behind it is an answer. */
  lemma PadsBehind(pre: Messages, ask: Message, rest: Messages)
    requires Asks(ask) && NoAsks(rest) && AnsweredIds(rest) == {}
    ensures var pads := Padding.PadsFor(pre + [ask] + rest);
            && pads != [] && pads[0].role.Tool? && AllTools(pads) && AnsweredIds(pads) == Ids(ask.calls)
  {
    var ms := pre + [ask] + rest;
    LastAskIs(pre, ask, rest);
    assert ms[|pre| + 1..] == rest && ms[|pre|] == ask;
    assert Padding.RepliedIds(rest) == {};
    Padding.PadsOfExact(ask.calls, Padding.RepliedIds(rest));
    assert ask.calls[0].id in Ids(ask.calls);
  }

  lemma NoneAnswered(other: Message, text: Message)
    requires !other.role.Tool? && !text.role.Tool?
    ensures AnsweredIds([other, text]) == {}
  {
    var ms := [other, text];
    assert ms[1..] == [text] && [text][1..] == [];
    assert AnsweredIds([text]) == {};
  }

  lemma LoopBody(env: Env, cap: int, n: nat)
    ensures Body(env, cap, LoopDetected, n) ==
            Log(env, cap, n) + [AssistantMessage(Said(env, n), Calls(env, n)), LoopWarning(), AssistantMessage(FinalText(env), [])]
  {
    hide Log, Said, Calls, FinalText;
  }

  lemma LoopAfter(env: Env, cap: int, max: int, base: Messages)
    requires ExitAt(env, max, Stop(env, cap, max, 0)).LoopDetected?
    ensures var n := Stop(env, cap, max, 0);
            var body := Body(env, cap, LoopDetected, n);
            && After(env, cap, max, base) == base + (body + Padding.PadsFor(base + body) + Leftover(env, LoopDetected, n))
            && Calls(env, n) != []
  {
    hide Stop, Body, Leftover, Padding.PadsFor, Detector.HasTriple, CallsSoFar;
  }

  /** The end of a turn in which the loop detector fired. */
  lemma LoopEnd(env: Env, cap: int, max: int, base: Messages)
      returns (pre: Messages, ask: Message, text: Message, pads: Messages)
    requires ExitAt(env, max, Stop(env, cap, max, 0)).LoopDetected?
    ensures var n := Stop(env, cap, max, 0);
            && pre == base + Log(env, cap, n) && ask == AssistantMessage(Said(env, n), Calls(env, n))
            && After(env, cap, max, base) ==
               pre + ([ask, LoopWarning(), text] + pads + Leftover(env, LoopDetected, n))
    ensures Asks(ask) && text.role.Assistant? && text.calls == []
    ensures pads != [] && AllTools(pads) && AnsweredIds(pads) == Ids(ask.calls)
  {
    hide Log, Leftover, Stop, Padding.PadsFor, FinalText, AnsweredIds, After, ExitAt, Body, Calls, Said;
    var n := Stop(env, cap, max, 0);
    var log, left := Log(env, cap, n), Leftover(env, LoopDetected, n);
    pre, ask := base + log, AssistantMessage(Said(env, n), Calls(env, n));
    text := AssistantMessage(FinalText(env), []);
    LoopBody(env, cap, n);
    LoopAfter(env, cap, max, base);
    pads := LoopPads(base, log, ask, LoopWarning(), text, left);
  }

  lemma LoopPads(base: Messages, log: Messages, ask: Message, other: Message, text: Message, left: Messages)
      returns (pads: Messages)
    requires Asks(ask) && other.role.System? && text.role.Assistant? && text.calls == []
    ensures pads == Padding.PadsFor(base + (log + [ask, other, text]))
    ensures pads != [] && AllTools(pads) && AnsweredIds(pads) == Ids(ask.calls)
    ensures base + (log + [ask, other, text] + pads + left) == base + log + ([ask, other, text] + pads + left)
  {
    hide Padding.PadsFor;
    NoneAnswered(other, text);
    PadsBehind(base + log, ask, [other, text]);
    LoopEndShape(base, log, ask, other, text);
    pads := Padding.PadsFor(base + (log + [ask, other, text]));
  }

  lemma LoopEndShape(base: Messages, log: Messages, ask: Message, other: Message, text: Message)
    ensures base + (log + [ask, other, text]) == base + log + [ask] + [other, text]
  {
  }

  /** Once the loop detector has fired, the OpenAI request is malformed: its repair takes the calls
      off the open question, but the late pads stay behind. It remains so in every later prompt
      that still shows that stretch. */
  lemma LoopDetectionBreaksOpenAI(env: Env, cap: int, max: int, base: Messages, system: Messages, more: Messages)
    requires ExitAt(env, max, Stop(env, cap, max, 0)).LoopDetected?
    ensures !Contiguous(OpenAI(system + After(env, cap, max, base) + more, {}))
  {
    hide After, Stop, ExitAt, Leftover;
    var pre, ask, text, pads := LoopEnd(env, cap, max, base);
    var left := Leftover(env, LoopDetected, Stop(env, cap, max, 0));
    var head, tail := system + pre + [ask, LoopWarning()], pads[1..] + left + more;
    LateAnswerDangles(head, text, pads[0], tail);
    Align(system, pre, ask, LoopWarning(), text, pads, left, more);
    OpenAIAcceptedIff(system + After(env, cap, max, base) + more);
  }

  lemma Align(system: Messages, pre: Messages, ask: Message, other: Message, text: Message, pads: Messages,
              left: Messages, more: Messages)
    requires pads != []
    ensures system + (pre + ([ask, other, text] + pads + left)) + more
         == system + pre + [ask, other] + [text, pads[0]] + (pads[1..] + left + more)
  {
    assert pads == [pads[0]] + pads[1..];
  }

  lemma {:induction false} OrphansOfConcat(a: Messages, b: Messages)
    requires b == [] || !b[0].role.Tool?
    ensures OrphanIds(a + b) == OrphanIds(a) + OrphanIds(b)
  {
    if a == [] {
      assert a + b == b;
    } else {
      assert (a + b)[1..] == a[1..] + b;
      RunIdsConcat(a[1..], b);
      OrphansOfConcat(a[1..], b);
    }
  }

  lemma {:induction false} NoOrphans(ms: Messages)
    requires NoAsks(ms)
    ensures OrphanIds(ms) == {}
  {
    if ms != [] {
      NoOrphans(ms[1..]);
    }
  }

  lemma {:induction false} LateOnlyConcat(a: Messages, b: Messages, orphans: set<string>, open: set<string>)
    requires LateOnly(a, orphans, open) && LateOnly(b, orphans, {}) && (b == [] || !b[0].role.Tool?)
    ensures LateOnly(a + b, orphans, open)
  {
    if a == [] {
      assert a + b == b;
    } else {
      var next := if a[0].role.Tool? then open else if Asks(a[0]) then Ids(a[0].calls) else {};
      assert (a + b)[1..] == a[1..] + b;
      LateOnlyConcat(a[1..], b, orphans, next);
    }
  }

  lemma {:induction false} LateOnlyMore(ms: Messages, orphans: set<string>, more: set<string>, open: set<string>)
    requires LateOnly(ms, orphans, open) && orphans <= more
    ensures LateOnly(ms, more, open)
  {
    if ms != [] {
      var next := if ms[0].role.Tool? then open else if Asks(ms[0]) then Ids(ms[0].calls) else {};
      LateOnlyMore(ms[1..], orphans, more, next);
    }
  }

  lemma {:induction false} ParentedIsLate(ms: Messages, open: set<string>)
    requires ParentedFrom(ms, open)
    ensures LateOnly(ms, {}, open)
  {
    if ms != [] {
      ParentedIsLate(ms[1..], if ms[0].role.Tool? then open else if Asks(ms[0]) then Ids(ms[0].calls) else {});
    }
  }

  /** A contiguous stretch adds no orphan, and its answers are in place. */
  lemma ContiguousIsLate(ms: Messages)
    requires Contiguous(ms)
    ensures OrphanIds(ms) == {} && LateOnly(ms, {}, {}) && (ms == [] || !ms[0].role.Tool?)
  {
    ContiguousFrom(ms);
    AnthropicFaithful(ms);
    ParentedIsLate(ms, {});
  }

  /** So it can be appended to a history whose only misplaced answers are late. */
  lemma LateJoined(a: Messages, b: Messages, orphans: set<string>)
    requires LateOnly(a, OrphanIds(a), {}) && OrphanIds(b) == orphans && LateOnly(b, orphans, {})
    requires b == [] || !b[0].role.Tool?
    ensures OrphanIds(a + b) == OrphanIds(a) + orphans && LateOnly(a + b, OrphanIds(a) + orphans, {})
  {
    hide LateOnly, OrphanIds;
    OrphansOfConcat(a, b);
    LateOnlyMore(a, OrphanIds(a), OrphanIds(a) + orphans, {});
    LateOnlyMore(b, orphans, OrphanIds(a) + orphans, {});
    LateOnlyConcat(a, b, OrphanIds(a) + orphans, {});
  }

  lemma {:induction false} LateOnlyPads(pads: Messages, left: Messages, orphans: set<string>, open: set<string>)
    requires AllTools(pads) && AnsweredIds(pads) <= orphans && AllUsers(left)
    ensures LateOnly(pads + left, orphans, open)
  {
    if pads != [] {
      Headed(pads[0], pads[1..] + left);
      assert pads + left == [pads[0]] + (pads[1..] + left);
      LateOnlyPads(pads[1..], left, orphans, open);
    } else if left != [] {
      LateOnlyPads([], left[1..], orphans, {});
      assert pads + left == left && [] + left[1..] == left[1..];
    }
  }

  lemma LoopStretch(ask: Message, other: Message, text: Message, pads: Messages, left: Messages)
    requires Asks(ask) && other.role.System? && text.role.Assistant? && text.calls == []
    requires AllTools(pads) && AnsweredIds(pads) == Ids(ask.calls) && AllUsers(left)
    ensures var b := [ask, other, text] + pads + left;
            OrphanIds(b) == Ids(ask.calls) && LateOnly(b, Ids(ask.calls), {})
  {
    var b, tail := [ask, other, text] + pads + left, pads + left;
    assert b[1..] == [other, text] + tail && b[1..][1..] == [text] + tail && b[1..][1..][1..] == tail;
    NoOrphans(b[1..]);
    assert ask.calls[0].id in Ids(ask.calls);
    LateOnlyPads(pads, left, Ids(ask.calls), {});
    LateOnlyStep(ask, other, text, tail, Ids(ask.calls));
  }

  lemma LateOnlyStep(ask: Message, other: Message, text: Message, tail: Messages, orphans: set<string>)
    requires Asks(ask) && other.role.System? && text.role.Assistant? && text.calls == []
    requires LateOnly(tail, orphans, {})
    ensures LateOnly([ask] + ([other] + ([text] + tail)), orphans, {})
  {
    Headed(text, tail);
    Headed(other, [text] + tail);
    Headed(ask, [other] + ([text] + tail));
  }

  /** Loop detection leaves late answers only, in a history that had none worse; there may have
      been loop detections before. The Anthropic request then survives exactly if no question
      that was answered at once shares a call id with one that was cut off. */
  lemma LoopDetectionOnAnthropic(env: Env, cap: int, max: int, base: Messages)
    requires LateOnly(base, OrphanIds(base), {}) && IdsGiven(env)
    requires ExitAt(env, max, Stop(env, cap, max, 0)).LoopDetected?
    ensures var after, cut := After(env, cap, max, base), Ids(Calls(env, Stop(env, cap, max, 0)));
            && OrphanIds(after) == OrphanIds(base) + cut && LateOnly(after, OrphanIds(after), {})
            && (Contiguous(AnthropicRequest(after)) <==> HealthyDisjoint(after, OrphanIds(base) + cut))
  {
    hide After, Stop, ExitAt, Leftover, Log, LateOnly, OrphanIds, Contiguous, HealthyDisjoint, AnthropicRequest, Placed;
    var n := Stop(env, cap, max, 0);
    var pre, ask, text, pads := LoopEnd(env, cap, max, base);
    var left := Leftover(env, LoopDetected, n);
    var b := [ask, LoopWarning(), text] + pads + left;
    LogSound(env, cap, n, true);
    ContiguousIsLate(Log(env, cap, n));
    LateJoined(base, Log(env, cap, n), {});
    LeftoverUsers(env, LoopDetected, n);
    LoopStretch(ask, LoopWarning(), text, pads, left);
    assert OrphanIds(base) + {} == OrphanIds(base);
    LateJoined(pre, b, Ids(ask.calls));
    AnthropicAcceptedIff(pre + b);
    LateIsPlaced(pre + b, OrphanIds(pre + b), {}, {});
  }

  /** A model that asks three times for the same call under one id, in the first turn of a session:
      the loop detector fires, and the next OpenAI request is malformed for good. */
  lemma TornRequest(call: ToolCall, cap: int, max: int, system: Messages, more: Messages)
    requires max > 0
    ensures var env := Stubborn([call, call, call], []);
            && ExitAt(env, max, Stop(env, cap, max, 0)).LoopDetected?
            && !Contiguous(OpenAI(system + After(env, cap, max, []) + more, {}))
  {
    hide After, Stop, ExitAt;
    LoopDetectionHappens(call, cap, max);
    LoopDetectionBreaksOpenAI(Stubborn([call, call, call], []), cap, max, [], system, more);
  }
}
