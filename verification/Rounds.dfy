/** What a turn may append to a history, piece by piece. */
module Rounds {
  import opened History
  import Detector
  import Executor
  import Padding

  /** Every call answered; with `strict`, answered at once. */
  predicate Sound(ms: Messages, strict: bool) {
    Resolved(ms) && (strict ==> Contiguous(ms))
  }

  /** A sound stretch of history that can follow any other. */
  predicate Piece(ms: Messages, strict: bool) {
    Sound(ms, strict) && (ms == [] || !ms[0].role.Tool?)
  }

  lemma SoundConcat(a: Messages, b: Messages, strict: bool)
    requires Sound(a, strict) && Piece(b, strict)
    ensures Sound(a + b, strict) && (Piece(a, strict) ==> Piece(a + b, strict))
  {
    ResolvedConcat(a, b);
    if strict {
      ContiguousConcat(a, b);
    }
  }

  lemma PlainPiece(ms: Messages, strict: bool)
    requires Plain(ms)
    ensures Piece(ms, strict)
  {
    PlainContiguous(ms);
    assert ms != [] ==> ms[0] in ms;
  }

  // ----- recording the results of a round -----

  function AnswerOf(call: ToolCall, o: Executor.Outcome): Message {
    Message(Tool, Executor.ToolText(o.text), [], call.id, o.name, false)
  }

  function Answers(calls: seq<ToolCall>, results: seq<Executor.Outcome>): (r: Messages)
    requires |results| <= |calls|
    ensures |r| == |results|
    decreases |results|
  {
    if results == [] then [] else [AnswerOf(calls[0], results[0])] + Answers(calls[1..], results[1..])
  }

  /** How many results are recorded: all of them, or those before the first that crashes the turn. */
  function Recorded(vs: seq<Executor.Verdict>): (n: nat)
    ensures n <= |vs|
  {
    if vs == [] || vs[0].Crash? then 0 else 1 + Recorded(vs[1..])
  }

  lemma {:induction false} AnswersInOrderOf(calls: seq<ToolCall>, results: seq<Executor.Outcome>)
    requires |results| <= |calls|
    ensures AnswersInOrder(Answers(calls, results), calls)
  {
    if results != [] {
      AnswersInOrderOf(calls[1..], results[1..]);
    }
  }

  lemma {:induction false} AnswersSnoc(calls: seq<ToolCall>, results: seq<Executor.Outcome>, k: nat)
    requires k < |results| <= |calls|
    ensures Answers(calls, results[..k + 1]) == Answers(calls, results[..k]) + [AnswerOf(calls[k], results[k])]
  {
    var next, prev := results[..k + 1], results[..k];
    if k > 0 {
      assert next[1..] == results[1..][..k] && prev[1..] == results[1..][..k - 1];
      assert next[0] == prev[0] == results[0];
      AnswersSnoc(calls[1..], results[1..], k - 1);
    } else {
      assert next == [results[0]] && prev == [];
      assert Answers(calls[1..], next[1..]) == [];
    }
  }

  lemma AnswersGrow(calls: seq<ToolCall>, results: seq<Executor.Outcome>, k: nat, log: Messages)
    requires k < |results| <= |calls|
    ensures log + Answers(calls, results[..k + 1]) ==
            log + Answers(calls, results[..k]) + [AnswerOf(calls[k], results[k])]
  {
    AnswersSnoc(calls, results, k);
  }

  lemma RecordedStep(vs: seq<Executor.Verdict>, k: nat)
    requires k < |vs|
    ensures Recorded(vs[k..]) == if vs[k].Crash? then 0 else 1 + Recorded(vs[k + 1..])
  {
    assert vs[k..][0] == vs[k] && vs[k..][1..] == vs[k + 1..];
  }

  // ----- the pieces -----

  lemma ToolsAreQuiet(ts: Messages)
    requires AllTools(ts)
    ensures NoAsks(ts) && Users(ts) == [] && Detector.CallsMade(ts) == []
  {
    NoUsers(ts);
    Detector.NoCallsMade(ts);
  }

  /** An assistant message, the answers to its calls in order, and the steering messages that
      came in meanwhile. */
  lemma StepPiece(said: Message, answers: Messages, steers: Messages, strict: bool)
    requires said.role.Assistant? && AnswersInOrder(answers, said.calls) && |answers| == |said.calls|
    requires AllUsers(steers) && (strict ==> "" !in Ids(said.calls))
    ensures Piece([said] + answers + steers, strict)
    ensures Users([said] + answers + steers) == steers
    ensures Detector.CallsMade([said] + answers + steers) == Detector.Sigs(said.calls)
  {
    var round := [said] + answers;
    if Asks(said) {
      CompleteRound(said, answers);
    } else {
      PlainPiece(round, strict);
    }
    UsersOfUsers(steers);
    PlainPiece(steers, strict);
    SoundConcat(round, steers, strict);
    ToolsAreQuiet(answers);
    assert round[1..] == answers;
    UsersConcat(round, steers);
    Detector.CallsMadeConcat(round, steers);
    Detector.NoCallsMade(steers);
  }

  // ----- what a turn may leave behind -----

  /** The ways out of a turn's loop. */
  datatype Exit = Answered | ModelFailed | EmptyReply | LoopDetected | IterationCap | Panicked

  predicate Delivers(exit: Exit) {
    exit.LoopDetected? || exit.IterationCap?
  }

  /** What the last, unfinished iteration has appended: after loop detection an open question
      with a warning, after a crash a question with part of its answers, otherwise nothing. */
  predicate Unsettled(exit: Exit, rest: Messages) {
    match exit
    case LoopDetected => |rest| == 2 && Asks(rest[0]) && rest[1].role.System?
    case Panicked => rest != [] && Asks(rest[0]) && AnswersInOrder(rest[1..], rest[0].calls)
    case _ => rest == []
  }

  /** The final text of a turn that has one. */
  function Closing(exit: Exit, text: string): Messages {
    if exit.Answered? || Delivers(exit) then [AssistantMessage(text, [])] else []
  }

  /** A sound history, an unsettled stretch, the closing text, then the pads: sound again, but
      contiguous only if the loop detector did not cut in. */
  lemma PaddedTurn(pre: Messages, rest: Messages, exit: Exit, text: string, strict: bool)
    requires Sound(pre, strict) && Unsettled(exit, rest)
    requires strict && rest != [] ==> "" !in Ids(rest[0].calls)
    ensures var ms := pre + rest + Closing(exit, text);
            var all := ms + Padding.PadsFor(ms);
            Resolved(all) && (strict && !exit.LoopDetected? ==> Contiguous(all))
  {
    var close := Closing(exit, text);
    var ms := pre + rest + close;
    PlainPiece(close, strict);
    if rest == [] {
      SoundConcat(pre, close, strict);
      assert ms == pre + close;
      Padding.PadResolves(ms);
      if strict {
        Padding.ContiguousNeedsNoPad(ms);
        assert ms + Padding.PadsFor(ms) == ms;
      }
    } else {
      var tail := rest[1..] + close;
      assert ms == pre + [rest[0]] + tail;
      OpenAfterResolved(pre, rest[0], tail);
      Padding.PadResolves(ms);
      if strict && exit.Panicked? {
        assert close == [] && tail == rest[1..];
        Padding.PadAfterPartialRound(pre, rest[0], rest[1..]);
      }
    }
  }

  /** A question with something other than an answer behind it stays torn apart, whatever is
      appended later. */
  lemma TornStays(pre: Messages, ask: Message, other: Message, more: Messages)
    requires Asks(ask) && !other.role.Tool?
    ensures !Contiguous(pre + [ask, other] + more)
  {
    var ms := pre + [ask, other] + more;
    assert ms[|pre| + 1..] == [other] + more;
    assert ask.calls[0].id in Ids(ask.calls);
    assert !RunAnswers(ms, |pre|);
  }

  /** An unsettled stretch, the closing text and the pads hold no user message. */
  lemma EndHasNoUsers(exit: Exit, rest: Messages, text: string, pads: Messages)
    requires Unsettled(exit, rest) && AllTools(pads)
    ensures Users(rest + Closing(exit, text) + pads) == []
  {
    NoUsers(rest + Closing(exit, text) + pads);
  }

  /** The only calls they hold are those of the open question. */
  lemma EndCalls(exit: Exit, rest: Messages, text: string, pads: Messages)
    requires Unsettled(exit, rest) && AllTools(pads)
    ensures Detector.CallsMade(rest + Closing(exit, text) + pads) ==
            if rest == [] then [] else Detector.Sigs(rest[0].calls)
  {
    var end := rest + Closing(exit, text) + pads;
    if rest == [] {
      Detector.NoCallsMade(end);
    } else {
      Detector.NoCallsMade(end[1..]);
    }
  }

  // ----- the end of a turn -----

  lemma AppendUsers(ms: Messages, steers: Messages, strict: bool)
    requires AllUsers(steers) && Sound(ms, strict)
    ensures Sound(ms + steers, strict)
  {
    UsersOfUsers(steers);
    PlainPiece(steers, strict);
    SoundConcat(ms, steers, strict);
  }

  /** The whole end of a turn: unsettled stretch, closing text, pads, parked steering messages. */
  lemma TurnEnd(
    base: Messages, log: Messages, rest: Messages, exit: Exit, text: string, left: Messages, strict: bool)
    requires Sound(base, strict) && Piece(log, strict) && Unsettled(exit, rest) && AllUsers(left)
    requires strict && rest != [] ==> "" !in Ids(rest[0].calls)
    ensures var body := log + rest + Closing(exit, text);
            var after := base + (body + Padding.PadsFor(base + body) + left);
            Resolved(after) && (strict ==> (Contiguous(after) <==> !exit.LoopDetected?))
  {
    hide Resolved, Contiguous, Padding.PadsFor;
    var close := Closing(exit, text);
    var pads := Padding.PadsFor(base + (log + rest + close));
    SoundConcat(base, log, strict);
    PaddedTurn(base + log, rest, exit, text, strict);
    assert base + log + rest + close == base + (log + rest + close);
    Shift(base, log, rest, close, pads, left);
    AppendUsers(base + log + rest + close + pads, left, strict && !exit.LoopDetected?);
    if exit.LoopDetected? {
      TornEnd(base + log, rest, close + pads + left);
    }
  }

  lemma Shift(base: Messages, log: Messages, rest: Messages, close: Messages, pads: Messages, left: Messages)
    ensures base + (log + rest + close + pads + left) == base + log + rest + close + pads + left
    ensures base + (log + rest + close + pads + left) == base + log + rest + (close + pads + left)
  {
  }

  lemma TornEnd(pre: Messages, rest: Messages, more: Messages)
    requires Unsettled(LoopDetected, rest)
    ensures !Contiguous(pre + rest + more)
  {
    assert rest == [rest[0], rest[1]];
    TornStays(pre, rest[0], rest[1], more);
  }

  lemma UsersAround(log: Messages, end: Messages, left: Messages)
    requires Users(end) == [] && AllUsers(left)
    ensures Users(log + end + left) == Users(log) + left
  {
    UsersOfUsers(left);
    UsersConcat(log, end);
    UsersConcat(log + end, left);
  }

  lemma CallsAround(log: Messages, end: Messages, left: Messages)
    requires NoAsks(left)
    ensures Detector.CallsMade(log + end + left) == Detector.CallsMade(log) + Detector.CallsMade(end)
  {
    Detector.NoCallsMade(left);
    Detector.CallsMadeConcat(log, end);
    Detector.CallsMadeConcat(log + end, left);
  }

  lemma Regroup(log: Messages, rest: Messages, close: Messages, pads: Messages, left: Messages)
    ensures log + rest + close + pads + left == log + (rest + close + pads) + left
  {
  }

  /** The user messages of everything a turn appends. */
  lemma EndUsers(log: Messages, rest: Messages, exit: Exit, text: string, pads: Messages, left: Messages)
    requires Unsettled(exit, rest) && AllTools(pads) && AllUsers(left)
    ensures Users(log + rest + Closing(exit, text) + pads + left) == Users(log) + left
  {
    var close := Closing(exit, text);
    EndHasNoUsers(exit, rest, text, pads);
    UsersAround(log, rest + close + pads, left);
    Regroup(log, rest, close, pads, left);
  }

  /** The calls of everything a turn appends. */
  lemma EndCallsMade(log: Messages, rest: Messages, exit: Exit, text: string, pads: Messages, left: Messages)
    requires Unsettled(exit, rest) && AllTools(pads) && AllUsers(left)
    ensures Detector.CallsMade(log + rest + Closing(exit, text) + pads + left) ==
            Detector.CallsMade(log) + if rest == [] then [] else Detector.Sigs(rest[0].calls)
  {
    var close := Closing(exit, text);
    EndCalls(exit, rest, text, pads);
    UsersOfUsers(left);
    CallsAround(log, rest + close + pads, left);
    Regroup(log, rest, close, pads, left);
  }

  /** A prompt: system messages, the session, perhaps a closing system message. */
  lemma Framed(system: Messages, base: Messages, log: Messages, extra: Messages, strict: bool)
    requires Plain(system) && Plain(extra) && Piece(log, strict) && Sound(base, strict)
    ensures Sound(system + (base + log) + extra, strict)
  {
    PlainPiece(system, strict);
    PlainPiece(extra, strict);
    SoundConcat(base, log, strict);
    ResolvedConcat(system, base + log);
    ResolvedConcat(system + (base + log), extra);
    if strict {
      FramedContiguous(system, base, log, extra);
    }
  }

  lemma FramedContiguous(system: Messages, base: Messages, log: Messages, extra: Messages)
    requires Plain(system) && Plain(extra) && Piece(log, true) && Contiguous(base)
    ensures Contiguous(system + (base + log) + extra)
  {
    PlainPiece(system, true);
    PlainPiece(extra, true);
    ContiguousConcat(base, log);
    if base + log != [] {
      ContiguousHead(base + log);
    }
    ContiguousConcat(system, base + log);
    ContiguousConcat(system + (base + log), extra);
  }
}
