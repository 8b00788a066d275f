/** The sub-agent loop (runSubagentLoop, internal/agent/subagent.go): the same rounds, loop
    detector and cap as a turn, on private messages, without session, steering or parallel cap. */
module Subagent {
  import opened History
  import opened Options
  import opened Rounds
  import opened TurnSpec
  import Detector
  import Executor

  const DEFAULT_ITERATIONS := 20

  /** The number of iterations allowed: the caller's, else the agent's, else the default. */
  function Allowed(requested: int, agent: int): (max: nat)
    ensures max > 0
    ensures max == requested || (requested <= 0 && (max == agent || (agent <= 0 && max == DEFAULT_ITERATIONS)))
  {
    if requested > 0 then requested else if agent > 0 then agent else DEFAULT_ITERATIONS
  }

  /** One round: the question and its answers. */
  function RoundLog(env: Env, i: nat): Messages {
    [AssistantMessage(Said(env, i), Calls(env, i))] + Answers(Calls(env, i), TurnSpec.Outcomes(env, 0, i))
  }

  function RoundLogs(env: Env): nat -> Messages {
    (i: nat) => RoundLog(env, i)
  }

  /** The private messages before iteration `n`, after the system messages. */
  function Worked(env: Env, task: Message, n: nat): Messages {
    [task] + Chain(RoundLogs(env), n)
  }

  function SubPromptAt(env: Env, task: Message, i: nat): Prompt {
    PromptFor(env.system, Worked(env, task, i), Failures(env, 0, i))
  }

  function SubPrompts(env: Env, task: Message, n: nat): (r: seq<Prompt>)
    ensures |r| == n
  {
    if n == 0 then [] else SubPrompts(env, task, n - 1) + [SubPromptAt(env, task, n - 1)]
  }

  /** Iteration `i` is followed by another. */
  predicate Continues(env: Env, i: nat) {
    Calls(env, i) != [] && !Detector.HasTriple(CallsSoFar(env, i + 1))
  }

  function SubStop(env: Env, max: nat, i: nat): (n: nat)
    requires i <= max
    ensures i <= n <= max && (n < max ==> !Continues(env, n))
    decreases max - i
  {
    if i >= max || !Continues(env, i) then i else SubStop(env, max, i + 1)
  }

  datatype SubExit = Finished | ChatFailed | Looping | Capped

  function SubExitAt(env: Env, max: nat, n: nat): SubExit {
    if n >= max then Capped
    else if env.llm(n).Failed? then ChatFailed
    else if Calls(env, n) == [] then Finished
    else Looping
  }

  function SubFinalPrompt(env: Env, task: Message, exit: SubExit, n: nat): Prompt {
    var rest := if exit.Looping? then [AssistantMessage(Said(env, n), Calls(env, n)), LoopWarning()] else [];
    Prompt(SystemMessages(env.system) + (Worked(env, task, n) + rest) + [Nudge()], false)
  }

  /** Everything the model is shown. */
  function SubAllPrompts(env: Env, task: Message, exit: SubExit, n: nat): seq<Prompt> {
    SubPrompts(env, task, if exit.Capped? then n else n + 1)
    + if exit.Capped? || exit.Looping? then [SubFinalPrompt(env, task, exit, n)] else []
  }

  /** The deliverable, or None for an error. */
  function Deliverable(env: Env, exit: SubExit, n: nat): Option<string> {
    match exit
    case Finished => Some(Said(env, n))
    case ChatFailed => None
    case _ => if env.final == Some("") then Some(Canned()) else env.final
  }

  // ----- the loop -----

  method RecordAll(calls: seq<ToolCall>, results: seq<Executor.Outcome>) returns (answers: Messages, allFailed: bool)
    requires |results| == |calls|
    ensures answers == Answers(calls, results)
    ensures allFailed == Executor.NoneFine(Executor.Verdicts(results), |results|)
  {
    hide Executor.Verdicts;
    answers, allFailed := [], true;
    assert Answers(calls, results[..0]) == [];
    for k := 0 to |results|
      invariant answers == Answers(calls, results[..k])
      invariant allFailed == Executor.NoneFine(Executor.Verdicts(results), k)
    {
      hide Answers;
      var v := Executor.Classify(results[k]);
      Executor.VerdictAt(results, k);
      if v.Fine? {
        allFailed := false;
      }
      AnswersSnoc(calls, results, k);
      answers := answers + [AnswerOf(calls[k], results[k])];
    }
    assert results[..|results|] == results;
  }

  lemma Uncapped(calls: seq<ToolCall>, rs: seq<Executor.Response>)
    ensures Executor.RoundOutcomes(calls, 0, rs) == Executor.Outcomes(calls, rs)
  {
    assert calls[..|calls|] == calls && calls[|calls|..] == [];
    assert Executor.Outcomes(calls, rs) + [] == Executor.Outcomes(calls, rs);
  }

  method ExecuteAll(env: Env, i: nat) returns (answers: Messages, allFailed: bool)
    requires Calls(env, i) != []
    ensures answers == Answers(Calls(env, i), TurnSpec.Outcomes(env, 0, i))
    ensures allFailed == Executor.AllFailed(TurnSpec.Verdicts(env, 0, i))
  {
    Uncapped(Calls(env, i), env.exec(i));
    var results := Executor.ExecuteToolsConcurrently(Calls(env, i), env.exec(i));
    answers, allFailed := RecordAll(Calls(env, i), results);
  }

  /** The state of the loop before iteration `i`. */
  ghost predicate Before(env: Env, task: Message, i: nat, messages: Messages, counter: Detector.Counter, failed: nat)
  {
    && messages == SystemMessages(env.system) + Worked(env, task, i)
    && counter == Detector.CounterOf(CallsSoFar(env, i)) && !Detector.HasTriple(CallsSoFar(env, i))
    && failed == Trailing(Failures(env, 0, i))
  }

  /** The model is shown the private messages, is asked, and what it asks for is executed. */
  method RunSubagentLoop(env: Env, task: Message, requested: int, agent: int)
      returns (out: Option<string>, exit: SubExit, ghost prompts: seq<Prompt>)
    ensures exit == SubExitAt(env, Allowed(requested, agent), SubStop(env, Allowed(requested, agent), 0))
    ensures out == Deliverable(env, exit, SubStop(env, Allowed(requested, agent), 0))
    ensures prompts == SubAllPrompts(env, task, exit, SubStop(env, Allowed(requested, agent), 0))
    ensures |prompts| <= Allowed(requested, agent) + 1
  {
    hide Before, Worked, Failures, CallsSoFar, SubPromptAt, SubFinalPrompt;
    var max := Allowed(requested, agent);
    var messages := SystemMessages(env.system) + [task];
    var counter, allFailedRounds := Detector.Counter(None, 0), 0;
    prompts := [];
    var i: nat := 0;
    Start(env, task);
    while i < max
      invariant i <= max && SubStop(env, max, i) == SubStop(env, max, 0)
      invariant Before(env, task, i, messages, counter, allFailedRounds)
      invariant prompts == SubPrompts(env, task, i)
    {
      var prompt := NextPrompt(env, task, i, messages, counter, allFailedRounds);
      prompts := prompts + [prompt];
      if env.llm(i).Failed? {
        return None, ChatFailed, prompts;
      }
      if |Calls(env, i)| == 0 {
        return Some(Said(env, i)), Finished, prompts;
      }
      var fired;
      messages, counter, allFailedRounds, fired := Round(env, task, i, messages, counter, allFailedRounds);
      if fired {
        LoopingPrompt(env, task, i);
        var final, text := Deliver(env, messages);
        prompts := prompts + [final];
        return text, Looping, prompts;
      }
      i := i + 1;
    }
    CappedPrompt(env, task, i, messages, counter, allFailedRounds);
    var final, text := Deliver(env, messages);
    prompts := prompts + [final];
    return text, Capped, prompts;
  }

  lemma Start(env: Env, task: Message)
    ensures Before(env, task, 0, SystemMessages(env.system) + [task], Detector.Counter(None, 0), 0)
  {
    assert [task] + [] == [task];
  }

  lemma LoopingPrompt(env: Env, task: Message, i: nat)
    ensures SubFinalPrompt(env, task, Looping, i) ==
            Prompt(SystemMessages(env.system)
                   + (Worked(env, task, i) + [AssistantMessage(Said(env, i), Calls(env, i)), LoopWarning()])
                   + [Nudge()], false)
  {
  }

  lemma CappedPrompt(env: Env, task: Message, i: nat, messages: Messages, counter: Detector.Counter, failed: nat)
    requires Before(env, task, i, messages, counter, failed)
    ensures SubFinalPrompt(env, task, Capped, i) == Prompt(messages + [Nudge()], false)
  {
    hide Worked;
    assert Worked(env, task, i) + [] == Worked(env, task, i);
  }

  method NextPrompt(env: Env, task: Message, i: nat, messages: Messages, counter: Detector.Counter, failed: nat)
      returns (p: Prompt)
    requires Before(env, task, i, messages, counter, failed)
    ensures p == SubPromptAt(env, task, i)
  {
    hide Worked, Failures, CallsSoFar;
    if failed >= FAILED_ROUNDS_LIMIT {
      p := Prompt(messages + [ToolsOff()], false);
    } else {
      assert messages + [] == messages;
      p := Prompt(messages, true);
    }
  }

  /** Stores the question, checks for a loop and only then executes. */
  method Round(env: Env, task: Message, i: nat, messages: Messages, counter: Detector.Counter, failed: nat)
      returns (messages': Messages, counter': Detector.Counter, failed': nat, fired: bool)
    requires Before(env, task, i, messages, counter, failed) && Calls(env, i) != []
    ensures fired <==> !Continues(env, i)
    ensures !fired ==> Before(env, task, i + 1, messages', counter', failed')
    ensures fired ==>
              messages' == SystemMessages(env.system)
                           + (Worked(env, task, i) + [AssistantMessage(Said(env, i), Calls(env, i)), LoopWarning()])
  {
    hide Worked, CallsSoFar, Failures, Answers, Executor.AllFailed, TurnSpec.Verdicts, TurnSpec.Outcomes, Detector.HasTriple;
    var ask := AssistantMessage(Said(env, i), Calls(env, i));
    counter', fired := Detector.Observe(counter, Calls(env, i), CallsSoFar(env, i));
    NextCalls(env, i);
    failed' := failed;
    if fired {
      messages' := messages + [ask] + [LoopWarning()];
      return;
    }
    var answers, allFailed := ExecuteAll(env, i);
    messages' := messages + [ask] + answers;
    failed' := if allFailed then failed + 1 else 0;
    NextWork(env, task, i);
    NextFailures(env, i);
  }

  lemma NextWork(env: Env, task: Message, i: nat)
    ensures SystemMessages(env.system) + Worked(env, task, i + 1)
         == SystemMessages(env.system) + Worked(env, task, i) + [AssistantMessage(Said(env, i), Calls(env, i))]
            + Answers(Calls(env, i), TurnSpec.Outcomes(env, 0, i))
  {
    hide Answers, TurnSpec.Outcomes;
  }

  lemma NextFailures(env: Env, i: nat)
    requires Calls(env, i) != []
    ensures Trailing(Failures(env, 0, i + 1)) ==
            if Executor.AllFailed(TurnSpec.Verdicts(env, 0, i)) then Trailing(Failures(env, 0, i)) + 1 else 0
  {
    hide Executor.AllFailed, TurnSpec.Verdicts;
    var f := Failures(env, 0, i);
    var f' := Failures(env, 0, i + 1);
    assert f'[..|f|] == f;
  }

  method Deliver(env: Env, messages: Messages) returns (p: Prompt, text: Option<string>)
    ensures p == Prompt(messages + [Nudge()], false)
    ensures text == if env.final == Some("") then Some(Canned()) else env.final
  {
    p := Prompt(messages + [Nudge()], false);
    if env.final.None? {
      return p, None;
    }
    text := if env.final.value == "" then Some(Canned()) else env.final;
  }

  // ----- what it keeps -----

  lemma WorkedSound(env: Env, task: Message, n: nat, strict: bool)
    requires task.role.User? && (strict ==> IdsGiven(env))
    ensures Piece(Worked(env, task, n), strict)
  {
    var f := RoundLogs(env);
    forall i: nat | i < n ensures Piece(f(i), strict) {
      RoundLogSound(env, i, strict);
    }
    ChainSound(f, n, strict);
    PlainPiece([task], strict);
    SoundConcat([task], Chain(f, n), strict);
  }

  lemma RoundLogSound(env: Env, i: nat, strict: bool)
    requires strict ==> IdsGiven(env)
    ensures Piece(RoundLog(env, i), strict)
  {
    var said := AssistantMessage(Said(env, i), Calls(env, i));
    var answers := Answers(Calls(env, i), TurnSpec.Outcomes(env, 0, i));
    AnswersInOrderOf(Calls(env, i), TurnSpec.Outcomes(env, 0, i));
    StepPiece(said, answers, [], strict);
    assert [said] + answers + [] == [said] + answers;
  }

  /** Every prompt of the loop shows a history with every call answered - at once, if all calls
      have ids. */
  lemma SubPromptsSound(env: Env, task: Message, i: nat, strict: bool)
    requires task.role.User? && (strict ==> IdsGiven(env))
    ensures Sound(SubPromptAt(env, task, i).history, strict)
  {
    hide Worked, Failures;
    var extra := if ToolsOffered(Failures(env, 0, i)) then [] else [ToolsOff()];
    WorkedSound(env, task, i, strict);
    PlainPiece([], strict);
    Framed(SystemMessages(env.system), [], Worked(env, task, i), extra, strict);
    assert [] + Worked(env, task, i) == Worked(env, task, i);
  }

  /** The closing prompt shows an open question exactly if the loop detector fired. */
  lemma SubFinalPromptSound(env: Env, task: Message, exit: SubExit, n: nat)
    requires task.role.User? && IdsGiven(env) && (exit.Looping? ==> Calls(env, n) != [])
    ensures Contiguous(SubFinalPrompt(env, task, exit, n).history) <==> !exit.Looping?
  {
    hide Worked;
    var system, work := SystemMessages(env.system), Worked(env, task, n);
    WorkedSound(env, task, n, true);
    PlainPiece([], true);
    assert [] + work == work && work + [] == work;
    if exit.Looping? {
      var rest := [AssistantMessage(Said(env, n), Calls(env, n)), LoopWarning()];
      TornPrompt(system, [], work, rest, [Nudge()]);
      assert [] + (work + rest) == work + rest;
    } else {
      FramedContiguous(system, [], work, [Nudge()]);
    }
  }
}
