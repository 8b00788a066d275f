/** One turn of the agent (HandleMessage, internal/agent/loop.go): the loop of model calls and
    tool rounds, proved to compute what module TurnSpec describes. */
module Turn {
  import opened History
  import opened Options
  import opened Rounds
  import opened TurnSpec
  import Compaction
  import Detector
  import Executor
  import Outbound
  import Padding
  import Session
  import Text

  datatype Event =
    | Content(text: string)
    | Called(call: ToolCall)
    | Result(id: string, name: string, text: string)
    | Steer(text: string)
    | Error
    | Done

  function ContentOf(e: Event): seq<string> {
    match e
    case Content(t) => [t]
    case _ => []
  }

  /** The texts among the events. */
  function Contents(events: seq<Event>): seq<string> {
    if events == [] then [] else Contents(events[..|events| - 1]) + ContentOf(events[|events| - 1])
  }

  /** How often the events say that the turn is over. */
  function Dones(events: seq<Event>): (n: nat)
    ensures n > 0 ==> events != []
  {
    if events == [] then 0 else Dones(events[..|events| - 1]) + if events[|events| - 1].Done? then 1 else 0
  }

  /** The last event, and only the last, says that the turn is over. */
  predicate Over(events: seq<Event>) {
    Dones(events) == 1 && events[|events| - 1].Done?
  }

  lemma EventsSnoc(events: seq<Event>, e: Event)
    ensures Contents(events + [e]) == Contents(events) + ContentOf(e)
    ensures Dones(events + [e]) == Dones(events) + if e.Done? then 1 else 0
  {
    assert (events + [e])[..|events|] == events;
  }

  function CalledEvents(calls: seq<ToolCall>): seq<Event> {
    if calls == [] then [] else CalledEvents(calls[..|calls| - 1]) + [Called(calls[|calls| - 1])]
  }

  /** What the user interface is told when a message is appended: the text and the calls of a
      reply, a result with its text, a steering message; nothing of system messages. */
  function EchoOf(m: Message): seq<Event> {
    match m.role
    case Assistant => (if m.content == "" then [] else [Content(m.content)]) + CalledEvents(m.calls)
    case Tool => [Result(m.callId, m.name, m.content)]
    case User => [Steer(m.content)]
    case System => []
  }

  function Echo(log: Messages): seq<Event> {
    if log == [] then [] else Echo(log[..|log| - 1]) + EchoOf(log[|log| - 1])
  }

  lemma EchoSnoc(log: Messages, m: Message)
    ensures Echo(log + [m]) == Echo(log) + EchoOf(m)
  {
    assert (log + [m])[..|log|] == log;
  }

  lemma EchoText(log: Messages, text: string)
    ensures Echo(log + [AssistantMessage(text, [])]) == Echo(log) + if text == "" then [] else [Content(text)]
  {
    var m := AssistantMessage(text, []);
    EchoSnoc(log, m);
    assert EchoOf(m) == (if text == "" then [] else [Content(text)]) + CalledEvents([]);
  }

  /** The events behind those of the messages: the turn is over, perhaps with an error; a crash
      leaves none. */
  function LastEvents(exit: Exit): seq<Event> {
    match exit
    case ModelFailed => [Error, Done]
    case EmptyReply => [Error, Done]
    case Panicked => []
    case _ => [Done]
  }

  /** What the turn has done so far: messages appended, texts shown, calls made, rounds failed,
      prompts sent, steering messages received. */
  datatype View = View(
    log: Messages, texts: seq<string>, calls: seq<Detector.Sig>, failures: seq<bool>, prompts: seq<Prompt>,
    arrived: Messages)

  function ViewAt(env: Env, cap: int, base: Messages, n: nat): View {
    View(Log(env, cap, n), Texts(env, n), CallsSoFar(env, n), Failures(env, cap, n), Prompts(env, cap, base, n),
         Arrived(env, n))
  }

  /** The model has been called in iteration `i`. */
  function Prompted(v: View, env: Env, base: Messages, i: nat): View {
    v.(prompts := v.prompts + [PromptFor(env.system, base + v.log, v.failures)],
       arrived := v.arrived + AsUsers(env.arrivals(i)))
  }

  function Shows(texts: seq<string>, content: string): seq<string> {
    texts + if content == "" then [] else [content]
  }

  /** An assistant message has been answered and the pending steering messages folded in. */
  function Stepped(v: View, content: string, calls: seq<ToolCall>, answers: Messages, pending: Messages): View {
    v.(log := v.log + ([AssistantMessage(content, calls)] + answers + pending),
       texts := Shows(v.texts, content),
       calls := v.calls + Detector.Sigs(calls))
  }

  function Tallied(v: View, failed: bool): View {
    v.(failures := v.failures + [failed])
  }

  predicate Quits(exit: Exit) {
    exit.Answered? || exit.ModelFailed? || exit.EmptyReply?
  }

  lemma TextStep(env: Env, cap: int, i: nat)
    requires Calls(env, i) == []
    ensures StepLog(env, cap, i) == [AssistantMessage(Said(env, i), [])] + [] + AsUsers(env.arrivals(i))
  {
    assert Outcomes(env, cap, i) == [];
  }

  lemma TextFailures(env: Env, cap: int, i: nat)
    requires Calls(env, i) == []
    ensures Failures(env, cap, i + 1) == Failures(env, cap, i)
  {
    assert Failures(env, cap, i) + [] == Failures(env, cap, i);
  }

  lemma NextTextView(env: Env, cap: int, base: Messages, i: nat)
    requires Calls(env, i) == []
    ensures ViewAt(env, cap, base, i + 1)
         == Stepped(Prompted(ViewAt(env, cap, base, i), env, base, i), Said(env, i), [], [], AsUsers(env.arrivals(i)))
  {
    TextStep(env, cap, i);
    TextFailures(env, cap, i);
    NextCalls(env, i);
    NextLog(env, cap, i);
  }

  lemma NextLog(env: Env, cap: int, i: nat)
    ensures Log(env, cap, i + 1) == Log(env, cap, i) + StepLog(env, cap, i)
  {
  }

  lemma NextRoundView(env: Env, cap: int, base: Messages, i: nat)
    requires Calls(env, i) != []
    ensures ViewAt(env, cap, base, i + 1)
         == Tallied(Stepped(Prompted(ViewAt(env, cap, base, i), env, base, i), Said(env, i), Calls(env, i),
                            Answers(Calls(env, i), Outcomes(env, cap, i)), AsUsers(env.arrivals(i))),
                    Executor.AllFailed(Verdicts(env, cap, i)))
  {
    hide Executor.RoundOutcomes, Executor.Verdicts, Answers, PromptFor, Executor.AllFailed, AsUsers;
  }

  lemma ToolEnd(env: Env, cap: int, i: nat)
    requires Calls(env, i) != []
    ensures var ask := AssistantMessage(Said(env, i), Calls(env, i));
            && EndLog(env, cap, LoopDetected, i) == Log(env, cap, i) + [ask, LoopWarning()]
            && EndLog(env, cap, Panicked, i) == Log(env, cap, i)
               + ([ask] + Answers(Calls(env, i), Outcomes(env, cap, i)[..Recorded(Verdicts(env, cap, i))]))
    ensures Texts(env, i + 1) == Shows(Texts(env, i), Said(env, i))
  {
    hide Executor.RoundOutcomes, Executor.Verdicts, Answers;
  }

  function EndLog(env: Env, cap: int, exit: Exit, n: nat): Messages {
    Log(env, cap, n) + Rest(env, cap, exit, n) + if exit.Answered? then [AssistantMessage(Said(env, n), [])] else []
  }

  lemma QuietEnd(env: Env, cap: int, i: nat)
    ensures EndLog(env, cap, ModelFailed, i) == Log(env, cap, i) && EndLog(env, cap, EmptyReply, i) == Log(env, cap, i)
    ensures EndLog(env, cap, Answered, i) == Log(env, cap, i) + [AssistantMessage(Said(env, i), [])]
    ensures Texts(env, i + 1) == Shows(Texts(env, i), Said(env, i))
  {
    assert Log(env, cap, i) + [] == Log(env, cap, i);
  }

  /** Everything the model is shown. */
  function AllPrompts(env: Env, cap: int, base: Messages, exit: Exit, n: nat): seq<Prompt> {
    Prompts(env, cap, base, if exit.IterationCap? then n else n + 1)
    + if Delivers(exit) then [FinalPrompt(env, cap, base, exit, n)] else []
  }

  /** What the turn appends before the pads, in terms of what the loop has appended. */
  lemma BodyShape(env: Env, cap: int, exit: Exit, n: nat)
    ensures !Delivers(exit) ==> Body(env, cap, exit, n) == EndLog(env, cap, exit, n)
    ensures !Delivers(exit) ==> ReplyTexts(env, exit, n) == ShownTexts(env, exit, n)
    ensures Delivers(exit) ==>
              && EndLog(env, cap, exit, n) == Log(env, cap, n) + Rest(env, cap, exit, n)
              && Body(env, cap, exit, n) == Log(env, cap, n) + Rest(env, cap, exit, n)
                                            + [AssistantMessage(FinalText(env), [])]
  {
  }

  lemma CapView(env: Env, cap: int, n: nat)
    ensures Log(env, cap, n) + Rest(env, cap, IterationCap, n) == Log(env, cap, n)
  {
  }

  /** What a round that reached execution did: answers up to a crash, if there is one. */
  predicate RoundDone(
    calls: seq<ToolCall>, results: seq<Executor.Outcome>, panicked: bool, allFailed: bool, answers: Messages)
    requires |results| == |calls|
  {
    var vs := Executor.Verdicts(results);
    && (panicked <==> Recorded(vs) < |calls|)
    && answers == Answers(calls, if panicked then results[..Recorded(vs)] else results)
    && (!panicked ==> allFailed == Executor.AllFailed(vs))
  }

  lemma Rebracket(log: Messages, ask: Message, answers: Messages, pending: Messages)
    ensures log + [ask] + answers + pending == log + ([ask] + answers + pending)
    ensures log + [ask] + answers == log + ([ask] + answers)
  {
  }

  /** Steering messages arrive from other goroutines. */
  method ReceiveSteer(sess: Session.Session, texts: seq<string>)
    requires sess.Valid() && sess.turnDepth > 0
    modifies sess`steerBuf, sess`accepted
    ensures sess.Valid() && sess.accepted == old(sess.accepted) + AsUsers(texts)
    ensures sess.steerBuf == old(sess.steerBuf) + AsUsers(texts)
  {
    assert texts[..0] == [];
    for k := 0 to |texts|
      invariant sess.Valid() && sess.accepted == old(sess.accepted) + AsUsers(texts[..k])
      invariant sess.steerBuf == old(sess.steerBuf) + AsUsers(texts[..k])
    {
      assert texts[..k + 1][..k] == texts[..k];
      var ok := sess.PushSteerIfActive(UserMessage(texts[k]));
    }
    assert texts[..|texts|] == texts;
  }

  /** The state of a running turn. */
  class Turn {
    const sess: Session.Session
    const env: Env
    const cap: int

    var messages: Messages          // the prompt so far
    var replyParts: seq<string>
    var counter: Detector.Counter
    var allFailedRounds: nat
    var events: seq<Event>

    ghost const base: Messages      // the session when the loop starts
    ghost const accepted: Messages  // the steering messages accepted before the turn
    ghost var prompts: seq<Prompt>  // what the model was shown

    /** The session holds what was there and `log`; the prompt shows it. */
    ghost predicate Kept(log: Messages)
      reads this, sess
    {
      Stored(log) && messages == SystemMessages(env.system) + sess.Messages
    }

    /** And the events tell it. */
    ghost predicate Mirrors(log: Messages)
      reads this, sess
    {
      Kept(log) && events == Echo(log)
    }

    ghost predicate Stored(log: Messages)
      reads this, sess
    {
      sess.Messages == base + log
    }

    ghost predicate Shown(texts: seq<string>)
      reads this
    {
      replyParts == texts && Contents(events) == texts && Dones(events) == 0
    }

    /** `arrived` is what steering brought in during the turn, `pending` what is still buffered. */
    ghost predicate Steered(arrived: Messages, pending: Messages)
      reads this, sess
    {
      && sess.Valid() && sess.turnDepth == 1
      && sess.accepted == accepted + arrived && sess.steerBuf == pending
    }

    ghost predicate Counts(v: View)
      reads this
    {
      && counter == Detector.CounterOf(v.calls) && !Detector.HasTriple(v.calls)
      && allFailedRounds == Trailing(v.failures)
    }

    /** The state while the loop runs; nothing is pending between iterations. */
    ghost predicate State(v: View, pending: Messages)
      reads this, sess
    {
      Mirrors(v.log) && Shown(v.texts) && Steered(v.arrived, pending) && Counts(v) && prompts == v.prompts
    }

    /** The state when the loop is left. */
    ghost predicate Left(exit: Exit, log: Messages, texts: seq<string>, v: View, pending: Messages)
      reads this, sess
    {
      && Stored(log) && (Delivers(exit) ==> Mirrors(log))
      && replyParts == texts && Contents(events) == texts
      && (if Quits(exit) then Over(events) else Dones(events) == 0)
      && events == Echo(log) + (if Quits(exit) then LastEvents(exit) else [])
      && Steered(v.arrived, pending) && prompts == v.prompts
    }

    constructor (sess: Session.Session, env: Env, cap: int)
      requires sess.Valid() && sess.turnDepth == 1 && sess.steerBuf == []
      ensures this.sess == sess && this.env == env && this.cap == cap
      ensures base == sess.Messages && accepted == sess.accepted && State(View([], [], [], [], [], []), [])
    {
      this.sess, this.env, this.cap := sess, env, cap;
      messages := SystemMessages(env.system) + sess.Messages;
      replyParts, counter, allFailedRounds, events := [], Detector.Counter(None, 0), 0, [];
      base, accepted, prompts := sess.Messages, sess.accepted, [];
    }

    method Emit(e: Event)
      modifies this`events
      ensures events == old(events) + [e]
      ensures Contents(events) == Contents(old(events)) + ContentOf(e)
      ensures Dones(events) == Dones(old(events)) + if e.Done? then 1 else 0
    {
      EventsSnoc(events, e);
      events := events + [e];
    }

    method Say(content: string)
      requires Shown(replyParts)
      modifies this`events, this`replyParts
      ensures Shown(Shows(old(replyParts), content))
      ensures events == old(events) + if content == "" then [] else [Content(content)]
    {
      if content != "" {
        Emit(Content(content));
        replyParts := replyParts + [content];
      }
    }

    method Announce(calls: seq<ToolCall>)
      requires Shown(replyParts)
      modifies this`events
      ensures Shown(replyParts) && events == old(events) + CalledEvents(calls)
    {
      assert calls[..0] == [];
      for k := 0 to |calls|
        invariant Shown(replyParts) && events == old(events) + CalledEvents(calls[..k])
      {
        assert calls[..k + 1][..k] == calls[..k];
        Emit(Called(calls[k]));
      }
      assert calls[..|calls|] == calls;
    }

    method Remember(m: Message, ghost log: Messages)
      requires Kept(log)
      modifies this`messages, sess`Messages
      ensures Kept(log + [m])
    {
      sess.Append(m);
      messages := messages + [m];
    }

    method FoldIn(m: Message, e: Event, ghost log: Messages)
      requires Mirrors(log) && Shown(replyParts) && !e.Content? && !e.Done? && [e] == EchoOf(m)
      modifies this`messages, this`events, sess`Messages
      ensures Mirrors(log + [m]) && Shown(replyParts)
    {
      hide Echo;
      EchoSnoc(log, m);
      Remember(m, log);
      Emit(e);
    }

    method AppendSteer(steer: Messages, ghost log: Messages)
      requires Mirrors(log) && Shown(replyParts) && AllUsers(steer)
      modifies this`messages, this`events, sess`Messages
      ensures Mirrors(log + steer) && Shown(replyParts)
    {
      hide Echo;
      assert log + steer[..0] == log;
      for k := 0 to |steer|
        invariant Mirrors(log + steer[..k]) && Shown(replyParts)
      {
        assert log + steer[..k] + [steer[k]] == log + steer[..k + 1];
        FoldIn(steer[k], Steer(steer[k].content), log + steer[..k]);
      }
      assert steer[..|steer|] == steer;
    }

    method NextPrompt(ghost log: Messages, ghost failures: seq<bool>) returns (p: Prompt)
      requires Mirrors(log) && allFailedRounds == Trailing(failures)
      ensures p == PromptFor(env.system, base + log, failures)
    {
      if allFailedRounds >= FAILED_ROUNDS_LIMIT {
        p := Prompt(messages + [ToolsOff()], false);
      } else {
        assert messages + [] == messages;
        p := Prompt(messages, true);
      }
    }

    /** Iteration `i` calls the model. Steering messages that arrive until the iteration ends are
        buffered; the buffer is not looked at before its end. */
    method CallModel(i: nat, ghost v: View) returns (reply: Reply)
      requires State(v, [])
      modifies this`prompts, sess`steerBuf, sess`accepted
      ensures reply == env.llm(i)
      ensures State(Prompted(v, env, base, i), AsUsers(env.arrivals(i)))
    {
      hide PromptFor, AsUsers, Contents, Dones, Detector.HasTriple, Detector.CounterOf, Trailing;
      var p := NextPrompt(v.log, v.failures);
      prompts := prompts + [p];
      reply := env.llm(i);
      ReceiveSteer(sess, env.arrivals(i));
      Associate(accepted, v.arrived, AsUsers(env.arrivals(i)));
    }

    method RecordOne(calls: seq<ToolCall>, results: seq<Executor.Outcome>, k: nat, ghost log: Messages)
        returns (v: Executor.Verdict)
      requires k < |results| == |calls|
      requires Mirrors(log + Answers(calls, results[..k])) && Shown(replyParts)
      modifies this`messages, this`events, sess`Messages
      ensures v == Executor.Verdicts(results)[k] && Shown(replyParts)
      ensures Mirrors(log + Answers(calls, results[..if v.Crash? then k else k + 1]))
    {
      hide Echo, Executor.ToolText;
      v := Executor.Classify(results[k]);
      Executor.VerdictAt(results, k);
      if !v.Crash? {
        AnswersGrow(calls, results, k, log);
        FoldIn(AnswerOf(calls[k], results[k]), Result(calls[k].id, results[k].name, Executor.ToolText(results[k].text)),
               log + Answers(calls, results[..k]));
      }
    }

    /** Records the results one by one, up to the first that crashes the turn. */
    method RecordResults(calls: seq<ToolCall>, results: seq<Executor.Outcome>, ghost log: Messages)
        returns (panicked: bool, allFailed: bool)
      requires Mirrors(log) && Shown(replyParts) && |results| == |calls|
      modifies this`messages, this`events, sess`Messages
      ensures Mirrors(log + Answers(calls, results[..Recorded(Executor.Verdicts(results))])) && Shown(replyParts)
      ensures panicked <==> Recorded(Executor.Verdicts(results)) < |results|
      ensures !panicked ==> allFailed == Executor.AllFailed(Executor.Verdicts(results))
    {
      hide Answers, Contents, Dones, Executor.Verdicts, SystemMessages, Echo;
      ghost var vs := Executor.Verdicts(results);
      panicked, allFailed := false, |results| > 0;
      var k := 0;
      assert log + Answers(calls, results[..0]) == log && vs[0..] == vs;
      while k < |results| && !panicked
        invariant k <= |results| && Mirrors(log + Answers(calls, results[..k])) && Shown(replyParts)
        invariant Recorded(vs) == if panicked then k else k + Recorded(vs[k..])
        invariant panicked ==> k < |results|
        invariant allFailed <==> vs != [] && Executor.NoneFine(vs, k)
        decreases |results| - k, !panicked
      {
        RecordedStep(vs, k);
        var v := RecordOne(calls, results, k, log);
        panicked := v.Crash?;
        if !panicked {
          allFailed := allFailed && !v.Fine?;
          k := k + 1;
        }
      }
    }

    method Finish()
      requires Dones(events) == 0
      modifies this`events
      ensures Over(events) && Contents(events) == Contents(old(events)) && events == old(events) + [Done]
    {
      Emit(Done);
    }

    method Fail()
      requires Dones(events) == 0
      modifies this`events
      ensures Over(events) && Contents(events) == Contents(old(events)) && events == old(events) + [Error, Done]
    {
      Emit(Error);
      Finish();
    }

    /** A reply without tool calls ends the turn, unless steering messages are waiting. */
    method Respond(content: string, ghost v: View, ghost pending: Messages) returns (exit: Option<Exit>)
      requires State(v, pending) && Text.TrimSpace(content) != ""
      modifies this`messages, this`replyParts, this`events, sess`Messages, sess`steerBuf, sess`taken
      ensures exit == if pending == [] then Some(Answered) else None
      ensures exit == None ==> State(Stepped(v, content, [], [], pending), [])
      ensures exit == Some(Answered) ==>
                Left(Answered, v.log + [AssistantMessage(content, [])], Shows(v.texts, content), v, [])
    {
      hide AsUsers, Contents, Dones, Over, Detector.HasTriple, Detector.CounterOf, Trailing, Text.TrimSpace, Echo;
      var asst := AssistantMessage(content, []);
      sess.Append(asst);
      Say(content);
      EchoText(v.log, content);
      var steer := sess.DrainSteer();
      if |steer| > 0 {
        CarryOn(asst, steer, v.log);
        assert v.calls + [] == v.calls;
        return None;
      }
      Finish();
      return Some(Answered);
    }

    /** The text just said goes into the next prompt, followed by the steering messages. */
    method CarryOn(asst: Message, steer: Messages, ghost log: Messages)
      requires Stored(log + [asst]) && messages == SystemMessages(env.system) + (base + log) && Shown(replyParts)
      requires events == Echo(log + [asst]) && AllUsers(steer)
      modifies this`messages, this`events, sess`Messages
      ensures Mirrors(log + ([asst] + [] + steer)) && Shown(replyParts)
    {
      hide Echo;
      messages := messages + [asst];
      AppendSteer(steer, log + [asst]);
      assert log + [asst] + steer == log + ([asst] + [] + steer);
    }

    /** A reply with tool calls is stored and checked for a loop. */
    method Ask(content: string, calls: seq<ToolCall>, ghost v: View, ghost pending: Messages) returns (fired: bool)
      requires State(v, pending)
      modifies this`messages, this`replyParts, this`events, this`counter, sess`Messages
      ensures Mirrors(v.log + [AssistantMessage(content, calls)]) && Shown(Shows(v.texts, content))
      ensures Steered(v.arrived, pending) && prompts == v.prompts && allFailedRounds == Trailing(v.failures)
      ensures fired <==> Detector.HasTriple(v.calls + Detector.Sigs(calls))
      ensures !fired ==> counter == Detector.CounterOf(v.calls + Detector.Sigs(calls))
    {
      hide Echo, Contents, Dones, SystemMessages, Detector.HasTriple, Detector.CounterOf, Trailing, CalledEvents;
      EchoSnoc(v.log, AssistantMessage(content, calls));
      Say(content);
      Announce(calls);
      Remember(AssistantMessage(content, calls), v.log);
      counter, fired := Detector.Observe(counter, calls, v.calls);
    }

    method Tally(allFailed: bool, ghost failures: seq<bool>)
      requires allFailedRounds == Trailing(failures)
      modifies this`allFailedRounds
      ensures allFailedRounds == Trailing(failures + [allFailed])
    {
      assert (failures + [allFailed])[..|failures|] == failures;
      if allFailed {
        allFailedRounds := allFailedRounds + 1;
      } else {
        allFailedRounds := 0;
      }
    }

    /** Between rounds: messages that arrived while the tools ran. */
    method FoldSteer(ghost log: Messages, ghost arrived: Messages, ghost pending: Messages)
      requires Mirrors(log) && Shown(replyParts) && Steered(arrived, pending)
      modifies this`messages, this`events, sess`Messages, sess`steerBuf, sess`taken
      ensures Mirrors(log + pending) && Shown(replyParts) && Steered(arrived, [])
    {
      hide Echo;
      var steer := sess.DrainSteer();
      if |steer| > 0 {
        AppendSteer(steer, log);
      } else {
        assert log + pending == log;
      }
    }

    /** The calls are executed under the cap and their results recorded. */
    method Execute(calls: seq<ToolCall>, responses: seq<Executor.Response>, ghost log: Messages)
        returns (panicked: bool, allFailed: bool, ghost answers: Messages)
      requires Mirrors(log) && Shown(replyParts)
      modifies this`messages, this`events, sess`Messages
      ensures Mirrors(log + answers) && Shown(replyParts)
      ensures RoundDone(calls, Executor.RoundOutcomes(calls, cap, responses), panicked, allFailed, answers)
    {
      hide Executor.RoundOutcomes, Executor.Failed, Executor.Aligned, Contents, Dones, Echo;
      var results := Executor.RunRound(calls, cap, responses);
      answers := Answers(calls, results[..Recorded(Executor.Verdicts(results))]);
      panicked, allFailed := RecordResults(calls, results, log);
      assert results[..|results|] == results;
    }

    /** The rest of a round: execute, record, fold in steering messages. */
    method Work(calls: seq<ToolCall>, responses: seq<Executor.Response>, ghost log: Messages,
                ghost failures: seq<bool>, ghost arrived: Messages, ghost pending: Messages)
        returns (panicked: bool, ghost allFailed: bool, ghost answers: Messages)
      requires Mirrors(log) && Shown(replyParts) && Steered(arrived, pending) && allFailedRounds == Trailing(failures)
      modifies this`messages, this`events, this`allFailedRounds
      modifies sess`Messages, sess`steerBuf, sess`taken
      ensures Shown(replyParts)
      ensures RoundDone(calls, Executor.RoundOutcomes(calls, cap, responses), panicked, allFailed, answers)
      ensures panicked ==> Mirrors(log + answers) && Steered(arrived, pending)
      ensures !panicked ==>
                && Mirrors(log + answers + pending) && Steered(arrived, [])
                && allFailedRounds == Trailing(failures + [allFailed])
    {
      hide RoundDone, Executor.RoundOutcomes, Contents, Dones, Trailing, Echo;
      var failed;
      panicked, failed, answers := Execute(calls, responses, log);
      allFailed := failed;
      if !panicked {
        Tally(failed, failures);
        FoldSteer(log + answers, arrived, pending);
      }
    }

    /** One round: ask, check for a loop, and only then work. */
    method Round(content: string, calls: seq<ToolCall>, responses: seq<Executor.Response>,
                 ghost v: View, ghost pending: Messages)
        returns (exit: Option<Exit>, ghost failed: bool, ghost answers: Messages)
      requires State(v, pending)
      modifies this`messages, this`replyParts, this`events, this`counter, this`allFailedRounds
      modifies sess`Messages, sess`steerBuf, sess`taken
      ensures exit == Some(LoopDetected) <==> Detector.HasTriple(v.calls + Detector.Sigs(calls))
      ensures exit == Some(LoopDetected) ==>
                Left(LoopDetected, v.log + [AssistantMessage(content, calls), LoopWarning()], Shows(v.texts, content), v, pending)
      ensures exit != Some(LoopDetected) ==>
                && exit == (if exit == None then None else Some(Panicked))
                && RoundDone(calls, Executor.RoundOutcomes(calls, cap, responses), exit != None, failed, answers)
      ensures exit == Some(Panicked) ==>
                Left(Panicked, v.log + ([AssistantMessage(content, calls)] + answers), Shows(v.texts, content), v, pending)
      ensures exit == None ==> State(Tallied(Stepped(v, content, calls, answers, pending), failed), [])
    {
      hide RoundDone, Executor.RoundOutcomes, Contents, Dones, Over, Detector.HasTriple, Detector.CounterOf, Trailing;
      hide Detector.Sigs, Echo;
      ghost var ask := AssistantMessage(content, calls);
      var fired := Ask(content, calls, v, pending);
      if fired {
        Remember(LoopWarning(), v.log + [ask]);
        EchoSnoc(v.log + [ask], LoopWarning());
        assert v.log + [ask] + [LoopWarning()] == v.log + [ask, LoopWarning()];
        return Some(LoopDetected), false, [];
      }
      var panicked;
      panicked, failed, answers := Work(calls, responses, v.log + [ask], v.failures, v.arrived, pending);
      Rebracket(v.log, ask, answers, pending);
      exit := if panicked then Some(Panicked) else None;
    }

    /** The state in which iteration `i` leaves the loop. */
    ghost predicate Ended(exit: Exit, i: nat)
      reads this, sess
    {
      Left(exit, EndLog(env, cap, exit, i), ShownTexts(env, exit, i), ViewAt(env, cap, base, i + 1),
           AsUsers(env.arrivals(i)))
    }

    /** Iteration `i` when the model has made tool calls. */
    method ToolIteration(i: nat) returns (exit: Option<Exit>)
      requires Calls(env, i) != []
      requires State(Prompted(ViewAt(env, cap, base, i), env, base, i), AsUsers(env.arrivals(i)))
      modifies this`messages, this`replyParts, this`events, this`counter, this`allFailedRounds
      modifies sess`Messages, sess`steerBuf, sess`taken
      ensures exit == if Goes(env, cap, i) then None else Some(ExitOf(env, i))
      ensures exit == None ==> State(ViewAt(env, cap, base, i + 1), [])
      ensures exit != None ==> Ended(exit.value, i)
    {
      hide State, Log, EndLog, Text.TrimSpace, Detector.HasTriple, CallsSoFar, Shows, Stepped, Answers;
      hide Executor.RoundOutcomes, Executor.AllFailed, Executor.Verdicts, Echo;
      ghost var v, pending := Prompted(ViewAt(env, cap, base, i), env, base, i), AsUsers(env.arrivals(i));
      ghost var failed, answers;
      exit, failed, answers := Round(Said(env, i), Calls(env, i), env.exec(i), v, pending);
      NextCalls(env, i);
      NextRoundView(env, cap, base, i);
      ToolEnd(env, cap, i);
    }

    /** Iteration `i` when the model has said something and made no tool calls. */
    method TextIteration(i: nat) returns (exit: Option<Exit>)
      requires Calls(env, i) == [] && Text.TrimSpace(Said(env, i)) != ""
      requires State(Prompted(ViewAt(env, cap, base, i), env, base, i), AsUsers(env.arrivals(i)))
      modifies this`messages, this`replyParts, this`events, sess`Messages, sess`steerBuf, sess`taken
      ensures exit == if env.arrivals(i) == [] then Some(Answered) else None
      ensures exit == None ==> State(ViewAt(env, cap, base, i + 1), [])
      ensures exit != None ==> Ended(exit.value, i)
    {
      hide Log, EndLog, Failures, Text.TrimSpace, Shows, Stepped, Detector.HasTriple, Detector.CounterOf, Contents;
      hide CallsSoFar, Trailing, Texts, Echo;
      QuietEnd(env, cap, i);
      exit := Respond(Said(env, i), Prompted(ViewAt(env, cap, base, i), env, base, i), AsUsers(env.arrivals(i)));
      NextTextView(env, cap, base, i);
    }

    /** Iteration `i` when the model has failed or said nothing. */
    method GiveUp(i: nat, exit: Exit)
      requires exit.ModelFailed? || exit.EmptyReply?
      requires State(Prompted(ViewAt(env, cap, base, i), env, base, i), AsUsers(env.arrivals(i)))
      modifies this`events
      ensures Ended(exit, i)
    {
      hide Log, EndLog, Detector.HasTriple, Detector.CounterOf, Contents, CallsSoFar, Texts, Failures, Echo;
      QuietEnd(env, cap, i);
      Fail();
    }

    method Iterate(i: nat) returns (exit: Option<Exit>)
      requires State(ViewAt(env, cap, base, i), [])
      modifies this`messages, this`replyParts, this`events, this`counter, this`allFailedRounds, this`prompts
      modifies sess`Messages, sess`steerBuf, sess`accepted, sess`taken
      ensures exit == if Goes(env, cap, i) then None else Some(ExitOf(env, i))
      ensures exit == None ==> State(ViewAt(env, cap, base, i + 1), [])
      ensures exit != None ==> Ended(exit.value, i)
    {
      hide ViewAt, State, Ended, Prompted, Detector.HasTriple, CallsSoFar, Recorded, Verdicts;
      var reply := CallModel(i, ViewAt(env, cap, base, i));
      if reply.Failed? {
        GiveUp(i, ModelFailed);
        return Some(ModelFailed);
      }
      if |reply.calls| != 0 {
        exit := ToolIteration(i);
      } else if Text.TrimSpace(reply.content) == "" {
        GiveUp(i, EmptyReply);
        exit := Some(EmptyReply);
      } else {
        exit := TextIteration(i);
      }
    }

    /** The state before iteration `i`, or the one in which it has left the loop. */
    ghost predicate Progress(left: Option<Exit>, i: nat)
      reads this, sess
    {
      match left
      case None => State(ViewAt(env, cap, base, i), [])
      case Some(exit) => Ended(exit, i)
    }

    /** The loop, until an iteration does not go on or the cap is reached. */
    method Loop(max: int) returns (left: Option<Exit>, ghost n: nat)
      requires State(ViewAt(env, cap, base, 0), [])
      modifies this`messages, this`replyParts, this`events, this`counter, this`allFailedRounds, this`prompts
      modifies sess`Messages, sess`steerBuf, sess`accepted, sess`taken
      ensures n == Stop(env, cap, max, 0) && left == (if n >= max then None else Some(ExitOf(env, n)))
      ensures Progress(left, n)
    {
      hide ViewAt, Goes, ExitOf, EndLog, Left;
      var i: nat := 0;
      left := None;
      while i < max && left == None
        invariant Progress(left, i)
        invariant Stop(env, cap, max, i) == Stop(env, cap, max, 0)
        invariant left != None ==> i < max && !Goes(env, cap, i) && left == Some(ExitOf(env, i))
        decreases max - i, left == None
      {
        left := Iterate(i);
        if left == None {
          i := i + 1;
        }
      }
      n := i;
    }

    /** The forced final delivery of a turn that was cut off: one more model call without tools. */
    method Deliver(ghost log: Messages)
      requires Mirrors(log) && Shown(replyParts)
      modifies this`replyParts, this`events, this`prompts, sess`Messages
      ensures Stored(log + [AssistantMessage(FinalText(env), [])])
      ensures replyParts == old(replyParts) + [FinalText(env)] && Contents(events) == replyParts && Over(events)
      ensures events == Echo(log + [AssistantMessage(FinalText(env), [])]) + [Done]
      ensures prompts == old(prompts) + [Prompt(SystemMessages(env.system) + (base + log) + [Nudge()], false)]
    {
      hide Echo, EchoOf, Contents, Dones, Over, SystemMessages;
      prompts := prompts + [Prompt(messages + [Nudge()], false)];
      var text := "";
      if env.final.Some? {
        text := env.final.value;
      }
      if text == "" {
        text := Canned();
      }
      EchoText(log, text);
      sess.Append(AssistantMessage(text, []));
      Say(text);
      Finish();
    }

    /** The state after the last model call. */
    ghost predicate Closed(exit: Exit, n: nat)
      reads this, sess
    {
      && Stored(Body(env, cap, exit, n)) && Steered(Received(env, exit, n), Undrained(env, exit, n))
      && replyParts == ReplyTexts(env, exit, n) && Contents(events) == replyParts
      && (if exit.Panicked? then Dones(events) == 0 else Over(events))
      && events == Echo(Body(env, cap, exit, n)) + LastEvents(exit)
      && prompts == AllPrompts(env, cap, base, exit, n)
    }

    lemma ClosedAtOnce(exit: Exit, n: nat)
      requires Ended(exit, n) && !Delivers(exit)
      ensures Closed(exit, n)
    {
      hide Log, Rest, Texts, Arrived, Prompts, Failures, Detector.HasTriple, Detector.CounterOf, Contents, Dones, Echo;
      BodyShape(env, cap, exit, n);
    }

    method DeliverTurn(exit: Exit, ghost n: nat)
      requires Progress(if exit.IterationCap? then None else Some(exit), n) && Delivers(exit)
      modifies this`replyParts, this`events, this`prompts, sess`Messages
      ensures Closed(exit, n)
    {
      hide Log, Rest, Texts, Arrived, Prompts, Failures, FinalText, Detector.HasTriple, Detector.CounterOf, Contents;
      hide Dones, Echo;
      BodyShape(env, cap, exit, n);
      CapView(env, cap, n);
      Deliver(Log(env, cap, n) + Rest(env, cap, exit, n));
    }

    method Conclude(left: Option<Exit>, ghost n: nat) returns (exit: Exit)
      requires Progress(left, n) && left != Some(IterationCap)
      modifies this`replyParts, this`events, this`prompts, sess`Messages
      ensures Closed(exit, n) && exit == if left == None then IterationCap else left.value
    {
      hide ViewAt, State, Left, EndLog, Closed;
      exit := if left == None then IterationCap else left.value;
      if exit.LoopDetected? || exit.IterationCap? {
        DeliverTurn(exit, n);
      } else {
        ClosedAtOnce(exit, n);
      }
    }

    /** From the first model call to the last. A crash leaves the caller without a reply. */
    method Run(max: int) returns (exit: Exit, reply: string, ghost n: nat)
      requires State(ViewAt(env, cap, base, 0), [])
      modifies this`messages, this`replyParts, this`events, this`counter, this`allFailedRounds, this`prompts
      modifies sess`Messages, sess`steerBuf, sess`accepted, sess`taken
      ensures n == Stop(env, cap, max, 0) && exit == ExitAt(env, max, n) && Closed(exit, n)
      ensures exit.Answered? || Delivers(exit) ==> reply == Outbound.Joined(replyParts)
    {
      hide ViewAt, Goes, EndLog, Closed, Progress, State, Outbound.Joined;
      var left;
      left, n := Loop(max);
      exit := Conclude(left, n);
      reply := ReplyFor(exit);
    }

    method ReplyFor(exit: Exit) returns (reply: string)
      ensures exit.Answered? || Delivers(exit) ==> reply == Outbound.Joined(replyParts)
    {
      match exit {
        case ModelFailed => reply := "error";
        case EmptyReply => reply := "empty";
        case Panicked => reply := "";
        case _ => reply := Outbound.JoinReplyParts(replyParts);
      }
    }
  }

  /** What runs on every way out: the pads first, then the steering messages left over. */
  method EndTurn(sess: Session.Session, late: seq<string>, ghost base: Messages, ghost body: Messages)
    requires sess.Valid() && sess.turnDepth == 1 && sess.Messages == base + body
    modifies sess
    ensures sess.Messages == base + (body + Padding.PadsFor(base + body) + (old(sess.steerBuf) + AsUsers(late)))
    ensures sess.Valid() && sess.turnDepth == 0
    ensures sess.accepted == old(sess.accepted) + AsUsers(late)
  {
    Session.PadOrphanToolResults(sess);
    ReceiveSteer(sess, late);
    FlushLeftoverSteer(sess);
    Rejoin(base, body, Padding.PadsFor(base + body), old(sess.steerBuf) + AsUsers(late));
  }

  lemma Associate(a: Messages, b: Messages, c: Messages)
    ensures a + b + c == a + (b + c)
  {
  }

  lemma Rejoin(base: Messages, body: Messages, pads: Messages, left: Messages)
    ensures base + (body + pads + left) == base + body + pads + left
  {
  }

  /** Steering messages that nobody drained are parked in the history. */
  method FlushLeftoverSteer(sess: Session.Session)
    requires sess.Valid() && sess.turnDepth == 1
    modifies sess`Messages, sess`turnDepth, sess`steerBuf, sess`taken
    ensures sess.Valid() && sess.turnDepth == 0 && sess.accepted == old(sess.accepted)
    ensures sess.Messages == old(sess.Messages) + old(sess.steerBuf)
  {
    var leftover := sess.EndTurn();
    assert old(sess.Messages) + leftover[..0] == old(sess.Messages);
    for k := 0 to |leftover|
      invariant sess.Messages == old(sess.Messages) + leftover[..k]
      invariant sess.Valid() && sess.turnDepth == 0 && sess.accepted == old(sess.accepted)
    {
      assert old(sess.Messages) + leftover[..k + 1] == old(sess.Messages) + leftover[..k] + [leftover[k]];
      sess.Append(leftover[k]);
    }
    assert leftover[..|leftover|] == leftover;
  }

  /** The user's message is stored and the history compacted. */
  method Receive(sess: Session.Session, user: Message, chat: string -> Option<string>)
    modifies sess`Messages
    ensures sess.Messages == Compaction.Compacted(old(sess.Messages) + [user], chat)
  {
    sess.Append(user);
    var sessionMsgs := sess.GetMessages();
    var result, pruned := Compaction.CompactMessages(sessionMsgs, chat);
    if pruned {
      sess.ReplaceMessages(result);
    }
  }

  lemma PromptsBounded(env: Env, cap: int, max: int, base: Messages)
    ensures var n := Stop(env, cap, max, 0);
            |AllPrompts(env, cap, base, ExitAt(env, max, n), n)| <= (if max > 0 then max else 0) + 1
  {
    hide PromptAt;
  }

  lemma TurnedIs(ms: Messages, t: Input)
    ensures var n := Stop(t.env, t.cap, t.max, 0);
            var exit := ExitAt(t.env, t.max, n);
            var base, body := Base(ms, t), Body(t.env, t.cap, exit, n);
            && base == Compaction.Compacted(ms + [t.user], t.env.chat)
            && Turned(ms, t) ==
               base + (body + Padding.PadsFor(base + body) + (Undrained(t.env, exit, n) + AsUsers(t.env.late)))
  {
    hide Stop, ExitAt, Body, Undrained, AsUsers, Padding.PadsFor, Compaction.Compacted;
  }

  /** A whole turn. The session ends up as module TurnSpec says; every steering message accepted
      during the turn has been handed out; unless the turn crashed, exactly one event, the last,
      says that it is over; the reply joins the texts shown; and the model is called at most once
      per iteration allowed and once more to close. */
  method HandleMessage(sess: Session.Session, env: Env, user: Message, cap: int, max: int)
      returns (exit: Exit, reply: string, events: seq<Event>, ghost prompts: seq<Prompt>)
    requires sess.Valid() && sess.turnDepth == 0 && user.role.User?
    modifies sess
    ensures sess.Messages == Turned(old(sess.Messages), Input(env, cap, max, user))
    ensures sess.Valid() && sess.turnDepth == 0
    ensures var n := Stop(env, cap, max, 0);
            && exit == ExitAt(env, max, n)
            && sess.accepted == old(sess.accepted) + (Received(env, exit, n) + AsUsers(env.late))
            && Contents(events) == ReplyTexts(env, exit, n)
            && events == Echo(Body(env, cap, exit, n)) + LastEvents(exit)
            && prompts == AllPrompts(env, cap, Base(old(sess.Messages), Input(env, cap, max, user)), exit, n)
    ensures exit.Panicked? <==> CrashesTurn(env, cap, max)
    ensures if CrashesTurn(env, cap, max) then Dones(events) == 0 else Over(events)
    ensures exit.Answered? || Delivers(exit) ==>
              && reply == Outbound.Joined(Contents(events))
              && Outbound.Bubbles(reply) == Outbound.FlatBubbles(Contents(events))
    ensures |prompts| <= (if max > 0 then max else 0) + 1
  {
    hide Stop, Body, Compaction.Compacted, Contents, Dones, Received, ReplyTexts, Undrained, Padding.PadsFor, ExitOf;
    hide CrashesTurn, Outbound.Bubbles, Outbound.Joined, Outbound.FlatBubbles, AsUsers, Over;
    hide SystemMessages, Leftover, Turned, Base, AllPrompts, ExitAt, Echo, LastEvents;
    PanicsIff(env, cap, max);
    TurnedIs(old(sess.Messages), Input(env, cap, max, user));
    PromptsBounded(env, cap, max, Base(old(sess.Messages), Input(env, cap, max, user)));
    sess.BeginTurn();
    Receive(sess, user, env.chat);
    var turn := new Turn(sess, env, cap);
    ghost var n;
    exit, reply, n := turn.Run(max);
    EndTurn(sess, env.late, turn.base, Body(env, cap, exit, n));
    Associate(old(sess.accepted), Received(env, exit, n), AsUsers(env.late));
    events, prompts := turn.events, turn.prompts;
    Outbound.SplitOfJoin(Contents(events));
  }
}
