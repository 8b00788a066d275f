/** One turn of the agent as a function of everything it cannot control, and what that function
    keeps. Module Turn proves that the imperative loop computes it. */
module TurnSpec {
  import opened History
  import opened Options
  import opened Rounds
  import Compaction
  import Detector
  import Executor
  import Outbound
  import Padding
  import Text

  datatype Reply = Failed | Replied(content: string, calls: seq<ToolCall>)

  /** What the turn cannot control: the i-th iteration's model reply (after recovery of leaked
      tool calls), executor responses and steering arrivals; the closing model call, if it
      succeeds; arrivals after the loop; the summarizer. `system` heads every prompt. */
  datatype Env = Env(
    system: seq<string>,
    llm: nat -> Reply,
    exec: nat -> seq<Executor.Response>,
    arrivals: nat -> seq<string>,
    final: Option<string>,
    late: seq<string>,
    chat: string -> Option<string>)

  const FAILED_ROUNDS_LIMIT := 3

  function LoopWarning(): Message { SystemMessage("Loop detected") }
  function ToolsOff(): Message { SystemMessage("Stop calling tools") }
  function Nudge(): Message { SystemMessage("Synthesize") }
  function Canned(): string { "No final response" }

  function AsUsers(texts: seq<string>): (r: Messages)
    ensures |r| == |texts|
  {
    if texts == [] then [] else AsUsers(texts[..|texts| - 1]) + [UserMessage(texts[|texts| - 1])]
  }

  function SystemMessages(texts: seq<string>): (r: Messages)
    ensures Plain(r)
  {
    if texts == [] then [] else [SystemMessage(texts[0])] + SystemMessages(texts[1..])
  }

  // ----- the iterations that go on -----

  function Calls(env: Env, i: nat): seq<ToolCall> {
    match env.llm(i)
    case Failed => []
    case Replied(_, calls) => calls
  }

  function Said(env: Env, i: nat): string {
    match env.llm(i)
    case Failed => ""
    case Replied(content, _) => content
  }

  function Outcomes(env: Env, cap: int, i: nat): (r: seq<Executor.Outcome>)
    ensures |r| == |Calls(env, i)|
  {
    Executor.RoundOutcomes(Calls(env, i), cap, env.exec(i))
  }

  function Verdicts(env: Env, cap: int, i: nat): seq<Executor.Verdict> {
    Executor.Verdicts(Outcomes(env, cap, i))
  }

  /** The signatures of all calls of the first `n` replies. */
  function CallsSoFar(env: Env, n: nat): seq<Detector.Sig> {
    Chain(SigsOf(env), n)
  }

  function SigsOf(env: Env): nat -> seq<Detector.Sig> {
    (i: nat) => Detector.Sigs(Calls(env, i))
  }

  /** Iteration `i` is followed by another: it executed a round, or said something while a
      steering message came in. */
  predicate Goes(env: Env, cap: int, i: nat) {
    if Calls(env, i) == [] then Text.TrimSpace(Said(env, i)) != "" && env.arrivals(i) != []
    else !Detector.HasTriple(CallsSoFar(env, i + 1)) && Recorded(Verdicts(env, cap, i)) == |Calls(env, i)|
  }

  predicate AllGo(env: Env, cap: int, n: nat) {
    n == 0 || (Goes(env, cap, n - 1) && AllGo(env, cap, n - 1))
  }

  /** What iteration `i` adds to the session if it is not the last. */
  function StepLog(env: Env, cap: int, i: nat): Messages {
    [AssistantMessage(Said(env, i), Calls(env, i))] + Answers(Calls(env, i), Outcomes(env, cap, i))
    + AsUsers(env.arrivals(i))
  }

  function Steps(env: Env, cap: int): nat -> Messages {
    (i: nat) => StepLog(env, cap, i)
  }

  /** f(0) + ... + f(n - 1) */
  function Chain<T>(f: nat -> seq<T>, n: nat): seq<T> {
    if n == 0 then [] else Chain(f, n - 1) + f(n - 1)
  }

  function Log(env: Env, cap: int, n: nat): Messages {
    Chain(Steps(env, cap), n)
  }

  function Arrivals(env: Env): nat -> Messages {
    (i: nat) => AsUsers(env.arrivals(i))
  }

  /** The steering messages that arrive during the first `n` iterations. */
  function Arrived(env: Env, n: nat): Messages {
    Chain(Arrivals(env), n)
  }

  /** For each round executed in the first `n` iterations, whether all of it failed. */
  function Failures(env: Env, cap: int, n: nat): seq<bool> {
    if n == 0 then []
    else Failures(env, cap, n - 1)
         + if Calls(env, n - 1) == [] then [] else [Executor.AllFailed(Verdicts(env, cap, n - 1))]
  }

  /** How many of the last rounds failed in a row. */
  function Trailing(rounds: seq<bool>): nat {
    if rounds == [] || !rounds[|rounds| - 1] then 0 else Trailing(rounds[..|rounds| - 1]) + 1
  }

  /** The texts shown to the user in the first `n` iterations. */
  function Texts(env: Env, n: nat): seq<string> {
    if n == 0 then [] else Texts(env, n - 1) + if Said(env, n - 1) == "" then [] else [Said(env, n - 1)]
  }

  // ----- what a model call is shown -----

  datatype Prompt = Prompt(history: Messages, tools: bool)

  /** After three failed rounds in a row tools are withheld. */
  predicate ToolsOffered(failures: seq<bool>) {
    Trailing(failures) < FAILED_ROUNDS_LIMIT
  }

  function PromptFor(system: seq<string>, history: Messages, failures: seq<bool>): Prompt {
    var tools := ToolsOffered(failures);
    Prompt(SystemMessages(system) + history + if tools then [] else [ToolsOff()], tools)
  }

  function PromptAt(env: Env, cap: int, base: Messages, i: nat): Prompt {
    PromptFor(env.system, base + Log(env, cap, i), Failures(env, cap, i))
  }

  function Prompts(env: Env, cap: int, base: Messages, n: nat): (r: seq<Prompt>)
    ensures |r| == n
  {
    if n == 0 then [] else Prompts(env, cap, base, n - 1) + [PromptAt(env, cap, base, n - 1)]
  }

  // ----- how the turn ends -----

  /** The number of iterations that go on, counted from the i-th. */
  function Stop(env: Env, cap: int, max: int, i: nat): (n: nat)
    ensures i <= n && (n < max ==> !Goes(env, cap, n)) && (n > i ==> n <= max)
    decreases max - i
  {
    if i >= max || !Goes(env, cap, i) then i else Stop(env, cap, max, i + 1)
  }

  /** How iteration `n` ends the turn if it does not go on. */
  function ExitOf(env: Env, n: nat): Exit {
    if env.llm(n).Failed? then ModelFailed
    else if Calls(env, n) == [] then (if Text.TrimSpace(Said(env, n)) == "" then EmptyReply else Answered)
    else if Detector.HasTriple(CallsSoFar(env, n + 1)) then LoopDetected
    else Panicked
  }

  function ExitAt(env: Env, max: int, n: nat): Exit {
    if n >= max then IterationCap else ExitOf(env, n)
  }

  function FinalText(env: Env): string {
    if env.final.None? || env.final.value == "" then Canned() else env.final.value
  }

  /** What the last iteration leaves unfinished. */
  function Rest(env: Env, cap: int, exit: Exit, n: nat): Messages {
    var ask := AssistantMessage(Said(env, n), Calls(env, n));
    match exit
    case LoopDetected => [ask, LoopWarning()]
    case Panicked =>
      var results := Outcomes(env, cap, n);
      [ask] + Answers(Calls(env, n), results[..Recorded(Executor.Verdicts(results))])
    case _ => []
  }

  function ClosingText(env: Env, exit: Exit, n: nat): string {
    if exit.Answered? then Said(env, n) else FinalText(env)
  }

  /** The steering messages received before the closing call. */
  function Received(env: Env, exit: Exit, n: nat): Messages {
    Arrived(env, if exit.IterationCap? then n else n + 1)
  }

  /** Those of them that are still in the buffer then. */
  function Undrained(env: Env, exit: Exit, n: nat): Messages {
    if exit.IterationCap? then [] else AsUsers(env.arrivals(n))
  }

  /** Steering messages that nobody drained. */
  function Leftover(env: Env, exit: Exit, n: nat): Messages {
    Undrained(env, exit, n) + AsUsers(env.late)
  }

  /** What the turn appends before the pads. */
  function Body(env: Env, cap: int, exit: Exit, n: nat): Messages {
    Log(env, cap, n) + Rest(env, cap, exit, n) + Closing(exit, ClosingText(env, exit, n))
  }

  /** What the turn appends to the session it starts from. */
  function Appended(env: Env, cap: int, max: int, base: Messages): Messages {
    var n := Stop(env, cap, max, 0);
    var exit := ExitAt(env, max, n);
    var body := Body(env, cap, exit, n);
    body + Padding.PadsFor(base + body) + Leftover(env, exit, n)
  }

  /** The session after the turn. */
  function After(env: Env, cap: int, max: int, base: Messages): Messages {
    base + Appended(env, cap, max, base)
  }

  // ----- what the iterations keep -----

  /** No model reply carries a call without an id. */
  ghost predicate IdsGiven(env: Env) {
    forall i: nat :: "" !in Ids(Calls(env, i))
  }

  lemma {:induction false} AsUsersAreUsers(texts: seq<string>)
    ensures AllUsers(AsUsers(texts))
  {
    if texts != [] {
      AsUsersAreUsers(texts[..|texts| - 1]);
    }
  }

  lemma StepSound(env: Env, cap: int, i: nat, strict: bool)
    requires strict ==> IdsGiven(env)
    ensures Piece(StepLog(env, cap, i), strict)
    ensures Users(StepLog(env, cap, i)) == AsUsers(env.arrivals(i))
    ensures Detector.CallsMade(StepLog(env, cap, i)) == Detector.Sigs(Calls(env, i))
  {
    var said := AssistantMessage(Said(env, i), Calls(env, i));
    var answers := Answers(Calls(env, i), Outcomes(env, cap, i));
    AnswersInOrderOf(Calls(env, i), Outcomes(env, cap, i));
    AsUsersAreUsers(env.arrivals(i));
    StepPiece(said, answers, AsUsers(env.arrivals(i)), strict);
  }

  lemma {:induction false} ChainSound(f: nat -> Messages, n: nat, strict: bool)
    requires forall i: nat :: i < n ==> Piece(f(i), strict)
    ensures Piece(Chain(f, n), strict)
  {
    if n == 0 {
      PlainPiece([], strict);
    } else {
      ChainSound(f, n - 1, strict);
      SoundConcat(Chain(f, n - 1), f(n - 1), strict);
    }
  }

  lemma {:induction false} ChainUsers(f: nat -> Messages, g: nat -> Messages, n: nat)
    requires forall i: nat :: i < n ==> Users(f(i)) == g(i)
    ensures Users(Chain(f, n)) == Chain(g, n)
  {
    if n > 0 {
      ChainUsers(f, g, n - 1);
      UsersConcat(Chain(f, n - 1), f(n - 1));
    }
  }

  lemma {:induction false} ChainCalls(f: nat -> Messages, g: nat -> seq<Detector.Sig>, n: nat)
    requires forall i: nat :: i < n ==> Detector.CallsMade(f(i)) == g(i)
    ensures Detector.CallsMade(Chain(f, n)) == Chain(g, n)
  {
    if n > 0 {
      ChainCalls(f, g, n - 1);
      Detector.CallsMadeConcat(Chain(f, n - 1), f(n - 1));
    }
  }

  /** The iterations that go on leave every question answered - at once, if all calls have ids. */
  lemma LogSound(env: Env, cap: int, n: nat, strict: bool)
    requires strict ==> IdsGiven(env)
    ensures Piece(Log(env, cap, n), strict)
  {
    var f := Steps(env, cap);
    forall i: nat | i < n ensures Piece(f(i), strict) {
      StepSound(env, cap, i, strict);
    }
    ChainSound(f, n, strict);
  }

  /** They append the steering messages in order of arrival, and the calls the model made. */
  lemma LogTraffic(env: Env, cap: int, n: nat)
    ensures Users(Log(env, cap, n)) == Arrived(env, n)
    ensures Detector.CallsMade(Log(env, cap, n)) == CallsSoFar(env, n)
  {
    forall i: nat | i < n
      ensures Users(Steps(env, cap)(i)) == Arrivals(env)(i)
      ensures Detector.CallsMade(Steps(env, cap)(i)) == SigsOf(env)(i)
    {
      StepSound(env, cap, i, false);
    }
    ChainUsers(Steps(env, cap), Arrivals(env), n);
    ChainCalls(Steps(env, cap), SigsOf(env), n);
  }

  // ----- what a whole turn keeps -----

  lemma RestUnsettled(env: Env, cap: int, exit: Exit, n: nat)
    requires exit.LoopDetected? || exit.Panicked? ==> Calls(env, n) != []
    ensures Unsettled(exit, Rest(env, cap, exit, n))
    ensures Rest(env, cap, exit, n) != [] ==> Rest(env, cap, exit, n)[0].calls == Calls(env, n)
  {
    hide Executor.RoundOutcomes, Executor.Verdicts;
    if exit.Panicked? {
      var results := Outcomes(env, cap, n);
      var k := Recorded(Executor.Verdicts(results));
      AnswersInOrderOf(Calls(env, n), results[..k]);
    }
  }

  /** Whatever the model, the executor and the users do, and whichever way the turn ends: a
      history with every call answered stays so. A history with every call answered at once stays
      so exactly if the turn does not end in loop detection, where the answers come late. */
  lemma TurnKeepsPairing(env: Env, cap: int, max: int, base: Messages, strict: bool)
    requires Sound(base, strict) && (strict ==> IdsGiven(env))
    ensures var after := After(env, cap, max, base);
            && Resolved(after)
            && (strict ==> (Contiguous(after) <==> !ExitAt(env, max, Stop(env, cap, max, 0)).LoopDetected?))
  {
    hide Resolved, Contiguous, AsUsers, Stop, Padding.PadsFor;
    var n := Stop(env, cap, max, 0);
    var exit := ExitAt(env, max, n);
    var log, rest := Log(env, cap, n), Rest(env, cap, exit, n);
    var text, left := ClosingText(env, exit, n), Leftover(env, exit, n);
    LogSound(env, cap, n, strict);
    RestUnsettled(env, cap, exit, n);
    LeftoverUsers(env, exit, n);
    assert rest != [] ==> rest[0].calls == Calls(env, n);
    TurnEnd(base, log, rest, exit, text, left, strict);
  }

  lemma LeftoverUsers(env: Env, exit: Exit, n: nat)
    ensures AllUsers(Leftover(env, exit, n))
  {
    AsUsersAreUsers(env.arrivals(n));
    AsUsersAreUsers(env.late);
  }

  // ----- steering, loop detection -----

  lemma {:induction false} StopGoes(env: Env, cap: int, max: int, i: nat)
    requires AllGo(env, cap, i)
    ensures AllGo(env, cap, Stop(env, cap, max, i))
    decreases max - i
  {
    hide Goes;
    if i < max && Goes(env, cap, i) {
      StopGoes(env, cap, max, i + 1);
    }
  }

  lemma {:induction false} NoTripleYet(env: Env, cap: int, n: nat)
    requires AllGo(env, cap, n)
    ensures !Detector.HasTriple(CallsSoFar(env, n))
  {
    if n > 0 {
      NoTripleYet(env, cap, n - 1);
      var before := CallsSoFar(env, n - 1);
      if Calls(env, n - 1) == [] {
        assert CallsSoFar(env, n) == before + Detector.Sigs([]);
        assert before + [] == before;
      } else {
        assert Goes(env, cap, n - 1);
      }
    }
  }

  lemma AppendedTraffic(env: Env, cap: int, base: Messages, exit: Exit, n: nat)
    requires exit.LoopDetected? || exit.Panicked? ==> Calls(env, n) != []
    ensures var body := Body(env, cap, exit, n);
            var all := body + Padding.PadsFor(base + body) + Leftover(env, exit, n);
            && Users(all) == Arrived(env, n) + Leftover(env, exit, n)
            && Detector.CallsMade(all) ==
               CallsSoFar(env, n) + if Rest(env, cap, exit, n) == [] then [] else Detector.Sigs(Calls(env, n))
  {
    var log, rest := Log(env, cap, n), Rest(env, cap, exit, n);
    var text, left := ClosingText(env, exit, n), Leftover(env, exit, n);
    LogTraffic(env, cap, n);
    RestUnsettled(env, cap, exit, n);
    LeftoverUsers(env, exit, n);
    assert rest != [] ==> rest[0].calls == Calls(env, n);
    var pads := Padding.PadsFor(base + Body(env, cap, exit, n));
    Padding.PadsAreTools(base + Body(env, cap, exit, n));
    EndUsers(log, rest, exit, text, pads, left);
    EndCallsMade(log, rest, exit, text, pads, left);
  }

  /** Every steering message that arrives during the turn is appended exactly once and in order of
      arrival, on every way out; apart from them a turn appends no user message. */
  lemma SteersConserved(env: Env, cap: int, max: int, base: Messages)
    ensures var n := Stop(env, cap, max, 0);
            Users(Appended(env, cap, max, base)) == Arrived(env, n) + Leftover(env, ExitAt(env, max, n), n)
  {
    var n := Stop(env, cap, max, 0);
    AppendedTraffic(env, cap, base, ExitAt(env, max, n), n);
  }

  /** A turn ends in loop detection if and only if the calls it recorded hold three equal ones
      in a row. */
  lemma LoopDetectedIff(env: Env, cap: int, max: int, base: Messages)
    ensures ExitAt(env, max, Stop(env, cap, max, 0)).LoopDetected? <==>
            Detector.HasTriple(Detector.CallsMade(Appended(env, cap, max, base)))
  {
    hide Goes, CallsSoFar, Stop, Said, Users, Arrived, Body, Leftover, Padding.PadsFor;
    hide Detector.HasTriple, Detector.Sigs, Detector.CallsMade;
    var n := Stop(env, cap, max, 0);
    var exit := ExitAt(env, max, n);
    AppendedTraffic(env, cap, base, exit, n);
    StopGoes(env, cap, max, 0);
    NoTripleYet(env, cap, n);
    NextCalls(env, n);
  }

  lemma NextCalls(env: Env, n: nat)
    ensures CallsSoFar(env, n + 1) == CallsSoFar(env, n) + Detector.Sigs(Calls(env, n))
    ensures CallsSoFar(env, n) + [] == CallsSoFar(env, n)
  {
  }

  // ----- crashes -----

  lemma {:induction false} RecordedAll(vs: seq<Executor.Verdict>)
    ensures Recorded(vs) == |vs| <==> forall k :: 0 <= k < |vs| ==> !vs[k].Crash?
  {
    if vs != [] && !vs[0].Crash? {
      RecordedAll(vs[1..]);
      assert forall k :: 0 < k < |vs| ==> vs[k] == vs[1..][k - 1];
    }
  }

  /** The iteration at which the loop ends asks for tools, does not repeat itself three times,
      and one of the calls that run comes back without an error but reads as a failure. */
  predicate CrashesTurn(env: Env, cap: int, max: int) {
    var n := Stop(env, cap, max, 0);
    var calls := Calls(env, n);
    && n < max && calls != [] && !Detector.HasTriple(CallsSoFar(env, n + 1))
    && exists k :: 0 <= k < Executor.Executed(|calls|, cap) && Executor.CrashesOn(calls[k], env.exec(n))
  }

  /** A turn is thrown off exactly by such a response. */
  lemma PanicsIff(env: Env, cap: int, max: int)
    ensures ExitAt(env, max, Stop(env, cap, max, 0)).Panicked? <==> CrashesTurn(env, cap, max)
  {
    hide Executor.CrashesOn, Executor.RoundOutcomes, Detector.HasTriple, CallsSoFar, Recorded;
    var n := Stop(env, cap, max, 0);
    var vs := Verdicts(env, cap, n);
    assert vs == Executor.Verdicts(Executor.RoundOutcomes(Calls(env, n), cap, env.exec(n)));
    assert |vs| == |Calls(env, n)|;
    hide Executor.Verdicts;
    RecordedAll(vs);
    Executor.RoundCrashesIff(Calls(env, n), cap, env.exec(n));
    if k :| 0 <= k < |vs| && vs[k].Crash? {
      assert exists j :: 0 <= j < Executor.Executed(|vs|, cap) && Executor.CrashesOn(Calls(env, n)[j], env.exec(n));
    }
  }

  /** An environment in which the model always makes the same calls, and every call of the
      iteration gets the given responses. */
  function Stubborn(calls: seq<ToolCall>, rs: seq<Executor.Response>): Env {
    Env([], (i: nat) => Replied("", calls), (i: nat) => rs, (i: nat) => [], None, [], (t: string) => None)
  }

  lemma SingleCall(env: Env, call: ToolCall)
    requires Calls(env, 0) == [call]
    ensures |CallsSoFar(env, 1)| == 1
  {
    assert CallsSoFar(env, 1) == CallsSoFar(env, 0) + Detector.Sigs([call]);
    assert Detector.Sigs([call]) == [Detector.Sig(call.name, call.args)] + Detector.Sigs([call][1..]);
  }

  /** If the first call of the first reply comes back that way, the loop does not go on. */
  lemma CrashAtOnce(env: Env, cap: int)
    requires Calls(env, 0) != [] && Executor.CrashesOn(Calls(env, 0)[0], env.exec(0))
    ensures !Goes(env, cap, 0)
  {
    var vs := Verdicts(env, cap, 0);
    assert vs == Executor.Verdicts(Executor.RoundOutcomes(Calls(env, 0), cap, env.exec(0)));
    assert |vs| == |Calls(env, 0)|;
    hide Executor.CrashesOn, Executor.RoundOutcomes, Executor.Verdicts, Recorded, Detector.HasTriple;
    Executor.VerdictInRound(Calls(env, 0), cap, env.exec(0), 0);
    RecordedAll(vs);
  }

  /** Under every cap and limit a tool that prints "HTTP 404" throws the turn off. */
  lemma CrashHappens(call: ToolCall, cap: int, max: int)
    requires max > 0
    ensures var r := Executor.Response(call.id, Some(Executor.ToolOutput(false, "", ["HTTP 404"])), None);
            ExitAt(Stubborn([call], [r]), max, Stop(Stubborn([call], [r]), cap, max, 0)).Panicked?
  {
    var r := Executor.Response(call.id, Some(Executor.ToolOutput(false, "", ["HTTP 404"])), None);
    var env := Stubborn([call], [r]);
    Executor.PrintedStatusCrashes(call);
    hide Executor.CrashesOn, Executor.RoundOutcomes, Executor.Verdicts, Recorded;
    assert Calls(env, 0) == [call] && Executor.CrashesOn(Calls(env, 0)[0], env.exec(0));
    SingleCall(env, call);
    CrashAtOnce(env, cap);
    PanicsIff(env, cap, max);
  }

  lemma SigsOfThree(call: ToolCall)
    ensures var sig := Detector.Sig(call.name, call.args); Detector.Sigs([call, call, call]) == [sig, sig, sig]
  {
    var sig := Detector.Sig(call.name, call.args);
    assert [call, call, call][1..] == [call, call] && [call, call][1..] == [call] && [call][1..] == [];
    assert Detector.Sigs([call]) == [sig] + Detector.Sigs([]);
    assert Detector.Sigs([call, call]) == [sig] + Detector.Sigs([call]);
    assert Detector.Sigs([call, call, call]) == [sig] + Detector.Sigs([call, call]);
  }

  lemma IdsOfThree(call: ToolCall)
    ensures Ids([call, call, call]) == {call.id}
  {
    assert [call, call, call][1..] == [call, call] && [call, call][1..] == [call] && [call][1..] == [];
    assert Ids([call]) == {call.id} + Ids([]);
    assert Ids([call, call]) == {call.id} + Ids([call]);
    assert Ids([call, call, call]) == {call.id} + Ids([call, call]);
  }

  /** Three equal calls in one reply end a turn in loop detection, under every cap and limit. */
  lemma LoopDetectionHappens(call: ToolCall, cap: int, max: int)
    requires max > 0
    ensures var env := Stubborn([call, call, call], []);
            && Stop(env, cap, max, 0) == 0 && ExitAt(env, max, 0).LoopDetected?
            && (call.id != "" ==> IdsGiven(env))
  {
    var env := Stubborn([call, call, call], []);
    SigsOfThree(call);
    IdsOfThree(call);
    hide Detector.Sigs, Ids;
    assert Chain(SigsOf(env), 0) == [];
    assert CallsSoFar(env, 1) == CallsSoFar(env, 0) + Detector.Sigs([call, call, call]);
    assert Detector.TripleAt(CallsSoFar(env, 1), 2);
    assert !Goes(env, cap, 0);
  }

  // ----- prompts -----

  /** Every prompt of the loop shows a history as sound as the one the turn started from. */
  lemma PromptsSound(env: Env, cap: int, base: Messages, i: nat, strict: bool)
    requires Sound(base, strict) && (strict ==> IdsGiven(env))
    ensures Sound(PromptAt(env, cap, base, i).history, strict)
  {
    var tools := PromptAt(env, cap, base, i).tools;
    LogSound(env, cap, i, strict);
    Framed(SystemMessages(env.system), base, Log(env, cap, i), if tools then [] else [ToolsOff()], strict);
  }

  /** What the closing model call is shown. */
  function FinalPrompt(env: Env, cap: int, base: Messages, exit: Exit, n: nat): Prompt {
    Prompt(SystemMessages(env.system) + (base + (Log(env, cap, n) + Rest(env, cap, exit, n))) + [Nudge()], false)
  }

  /** The closing call after the iteration cap is shown a sound history; after loop detection it
      is shown one with an open question. */
  lemma FinalPromptSound(env: Env, cap: int, base: Messages, exit: Exit, n: nat)
    requires Delivers(exit) && Contiguous(base) && IdsGiven(env)
    requires exit.LoopDetected? ==> Calls(env, n) != []
    ensures Contiguous(FinalPrompt(env, cap, base, exit, n).history) <==> exit.IterationCap?
  {
    var system, log, rest := SystemMessages(env.system), Log(env, cap, n), Rest(env, cap, exit, n);
    LogSound(env, cap, n, true);
    RestUnsettled(env, cap, exit, n);
    if exit.IterationCap? {
      assert log + rest == log;
      FramedContiguous(system, base, log, [Nudge()]);
    } else {
      TornPrompt(system, base, log, rest, [Nudge()]);
    }
  }

  lemma TornPrompt(system: Messages, base: Messages, log: Messages, rest: Messages, extra: Messages)
    requires Unsettled(LoopDetected, rest)
    ensures !Contiguous(system + (base + (log + rest)) + extra)
  {
    TornEnd(system + base + log, rest, extra);
    assert system + base + log + rest + extra == system + (base + (log + rest)) + extra;
  }

  predicate LastThree(rounds: seq<bool>) {
    |rounds| >= 3 && rounds[|rounds| - 1] && rounds[|rounds| - 2] && rounds[|rounds| - 3]
  }

  lemma {:induction false} TrailingThree(rounds: seq<bool>)
    ensures Trailing(rounds) >= 3 <==> LastThree(rounds)
  {
    if rounds != [] {
      var r := rounds[..|rounds| - 1];
      if r != [] {
        var q := r[..|r| - 1];
        assert Trailing(r) == if r[|r| - 1] then Trailing(q) + 1 else 0;
      }
    }
  }

  /** Tools are withheld exactly if the last three rounds executed have failed altogether. */
  lemma ToolsWithheld(env: Env, cap: int, i: nat)
    ensures ToolsOffered(Failures(env, cap, i)) <==> !LastThree(Failures(env, cap, i))
  {
    TrailingThree(Failures(env, cap, i));
  }

  /** A round that overflows the parallel cap brings the tools back, whatever failed in it. */
  lemma OverflowBringsToolsBack(env: Env, cap: int, i: nat)
    requires 0 < cap < |Calls(env, i)|
    ensures ToolsOffered(Failures(env, cap, i + 1))
  {
    Executor.OverflowNeverAllFailed(Calls(env, i), cap, env.exec(i));
  }

  // ----- counting, delivery -----

  /** The texts shown to the user, up to the closing one of a turn that was cut off. */
  function ShownTexts(env: Env, exit: Exit, n: nat): seq<string> {
    Texts(env, if exit.IterationCap? || exit.ModelFailed? || exit.EmptyReply? then n else n + 1)
  }

  /** The texts that make up the reply. */
  function ReplyTexts(env: Env, exit: Exit, n: nat): seq<string> {
    ShownTexts(env, exit, n) + if Delivers(exit) then [FinalText(env)] else []
  }

  /** What the user is sent on a splitting channel is what was shown during the turn, text by
      text: the split marker that joins the reply never leaks and never merges two texts. */
  lemma ReplyBubbles(env: Env, exit: Exit, n: nat)
    ensures Outbound.Bubbles(Outbound.Joined(ReplyTexts(env, exit, n))) == Outbound.FlatBubbles(ReplyTexts(env, exit, n))
  {
    Outbound.SplitOfJoin(ReplyTexts(env, exit, n));
  }

  // ----- whole sessions -----

  datatype Input = Input(env: Env, cap: int, max: int, user: Message)

  /** What a turn starts from: the history with the user's message, compacted. */
  function Base(ms: Messages, t: Input): Messages {
    Compaction.Compacted(ms + [t.user], t.env.chat)
  }

  function Turned(ms: Messages, t: Input): Messages {
    After(t.env, t.cap, t.max, Base(ms, t))
  }

  predicate LoopEnds(t: Input) {
    ExitAt(t.env, t.max, Stop(t.env, t.cap, t.max, 0)).LoopDetected?
  }

  function SessionAfter(turns: seq<Input>): Messages {
    if turns == [] then [] else Turned(SessionAfter(turns[..|turns| - 1]), turns[|turns| - 1])
  }

  lemma TurnedSound(ms: Messages, t: Input, strict: bool)
    requires t.user.role.User? && Sound(ms, strict) && (strict ==> IdsGiven(t.env) && !LoopEnds(t))
    ensures Sound(Turned(ms, t), strict)
  {
    AppendUsers(ms, [t.user], strict);
    Compaction.CompactionKeepsPairing(ms + [t.user], t.env.chat);
    TurnKeepsPairing(t.env, t.cap, t.max, Base(ms, t), strict);
  }

  /** After any number of turns every tool call of the session has been answered. */
  lemma {:induction false} SessionsResolved(turns: seq<Input>)
    requires forall t :: t in turns ==> t.user.role.User?
    ensures Resolved(SessionAfter(turns))
  {
    if turns != [] {
      SessionsResolved(turns[..|turns| - 1]);
      TurnedSound(SessionAfter(turns[..|turns| - 1]), turns[|turns| - 1], false);
    }
  }

  /** As long as no turn ended in loop detection, it has been answered at once. */
  lemma {:induction false} SessionsContiguous(turns: seq<Input>)
    requires forall t :: t in turns ==> t.user.role.User? && IdsGiven(t.env) && !LoopEnds(t)
    ensures Sound(SessionAfter(turns), true)
  {
    if turns != [] {
      SessionsContiguous(turns[..|turns| - 1]);
      TurnedSound(SessionAfter(turns[..|turns| - 1]), turns[|turns| - 1], true);
    } else {
      PlainPiece([], true);
    }
  }
}
