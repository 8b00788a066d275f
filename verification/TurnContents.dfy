/** What a turn writes and shows, message by message (internal/agent/loop.go), told from the model's
    replies and the executor's responses alone. */
module TurnContents {
  import opened History
  import opened Options
  import opened Rounds
  import opened TurnSpec
  import Detector
  import Executor
  import Padding
  import Subagent
  import Text
  import Turn

  // ----- the text of a tool message -----

  /** The last response for the id stands at position `j`. */
  predicate LastAt(rs: seq<Executor.Response>, id: string, j: int) {
    0 <= j < |rs| && rs[j].toolUseId == id && forall i :: j < i < |rs| ==> rs[i].toolUseId != id
  }

  /** `text` is `raw` without the sandbox marker in front, if it has one. */
  predicate Unmarked(text: string, raw: string) {
    var marker := "\U{1F}FC_META:sandbox\U{1F}\n";
    if marker <= raw then raw == marker + text else text == raw
  }

  /** What a response says: its non-empty blocks on lines of their own, or, if its result is an
      error, the message of that error and the hint. */
  function Says(r: Executor.Response): string {
    if r.result.None? then ""
    else if r.result.value.isError then
      var o := r.result.value;
      (if o.error != "" || o.content == [] then o.error else o.content[0])
      + "\n" + "[Analyze the error above and try a different approach.]"
    else Text.Join(Executor.NonEmpty(r.result.value.content), "\n")
  }

  /** The text is the report of the last response for the id, or the notice that there is none. */
  ghost predicate Reports(text: string, id: string, rs: seq<Executor.Response>) {
    && (forall j :: LastAt(rs, id, j) ==> Unmarked(text, Says(rs[j])))
    && ((forall j :: !LastAt(rs, id, j)) ==> text == Executor.MissingText())
  }

  /** Dropping empty blocks leaves all others, in order. */
  lemma {:induction false} NonEmptyMeaning(a: seq<string>, b: seq<string>)
    ensures "" !in a ==> Executor.NonEmpty(a) == a
    ensures Executor.NonEmpty(a + [""] + b) == Executor.NonEmpty(a + b)
  {
    if a == [] {
      assert a + [""] + b == [""] + b && a + b == b && ([""] + b)[1..] == b;
    } else {
      NonEmptyMeaning(a[1..], b);
      assert (a + [""] + b)[1..] == a[1..] + [""] + b && (a + b)[1..] == a[1..] + b;
      assert [a[0]] + a[1..] == a;
      assert "" !in a ==> "" !in a[1..];
    }
  }

  lemma {:induction false} LastResponseIs(rs: seq<Executor.Response>, id: string, j: int)
    requires LastAt(rs, id, j)
    ensures Executor.LastResponse(rs, id) == Some(rs[j])
  {
    var n := |rs| - 1;
    if rs[n].toolUseId != id {
      assert forall i :: j < i < n ==> rs[..n][i] == rs[i];
      LastResponseIs(rs[..n], id, j);
    } else {
      assert j == n;
    }
  }

  lemma {:induction false} LastResponseFound(rs: seq<Executor.Response>, id: string) returns (j: int)
    ensures Executor.LastResponse(rs, id).Some? ==> LastAt(rs, id, j)
  {
    j := 0;
    if rs != [] {
      var n := |rs| - 1;
      if rs[n].toolUseId == id {
        j := n;
      } else {
        j := LastResponseFound(rs[..n], id);
        assert LastAt(rs[..n], id, j) ==> forall i :: j < i < n ==> rs[..n][i] == rs[i];
      }
    }
  }

  lemma Stripped(raw: string)
    ensures Unmarked(Executor.ToolText(raw), raw)
  {
    var marker := Executor.MetaSandboxPrefix();
    if marker <= raw {
      assert raw == raw[..|marker|] + raw[|marker|..];
    }
  }

  lemma NoticeUnmarked()
    ensures Executor.ToolText(Executor.MissingText()) == Executor.MissingText()
    ensures Executor.ToolText(Executor.DeferredText()) == Executor.DeferredText()
  {
    var a, b, m := Executor.MissingText(), Executor.DeferredText(), Executor.MetaSandboxPrefix();
    assert a[0] == 'n' && b[0] == 'D' && m[0] == '\U{1F}';
  }

  lemma OutcomeSays(call: ToolCall, r: Executor.Response)
    ensures Executor.OutcomeOf(call, Some(r)).text == Says(r)
  {
    hide Text.Join, Executor.NonEmpty;
  }

  /** The outcome of a call that runs, as it is recorded. */
  lemma OutcomeReports(call: ToolCall, rs: seq<Executor.Response>)
    ensures var o := Executor.OutcomeOf(call, Executor.LastResponse(rs, call.id));
            o.name == call.name && Reports(Executor.ToolText(o.text), call.id, rs)
  {
    hide Says, Unmarked, Executor.ToolText, Executor.LastResponse, Executor.AnalyzeHint;
    var found := Executor.LastResponse(rs, call.id);
    var text := Executor.ToolText(Executor.OutcomeOf(call, found).text);
    forall j | LastAt(rs, call.id, j) ensures Unmarked(text, Says(rs[j])) {
      LastResponseIs(rs, call.id, j);
      OutcomeSays(call, rs[j]);
      Stripped(Says(rs[j]));
    }
    if forall j :: !LastAt(rs, call.id, j) {
      var j := LastResponseFound(rs, call.id);
      NoticeUnmarked();
    }
  }

  // ----- the messages of a round -----

  /** The message for call `k` of a round under the cap. */
  ghost predicate Answer(m: Message, calls: seq<ToolCall>, k: nat, cap: int, rs: seq<Executor.Response>)
    requires k < |calls|
  {
    && m == Message(Tool, m.content, [], calls[k].id, calls[k].name, false)
    && if 0 < cap <= k then m.content == Executor.DeferredText() else Reports(m.content, calls[k].id, rs)
  }

  lemma {:induction false} AnswersAt(calls: seq<ToolCall>, results: seq<Executor.Outcome>, k: nat)
    requires k < |results| <= |calls|
    ensures var o := results[k];
            Answers(calls, results)[k] == Message(Tool, Executor.ToolText(o.text), [], calls[k].id, o.name, false)
  {
    if k > 0 {
      AnswersAt(calls[1..], results[1..], k - 1);
    }
  }

  lemma RoundAt(calls: seq<ToolCall>, cap: int, rs: seq<Executor.Response>, k: nat)
    requires k < |calls|
    ensures var o := Executor.RoundOutcomes(calls, cap, rs)[k];
            && o.name == calls[k].name
            && if 0 < cap <= k then o.text == Executor.DeferredText()
               else o == Executor.OutcomeOf(calls[k], Executor.LastResponse(rs, calls[k].id))
  {
    hide Executor.OutcomeOf, Executor.LastResponse, Executor.DeferredText;
    var e := Executor.Executed(|calls|, cap);
    Executor.RoundAligned(calls, cap, rs);
    if k < e {
      Executor.OutcomesAt(calls[..e], rs, k);
    } else {
      Executor.DeferralsAligned(calls[e..]);
    }
  }

  /** Each recorded message holds what the executor said about its call. */
  lemma AnswerIs(calls: seq<ToolCall>, cap: int, rs: seq<Executor.Response>, n: nat, k: nat)
    requires k < n <= |calls|
    ensures Answer(Answers(calls, Executor.RoundOutcomes(calls, cap, rs)[..n])[k], calls, k, cap, rs)
  {
    hide Executor.RoundOutcomes, Executor.ToolText, Executor.OutcomeOf, Executor.LastResponse, Reports;
    hide Executor.DeferredText, Executor.MissingText;
    var results := Executor.RoundOutcomes(calls, cap, rs);
    RoundAt(calls, cap, rs, k);
    AnswersAt(calls, results[..n], k);
    NoticeUnmarked();
    OutcomeReports(calls[k], rs);
  }

  /** A question, `count` answers to it, and the steering messages. */
  ghost predicate Round(ms: Messages, said: string, calls: seq<ToolCall>, count: nat, cap: int,
                        rs: seq<Executor.Response>, arrivals: seq<string>)
    requires count <= |calls|
  {
    && |ms| == 1 + count + |arrivals|
    && ms[0] == Message(Assistant, said, calls, "", "", false)
    && (forall k :: 0 <= k < count ==> Answer(ms[1..][k], calls, k, cap, rs))
    && (forall j :: 0 <= j < |arrivals| ==> ms[1 + count..][j] == Message(User, arrivals[j], [], "", "", false))
  }

  lemma {:induction false} AsUsersAt(texts: seq<string>, j: nat)
    requires j < |texts|
    ensures AsUsers(texts)[j] == Message(User, texts[j], [], "", "", false)
  {
    if j < |texts| - 1 {
      AsUsersAt(texts[..|texts| - 1], j);
    }
  }

  lemma RoundIs(said: string, calls: seq<ToolCall>, count: nat, cap: int, rs: seq<Executor.Response>, arrivals: seq<string>)
    requires count <= |calls|
    ensures Round([AssistantMessage(said, calls)] + Answers(calls, Executor.RoundOutcomes(calls, cap, rs)[..count])
                  + AsUsers(arrivals), said, calls, count, cap, rs, arrivals)
  {
    hide Answer, Executor.RoundOutcomes, AsUsers, Answers;
    var answers := Answers(calls, Executor.RoundOutcomes(calls, cap, rs)[..count]);
    var ms := [AssistantMessage(said, calls)] + answers + AsUsers(arrivals);
    assert ms[1..] == answers + AsUsers(arrivals) && ms[1 + count..] == AsUsers(arrivals);
    forall k | 0 <= k < count ensures Answer(ms[1..][k], calls, k, cap, rs) {
      AnswerIs(calls, cap, rs, count, k);
    }
    forall j | 0 <= j < |arrivals| ensures ms[1 + count..][j] == Message(User, arrivals[j], [], "", "", false) {
      AsUsersAt(arrivals, j);
    }
  }

  // ----- where the messages stand -----

  lemma {:induction false} ChainAt<T>(f: nat -> seq<T>, n: nat, i: nat)
    requires i < n
    ensures |Chain(f, i)| + |f(i)| == |Chain(f, i + 1)| <= |Chain(f, n)|
    ensures Chain(f, n)[|Chain(f, i)|..|Chain(f, i + 1)|] == f(i)
  {
    if i < n - 1 {
      ChainAt(f, n - 1, i);
      var c := Chain(f, n - 1);
      assert Chain(f, n) == c + f(n - 1);
      assert (c + f(n - 1))[|Chain(f, i)|..|Chain(f, i + 1)|] == c[|Chain(f, i)|..|Chain(f, i + 1)|];
    }
  }

  lemma {:induction false} ChainPrefix<T>(f: nat -> seq<T>, n: nat, i: nat)
    requires i <= n
    ensures Chain(f, i) <= Chain(f, n)
  {
    if i < n {
      ChainPrefix(f, n - 1, i);
    }
  }

  /** How many messages the first `i` iterations add if they go on: the reply, an answer for each
      call, and the steering messages. */
  function Position(env: Env, i: nat): nat {
    if i == 0 then 0 else Position(env, i - 1) + 1 + |Calls(env, i - 1)| + |env.arrivals(i - 1)|
  }

  lemma {:induction false} LogLength(env: Env, cap: int, i: nat)
    ensures |Log(env, cap, i)| == Position(env, i)
  {
    hide Executor.RoundOutcomes;
    if i > 0 {
      LogLength(env, cap, i - 1);
      assert |StepLog(env, cap, i - 1)| == 1 + |Calls(env, i - 1)| + |env.arrivals(i - 1)|;
    }
  }

  lemma LogAt(env: Env, cap: int, n: nat, i: nat)
    requires i < n
    ensures Position(env, i) <= Position(env, i + 1) <= |Log(env, cap, n)|
    ensures Log(env, cap, n)[Position(env, i)..Position(env, i + 1)] == StepLog(env, cap, i)
  {
    hide StepLog;
    ChainAt(Steps(env, cap), n, i);
    LogLength(env, cap, i);
    LogLength(env, cap, i + 1);
  }

  lemma StepIs(env: Env, cap: int, i: nat)
    requires env.llm(i).Replied?
    ensures var r := env.llm(i);
            Round(StepLog(env, cap, i), r.content, r.calls, |r.calls|, cap, env.exec(i), env.arrivals(i))
  {
    hide Executor.RoundOutcomes, Answers, AsUsers, Round;
    var calls := env.llm(i).calls;
    var results := Executor.RoundOutcomes(calls, cap, env.exec(i));
    assert results[..|calls|] == results;
    RoundIs(env.llm(i).content, calls, |calls|, cap, env.exec(i), env.arrivals(i));
  }

  // ----- when a turn goes on, and how it ends -----

  /** All calls of the first `n` replies. */
  function Made(env: Env, n: nat): seq<ToolCall> {
    if n == 0 then []
    else Made(env, n - 1) + match env.llm(n - 1) case Failed => [] case Replied(_, calls) => calls
  }

  lemma {:induction false} MadeIs(env: Env, n: nat)
    ensures CallsSoFar(env, n) == Detector.Sigs(Made(env, n))
  {
    if n > 0 {
      MadeIs(env, n - 1);
      Detector.SigsConcat(Made(env, n - 1), Calls(env, n - 1));
    }
  }

  /** The calls that run of a reply with these calls. */
  predicate Runs(k: nat, cap: int) {
    cap <= 0 || k < cap
  }

  /** The first `count` results are recorded, and the next one crashes the turn. */
  predicate CrashesAt(calls: seq<ToolCall>, cap: int, rs: seq<Executor.Response>, count: nat) {
    && count < |calls| && Runs(count, cap) && Executor.CrashesOn(calls[count], rs)
    && forall k :: 0 <= k < count ==> !Executor.CrashesOn(calls[k], rs)
  }

  predicate CrashFree(calls: seq<ToolCall>, cap: int, rs: seq<Executor.Response>) {
    forall k :: 0 <= k < |calls| && Runs(k, cap) ==> !Executor.CrashesOn(calls[k], rs)
  }

  lemma RunsExecuted(n: nat, cap: int, k: nat)
    requires k < n
    ensures Runs(k, cap) <==> k < Executor.Executed(n, cap)
  {
  }

  lemma {:induction false} RecordedMeaning(vs: seq<Executor.Verdict>)
    ensures forall k :: 0 <= k < Recorded(vs) ==> !vs[k].Crash?
    ensures Recorded(vs) < |vs| ==> vs[Recorded(vs)].Crash?
  {
    if vs != [] && !vs[0].Crash? {
      RecordedMeaning(vs[1..]);
      assert forall k :: 0 < k < |vs| ==> vs[k] == vs[1..][k - 1];
    }
  }

  lemma VerdictsAt(calls: seq<ToolCall>, cap: int, rs: seq<Executor.Response>, k: nat)
    requires k < |calls|
    ensures Executor.Verdicts(Executor.RoundOutcomes(calls, cap, rs))[k].Crash? <==>
            Runs(k, cap) && Executor.CrashesOn(calls[k], rs)
  {
    hide Executor.CrashesOn, Executor.RoundOutcomes, Executor.Verdicts;
    Executor.VerdictInRound(calls, cap, rs, k);
    RunsExecuted(|calls|, cap, k);
  }

  /** How many results of a round are recorded. */
  lemma RecordedInRound(calls: seq<ToolCall>, cap: int, rs: seq<Executor.Response>)
    ensures var n := Recorded(Executor.Verdicts(Executor.RoundOutcomes(calls, cap, rs)));
            if n == |calls| then CrashFree(calls, cap, rs) else CrashesAt(calls, cap, rs, n)
  {
    hide Executor.CrashesOn, Executor.RoundOutcomes, Executor.Verdicts, Recorded;
    var vs := Executor.Verdicts(Executor.RoundOutcomes(calls, cap, rs));
    assert |vs| == |calls|;
    var n := Recorded(vs);
    RecordedMeaning(vs);
    forall k | 0 <= k < |calls| ensures vs[k].Crash? <==> Runs(k, cap) && Executor.CrashesOn(calls[k], rs) {
      VerdictsAt(calls, cap, rs, k);
    }
  }

  /** The turn goes on behind iteration `i`: a round of calls ran to its end, or something was said
      while a steering message waited. */
  predicate GoesOn(env: Env, cap: int, i: nat) {
    && env.llm(i).Replied?
    && var r := env.llm(i);
       if r.calls == [] then Text.TrimSpace(r.content) != "" && env.arrivals(i) != []
       else !Detector.ThreeAlike(Made(env, i + 1)) && CrashFree(r.calls, cap, env.exec(i))
  }

  lemma GoesIs(env: Env, cap: int, i: nat)
    ensures Goes(env, cap, i) <==> GoesOn(env, cap, i)
  {
    hide Executor.CrashesOn, Executor.RoundOutcomes, Executor.Verdicts, CrashFree, CrashesAt, Recorded, Text.TrimSpace;
    hide CallsSoFar, Made, Detector.HasTriple, Detector.ThreeAlike;
    MadeIs(env, i + 1);
    Detector.TripleMeaning(Made(env, i + 1));
    BlankSaid();
    RecordedInRound(Calls(env, i), cap, env.exec(i));
    CrashesNotFree(Calls(env, i), cap, env.exec(i));
  }

  lemma BlankSaid()
    ensures Text.TrimSpace("") == ""
  {
    Text.TrimSpaceBlank("");
  }

  lemma CrashesNotFree(calls: seq<ToolCall>, cap: int, rs: seq<Executor.Response>)
    ensures forall n: nat :: CrashesAt(calls, cap, rs, n) ==> !CrashFree(calls, cap, rs)
  {
    hide Executor.CrashesOn;
  }

  /** How iteration `n`, the first that does not go on, ends the turn. */
  predicate EndsBy(env: Env, cap: int, max: int, n: nat, exit: Exit) {
    match exit
    case IterationCap => n >= max
    case ModelFailed => n < max && env.llm(n).Failed?
    case EmptyReply =>
      n < max && env.llm(n).Replied? && env.llm(n).calls == [] && Text.TrimSpace(env.llm(n).content) == ""
    case Answered =>
      && n < max && env.llm(n).Replied? && env.llm(n).calls == [] && Text.TrimSpace(env.llm(n).content) != ""
      && env.arrivals(n) == []
    case LoopDetected => n < max && env.llm(n).Replied? && env.llm(n).calls != [] && Detector.ThreeAlike(Made(env, n + 1))
    case Panicked =>
      && n < max && env.llm(n).Replied? && env.llm(n).calls != [] && !Detector.ThreeAlike(Made(env, n + 1))
      && !CrashFree(env.llm(n).calls, cap, env.exec(n))
  }

  lemma {:induction false} AllGoAt(env: Env, cap: int, n: nat, i: nat)
    requires AllGo(env, cap, n) && i < n
    ensures Goes(env, cap, i)
  {
    hide Goes;
    if i < n - 1 {
      AllGoAt(env, cap, n - 1, i);
    }
  }

  /** A turn runs its iterations as long as they go on, up to the limit, and ends by what the first
      one that does not go on has met. */
  lemma TurnEnds(env: Env, cap: int, max: int)
    ensures var n := Stop(env, cap, max, 0);
            && (forall i: nat :: i < n ==> GoesOn(env, cap, i)) && (n < max ==> !GoesOn(env, cap, n))
            && n <= (if max > 0 then max else 0)
            && forall exit :: EndsBy(env, cap, max, n, exit) <==> exit == ExitAt(env, max, n)
  {
    hide Goes, Stop, Detector.HasTriple, CallsSoFar, Detector.ThreeAlike, Made, CrashFree, Text.TrimSpace;
    var n := Stop(env, cap, max, 0);
    StopGoes(env, cap, max, 0);
    forall i: nat | i < n ensures GoesOn(env, cap, i) {
      AllGoAt(env, cap, n, i);
      GoesIs(env, cap, i);
    }
    GoesIs(env, cap, n);
    MadeIs(env, n + 1);
    Detector.TripleMeaning(Made(env, n + 1));
    BlankSaid();
  }

  // ----- the session after the turn -----

  lemma AfterPrefix(env: Env, cap: int, max: int, base: Messages)
    ensures var n := Stop(env, cap, max, 0);
            var after := After(env, cap, max, base);
            && |base| + Position(env, n) <= |after| && after[..|base|] == base
            && after[|base|..|base| + Position(env, n)] == Log(env, cap, n)
  {
    hide Stop, Log, Rest, ExitAt, Padding.PadsFor, Leftover, Closing;
    LogLength(env, cap, Stop(env, cap, max, 0));
  }

  /** What each iteration that goes on leaves in the session, at its place: the reply as the model
      gave it, the answers to its calls in order, each with what the executor said about it, and
      the steering messages. */
  lemma IterationIs(env: Env, cap: int, max: int, base: Messages, i: nat)
    requires i < Stop(env, cap, max, 0)
    ensures var after, r, p := After(env, cap, max, base), env.llm(i), |base| + Position(env, i);
            && r.Replied? && p + 1 + |r.calls| + |env.arrivals(i)| <= |after|
            && Round(after[p..p + 1 + |r.calls| + |env.arrivals(i)|], r.content, r.calls, |r.calls|, cap, env.exec(i),
                     env.arrivals(i))
  {
    hide Stop, After, Log, Round, GoesOn, StepLog, EndsBy;
    var n, after := Stop(env, cap, max, 0), After(env, cap, max, base);
    TurnEnds(env, cap, max);
    GoesReplied(env, cap, i);
    AfterPrefix(env, cap, max, base);
    LogAt(env, cap, n, i);
    StepIs(env, cap, i);
    NextPosition(env, i);
    hide Position;
    SliceOfSlice(after, |base|, Position(env, n), Position(env, i), Position(env, i + 1));
  }

  lemma NextPosition(env: Env, i: nat)
    requires env.llm(i).Replied?
    ensures Position(env, i + 1) == Position(env, i) + 1 + |env.llm(i).calls| + |env.arrivals(i)|
  {
  }

  lemma SliceOfSlice(ms: Messages, b: nat, n: nat, i: nat, j: nat)
    requires i <= j <= n && b + n <= |ms|
    ensures ms[b..b + n][i..j] == ms[b + i..b + j]
  {
    var part := ms[b..b + n];
    assert forall k :: i <= k < j ==> part[k] == ms[b + k];
    assert part[i..j] == ms[b + i..b + j];
  }

  lemma GoesReplied(env: Env, cap: int, i: nat)
    requires GoesOn(env, cap, i)
    ensures env.llm(i).Replied?
  {
  }

  /** The closing text of a turn that was cut off. */
  predicate Closes(m: Message, final: Option<string>) {
    && m == Message(Assistant, m.content, [], "", "", false) && m.content != ""
    && (final.Some? && final.value != "" ==> m.content == final.value)
  }

  /** What the last iteration leaves, before the pads. */
  ghost predicate Ending(ms: Messages, env: Env, cap: int, n: nat, exit: Exit) {
    match exit
    case Answered => env.llm(n).Replied? && ms == [Message(Assistant, env.llm(n).content, [], "", "", false)]
    case ModelFailed => ms == []
    case EmptyReply => ms == []
    case IterationCap => |ms| == 1 && Closes(ms[0], env.final)
    case LoopDetected =>
      && env.llm(n).Replied? && |ms| == 3
      && ms[0] == Message(Assistant, env.llm(n).content, env.llm(n).calls, "", "", false)
      && ms[1].role.System? && Closes(ms[2], env.final)
    case Panicked =>
      && env.llm(n).Replied?
      && exists count: nat ::
           && CrashesAt(env.llm(n).calls, cap, env.exec(n), count)
           && Round(ms, env.llm(n).content, env.llm(n).calls, count, cap, env.exec(n), [])
  }

  lemma FinalCloses(env: Env)
    ensures Closes(AssistantMessage(FinalText(env), []), env.final)
  {
  }

  lemma CrashEnding(env: Env, cap: int, n: nat)
    requires env.llm(n).Replied? && !CrashFree(env.llm(n).calls, cap, env.exec(n))
    ensures Ending(Rest(env, cap, Panicked, n) + [], env, cap, n, Panicked)
  {
    hide Executor.RoundOutcomes, Executor.Verdicts, Executor.CrashesOn, Round, Answers, CrashesAt, CrashFree, Recorded;
    var calls, rs := env.llm(n).calls, env.exec(n);
    var count := Recorded(Executor.Verdicts(Executor.RoundOutcomes(calls, cap, rs)));
    RecordedInRound(calls, cap, rs);
    RoundIs(env.llm(n).content, calls, count, cap, rs, []);
    var rest := Rest(env, cap, Panicked, n);
    assert rest + [] == rest && rest + AsUsers([]) == rest;
  }

  lemma EndingIs(env: Env, cap: int, max: int, n: nat)
    requires n == Stop(env, cap, max, 0)
    ensures var exit := ExitAt(env, max, n);
            Ending(Rest(env, cap, exit, n) + Closing(exit, ClosingText(env, exit, n)), env, cap, n, exit)
  {
    hide Stop, Text.TrimSpace, CrashFree, CallsSoFar, Detector.HasTriple, Detector.ThreeAlike, Goes, GoesOn;
    hide Closes, FinalText, Made;
    var exit := ExitAt(env, max, n);
    TurnEnds(env, cap, max);
    assert EndsBy(env, cap, max, n, exit);
    FinalCloses(env);
    if exit.Panicked? {
      CrashEnding(env, cap, n);
    } else {
      hide Round, CrashesAt;
      assert [] + [AssistantMessage(FinalText(env), [])] == [AssistantMessage(FinalText(env), [])];
    }
  }

  lemma Regroup(base: Messages, log: Messages, rest: Messages, close: Messages, pads: Messages, left: Messages)
    ensures var p, ending := |base| + |log|, rest + close;
            var all := base + (log + rest + close + pads + left);
            && p + |ending| <= |all| && all[p..p + |ending|] == ending
            && all[..p + |ending|] == base + (log + rest + close) && all[p + |ending|..] == pads + left
  {
    assert base + (log + rest + close + pads + left) == base + log + (rest + close) + (pads + left);
  }

  /** From position `p` the session holds `ending`, the pads, and the steering messages that nobody
      drained: those of the last iteration and those that came after the loop. */
  ghost predicate EndsWith(after: Messages, p: nat, ending: Messages, env: Env, n: nat, exit: Exit) {
    && p + |ending| <= |after| && after[p..p + |ending|] == ending
    && after[p + |ending|..] ==
       Padding.PadsFor(after[..p + |ending|])
       + AsUsers((if exit.IterationCap? then [] else env.arrivals(n)) + env.late)
  }

  /** Behind the iterations stands what the last one has left. */
  lemma TurnEndIs(env: Env, cap: int, max: int, base: Messages)
    ensures var n := Stop(env, cap, max, 0);
            var exit, after := ExitAt(env, max, n), After(env, cap, max, base);
            exists ending ::
              EndsWith(after, |base| + Position(env, n), ending, env, n, exit) && Ending(ending, env, cap, n, exit)
  {
    hide Stop, ExitAt, Padding.PadsFor, Ending, Log, Rest, Closing, ClosingText, AsUsers, Leftover, Position, EndsWith;
    var n := Stop(env, cap, max, 0);
    var exit := ExitAt(env, max, n);
    var ending := Rest(env, cap, exit, n) + Closing(exit, ClosingText(env, exit, n));
    EndingIs(env, cap, max, n);
    EndsThere(env, cap, max, base);
    assert EndsWith(After(env, cap, max, base), |base| + Position(env, n), ending, env, n, exit);
  }

  lemma EndsThere(env: Env, cap: int, max: int, base: Messages)
    ensures var n := Stop(env, cap, max, 0);
            var exit := ExitAt(env, max, n);
            EndsWith(After(env, cap, max, base), |base| + Position(env, n),
                     Rest(env, cap, exit, n) + Closing(exit, ClosingText(env, exit, n)), env, n, exit)
  {
    hide Stop, ExitAt, Padding.PadsFor, Log, Rest, Closing, ClosingText, AsUsers, Leftover, Position;
    var n := Stop(env, cap, max, 0);
    var exit := ExitAt(env, max, n);
    var log, rest, close := Log(env, cap, n), Rest(env, cap, exit, n), Closing(exit, ClosingText(env, exit, n));
    LogLength(env, cap, n);
    LeftoverIs(env, exit, n);
    Regroup(base, log, rest, close, Padding.PadsFor(base + (log + rest + close)), Leftover(env, exit, n));
  }

  lemma LeftoverIs(env: Env, exit: Exit, n: nat)
    ensures Leftover(env, exit, n) == AsUsers((if exit.IterationCap? then [] else env.arrivals(n)) + env.late)
  {
    if exit.IterationCap? {
      assert [] + env.late == env.late && [] + AsUsers(env.late) == AsUsers(env.late);
    } else {
      AsUsersConcat(env.arrivals(n), env.late);
    }
  }

  lemma {:induction false} AsUsersConcat(a: seq<string>, b: seq<string>)
    ensures AsUsers(a + b) == AsUsers(a) + AsUsers(b)
  {
    if b == [] {
      assert a + b == a && AsUsers(a) + [] == AsUsers(a);
    } else {
      AsUsersConcat(a, b[..|b| - 1]);
      assert (a + b)[..|a + b| - 1] == a + b[..|b| - 1];
    }
  }

  // ----- rounds that fail altogether -----

  /** The last response for the call brings an error, or text that reads as a failure; without a
      response the call has failed, too. */
  ghost predicate Unfit(call: ToolCall, rs: seq<Executor.Response>) {
    forall j :: LastAt(rs, call.id, j) ==> Fails(rs[j])
  }

  ghost predicate Fails(r: Executor.Response) {
    || r.err.Some? || (r.result.Some? && r.result.value.isError)
    || forall text :: Unmarked(text, Says(r)) ==> Executor.ReadsAsFailure(text)
  }

  lemma UnmarkedIsStripped(text: string, raw: string)
    ensures Unmarked(text, raw) <==> text == Executor.ToolText(raw)
  {
    var marker := Executor.MetaSandboxPrefix();
    if marker <= raw {
      assert raw == raw[..|marker|] + raw[|marker|..];
      assert (marker + text)[|marker|..] == text;
    }
  }

  lemma FailsIs(call: ToolCall, r: Executor.Response)
    ensures Executor.Failed(Executor.OutcomeOf(call, Some(r))) <==> Fails(r)
  {
    hide Says, Executor.ReadsAsFailure, Executor.AnalyzeHint;
    OutcomeSays(call, r);
    var t := Executor.ToolText(Says(r));
    UnmarkedIsStripped(t, Says(r));
    forall text | Unmarked(text, Says(r)) ensures text == t {
      UnmarkedIsStripped(text, Says(r));
    }
    hide Executor.ToolText, Unmarked;
  }

  lemma UnfitIs(call: ToolCall, rs: seq<Executor.Response>)
    ensures Executor.Failed(Executor.OutcomeOf(call, Executor.LastResponse(rs, call.id))) <==> Unfit(call, rs)
  {
    hide Executor.LastResponse, Fails, Says, Executor.ReadsAsFailure;
    var j := LastResponseFound(rs, call.id);
    var found := Executor.LastResponse(rs, call.id);
    if found.Some? {
      forall i | LastAt(rs, call.id, i) ensures i == j {
      }
      LastResponseIs(rs, call.id, j);
      FailsIs(call, rs[j]);
    } else {
      forall i | LastAt(rs, call.id, i) ensures false {
        LastResponseIs(rs, call.id, i);
      }
    }
  }

  /** A round fails altogether exactly if it has calls, the cap defers none of them, and all fail. */
  ghost predicate RoundFails(calls: seq<ToolCall>, cap: int, rs: seq<Executor.Response>) {
    calls != [] && (cap <= 0 || |calls| <= cap) && forall k :: 0 <= k < |calls| ==> Unfit(calls[k], rs)
  }

  lemma FineIs(calls: seq<ToolCall>, cap: int, rs: seq<Executor.Response>, k: nat)
    requires k < |calls|
    ensures Executor.Verdicts(Executor.RoundOutcomes(calls, cap, rs))[k].Fine? <==>
            0 < cap <= k || !Unfit(calls[k], rs)
  {
    hide Executor.OutcomeOf, Executor.Verdicts, Executor.RoundOutcomes, Unfit, Executor.LastResponse, Executor.Failed;
    hide Executor.DeferredText;
    var results := Executor.RoundOutcomes(calls, cap, rs);
    RoundAt(calls, cap, rs, k);
    Executor.VerdictAt(results, k);
    UnfitIs(calls[k], rs);
    if 0 < cap <= k {
      DeferralErr(calls, cap, rs, k);
      Executor.DeferralSucceeds(results[k]);
    }
  }

  lemma DeferralErr(calls: seq<ToolCall>, cap: int, rs: seq<Executor.Response>, k: nat)
    requires 0 < cap <= k < |calls|
    ensures Executor.RoundOutcomes(calls, cap, rs)[k].err.None?
  {
    Executor.DeferralsAligned(calls[cap..]);
  }

  lemma RoundFailsIs(calls: seq<ToolCall>, cap: int, rs: seq<Executor.Response>)
    ensures Executor.AllFailed(Executor.Verdicts(Executor.RoundOutcomes(calls, cap, rs))) <==> RoundFails(calls, cap, rs)
  {
    hide Executor.Verdicts, Executor.RoundOutcomes, Unfit;
    var vs := Executor.Verdicts(Executor.RoundOutcomes(calls, cap, rs));
    assert |vs| == |calls|;
    Executor.NoneFineMeaning(vs, |vs|);
    forall k | 0 <= k < |calls| ensures vs[k].Fine? <==> 0 < cap <= k || !Unfit(calls[k], rs) {
      FineIs(calls, cap, rs, k);
    }
    if 0 < cap < |calls| {
      assert vs[cap].Fine?;
    }
  }

  /** Iteration `i` executed a round, and all of it failed. */
  ghost predicate Failing(env: Env, cap: int, i: nat) {
    env.llm(i).Replied? && RoundFails(env.llm(i).calls, cap, env.exec(i))
  }

  /** Iterations `a`, `b` and `c` are the last three with calls before iteration `i`. */
  predicate LastRounds(env: Env, a: nat, b: nat, c: nat, i: nat) {
    && a < b < c < i && Calls(env, a) != [] && Calls(env, b) != [] && Calls(env, c) != []
    && forall j :: a < j < i && j != b && j != c ==> Calls(env, j) == []
  }

  lemma NoFailuresYet(env: Env, cap: int)
    ensures Failures(env, cap, 0) == []
  {
  }

  lemma NextFailures(env: Env, cap: int, i: nat)
    ensures Failures(env, cap, i + 1) == Failures(env, cap, i) + if Calls(env, i) == [] then [] else [Failing(env, cap, i)]
  {
    hide Executor.AllFailed, RoundFails, Executor.Verdicts, Executor.RoundOutcomes;
    RoundFailsIs(Calls(env, i), cap, env.exec(i));
  }

  lemma {:induction false} QuietFailures(env: Env, cap: int, c: nat, i: nat)
    requires c <= i && forall j: nat :: c <= j < i ==> Calls(env, j) == []
    ensures Failures(env, cap, i) == Failures(env, cap, c)
  {
    hide Failures, Failing;
    if c < i {
      QuietFailures(env, cap, c, i - 1);
      NextFailures(env, cap, i - 1);
    }
  }

  lemma {:induction false} LastRound(env: Env, cap: int, i: nat) returns (c: nat)
    requires Failures(env, cap, i) != []
    ensures c < i && Calls(env, c) != [] && forall j: nat :: c < j < i ==> Calls(env, j) == []
    ensures Failures(env, cap, i) ==
            Failures(env, cap, c) + [Failing(env, cap, c)]
  {
    hide Failures, Failing;
    NoFailuresYet(env, cap);
    NextFailures(env, cap, i - 1);
    if Calls(env, i - 1) != [] {
      c := i - 1;
    } else {
      c := LastRound(env, cap, i - 1);
    }
  }

  lemma RoundsOf(env: Env, cap: int, a: nat, b: nat, c: nat, i: nat)
    requires LastRounds(env, a, b, c, i)
    ensures Failures(env, cap, i) ==
            Failures(env, cap, a) + [Failing(env, cap, a)] + [Failing(env, cap, b)] + [Failing(env, cap, c)]
  {
    hide Failures, Failing;
    NextFailures(env, cap, a);
    NextFailures(env, cap, b);
    NextFailures(env, cap, c);
    QuietFailures(env, cap, a + 1, b);
    QuietFailures(env, cap, b + 1, c);
    QuietFailures(env, cap, c + 1, i);
  }

  /** Tools are withheld from iteration `i` exactly if the last three rounds before it failed
      altogether; replies without calls between them do not matter. */
  lemma WithheldIs(env: Env, cap: int, i: nat)
    ensures LastThree(Failures(env, cap, i)) <==>
            exists a: nat, b: nat, c: nat ::
              LastRounds(env, a, b, c, i) && Failing(env, cap, a) && Failing(env, cap, b) && Failing(env, cap, c)
  {
    hide Failures, Failing;
    var f := Failures(env, cap, i);
    if LastThree(f) {
      var c := LastRound(env, cap, i);
      var g := Failures(env, cap, c);
      assert f[|f| - 2] == g[|g| - 1] && f[|f| - 3] == g[|g| - 2];
      var b := LastRound(env, cap, c);
      var h := Failures(env, cap, b);
      assert g[|g| - 2] == h[|h| - 1];
      var a := LastRound(env, cap, b);
      assert LastRounds(env, a, b, c, i);
    }
    if a: nat, b: nat, c: nat :|
      LastRounds(env, a, b, c, i) && Failing(env, cap, a) && Failing(env, cap, b) && Failing(env, cap, c)
    {
      RoundsOf(env, cap, a, b, c, i);
    }
  }

  // ----- what the model is shown -----

  /** The system messages of every prompt. */
  predicate Headed(ms: Messages, system: seq<string>) {
    && |system| <= |ms|
    && forall k :: 0 <= k < |system| ==> ms[k] == Message(System, system[k], [], "", "", false)
  }

  lemma {:induction false} SystemAt(texts: seq<string>)
    ensures |SystemMessages(texts)| == |texts| && Headed(SystemMessages(texts), texts)
  {
    if texts != [] {
      SystemAt(texts[1..]);
      assert forall k :: 0 < k < |texts| ==> texts[k] == texts[1..][k - 1];
    }
  }

  /** The prompt of iteration `i` is the system messages, the session as it stands then, which is
      how it still begins after the turn, and, if the last three rounds failed, one more system
      message; tools are offered exactly if there is none. */
  lemma PromptIs(env: Env, cap: int, max: int, base: Messages, i: nat)
    requires i <= Stop(env, cap, max, 0)
    ensures var p, after, s := PromptAt(env, cap, base, i), After(env, cap, max, base), |env.system|;
            var m := |base| + Position(env, i);
            && m <= |after| && Headed(p.history, env.system) && s + m <= |p.history|
            && p.history[s..s + m] == after[..m]
            && p.tools == !LastThree(Failures(env, cap, i))
            && (if p.tools then |p.history| == s + m
                else |p.history| == s + m + 1 && p.history[s + m].role.System?)
  {
    hide Stop, After, Log, Failures, SystemMessages, PromptAt, Position;
    SystemAt(env.system);
    AfterBegins(env, cap, max, base, i);
    PromptParts(env, cap, base, i);
    Sandwich(SystemMessages(env.system), base + Log(env, cap, i), if PromptAt(env, cap, base, i).tools then [] else [ToolsOff()]);
  }

  lemma PromptParts(env: Env, cap: int, base: Messages, i: nat)
    ensures var p := PromptAt(env, cap, base, i);
            && p.tools == !LastThree(Failures(env, cap, i))
            && p.history == SystemMessages(env.system) + (base + Log(env, cap, i)) + if p.tools then [] else [ToolsOff()]
  {
    hide Log, Failures, SystemMessages;
    ToolsWithheld(env, cap, i);
  }

  lemma AfterBegins(env: Env, cap: int, max: int, base: Messages, i: nat)
    requires i <= Stop(env, cap, max, 0)
    ensures var after, m := After(env, cap, max, base), |base| + Position(env, i);
            m <= |after| && after[..m] == base + Log(env, cap, i)
            && |base + Log(env, cap, i)| == m
  {
    hide Stop, After, Log, Position;
    var n, after := Stop(env, cap, max, 0), After(env, cap, max, base);
    AfterPrefix(env, cap, max, base);
    LogLength(env, cap, i);
    LogLength(env, cap, n);
    LogPrefix(env, cap, n, i);
    PrefixOfSlice(after, base, Log(env, cap, n), Log(env, cap, i));
  }

  lemma PrefixOfSlice(ms: Messages, base: Messages, log: Messages, part: Messages)
    requires |base| + |log| <= |ms| && ms[..|base|] == base && ms[|base|..|base| + |log|] == log && part <= log
    ensures ms[..|base| + |part|] == base + part
  {
    assert ms[|base|..|base| + |part|] == log[..|part|] == part;
  }

  lemma LogPrefix(env: Env, cap: int, n: nat, i: nat)
    requires i <= n
    ensures Log(env, cap, i) <= Log(env, cap, n)
  {
    ChainPrefix(Steps(env, cap), n, i);
  }

  lemma Sandwich(a: Messages, b: Messages, c: Messages)
    ensures var all := a + b + c;
            && all[|a|..|a| + |b|] == b && all[..|a|] == a && all[|a| + |b|..] == c
            && forall k :: 0 <= k < |a| ==> all[k] == a[k]
  {
  }

  lemma {:induction false} PromptsAt(env: Env, cap: int, base: Messages, n: nat, i: nat)
    requires i < n
    ensures Prompts(env, cap, base, n)[i] == PromptAt(env, cap, base, i)
  {
    hide PromptAt;
    if i < n - 1 {
      PromptsAt(env, cap, base, n - 1, i);
    }
  }

  /** A turn shows the model one prompt for each iteration it starts, in order. A turn that is cut
      off shows it one more, without tools: the session up to the closing text, between the same
      system messages and one that asks for the delivery. */
  lemma PromptsAre(env: Env, cap: int, max: int, base: Messages)
    ensures var n := Stop(env, cap, max, 0);
            var exit := ExitAt(env, max, n);
            var ps, started := Turn.AllPrompts(env, cap, base, exit, n), if exit.IterationCap? then n else n + 1;
            && |ps| == started + (if Delivers(exit) then 1 else 0)
            && (forall i: nat :: i < started ==> ps[i] == PromptAt(env, cap, base, i))
            && (Delivers(exit) ==> FinalShows(ps[started], env, After(env, cap, max, base),
                                              |base| + Position(env, n) + if exit.LoopDetected? then 2 else 0))
  {
    hide Stop, PromptAt, After, FinalPrompt, Prompts, FinalShows;
    var n := Stop(env, cap, max, 0);
    var exit := ExitAt(env, max, n);
    var started := if exit.IterationCap? then n else n + 1;
    forall i: nat | i < started ensures Prompts(env, cap, base, started)[i] == PromptAt(env, cap, base, i) {
      PromptsAt(env, cap, base, started, i);
    }
    if Delivers(exit) {
      FinalIs(env, cap, max, base);
    }
  }

  /** The closing prompt shows the first `m` messages of the session. */
  predicate FinalShows(p: Prompt, env: Env, after: Messages, m: nat) {
    var s := |env.system|;
    && !p.tools && m <= |after| && Headed(p.history, env.system)
    && |p.history| == s + m + 1 && p.history[s..s + m] == after[..m] && p.history[s + m].role.System?
  }

  lemma FinalIs(env: Env, cap: int, max: int, base: Messages)
    requires Delivers(ExitAt(env, max, Stop(env, cap, max, 0)))
    ensures var n := Stop(env, cap, max, 0);
            var exit := ExitAt(env, max, n);
            FinalShows(FinalPrompt(env, cap, base, exit, n), env, After(env, cap, max, base),
                       |base| + Position(env, n) + if exit.LoopDetected? then 2 else 0)
  {
    hide Stop, ExitAt, Log, After, SystemMessages, Position;
    var n := Stop(env, cap, max, 0);
    var exit := ExitAt(env, max, n);
    SystemAt(env.system);
    LogLength(env, cap, n);
    var shown := base + (Log(env, cap, n) + Rest(env, cap, exit, n));
    Sandwich(SystemMessages(env.system), shown, [Nudge()]);
    AfterShows(env, cap, max, base);
  }

  lemma AfterShows(env: Env, cap: int, max: int, base: Messages)
    ensures var n := Stop(env, cap, max, 0);
            var shown := base + (Log(env, cap, n) + Rest(env, cap, ExitAt(env, max, n), n));
            shown <= After(env, cap, max, base)
  {
    hide Stop, ExitAt, Log, Rest, Closing, Padding.PadsFor, Leftover;
  }

  // ----- the sub-agent -----

  /** Where the messages of round `i` begin behind the task. */
  function SubPosition(env: Env, i: nat): nat {
    if i == 0 then 1 else SubPosition(env, i - 1) + 1 + |Calls(env, i - 1)|
  }

  lemma {:induction false} WorkedLength(env: Env, task: Message, i: nat)
    ensures |Subagent.Worked(env, task, i)| == SubPosition(env, i)
  {
    hide TurnSpec.Outcomes;
    if i > 0 {
      WorkedLength(env, task, i - 1);
      assert |Subagent.RoundLog(env, i - 1)| == 1 + |Calls(env, i - 1)|;
    }
  }

  lemma SubRoundIs(env: Env, i: nat)
    requires env.llm(i).Replied?
    ensures Round(Subagent.RoundLog(env, i), env.llm(i).content, env.llm(i).calls, |env.llm(i).calls|, 0, env.exec(i), [])
  {
    hide Executor.RoundOutcomes, Answers, Round;
    var r := env.llm(i);
    var results := Executor.RoundOutcomes(r.calls, 0, env.exec(i));
    assert results[..|r.calls|] == results;
    RoundIs(r.content, r.calls, |r.calls|, 0, env.exec(i), []);
    var log := Subagent.RoundLog(env, i);
    assert log + AsUsers([]) == log;
  }

  /** The private messages before iteration `n`: the task, and then each round, its question and
      an answer to every call with what the executor said about it. */
  lemma SubMessages(env: Env, task: Message, n: nat, i: nat)
    requires i < n && env.llm(i).Replied?
    ensures var ms, r, p := Subagent.Worked(env, task, n), env.llm(i), SubPosition(env, i);
            && |ms| == SubPosition(env, n) && ms[0] == task && p + 1 + |r.calls| <= |ms|
            && Round(ms[p..p + 1 + |r.calls|], r.content, r.calls, |r.calls|, 0, env.exec(i), [])
  {
    hide Subagent.RoundLog, Round;
    var ms, f := Subagent.Worked(env, task, n), Subagent.RoundLogs(env);
    ChainAt(f, n, i);
    WorkedLength(env, task, n);
    WorkedLength(env, task, i);
    WorkedLength(env, task, i + 1);
    SubRoundIs(env, i);
    var a, b := |Chain(f, i)|, |Chain(f, i + 1)|;
    assert ([task] + Chain(f, n))[1 + a..1 + b] == Chain(f, n)[a..b];
  }

  /** The prompt of iteration `i` is the system messages, those messages, and one more system
      message exactly if the last three rounds failed altogether. */
  lemma SubPromptIs(env: Env, task: Message, i: nat)
    ensures var p, s, ms := Subagent.SubPromptAt(env, task, i), |env.system|, Subagent.Worked(env, task, i);
            && Headed(p.history, env.system) && s + |ms| <= |p.history| && p.history[s..s + |ms|] == ms
            && p.tools == !LastThree(Failures(env, 0, i))
            && (if p.tools then |p.history| == s + |ms|
                else |p.history| == s + |ms| + 1 && p.history[s + |ms|].role.System?)
  {
    hide Subagent.Worked, Failures;
    ToolsWithheld(env, 0, i);
    SystemAt(env.system);
    Sandwich(SystemMessages(env.system), Subagent.Worked(env, task, i),
             if Subagent.SubPromptAt(env, task, i).tools then [] else [ToolsOff()]);
  }

  lemma {:induction false} SubStopGoes(env: Env, max: nat, i: nat, k: nat)
    requires i <= max && i <= k < Subagent.SubStop(env, max, i)
    ensures Subagent.Continues(env, k)
    decreases max - i
  {
    hide Subagent.Continues;
    if i < k {
      SubStopGoes(env, max, i + 1, k);
    }
  }

  /** Iteration `i` of the sub-agent is followed by another. */
  predicate SubGoesOn(env: Env, i: nat) {
    env.llm(i).Replied? && env.llm(i).calls != [] && !Detector.ThreeAlike(Made(env, i + 1))
  }

  /** The sub-agent works as long as the model asks for something new, up to the limit. Its
      deliverable is the first reply without calls, as the model gave it; after the limit or three
      calls alike it is the closing reply, or a notice if that is empty; a failed call to the
      model is an error. */
  lemma SubagentDelivers(env: Env, max: nat)
    ensures var n := Subagent.SubStop(env, max, 0);
            var exit := Subagent.SubExitAt(env, max, n);
            var out := Subagent.Deliverable(env, exit, n);
            && (forall i: nat :: i < n ==> SubGoesOn(env, i)) && n <= max && (n < max ==> !SubGoesOn(env, n))
            && (if n < max && env.llm(n).Failed? then exit.ChatFailed? && out.None?
                else if n < max && env.llm(n).calls == [] then exit.Finished? && out == Some(env.llm(n).content)
                else && (exit.Capped? <==> n == max) && (exit.Looping? <==> n < max)
                     && (if env.final.None? then out.None?
                         else out.Some? && out.value != "" && (env.final.value != "" ==> out == env.final)))
  {
    hide Subagent.SubStop, Detector.HasTriple, Detector.ThreeAlike, CallsSoFar, Made;
    var n := Subagent.SubStop(env, max, 0);
    forall i: nat | i < n ensures SubGoesOn(env, i) {
      SubStopGoes(env, max, 0, i);
      MadeIs(env, i + 1);
      Detector.TripleMeaning(Made(env, i + 1));
    }
    MadeIs(env, n + 1);
    Detector.TripleMeaning(Made(env, n + 1));
  }

  lemma {:induction false} SubPromptsAt(env: Env, task: Message, n: nat, i: nat)
    requires i < n
    ensures Subagent.SubPrompts(env, task, n)[i] == Subagent.SubPromptAt(env, task, i)
  {
    hide Subagent.SubPromptAt;
    if i < n - 1 {
      SubPromptsAt(env, task, n - 1, i);
    }
  }

  /** The sub-agent shows the model one prompt for each iteration it starts, in order, and to close
      one more without tools: everything so far, and a system message that asks for the delivery. */
  lemma SubPromptsAre(env: Env, task: Message, max: nat)
    ensures var n := Subagent.SubStop(env, max, 0);
            var exit := Subagent.SubExitAt(env, max, n);
            var ps, started := Subagent.SubAllPrompts(env, task, exit, n), if exit.Capped? then n else n + 1;
            var closes := exit.Capped? || exit.Looping?;
            && |ps| == started + (if closes then 1 else 0)
            && (forall i: nat :: i < started ==> ps[i] == Subagent.SubPromptAt(env, task, i))
            && (closes ==> SubFinalShows(ps[started], env, Subagent.Worked(env, task, n), n, exit.Looping?))
  {
    hide Subagent.SubStop, Subagent.SubPromptAt, Subagent.Worked, Subagent.SubPrompts, SubFinalShows;
    var n := Subagent.SubStop(env, max, 0);
    var exit := Subagent.SubExitAt(env, max, n);
    var started := if exit.Capped? then n else n + 1;
    forall i: nat | i < started
      ensures Subagent.SubPrompts(env, task, started)[i] == Subagent.SubPromptAt(env, task, i)
    {
      SubPromptsAt(env, task, started, i);
    }
    if exit.Capped? || exit.Looping? {
      SubFinalIs(env, task, exit, n);
    }
  }

  /** The closing prompt shows the messages so far, an open question with a warning if the model
      repeats itself, and one more system message. */
  predicate SubFinalShows(p: Prompt, env: Env, worked: Messages, n: nat, looping: bool) {
    var s, m := |env.system|, |worked|;
    && !p.tools && Headed(p.history, env.system) && s + m <= |p.history| && p.history[s..s + m] == worked
    && (if looping then
          && |p.history| == s + m + 3 && env.llm(n).Replied?
          && p.history[s + m] == Message(Assistant, env.llm(n).content, env.llm(n).calls, "", "", false)
          && p.history[s + m + 1].role.System? && p.history[s + m + 2].role.System?
        else |p.history| == s + m + 1 && p.history[s + m].role.System?)
  }

  lemma SubFinalIs(env: Env, task: Message, exit: Subagent.SubExit, n: nat)
    requires exit.Capped? || (exit.Looping? && env.llm(n).Replied?)
    ensures SubFinalShows(Subagent.SubFinalPrompt(env, task, exit, n), env, Subagent.Worked(env, task, n), n, exit.Looping?)
  {
    hide Subagent.Worked, SystemMessages;
    SystemAt(env.system);
    var rest := if exit.Looping? then [AssistantMessage(Said(env, n), Calls(env, n)), LoopWarning()] else [];
    Sandwich(SystemMessages(env.system), Subagent.Worked(env, task, n) + rest, [Nudge()]);
  }
}
