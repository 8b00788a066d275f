/** Conversation histories: messages, tool calls and the two notions of a well-formed history.
    A history is resolved if every tool call is answered by some later tool message; it is
    contiguous if the answers come directly after the call, which is what providers demand
    (internal/provider/openai.go). */
module History {

  datatype Role = User | Assistant | System | Tool

  datatype ToolCall = ToolCall(id: string, name: string, args: string)

  /** `runtime` marks messages injected by the runtime (a non-empty Origin). */
  datatype Message = Message(
    role: Role, content: string, calls: seq<ToolCall>, callId: string, name: string, runtime: bool)

  type Messages = seq<Message>

  function UserMessage(text: string): Message {
    Message(User, text, [], "", "", false)
  }

  function SystemMessage(text: string): Message {
    Message(System, text, [], "", "", false)
  }

  function AssistantMessage(text: string, calls: seq<ToolCall>): Message {
    Message(Assistant, text, calls, "", "", false)
  }

  function ToolMessage(call: ToolCall, text: string): Message {
    Message(Tool, text, [], call.id, call.name, false)
  }

  /** An assistant message with tool calls. */
  predicate Asks(m: Message) {
    m.role.Assistant? && m.calls != []
  }

  function Ids(calls: seq<ToolCall>): set<string> {
    if calls == [] then {} else {calls[0].id} + Ids(calls[1..])
  }

  lemma {:induction false} IdsMeaning(calls: seq<ToolCall>, k: nat)
    requires k < |calls|
    ensures calls[k].id in Ids(calls)
  {
    if k > 0 {
      IdsMeaning(calls[1..], k - 1);
    }
  }

  /** The ids that the tool messages among `ms` answer. */
  function AnsweredIds(ms: Messages): set<string> {
    if ms == [] then {} else (if ms[0].role.Tool? then {ms[0].callId} else {}) + AnsweredIds(ms[1..])
  }

  lemma {:induction false} AnsweredMeaning(ms: Messages, id: string)
    ensures id in AnsweredIds(ms) <==> exists j :: 0 <= j < |ms| && ms[j].role.Tool? && ms[j].callId == id
  {
    if ms != [] {
      AnsweredMeaning(ms[1..], id);
      if exists j :: 0 <= j < |ms| && ms[j].role.Tool? && ms[j].callId == id {
        var j :| 0 <= j < |ms| && ms[j].role.Tool? && ms[j].callId == id;
        assert j > 0 ==> ms[1..][j - 1] == ms[j];
      } else {
        assert forall j :: 0 <= j < |ms[1..]| ==> ms[1..][j] == ms[j + 1];
      }
    }
  }

  lemma {:induction false} AnsweredConcat(a: Messages, b: Messages)
    ensures AnsweredIds(a + b) == AnsweredIds(a) + AnsweredIds(b)
  {
    if a == [] {
      assert a + b == b;
    } else {
      assert (a + b)[1..] == a[1..] + b;
      AnsweredConcat(a[1..], b);
    }
  }

  // ----- resolved: answered later -----

  /** Every call of the message is answered somewhere after it. */
  predicate ResolvedAt(ms: Messages, i: int)
    requires 0 <= i < |ms|
  {
    Ids(ms[i].calls) <= AnsweredIds(ms[i + 1..])
  }

  predicate Resolved(ms: Messages) {
    forall i :: 0 <= i < |ms| && Asks(ms[i]) ==> ResolvedAt(ms, i)
  }

  /** The index of the last message with tool calls, or -1. */
  function LastAsk(ms: Messages): (i: int)
    ensures -1 <= i < |ms|
    ensures i >= 0 ==> Asks(ms[i])
  {
    if ms == [] then -1
    else if Asks(ms[|ms| - 1]) then |ms| - 1
    else LastAsk(ms[..|ms| - 1])
  }

  predicate NoAsks(ms: Messages) {
    forall k :: 0 <= k < |ms| ==> !Asks(ms[k])
  }

  lemma {:induction false} NothingAfterLastAsk(ms: Messages)
    ensures NoAsks(ms[LastAsk(ms) + 1..])
  {
    if ms != [] && !Asks(ms[|ms| - 1]) {
      var i, init := LastAsk(ms), ms[..|ms| - 1];
      NothingAfterLastAsk(init);
      assert ms[i + 1..] == init[i + 1..] + [ms[|ms| - 1]];
    }
  }

  lemma AskBeforeLast(ms: Messages, k: nat)
    requires k < |ms|
    ensures k > LastAsk(ms) ==> !Asks(ms[k])
  {
    NothingAfterLastAsk(ms);
    if k > LastAsk(ms) {
      assert ms[k] == ms[LastAsk(ms) + 1..][k - LastAsk(ms) - 1];
    }
  }

  lemma {:induction false} LastAskKept(ms: Messages, ts: Messages)
    requires NoAsks(ts)
    ensures LastAsk(ms + ts) == LastAsk(ms)
  {
    if ts == [] {
      assert ms + ts == ms;
    } else {
      var init := ts[..|ts| - 1];
      LastAskKept(ms, init);
      assert (ms + ts)[..|ms + ts| - 1] == ms + init;
      assert (ms + ts)[|ms + ts| - 1] == ts[|ts| - 1];
    }
  }

  lemma LastAskIs(pre: Messages, ask: Message, ts: Messages)
    requires Asks(ask) && NoAsks(ts)
    ensures LastAsk(pre + [ask] + ts) == |pre|
  {
    LastAskKept(pre + [ask], ts);
  }

  /** At most the last message with tool calls is unresolved. */
  predicate OnlyLastOpen(ms: Messages) {
    forall i :: 0 <= i < LastAsk(ms) && Asks(ms[i]) ==> ResolvedAt(ms, i)
  }

  lemma ResolvedAtGrows(a: Messages, b: Messages, i: int)
    requires 0 <= i < |a| && ResolvedAt(a, i)
    ensures ResolvedAt(a + b, i)
  {
    assert (a + b)[i + 1..] == a[i + 1..] + b;
    AnsweredConcat(a[i + 1..], b);
  }

  lemma ResolvedConcat(a: Messages, b: Messages)
    requires Resolved(a) && Resolved(b)
    ensures Resolved(a + b)
  {
    forall i | 0 <= i < |a + b| && Asks((a + b)[i]) ensures ResolvedAt(a + b, i) {
      if i < |a| {
        ResolvedAtGrows(a, b, i);
      } else {
        assert ResolvedAt(b, i - |a|) && (a + b)[i + 1..] == b[i - |a| + 1..];
      }
    }
  }

  /** One more question, still open, after a resolved history. */
  lemma OpenAfterResolved(a: Messages, ask: Message, rest: Messages)
    requires Resolved(a) && Asks(ask) && NoAsks(rest)
    ensures OnlyLastOpen(a + [ask] + rest)
  {
    var ms := a + [ask] + rest;
    LastAskIs(a, ask, rest);
    assert ms == a + ([ask] + rest);
    forall i | 0 <= i < LastAsk(ms) && Asks(ms[i]) ensures ResolvedAt(ms, i) {
      ResolvedAtGrows(a, [ask] + rest, i);
    }
  }

  // ----- contiguous: answered at once -----

  /** The non-empty ids answered by the run of tool messages at the head. */
  function RunIds(ms: Messages): set<string> {
    if ms != [] && ms[0].role.Tool? then
      (if ms[0].callId == "" then {} else {ms[0].callId}) + RunIds(ms[1..])
    else {}
  }

  /** The ids that the message before position `j`'s run of tool messages asked for; `open`
      stands for the message before the first one. */
  function OpenIds(ms: Messages, j: int, open: set<string>): set<string>
    requires 0 <= j <= |ms|
  {
    if j == 0 then open
    else if ms[j - 1].role.Tool? then OpenIds(ms, j - 1, open)
    else if Asks(ms[j - 1]) then Ids(ms[j - 1].calls)
    else {}
  }

  /** Every call of the message is answered in the run of tool messages right after it. */
  predicate RunAnswers(ms: Messages, i: int)
    requires 0 <= i < |ms|
  {
    Ids(ms[i].calls) <= RunIds(ms[i + 1..])
  }

  predicate Parented(ms: Messages, j: int, open: set<string>)
    requires 0 <= j < |ms|
  {
    ms[j].callId in OpenIds(ms, j, open)
  }

  predicate AllParented(ms: Messages, open: set<string>) {
    forall j :: 0 <= j < |ms| && ms[j].role.Tool? ==> Parented(ms, j, open)
  }

  predicate AsksAnswered(ms: Messages) {
    forall i :: 0 <= i < |ms| && Asks(ms[i]) ==> RunAnswers(ms, i)
  }

  predicate Contiguous(ms: Messages) {
    AsksAnswered(ms) && AllParented(ms, {})
  }

  lemma {:induction false} RunIdsConcat(a: Messages, b: Messages)
    requires b == [] || !b[0].role.Tool?
    ensures RunIds(a + b) == RunIds(a)
  {
    if a == [] {
      assert a + b == b;
    } else if a[0].role.Tool? {
      assert (a + b)[1..] == a[1..] + b;
      RunIdsConcat(a[1..], b);
    }
  }

  lemma {:induction false} OpenIdsLeft(a: Messages, b: Messages, j: int, open: set<string>)
    requires 0 <= j <= |a|
    ensures OpenIds(a + b, j, open) == OpenIds(a, j, open)
  {
    if j > 0 {
      OpenIdsLeft(a, b, j - 1, open);
    }
  }

  lemma {:induction false} OpenIdsRight(a: Messages, b: Messages, j: int, open: set<string>)
    requires 0 <= j <= |b|
    ensures OpenIds(a + b, |a| + j, open) == OpenIds(b, j, OpenIds(a, |a|, open))
  {
    if j > 0 {
      assert (a + b)[|a| + j - 1] == b[j - 1];
      OpenIdsRight(a, b, j - 1, open);
    } else {
      OpenIdsLeft(a, b, |a|, open);
    }
  }

  lemma {:induction false} OpenIdsFresh(b: Messages, j: int, open: set<string>)
    requires 0 < j <= |b| && !b[0].role.Tool?
    ensures OpenIds(b, j, open) == OpenIds(b, j, {})
  {
    if j > 1 {
      OpenIdsFresh(b, j - 1, open);
    }
  }

  lemma AsksAnsweredConcat(a: Messages, b: Messages)
    requires AsksAnswered(a) && AsksAnswered(b) && (b == [] || !b[0].role.Tool?)
    ensures AsksAnswered(a + b)
  {
    var ms := a + b;
    forall i | 0 <= i < |ms| && Asks(ms[i]) ensures RunAnswers(ms, i) {
      if i < |a| {
        assert RunAnswers(a, i) && ms[i + 1..] == a[i + 1..] + b;
        RunIdsConcat(a[i + 1..], b);
      } else {
        assert RunAnswers(b, i - |a|) && ms[i + 1..] == b[i - |a| + 1..];
      }
    }
  }

  lemma AllParentedConcat(a: Messages, b: Messages, open: set<string>)
    requires AllParented(a, open) && AllParented(b, OpenIds(a, |a|, open))
    ensures AllParented(a + b, open)
  {
    var ms := a + b;
    forall j | 0 <= j < |ms| && ms[j].role.Tool? ensures Parented(ms, j, open) {
      if j < |a| {
        assert Parented(a, j, open);
        OpenIdsLeft(a, b, j, open);
      } else {
        assert Parented(b, j - |a|, OpenIds(a, |a|, open));
        OpenIdsRight(a, b, j - |a|, open);
      }
    }
  }

  lemma AllParentedFresh(b: Messages, open: set<string>)
    requires AllParented(b, {}) && (b == [] || !b[0].role.Tool?)
    ensures AllParented(b, open)
  {
    forall j | 0 <= j < |b| && b[j].role.Tool? ensures Parented(b, j, open) {
      assert Parented(b, j, {});
      OpenIdsFresh(b, j, open);
    }
  }

  /** Contiguous pieces that do not begin with an answer can be appended. */
  lemma ContiguousConcat(a: Messages, b: Messages)
    requires Contiguous(a) && Contiguous(b) && (b == [] || !b[0].role.Tool?)
    ensures Contiguous(a + b)
  {
    AsksAnsweredConcat(a, b);
    AllParentedFresh(b, OpenIds(a, |a|, {}));
    AllParentedConcat(a, b, {});
  }

  lemma ParentedInSuffix(a: Messages, b: Messages, j: int)
    requires 0 <= j < |b| && !b[0].role.Tool? && Parented(a + b, |a| + j, {}) && b[j].role.Tool?
    ensures Parented(b, j, {})
  {
    OpenIdsRight(a, b, j, {});
    OpenIdsFresh(b, j, OpenIds(a, |a|, {}));
  }

  /** A suffix that does not begin with an answer is contiguous if the whole is. */
  lemma ContiguousSuffix(ms: Messages, k: nat)
    requires Contiguous(ms) && k <= |ms| && (k == |ms| || !ms[k].role.Tool?)
    ensures Contiguous(ms[k..])
  {
    forall i | 0 <= i < |ms[k..]| && Asks(ms[k..][i]) ensures RunAnswers(ms[k..], i) {
      assert RunAnswers(ms, k + i) && ms[k + i + 1..] == ms[k..][i + 1..];
    }
    forall j | 0 <= j < |ms[k..]| && ms[k..][j].role.Tool? ensures Parented(ms[k..], j, {}) {
      assert Parented(ms, k + j, {});
      assert ms == ms[..k] + ms[k..] && |ms[..k]| == k;
      ParentedInSuffix(ms[..k], ms[k..], j);
    }
  }

  /** A contiguous history does not begin with an answer. */
  lemma ContiguousHead(ms: Messages)
    requires Contiguous(ms) && ms != []
    ensures !ms[0].role.Tool?
  {
    var parented := Parented(ms, 0, {});
  }

  /** Messages that are neither questions nor answers. */
  predicate Plain(ms: Messages) {
    forall m :: m in ms ==> !m.role.Tool? && !Asks(m)
  }

  lemma PlainContiguous(ms: Messages)
    requires Plain(ms)
    ensures Contiguous(ms) && Resolved(ms)
  {
    assert forall i :: 0 <= i < |ms| ==> ms[i] in ms;
  }

  predicate AllUsers(ms: Messages) {
    forall k :: 0 <= k < |ms| ==> ms[k].role.User?
  }

  /** The user messages among `ms`. */
  function Users(ms: Messages): Messages {
    if ms == [] then [] else (if ms[0].role.User? then [ms[0]] else []) + Users(ms[1..])
  }

  lemma {:induction false} UsersConcat(a: Messages, b: Messages)
    ensures Users(a + b) == Users(a) + Users(b)
  {
    if a == [] {
      assert a + b == b;
    } else {
      var rest := Users(a[1..]);
      var head := if a[0].role.User? then [a[0]] else [];
      assert (a + b)[1..] == a[1..] + b && (a + b)[0] == a[0];
      UsersConcat(a[1..], b);
      assert head + (rest + Users(b)) == head + rest + Users(b);
    }
  }

  lemma {:induction false} UsersOfUsers(ms: Messages)
    requires AllUsers(ms)
    ensures Users(ms) == ms && Plain(ms) && NoAsks(ms)
  {
    if ms != [] {
      UsersOfUsers(ms[1..]);
    }
  }

  lemma AllUsersSuffix(a: Messages, b: Messages)
    requires AllUsers(a + b)
    ensures AllUsers(b)
  {
    forall k | 0 <= k < |b| ensures b[k].role.User? {
      assert b[k] == (a + b)[|a| + k];
    }
  }

  lemma {:induction false} NoUsers(ms: Messages)
    requires forall k :: 0 <= k < |ms| ==> !ms[k].role.User?
    ensures Users(ms) == []
  {
    if ms != [] {
      NoUsers(ms[1..]);
    }
  }

  // ----- one question with its answers -----

  /** Tool messages answering calls[0], calls[1], ... in order. */
  predicate AnswersInOrder(answers: Messages, calls: seq<ToolCall>) {
    && |answers| <= |calls|
    && forall k :: 0 <= k < |answers| ==> answers[k].role.Tool? && answers[k].callId == calls[k].id
  }

  predicate AllTools(ts: Messages) {
    forall k :: 0 <= k < |ts| ==> ts[k].role.Tool?
  }

  lemma {:induction false} RunIdsOfTools(ts: Messages)
    requires AllTools(ts)
    ensures RunIds(ts) == AnsweredIds(ts) - {""}
  {
    if ts != [] {
      RunIdsOfTools(ts[1..]);
    }
  }

  lemma {:induction false} OpenIdsOfRound(ask: Message, ts: Messages, j: int)
    requires Asks(ask) && 0 <= j <= |ts| && AllTools(ts)
    ensures OpenIds([ask] + ts, j + 1, {}) == Ids(ask.calls)
  {
    if j > 0 {
      OpenIdsOfRound(ask, ts, j - 1);
    }
  }

  /** A question followed directly by tool messages for its ids, all of them covered. */
  lemma RoundContiguous(ask: Message, ts: Messages)
    requires Asks(ask) && "" !in Ids(ask.calls) && AllTools(ts) && AnsweredIds(ts) == Ids(ask.calls)
    ensures Contiguous([ask] + ts)
  {
    var ms := [ask] + ts;
    assert ms[1..] == ts;
    RunIdsOfTools(ts);
    forall j | 0 <= j < |ms| && ms[j].role.Tool? ensures Parented(ms, j, {}) {
      OpenIdsOfRound(ask, ts, j - 1);
      AnsweredMeaning(ts, ts[j - 1].callId);
    }
  }

  lemma {:induction false} AnswersInOrderIds(ts: Messages, calls: seq<ToolCall>)
    requires AnswersInOrder(ts, calls)
    ensures AnsweredIds(ts) <= Ids(calls) && (|ts| == |calls| ==> AnsweredIds(ts) == Ids(calls))
  {
    if ts != [] {
      AnswersInOrderIds(ts[1..], calls[1..]);
    }
  }

  lemma CompleteRound(ask: Message, ts: Messages)
    requires Asks(ask) && AnswersInOrder(ts, ask.calls) && |ts| == |ask.calls|
    ensures Resolved([ask] + ts)
    ensures "" !in Ids(ask.calls) ==> Contiguous([ask] + ts)
  {
    AnswersInOrderIds(ts, ask.calls);
    assert ([ask] + ts)[1..] == ts;
    if "" !in Ids(ask.calls) {
      RoundContiguous(ask, ts);
    }
  }
}
