/** Context compaction (internal/agent/compaction.go): old tool results are blanked and, if that
    is not enough, everything but the recent tail is replaced by a summary. */
module Compaction {
  import opened History
  import opened Options

  const TOKEN_THRESHOLD := 80000
  const PRUNE_TURN_AGE := 20
  const LARGE_RESULT := 200

  function Placeholder(): string { "[Result truncated - see memory logs]" }
  function SummaryHeading(): string { "[Conversation Summary]\n" }

  // ----- estimating -----

  function Width(c: char): (n: nat)
    ensures 1 <= n <= 4
  {
    if c < '\U{80}' then 1 else if c < '\U{800}' then 2 else if c < '\U{10000}' then 3 else 4
  }

  /** The length of a string in UTF-8 bytes. */
  function Size(s: string): (n: nat)
    ensures |s| <= n <= 4 * |s|
  {
    if s == [] then 0 else Width(s[0]) + Size(s[1..])
  }

  function CallTokens(calls: seq<ToolCall>): nat {
    if calls == [] then 0 else Size(calls[0].args) / 4 + Size(calls[0].name) / 4 + CallTokens(calls[1..])
  }

  function Tokens(ms: Messages): nat {
    if ms == [] then 0 else Size(ms[0].content) / 4 + CallTokens(ms[0].calls) + Tokens(ms[1..])
  }

  method EstimateTokens(ms: Messages) returns (total: nat)
    ensures total == Tokens(ms)
  {
    total := 0;
    for i := 0 to |ms|
      invariant total + Tokens(ms[i..]) == Tokens(ms)
    {
      assert ms[i..][0] == ms[i] && ms[i..][1..] == ms[i + 1..];
      total := total + Size(ms[i].content) / 4;
      var calls := ms[i].calls;
      ghost var before := total;
      for k := 0 to |calls|
        invariant total + CallTokens(calls[k..]) == before + CallTokens(calls)
      {
        assert calls[k..][0] == calls[k] && calls[k..][1..] == calls[k + 1..];
        total := total + Size(calls[k].args) / 4;
        total := total + Size(calls[k].name) / 4;
      }
    }
  }

  // ----- the shape of a history: what pairing questions and answers depends on -----

  predicate SameShape(a: Message, b: Message) {
    a.role == b.role && a.callId == b.callId && (Asks(a) || Asks(b) ==> a.calls == b.calls)
  }

  predicate Alike(a: Messages, b: Messages) {
    |a| == |b| && forall k :: 0 <= k < |a| ==> SameShape(a[k], b[k])
  }

  lemma {:induction false} AlikeIds(a: Messages, b: Messages)
    requires Alike(a, b)
    ensures AnsweredIds(a) == AnsweredIds(b) && RunIds(a) == RunIds(b)
  {
    if a != [] {
      assert SameShape(a[0], b[0]);
      assert Alike(a[1..], b[1..]) by {
        forall k | 0 <= k < |a[1..]| ensures SameShape(a[1..][k], b[1..][k]) {
          assert SameShape(a[k + 1], b[k + 1]);
        }
      }
      AlikeIds(a[1..], b[1..]);
    }
  }

  lemma AlikeSuffix(a: Messages, b: Messages, k: nat)
    requires Alike(a, b) && k <= |a|
    ensures Alike(a[k..], b[k..])
  {
    forall j | 0 <= j < |a[k..]| ensures SameShape(a[k..][j], b[k..][j]) {
      assert SameShape(a[k + j], b[k + j]);
    }
  }

  lemma {:induction false} AlikeOpenIds(a: Messages, b: Messages, j: int, open: set<string>)
    requires Alike(a, b) && 0 <= j <= |a|
    ensures OpenIds(a, j, open) == OpenIds(b, j, open)
  {
    if j > 0 {
      assert SameShape(a[j - 1], b[j - 1]);
      AlikeOpenIds(a, b, j - 1, open);
    }
  }

  lemma AlikeContiguous(a: Messages, b: Messages)
    requires Alike(a, b) && Contiguous(a)
    ensures Contiguous(b)
  {
    forall i | 0 <= i < |b| && Asks(b[i]) ensures RunAnswers(b, i) {
      assert SameShape(a[i], b[i]) && RunAnswers(a, i);
      AlikeSuffix(a, b, i + 1);
      AlikeIds(a[i + 1..], b[i + 1..]);
    }
    forall j | 0 <= j < |b| && b[j].role.Tool? ensures Parented(b, j, {}) {
      assert SameShape(a[j], b[j]) && Parented(a, j, {});
      AlikeOpenIds(a, b, j, {});
    }
  }

  lemma AlikeResolved(a: Messages, b: Messages)
    requires Alike(a, b) && Resolved(a)
    ensures Resolved(b)
  {
    forall i | 0 <= i < |b| && Asks(b[i]) ensures ResolvedAt(b, i) {
      assert SameShape(a[i], b[i]) && ResolvedAt(a, i);
      AlikeSuffix(a, b, i + 1);
      AlikeIds(a[i + 1..], b[i + 1..]);
    }
  }

  // ----- pruning -----

  function PruneOne(m: Message): Message {
    if m.role.Tool? && Size(m.content) > LARGE_RESULT then
      Message(Tool, Placeholder(), [], m.callId, m.name, false)
    else m
  }

  /** The messages with the first `n` pruned. */
  function PruneFirst(ms: Messages, n: nat): (r: Messages)
    requires n <= |ms|
    ensures |r| == |ms|
  {
    if n == 0 then ms else [PruneOne(ms[0])] + PruneFirst(ms[1..], n - 1)
  }

  function Pruned(ms: Messages): Messages {
    if |ms| <= PRUNE_TURN_AGE then ms else PruneFirst(ms, |ms| - PRUNE_TURN_AGE)
  }

  lemma {:induction false} PruneFirstAt(ms: Messages, n: nat, k: nat)
    requires n <= |ms| && k < |ms|
    ensures PruneFirst(ms, n)[k] == if k < n then PruneOne(ms[k]) else ms[k]
  {
    if n > 0 && k > 0 {
      PruneFirstAt(ms[1..], n - 1, k - 1);
    }
  }

  method PruneOldToolResults(ms: Messages) returns (result: Messages)
    ensures result == Pruned(ms)
  {
    if |ms| <= PRUNE_TURN_AGE {
      return ms;
    }
    var cutoff := |ms| - PRUNE_TURN_AGE;
    result := ms;
    for i := 0 to cutoff
      invariant |result| == |ms|
      invariant forall k :: 0 <= k < |ms| ==> result[k] == if k < i then PruneOne(ms[k]) else ms[k]
    {
      if result[i].role.Tool? && Size(result[i].content) > LARGE_RESULT {
        result := result[i := Message(Tool, Placeholder(), [], result[i].callId, result[i].name, false)];
      }
    }
    forall k | 0 <= k < |ms| ensures result[k] == PruneFirst(ms, cutoff)[k] {
      PruneFirstAt(ms, cutoff, k);
    }
  }

  lemma PrunedAlike(ms: Messages)
    ensures Alike(ms, Pruned(ms))
  {
    if |ms| > PRUNE_TURN_AGE {
      forall k | 0 <= k < |ms| ensures SameShape(ms[k], Pruned(ms)[k]) {
        PruneFirstAt(ms, |ms| - PRUNE_TURN_AGE, k);
      }
    }
  }

  /** What pruning does to the message at position `k`: a tool result of more than 200 bytes that
      is not among the last twenty messages becomes the placeholder, with its id and its name;
      nothing else changes. */
  predicate PrunedAt(ms: Messages, r: Messages, k: nat)
    requires k < |ms| == |r|
  {
    if k + 20 < |ms| && ms[k].role.Tool? && Size(ms[k].content) > 200 then
      r[k] == Message(Tool, "[Result truncated - see memory logs]", [], ms[k].callId, ms[k].name, false)
    else r[k] == ms[k]
  }

  lemma PruningIs(ms: Messages)
    ensures |Pruned(ms)| == |ms| && forall k: nat :: k < |ms| ==> PrunedAt(ms, Pruned(ms), k)
  {
    forall k: nat | k < |ms| ensures |Pruned(ms)| == |ms| && PrunedAt(ms, Pruned(ms), k) {
      if |ms| > PRUNE_TURN_AGE {
        PruneFirstAt(ms, |ms| - PRUNE_TURN_AGE, k);
      }
    }
  }

  lemma {:induction false} PruneFirstShrinks(ms: Messages, n: nat)
    requires n <= |ms|
    ensures Tokens(PruneFirst(ms, n)) <= Tokens(ms)
  {
    if n > 0 {
      var rest := PruneFirst(ms[1..], n - 1);
      PruneFirstShrinks(ms[1..], n - 1);
      assert PruneFirst(ms, n)[1..] == rest;
      PruneOneShrinks(ms[0]);
    }
  }

  lemma SizeAtMost(s: string)
    ensures Size(s) <= 4 * |s|
  {
  }

  lemma PlaceholderIsSmall()
    ensures Size(Placeholder()) <= LARGE_RESULT
  {
    var p := Placeholder();
    assert |p| <= 50;
    SizeAtMost(p);
  }

  lemma PruneOneShrinks(m: Message)
    ensures Size(PruneOne(m).content) <= Size(m.content)
    ensures CallTokens(PruneOne(m).calls) <= CallTokens(m.calls)
  {
    hide Placeholder;
    if PruneOne(m) != m {
      PlaceholderIsSmall();
    }
  }

  /** Pruning never makes a history larger. */
  lemma PruningShrinks(ms: Messages)
    ensures Tokens(Pruned(ms)) <= Tokens(ms)
  {
    if |ms| > PRUNE_TURN_AGE {
      PruneFirstShrinks(ms, |ms| - PRUNE_TURN_AGE);
    }
  }

  // ----- compressing -----

  /** The first position from `cutoff` on that does not hold a tool message. */
  function SafeCutoff(ms: Messages, cutoff: nat): (c: nat)
    requires cutoff <= |ms|
    ensures cutoff <= c <= |ms| && (c == |ms| || !ms[c].role.Tool?)
    ensures forall k :: cutoff <= k < c ==> ms[k].role.Tool?
    decreases |ms| - cutoff
  {
    if cutoff < |ms| && ms[cutoff].role.Tool? then SafeCutoff(ms, cutoff + 1) else cutoff
  }

  method SafeCompactionCutoff(ms: Messages, cutoff: int) returns (c: nat)
    ensures 0 <= cutoff <= |ms| ==> c == SafeCutoff(ms, cutoff)
    ensures cutoff < 0 ==> c == SafeCutoff(ms, 0)
    ensures cutoff > |ms| ==> c == cutoff
  {
    var start := if cutoff < 0 then 0 else cutoff;
    c := start;
    while c < |ms| && ms[c].role.Tool?
      invariant start <= c
      invariant start <= |ms| ==> c <= |ms| && SafeCutoff(ms, c) == SafeCutoff(ms, start)
      invariant start > |ms| ==> c == start
    {
      c := c + 1;
    }
  }

  function RoleName(r: Role): string {
    match r
    case User => "user"
    case Assistant => "assistant"
    case System => "system"
    case Tool => "tool"
  }

  function Line(m: Message): string {
    "[" + RoleName(m.role) + "] " + m.content + "\n"
  }

  /** What the summarizer is shown: runtime messages are skipped. */
  function Transcript(ms: Messages): string {
    if ms == [] then [] else (if ms[0].runtime then [] else Line(ms[0])) + Transcript(ms[1..])
  }

  lemma {:induction false} TranscriptConcat(a: Messages, b: Messages)
    ensures Transcript(a + b) == Transcript(a) + Transcript(b)
  {
    if a == [] {
      assert a + b == b;
    } else {
      assert (a + b)[1..] == a[1..] + b;
      TranscriptConcat(a[1..], b);
    }
  }

  lemma TranscriptSnoc(ms: Messages, i: nat)
    requires i < |ms|
    ensures Transcript(ms[..i + 1]) == Transcript(ms[..i]) + if ms[i].runtime then [] else Line(ms[i])
  {
    assert ms[..i + 1] == ms[..i] + [ms[i]];
    TranscriptConcat(ms[..i], [ms[i]]);
    assert Transcript([ms[i]][1..]) == [];
  }

  /** Runtime messages leave no trace in the text to summarize. */
  lemma RuntimeUnseen(a: Messages, m: Message, b: Messages)
    requires m.runtime
    ensures Transcript(a + [m] + b) == Transcript(a + b)
  {
    TranscriptConcat(a + [m], b);
    TranscriptConcat(a, [m]);
    TranscriptConcat(a, b);
  }

  function Summary(text: string): Message {
    UserMessage(SummaryHeading() + text)
  }

  /** The tail that survives compression, behind a summary of the rest. */
  function Compressed(ms: Messages, chat: string -> Option<string>): Option<Messages> {
    if |ms| <= PRUNE_TURN_AGE then Some(ms)
    else
      var c := SafeCutoff(ms, |ms| - PRUNE_TURN_AGE);
      var summary := chat(Transcript(ms[..c]));
      if summary.None? then None else Some([Summary(summary.value)] + ms[c..])
  }

  method WriteTranscript(older: Messages) returns (text: string)
    ensures text == Transcript(older)
  {
    text := "";
    for i := 0 to |older|
      invariant text == Transcript(older[..i])
    {
      TranscriptSnoc(older, i);
      if older[i].runtime {
        continue;
      }
      text := text + Line(older[i]);
    }
    assert older[..|older|] == older;
  }

  method CompressOlderMessages(ms: Messages, chat: string -> Option<string>) returns (r: Option<Messages>)
    ensures r == Compressed(ms, chat)
  {
    if |ms| <= PRUNE_TURN_AGE {
      return Some(ms);
    }
    var cutoff := SafeCompactionCutoff(ms, |ms| - PRUNE_TURN_AGE);
    var text := WriteTranscript(ms[..cutoff]);
    var summary := chat(text);
    if summary.None? {
      return None;
    }
    r := Some([Summary(summary.value)] + ms[cutoff..]);
  }

  function Compacted(ms: Messages, chat: string -> Option<string>): Messages {
    if Tokens(ms) < TOKEN_THRESHOLD then ms
    else if Tokens(Pruned(ms)) < TOKEN_THRESHOLD then Pruned(ms)
    else if Compressed(Pruned(ms), chat).None? then Pruned(ms)
    else Compressed(Pruned(ms), chat).value
  }

  method CompactMessages(ms: Messages, chat: string -> Option<string>) returns (result: Messages, pruned: bool)
    ensures result == Compacted(ms, chat) && pruned == (Tokens(ms) >= TOKEN_THRESHOLD)
  {
    var tokens := EstimateTokens(ms);
    if tokens < TOKEN_THRESHOLD {
      return ms, false;
    }
    var shorter := PruneOldToolResults(ms);
    var prunedTokens := EstimateTokens(shorter);
    if prunedTokens < TOKEN_THRESHOLD {
      return shorter, true;
    }
    var compressed := CompressOlderMessages(shorter, chat);
    if compressed.None? {
      return shorter, true;
    }
    return compressed.value, true;
  }

  // ----- what compaction keeps -----

  /** The tail never begins with an answer whose question was summarized away, and a
      compressed history has at most PRUNE_TURN_AGE + 1 messages. */
  lemma CompressedShape(ms: Messages, chat: string -> Option<string>)
    requires |ms| > PRUNE_TURN_AGE && Compressed(ms, chat).Some?
    ensures var r := Compressed(ms, chat).value;
            && 1 <= |r| <= PRUNE_TURN_AGE + 1 && r[0].role.User?
            && (|r| > 1 ==> !r[1].role.Tool?)
            && r[1..] == ms[|ms| - |r[1..]|..]
  {
  }

  lemma ResolvedSuffix(ms: Messages, k: nat)
    requires Resolved(ms) && k <= |ms|
    ensures Resolved(ms[k..])
  {
    forall i | 0 <= i < |ms[k..]| && Asks(ms[k..][i]) ensures ResolvedAt(ms[k..], i) {
      assert ResolvedAt(ms, k + i) && ms[k..][i + 1..] == ms[k + i + 1..];
    }
  }

  lemma CompressedKeeps(ms: Messages, chat: string -> Option<string>)
    requires Compressed(ms, chat).Some?
    ensures Contiguous(ms) ==> Contiguous(Compressed(ms, chat).value)
    ensures Resolved(ms) ==> Resolved(Compressed(ms, chat).value)
  {
    if |ms| > PRUNE_TURN_AGE {
      var c := SafeCutoff(ms, |ms| - PRUNE_TURN_AGE);
      var head := [Compressed(ms, chat).value[0]];
      PlainContiguous(head);
      if Contiguous(ms) {
        ContiguousSuffix(ms, c);
        ContiguousConcat(head, ms[c..]);
      }
      if Resolved(ms) {
        ResolvedSuffix(ms, c);
        ResolvedConcat(head, ms[c..]);
      }
    }
  }

  /** Compaction keeps every answer right behind its question, and every question answered. */
  lemma CompactionKeepsPairing(ms: Messages, chat: string -> Option<string>)
    ensures Contiguous(ms) ==> Contiguous(Compacted(ms, chat))
    ensures Resolved(ms) ==> Resolved(Compacted(ms, chat))
  {
    PrunedAlike(ms);
    if Contiguous(ms) {
      AlikeContiguous(ms, Pruned(ms));
    }
    if Resolved(ms) {
      AlikeResolved(ms, Pruned(ms));
    }
    if Compressed(Pruned(ms), chat).Some? {
      CompressedKeeps(Pruned(ms), chat);
    }
  }

  lemma PrunedKeepsLast(ms: Messages)
    requires ms != []
    ensures |Pruned(ms)| == |ms| && Pruned(ms)[|ms| - 1] == ms[|ms| - 1]
  {
    if |ms| > PRUNE_TURN_AGE {
      PruneFirstAt(ms, |ms| - PRUNE_TURN_AGE, |ms| - 1);
    }
  }

  /** The message a turn has just appended survives verbatim, as the last one, on every branch. */
  lemma NewestSurvives(ms: Messages, m: Message, chat: string -> Option<string>)
    requires !m.role.Tool?
    ensures var r := Compacted(ms + [m], chat); r != [] && r[|r| - 1] == m
  {
    PrunedKeepsLast(ms + [m]);
  }

  // ----- where it does not help -----

  predicate AsksFor(m: Message, id: string) {
    Asks(m) && id in Ids(m.calls)
  }

  /** An answer without any earlier question for its id. */
  predicate Stray(ms: Messages, j: int) {
    0 <= j < |ms| && ms[j].role.Tool? && forall i :: 0 <= i < j ==> !AsksFor(ms[i], ms[j].callId)
  }

  /** The position of the last question for the id among the first `j` messages, or -1. */
  function LastQuestion(ms: Messages, id: string, j: nat): (q: int)
    requires j <= |ms|
    ensures -1 <= q < j && (q >= 0 ==> AsksFor(ms[q], id))
    ensures forall i :: q < i < j ==> !AsksFor(ms[i], id)
  {
    if j == 0 then -1 else if AsksFor(ms[j - 1], id) then j - 1 else LastQuestion(ms, id, j - 1)
  }

  /** Where the tail begins if the history is compressed. */
  function Cutoff(ms: Messages): (c: nat)
    requires |ms| > PRUNE_TURN_AGE
    ensures c <= |ms|
  {
    SafeCutoff(ms, |ms| - PRUNE_TURN_AGE)
  }

  /** Position `j` holds an answer, in the tail, whose last question is not. */
  predicate CutOff(ms: Messages, j: int)
    requires |ms| > PRUNE_TURN_AGE
  {
    Cutoff(ms) <= j < |ms| && ms[j].role.Tool? && LastQuestion(ms, ms[j].callId, j) < Cutoff(ms)
  }

  ghost predicate HasStray(ms: Messages) {
    exists j: nat :: Stray(ms, j)
  }

  ghost predicate HasCutOff(ms: Messages)
    requires |ms| > PRUNE_TURN_AGE
  {
    exists j: nat :: CutOff(ms, j)
  }

  /** Behind a message that asks nothing, an answer is stray exactly if no question for its id
      stands between. */
  lemma StrayBehind(head: Message, ms: Messages, c: nat, j: nat)
    requires !Asks(head) && c <= j < |ms|
    ensures Stray([head] + ms[c..], 1 + j - c) <==> ms[j].role.Tool? && LastQuestion(ms, ms[j].callId, j) < c
  {
    hide AsksFor, LastQuestion;
    var r, id := [head] + ms[c..], ms[j].callId;
    var q := LastQuestion(ms, id, j);
    assert r[1 + j - c] == ms[j];
    if q >= c {
      assert AsksFor(r[1 + q - c], id);
    } else {
      forall i | 0 <= i < 1 + j - c ensures !AsksFor(r[i], id) {
        if i == 0 {
          AsksNothing(head, id);
        } else {
          assert r[i] == ms[c + i - 1];
        }
      }
    }
  }

  lemma AsksNothing(m: Message, id: string)
    requires !Asks(m)
    ensures !AsksFor(m, id)
  {
  }

  lemma CompressedIs(ms: Messages, chat: string -> Option<string>)
    requires |ms| > PRUNE_TURN_AGE && Compressed(ms, chat).Some?
    ensures var r := Compressed(ms, chat).value; r != [] && !Asks(r[0]) && r == [r[0]] + ms[Cutoff(ms)..]
  {
    hide SafeCutoff, Transcript;
  }

  /** An answer of the tail is stray in the compressed history exactly if it is cut off. */
  lemma StrayIffCutOff(ms: Messages, chat: string -> Option<string>, j: nat)
    requires |ms| > PRUNE_TURN_AGE && Compressed(ms, chat).Some? && Cutoff(ms) <= j < |ms|
    ensures Stray(Compressed(ms, chat).value, 1 + j - Cutoff(ms)) <==> CutOff(ms, j)
  {
    hide Stray, LastQuestion, Cutoff, Compressed;
    CompressedIs(ms, chat);
    StrayBehind(Compressed(ms, chat).value[0], ms, Cutoff(ms), j);
  }

  lemma AlikeQuestions(a: Messages, b: Messages, id: string, j: nat)
    requires Alike(a, b) && j <= |a|
    ensures LastQuestion(a, id, j) == LastQuestion(b, id, j)
  {
    forall i | 0 <= i < j ensures AsksFor(a[i], id) == AsksFor(b[i], id) {
      assert SameShape(a[i], b[i]);
    }
  }

  lemma {:induction false} AlikeCutoff(a: Messages, b: Messages, cutoff: nat)
    requires Alike(a, b) && cutoff <= |a|
    ensures SafeCutoff(a, cutoff) == SafeCutoff(b, cutoff)
    decreases |a| - cutoff
  {
    if cutoff < |a| {
      assert SameShape(a[cutoff], b[cutoff]);
      AlikeCutoff(a, b, cutoff + 1);
    }
  }

  lemma AlikeStray(a: Messages, b: Messages, j: nat)
    requires Alike(a, b)
    ensures Stray(a, j) <==> Stray(b, j)
  {
    forall i | 0 <= i < |a| ensures forall id :: AsksFor(a[i], id) == AsksFor(b[i], id) {
      assert SameShape(a[i], b[i]);
    }
    if j < |a| {
      assert SameShape(a[j], b[j]);
    }
  }

  lemma AlikeCutOff(a: Messages, b: Messages, j: nat)
    requires Alike(a, b) && |a| > PRUNE_TURN_AGE
    ensures CutOff(a, j) <==> CutOff(b, j)
  {
    AlikeCutoff(a, b, |a| - PRUNE_TURN_AGE);
    if j < |a| {
      assert SameShape(a[j], b[j]);
      AlikeQuestions(a, b, a[j].callId, j);
    }
  }

  /** Compaction replaces older messages by a summary. */
  predicate Summarizes(ms: Messages, chat: string -> Option<string>) {
    && |ms| > PRUNE_TURN_AGE && Tokens(ms) >= TOKEN_THRESHOLD && Tokens(Pruned(ms)) >= TOKEN_THRESHOLD
    && Compressed(Pruned(ms), chat).Some?
  }

  /** For every history: where compaction summarizes, it leaves a stray answer exactly if the tail
      holds an answer whose last question lies before the cut; elsewhere it leaves one exactly
      if there was one. */
  lemma StraysAfterCompaction(ms: Messages, chat: string -> Option<string>)
    ensures HasStray(Compacted(ms, chat)) <==> if Summarizes(ms, chat) then HasCutOff(ms) else HasStray(ms)
  {
    hide Alike, Compacted, Stray, CutOff, Cutoff, Summarizes;
    if Summarizes(ms, chat) {
      StraysInSummary(ms, chat);
    } else {
      UnsummarizedAlike(ms, chat);
      forall j: nat ensures Stray(ms, j) <==> Stray(Compacted(ms, chat), j) {
        AlikeStray(ms, Compacted(ms, chat), j);
      }
    }
  }

  lemma UnsummarizedAlike(ms: Messages, chat: string -> Option<string>)
    requires !Summarizes(ms, chat)
    ensures Alike(ms, Compacted(ms, chat))
  {
    hide Tokens, SafeCutoff, Transcript;
    PrunedAlike(ms);
  }

  lemma SummarizesLong(ms: Messages, chat: string -> Option<string>)
    requires Summarizes(ms, chat)
    ensures |ms| > PRUNE_TURN_AGE
  {
  }

  lemma StraysInSummary(ms: Messages, chat: string -> Option<string>)
    requires Summarizes(ms, chat)
    ensures |ms| > PRUNE_TURN_AGE && (HasStray(Compacted(ms, chat)) <==> HasCutOff(ms))
  {
    hide Summarizes, Compacted, Stray, CutOff, Cutoff, Pruned;
    SummarizesLong(ms, chat);
    SameCutoff(ms);
    if HasStray(Compacted(ms, chat)) {
      var j: nat :| Stray(Compacted(ms, chat), j);
      StrayInSummary(ms, chat, j);
    }
    if HasCutOff(ms) {
      var j: nat :| CutOff(ms, j);
      CutOffRange(ms, j);
      StrayInSummary(ms, chat, j - Cutoff(ms) + 1);
    }
  }

  lemma StrayInSummary(ms: Messages, chat: string -> Option<string>, j: nat)
    requires Summarizes(ms, chat) && |Pruned(ms)| == |ms|
    ensures Stray(Compacted(ms, chat), j) <==> j > 0 && CutOff(ms, Cutoff(Pruned(ms)) + j - 1)
  {
    hide Tokens, Pruned, Compressed, Compacted, Alike, SafeCutoff, Stray, CutOff;
    var p, r := Pruned(ms), Compacted(ms, chat);
    PrunedAlike(ms);
    SummaryShape(ms, chat);
    StrayRange(r, j);
    if j > 0 {
      var k := Cutoff(p) + j - 1;
      AlikeCutOff(ms, p, k);
      CutOffRange(p, k);
      if k < |p| {
        StrayIffCutOff(p, chat, k);
      }
    }
  }

  lemma StrayRange(ms: Messages, j: nat)
    ensures Stray(ms, j) ==> j < |ms| && ms[j].role.Tool?
  {
  }

  lemma CutOffRange(ms: Messages, j: nat)
    requires |ms| > PRUNE_TURN_AGE
    ensures CutOff(ms, j) ==> Cutoff(ms) <= j < |ms|
  {
  }

  lemma SummaryShape(ms: Messages, chat: string -> Option<string>)
    requires Summarizes(ms, chat) && |Pruned(ms)| == |ms|
    ensures Compressed(Pruned(ms), chat).Some? && Compacted(ms, chat) == Compressed(Pruned(ms), chat).value
    ensures |Compacted(ms, chat)| == 1 + |ms| - Cutoff(Pruned(ms)) && Compacted(ms, chat)[0].role.User?
  {
    hide Tokens, Pruned, Transcript, SummaryHeading, SafeCutoff;
  }

  /** Answers that come late, as they do after loop detection: whatever stands before, between and
      behind, the late answer is stray after compaction exactly if the cut separates it from its
      question. */
  lemma LateAnswerLosesQuestion(
    older: Messages, ask: Message, between: Messages, late: Message, rest: Messages, chat: string -> Option<string>)
    requires Asks(ask) && NoAsks(between) && late.role.Tool? && Ids(ask.calls) == {late.callId}
    requires Summarizes(older + [ask] + (between + [late] + rest), chat)
    ensures var ms := older + [ask] + (between + [late] + rest);
            var c, p := Cutoff(ms), |older| + 1 + |between|;
            && (c <= p ==> (Stray(Compacted(ms, chat), 1 + p - c) <==> |older| < c))
            && (Resolved(older) && NoAsks(rest) ==> Resolved(ms))
  {
    hide Tokens, Pruned, Compressed, Compacted, Stray, SafeCutoff, Resolved, NoAsks, Asks;
    var ms := older + [ask] + (between + [late] + rest);
    var c, p := Cutoff(ms), |older| + 1 + |between|;
    if Resolved(older) && NoAsks(rest) {
      LateAnswerLeavesResolved(older, ask, between, late, rest);
    }
    if c <= p {
      SameCutoff(ms);
      StrayInSummary(ms, chat, 1 + p - c);
      LateAnswerAt(older, ask, between, late, rest);
    }
  }

  lemma SameCutoff(ms: Messages)
    requires |ms| > PRUNE_TURN_AGE
    ensures |Pruned(ms)| == |ms| && Cutoff(Pruned(ms)) == Cutoff(ms)
  {
    PrunedAlike(ms);
    AlikeCutoff(ms, Pruned(ms), |ms| - PRUNE_TURN_AGE);
  }

  lemma LateAnswerLeavesResolved(older: Messages, ask: Message, between: Messages, late: Message, rest: Messages)
    requires Resolved(older) && Asks(ask) && NoAsks(between) && NoAsks(rest)
    requires late.role.Tool? && Ids(ask.calls) == {late.callId}
    ensures Resolved(older + [ask] + (between + [late] + rest))
  {
    LateAnswerResolves(ask, between, late, rest);
    ResolvedConcat(older, [ask] + (between + [late] + rest));
    assert older + [ask] + (between + [late] + rest) == older + ([ask] + (between + [late] + rest));
  }

  lemma LateAnswerAt(older: Messages, ask: Message, between: Messages, late: Message, rest: Messages)
    requires Asks(ask) && NoAsks(between) && late.role.Tool? && Ids(ask.calls) == {late.callId}
    ensures var ms, p := older + [ask] + (between + [late] + rest), |older| + 1 + |between|;
            ms[p] == late && LastQuestion(ms, late.callId, p) == |older|
  {
    var ms, p := older + [ask] + (between + [late] + rest), |older| + 1 + |between|;
    assert ms[|older|] == ask;
    forall i | |older| < i < p ensures !Asks(ms[i]) {
      assert ms[i] == between[i - |older| - 1];
    }
    assert AsksFor(ask, late.callId);
  }

  lemma {:induction false} TokensAtLeast(ms: Messages, i: nat)
    requires i < |ms|
    ensures Tokens(ms) >= Size(ms[i].content) / 4
  {
    if i > 0 {
      TokensAtLeast(ms[1..], i - 1);
    }
  }

  /** It happens: a question cut off by loop detection, a long closing text, the late answer and
      seventeen further messages. Every call of that history has been answered, no answer in it
      is stray, and the compacted history holds a stray one. */
  lemma LateAnswerGetsLost(call: ToolCall, summary: string)
    ensures var ms := [AssistantMessage("", [call]), AssistantMessage(seq(320000, i => 'a'), []), ToolMessage(call, "")]
                      + seq(18, i => UserMessage(""));
            && Resolved(ms) && !Stray(ms, 2)
            && Stray(Compacted(ms, (t: string) => Some(summary)), 2)
  {
    var ask, big, late := AssistantMessage("", [call]), AssistantMessage(seq(320000, i => 'a'), []), ToolMessage(call, "");
    var rest := seq(18, i => UserMessage(""));
    var ms := [ask, big, late] + rest;
    var chat := (t: string) => Some(summary);
    assert ms == [] + [ask] + ([big] + [late] + rest);
    assert Ids(ask.calls) == {call.id} by { assert ask.calls[1..] == []; }
    assert NoAsks([big]) && NoAsks(rest);
    hide Summarizes, Compacted, Stray, Cutoff, Resolved, NoAsks;
    BigMessage(ms, 1, chat);
    LateAnswerLosesQuestion([], ask, [big], late, rest, chat);
    assert Cutoff(ms) == 1 by { CutoffAt(ms); }
    assert Resolved([]) by { EmptyResolved(); }
    NotStray(ms, 0, 2);
  }

  lemma EmptyResolved()
    ensures Resolved([])
  {
  }

  lemma NotStray(ms: Messages, i: nat, j: nat)
    requires i < j < |ms| && AsksFor(ms[i], ms[j].callId)
    ensures !Stray(ms, j)
  {
  }

  lemma CutoffAt(ms: Messages)
    requires |ms| > PRUNE_TURN_AGE && !ms[|ms| - PRUNE_TURN_AGE].role.Tool?
    ensures Cutoff(ms) == |ms| - PRUNE_TURN_AGE
  {
  }

  /** One message of 320000 bytes that is not a tool result is enough for a summary. */
  lemma BigMessage(ms: Messages, i: nat, chat: string -> Option<string>)
    requires i < |ms| && |ms| > PRUNE_TURN_AGE && |ms[i].content| >= 320000 && !ms[i].role.Tool?
    requires forall t :: chat(t).Some?
    ensures Summarizes(ms, chat)
  {
    PrunedAlike(ms);
    PruneFirstAt(ms, |ms| - PRUNE_TURN_AGE, i);
    assert Pruned(ms)[i] == ms[i];
    TokensAtLeast(ms, i);
    TokensAtLeast(Pruned(ms), i);
    hide Tokens, Pruned, Size;
  }

  lemma LateAnswerResolves(ask: Message, between: Messages, late: Message, rest: Messages)
    requires Asks(ask) && NoAsks(between) && NoAsks(rest) && late.role.Tool? && Ids(ask.calls) == {late.callId}
    ensures Resolved([ask] + (between + [late] + rest))
  {
    var tail := between + [late] + rest;
    AnsweredConcat(between + [late], rest);
    AnsweredConcat(between, [late]);
    assert ([ask] + tail)[1..] == tail;
    assert forall k :: 1 <= k < |tail| + 1 ==> ([ask] + tail)[k] == tail[k - 1];
  }

  // ----- what compaction changes -----

  /** The tail begins at the first message from the last twenty on that is no answer. */
  predicate TailFrom(ms: Messages, c: nat) {
    && |ms| - 20 <= c <= |ms| && (c < |ms| ==> !ms[c].role.Tool?)
    && forall k :: 0 <= k < c && |ms| - 20 <= k ==> ms[k].role.Tool?
  }

  /** The pruned history `p` becomes `r`: the tail stays behind a summary of what is before it, if
      the history is still too large, long enough, and the summarizer gives an answer. */
  ghost predicate Shortened(ms: Messages, p: Messages, r: Messages, chat: string -> Option<string>) {
    if Tokens(p) < 80000 || |ms| <= 20 then r == p
    else exists c: nat :: c <= |p| && TailFrom(ms, c) && SummaryOrAll(ms, p, r, chat, c)
  }

  predicate SummaryOrAll(ms: Messages, p: Messages, r: Messages, chat: string -> Option<string>, c: nat)
    requires c <= |p| && c <= |ms|
  {
    match chat(Transcript(p[..c]))
    case None => r == p
    case Some(text) => r == [Message(User, "[Conversation Summary]\n" + text, [], "", "", false)] + ms[c..]
  }

  /** The messages with every old, large tool result blanked. */
  predicate PrunedTo(ms: Messages, p: Messages) {
    |p| == |ms| && forall k: nat :: k < |ms| ==> PrunedAt(ms, p, k)
  }

  lemma PrunedTail(ms: Messages, c: nat)
    requires |ms| > 20 && |ms| - 20 <= c <= |ms|
    ensures |Pruned(ms)| == |ms| && Pruned(ms)[c..] == ms[c..]
  {
    hide Pruned;
    PruningIs(ms);
    forall k | c <= k < |ms| ensures Pruned(ms)[k] == ms[k] {
      assert PrunedAt(ms, Pruned(ms), k);
    }
  }

  lemma TailIs(ms: Messages)
    requires |ms| > 20
    ensures TailFrom(ms, Cutoff(ms)) && |Pruned(ms)| == |ms| && Cutoff(Pruned(ms)) == Cutoff(ms)
  {
    SameCutoff(ms);
  }

  lemma ShortenedIs(ms: Messages, chat: string -> Option<string>)
    requires |ms| > 20 && Tokens(Pruned(ms)) >= 80000
    ensures var r := if Compressed(Pruned(ms), chat).None? then Pruned(ms) else Compressed(Pruned(ms), chat).value;
            Shortened(ms, Pruned(ms), r, chat)
  {
    var p, c := Pruned(ms), Cutoff(ms);
    TailIs(ms);
    PrunedTail(ms, c);
    hide Pruned, TailFrom, Tokens, Transcript;
    var r := if Compressed(p, chat).None? then p else Compressed(p, chat).value;
    assert SummaryOrAll(ms, p, r, chat, c);
  }

  /** What compaction makes of a history: nothing below 80000 tokens, else the pruned messages,
      and, if these are still too many, a summary in front of the untouched tail. */
  lemma CompactionIs(ms: Messages, chat: string -> Option<string>)
    ensures if Tokens(ms) < 80000 then Compacted(ms, chat) == ms
            else exists p :: PrunedTo(ms, p) && Shortened(ms, p, Compacted(ms, chat), chat)
  {
    hide Pruned, Compressed, Tokens, PrunedAt;
    PruningIs(ms);
    assert PrunedTo(ms, Pruned(ms));
    if Tokens(ms) >= 80000 && Tokens(Pruned(ms)) >= 80000 {
      if |ms| > 20 {
        ShortenedIs(ms, chat);
      } else {
        ShortStays(ms, chat);
      }
    }
  }

  lemma ShortStays(ms: Messages, chat: string -> Option<string>)
    requires |ms| <= 20
    ensures Pruned(ms) == ms && Compressed(ms, chat) == Some(ms)
  {
  }

  // ----- what is estimated and what is summarized -----

  lemma {:induction false} TokensConcat(a: Messages, b: Messages)
    ensures Tokens(a + b) == Tokens(a) + Tokens(b)
  {
    if a == [] {
      assert a + b == b;
    } else {
      assert (a + b)[1..] == a[1..] + b;
      TokensConcat(a[1..], b);
    }
  }

  lemma {:induction false} CallTokensSnoc(calls: seq<ToolCall>, c: ToolCall)
    ensures CallTokens(calls + [c]) == CallTokens(calls) + Size(c.args) / 4 + Size(c.name) / 4
  {
    if calls == [] {
      assert [] + [c] == [c] && [c][1..] == [];
    } else {
      assert (calls + [c])[1..] == calls[1..] + [c];
      CallTokensSnoc(calls[1..], c);
    }
  }

  lemma {:induction false} SizeSnoc(s: string, c: char)
    ensures Size(s + [c]) == Size(s) + if c < '\U{80}' then 1 else if c < '\U{800}' then 2 else if c < '\U{10000}' then 3 else 4
  {
    if s == [] {
      assert [] + [c] == [c] && [c][1..] == [];
    } else {
      assert (s + [c])[1..] == s[1..] + [c];
      SizeSnoc(s[1..], c);
    }
  }

  /** The estimate is additive: each message counts a quarter of the bytes of its text, and each
      of its calls a quarter of those of its arguments and of its name, rounded down. */
  lemma TokensAre(ms: Messages, m: Message, c: ToolCall)
    ensures Tokens([]) == 0
    ensures m.calls == [] ==> Tokens(ms + [m]) == Tokens(ms) + Size(m.content) / 4
    ensures Tokens(ms + [m.(calls := m.calls + [c])]) == Tokens(ms + [m]) + Size(c.args) / 4 + Size(c.name) / 4
  {
    var m' := m.(calls := m.calls + [c]);
    TokensConcat(ms, [m]);
    TokensConcat(ms, [m']);
    CallTokensSnoc(m.calls, c);
    assert [m][1..] == [] && [m'][1..] == [];
  }

  /** The summarizer is shown one line for each message, its role in brackets and its text, in
      order, and nothing of runtime messages. */
  lemma TranscriptIs(ms: Messages, m: Message)
    ensures Transcript([]) == ""
    ensures m.runtime ==> Transcript(ms + [m]) == Transcript(ms)
    ensures !m.runtime ==>
              var role := match m.role case User => "user" case Assistant => "assistant" case System => "system" case Tool => "tool";
              Transcript(ms + [m]) == Transcript(ms) + ("[" + role + "] " + m.content + "\n")
  {
    TranscriptSnoc(ms + [m], |ms|);
    assert (ms + [m])[..|ms|] == ms && (ms + [m])[..|ms| + 1] == ms + [m];
    assert Transcript(ms) + [] == Transcript(ms);
  }
}
