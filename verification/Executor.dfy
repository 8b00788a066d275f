/** Running one round of tool calls (internal/agent/sdkbridge.go) under the parallel cap
    (internal/agent/loop.go). The tool executor is arbitrary: it may answer in any order,
    answer twice, answer calls nobody made, or not answer at all. */
module Executor {
  import opened History
  import opened Options
  import opened Text

  datatype ToolOutput = ToolOutput(isError: bool, error: string, content: seq<string>)
  datatype Response = Response(toolUseId: string, result: Option<ToolOutput>, err: Option<string>)

  /** What a round records for one call. */
  datatype Outcome = Outcome(callId: string, name: string, text: string, err: Option<string>)

  function AnalyzeHint(): string { "[Analyze the error above and try a different approach.]" }
  function MissingText(): string { "no result" }
  function DeferredText(): string { "Deferred" }

  function NonEmpty(parts: seq<string>): seq<string> {
    if parts == [] then []
    else (if parts[0] == "" then [] else [parts[0]]) + NonEmpty(parts[1..])
  }

  function ErrorText(o: ToolOutput): string {
    if o.error == "" && o.content != [] then o.content[0] else o.error
  }

  function OutcomeOf(call: ToolCall, found: Option<Response>): Outcome {
    match found
    case None => Outcome(call.id, call.name, MissingText(), Some(call.id))
    case Some(resp) =>
      if resp.result.Some? && resp.result.value.isError then
        var text := ErrorText(resp.result.value);
        Outcome(resp.toolUseId, call.name, text + "\n" + AnalyzeHint(), Some(text))
      else
        var text := if resp.result.Some? then Join(NonEmpty(resp.result.value.content), "\n") else "";
        Outcome(resp.toolUseId, call.name, text, resp.err)
  }

  /** The last response that carries an id. */
  function LastResponse(rs: seq<Response>, id: string): (r: Option<Response>)
    ensures r.Some? ==> r.value in rs && r.value.toolUseId == id
    ensures r.None? ==> forall x :: x in rs ==> x.toolUseId != id
  {
    if rs == [] then None
    else if rs[|rs| - 1].toolUseId == id then Some(rs[|rs| - 1])
    else LastResponse(rs[..|rs| - 1], id)
  }

  function Outcomes(calls: seq<ToolCall>, rs: seq<Response>): (r: seq<Outcome>)
    ensures |r| == |calls|
  {
    if calls == [] then []
    else [OutcomeOf(calls[0], LastResponse(rs, calls[0].id))] + Outcomes(calls[1..], rs)
  }

  /** One outcome for each call, in the calls' order. */
  predicate Aligned(calls: seq<ToolCall>, results: seq<Outcome>) {
    && |results| == |calls|
    && forall k :: 0 <= k < |calls| ==> results[k].callId == calls[k].id && results[k].name == calls[k].name
  }

  ghost predicate Indexed(byId: map<string, Response>, rs: seq<Response>) {
    forall id :: (if id in byId then Some(byId[id]) else None) == LastResponse(rs, id)
  }

  method IndexResponses(responses: seq<Response>) returns (byId: map<string, Response>)
    ensures Indexed(byId, responses)
  {
    byId := map[];
    for k := 0 to |responses|
      invariant Indexed(byId, responses[..k])
    {
      assert responses[..k + 1][..k] == responses[..k];
      byId := byId[responses[k].toolUseId := responses[k]];
    }
    assert responses[..|responses|] == responses;
  }

  method ExecuteToolsConcurrently(calls: seq<ToolCall>, responses: seq<Response>) returns (results: seq<Outcome>)
    ensures results == Outcomes(calls, responses)
  {
    hide OutcomeOf, LastResponse;
    var byId := IndexResponses(responses);
    results := [];
    for i := 0 to |calls|
      invariant results + Outcomes(calls[i..], responses) == Outcomes(calls, responses)
    {
      var tc := calls[i];
      assert calls[i..][0] == tc && calls[i..][1..] == calls[i + 1..];
      var found := if tc.id in byId then Some(byId[tc.id]) else None;
      assert found == LastResponse(responses, tc.id);
      results := results + [OutcomeOf(tc, found)];
    }
  }

  lemma {:induction false} OutcomesAligned(calls: seq<ToolCall>, rs: seq<Response>)
    ensures Aligned(calls, Outcomes(calls, rs))
  {
    hide LastResponse, AnalyzeHint, MissingText, Join, NonEmpty;
    if calls != [] {
      OutcomesAligned(calls[1..], rs);
    }
  }

  lemma {:induction false} OutcomesAt(calls: seq<ToolCall>, rs: seq<Response>, k: nat)
    requires k < |calls|
    ensures Outcomes(calls, rs)[k] == OutcomeOf(calls[k], LastResponse(rs, calls[k].id))
  {
    if k > 0 {
      OutcomesAt(calls[1..], rs, k - 1);
    }
  }

  predicate DistinctIds(rs: seq<Response>) {
    forall i, j :: 0 <= i < j < |rs| ==> rs[i].toolUseId != rs[j].toolUseId
  }

  lemma {:induction false} SoleResponse(rs: seq<Response>, r: Response)
    requires DistinctIds(rs) && r in rs
    ensures LastResponse(rs, r.toolUseId) == Some(r)
  {
    var init, last := rs[..|rs| - 1], rs[|rs| - 1];
    if last != r {
      var i :| 0 <= i < |rs| && rs[i] == r;
      assert init[i] == r;
      SoleResponse(init, r);
    }
  }

  /** The order in which the executor answers does not matter. */
  lemma {:induction false} OrderIrrelevant(calls: seq<ToolCall>, a: seq<Response>, b: seq<Response>)
    requires DistinctIds(a) && DistinctIds(b) && multiset(a) == multiset(b)
    ensures Outcomes(calls, a) == Outcomes(calls, b)
  {
    if calls != [] {
      OrderIrrelevant(calls[1..], a, b);
      SameLast(a, b, calls[0].id);
    }
  }

  lemma SameLast(a: seq<Response>, b: seq<Response>, id: string)
    requires DistinctIds(a) && DistinctIds(b) && multiset(a) == multiset(b)
    ensures LastResponse(a, id) == LastResponse(b, id)
  {
    forall r ensures r in a <==> r in b {
      assert r in a <==> r in multiset(a);
      assert r in b <==> r in multiset(b);
    }
    if LastResponse(a, id).Some? {
      SoleResponse(b, LastResponse(a, id).value);
    }
  }

  // ----- the parallel cap -----

  /** How many of `n` calls run under the cap; a cap of zero or less is no cap. */
  function Executed(n: nat, cap: int): (e: nat)
    ensures e <= n
  {
    if cap > 0 && n > cap then cap else n
  }

  function Deferrals(calls: seq<ToolCall>): (r: seq<Outcome>)
    ensures |r| == |calls|
  {
    if calls == [] then []
    else [Outcome(calls[0].id, calls[0].name, DeferredText(), None)] + Deferrals(calls[1..])
  }

  function RoundOutcomes(calls: seq<ToolCall>, cap: int, rs: seq<Response>): (r: seq<Outcome>)
    ensures |r| == |calls|
  {
    var e := Executed(|calls|, cap);
    Outcomes(calls[..e], rs) + Deferrals(calls[e..])
  }

  lemma {:induction false} DeferralsAligned(calls: seq<ToolCall>)
    ensures Aligned(calls, Deferrals(calls))
    ensures forall k :: 0 <= k < |calls| ==> Deferrals(calls)[k].text == DeferredText() && Deferrals(calls)[k].err.None?
  {
    if calls != [] {
      DeferralsAligned(calls[1..]);
    }
  }

  /** Whatever the executor does, a round has exactly one outcome per call, in order. */
  lemma RoundAligned(calls: seq<ToolCall>, cap: int, rs: seq<Response>)
    ensures Aligned(calls, RoundOutcomes(calls, cap, rs))
  {
    var e := Executed(|calls|, cap);
    OutcomesAligned(calls[..e], rs);
    DeferralsAligned(calls[e..]);
    assert calls == calls[..e] + calls[e..];
  }

  method Defer(results: seq<Outcome>, deferredCalls: seq<ToolCall>) returns (all: seq<Outcome>)
    ensures all == results + Deferrals(deferredCalls)
  {
    all := results;
    for k := 0 to |deferredCalls|
      invariant all + Deferrals(deferredCalls[k..]) == results + Deferrals(deferredCalls)
    {
      var tc := deferredCalls[k];
      assert deferredCalls[k..][0] == tc && deferredCalls[k..][1..] == deferredCalls[k + 1..];
      all := all + [Outcome(tc.id, tc.name, DeferredText(), None)];
    }
  }

  /** The guard of the backstop for missing results is never true. */
  method RunRound(calls: seq<ToolCall>, cap: int, responses: seq<Response>) returns (results: seq<Outcome>)
    ensures results == RoundOutcomes(calls, cap, responses) && Aligned(calls, results)
  {
    hide Outcomes, Deferrals, Aligned;
    RoundAligned(calls, cap, responses);
    var executeCalls, deferredCalls := calls, [];
    if cap > 0 && |calls| > cap {
      executeCalls, deferredCalls := calls[..cap], calls[cap..];
    }
    assert executeCalls == calls[..Executed(|calls|, cap)] && deferredCalls == calls[Executed(|calls|, cap)..];
    results := ExecuteToolsConcurrently(executeCalls, responses);
    results := Defer(results, deferredCalls);
    if |results| < |calls| {
      assert false;
    }
  }

  // ----- telling failures -----

  function MetaSandboxPrefix(): string { "\U{1F}FC_META:sandbox\U{1F}\n" }

  /** The result text without the sandbox marker in front. */
  function ToolText(result: string): string {
    if MetaSandboxPrefix() <= result then result[|MetaSandboxPrefix()|..] else result
  }

  /** The text holds the pattern, looked for from the front. */
  predicate Mentions(s: string, pat: string): (b: bool)
    ensures b ==> |pat| <= |s|
  {
    pat <= s || (s != [] && Mentions(s[1..], pat))
  }

  lemma {:induction false} MentionsIsContains(s: string, pat: string)
    ensures Mentions(s, pat) <==> Contains(s, pat)
  {
    if s != [] && !(pat <= s) {
      var rest := s[1..];
      MentionsIsContains(rest, pat);
      forall i | 0 <= i <= |rest| ensures HasAt(rest, i, pat) == HasAt(s, i + 1, pat) {
        if i + |pat| <= |rest| {
          assert rest[i..i + |pat|] == s[i + 1..i + 1 + |pat|];
        }
      }
      assert !HasAt(s, 0, pat);
      if Contains(s, pat) {
        var k :| 0 <= k <= |s| && HasAt(s, k, pat);
        assert HasAt(rest, k - 1, pat);
      }
      if Contains(rest, pat) {
        var k :| 0 <= k <= |rest| && HasAt(rest, k, pat);
        assert HasAt(s, k + 1, pat);
      }
    } else if pat <= s {
      assert s[..|pat|] == pat && HasAt(s, 0, pat);
    } else {
      assert forall i :: 0 <= i <= 0 ==> !HasAt(s, i, pat);
    }
  }

  /** The text of a result reads as a failure. */
  predicate ReadsAsFailure(content: string) {
    var c := TrimSpace(content);
    "HTTP 4" <= c || "HTTP 5" <= c || Mentions(c, AnalyzeHint())
  }

  predicate IsFailedToolResult(err: Option<string>, content: string) {
    err.Some? || ReadsAsFailure(content)
  }

  predicate Failed(o: Outcome) {
    IsFailedToolResult(o.err, ToolText(o.text))
  }

  /** How a turn takes a result. One that fails by its text alone crashes the turn, which then
      asks the absent error for its message. */
  datatype Verdict = Fine | Errored | Crash

  function VerdictOf(o: Outcome): Verdict {
    if !Failed(o) then Fine else if o.err.Some? then Errored else Crash
  }

  function Verdicts(results: seq<Outcome>): (vs: seq<Verdict>)
    ensures |vs| == |results|
  {
    if results == [] then [] else [VerdictOf(results[0])] + Verdicts(results[1..])
  }

  lemma {:induction false} VerdictAt(results: seq<Outcome>, k: nat)
    requires k < |results|
    ensures Verdicts(results)[k] == VerdictOf(results[k])
  {
    hide Failed;
    if k > 0 {
      VerdictAt(results[1..], k - 1);
    }
  }

  method Classify(o: Outcome) returns (v: Verdict)
    ensures v == VerdictOf(o)
    ensures v.Errored? <==> o.err.Some?
    ensures v.Crash? <==> o.err.None? && ReadsAsFailure(ToolText(o.text))
  {
    var failed := IsFailedToolResult(o.err, ToolText(o.text));
    v := if !failed then Fine else if o.err.Some? then Errored else Crash;
  }

  // ----- which responses crash a turn -----

  /** The text blocks of a response put together. */
  function ResponseText(r: Response): string {
    if r.result.Some? then Join(NonEmpty(r.result.value.content), "\n") else ""
  }

  /** The executor reports no error for the call, in either place, but what it returns reads as
      a failure: it begins with "HTTP 4" or "HTTP 5", or holds the hint. */
  predicate CrashesOn(call: ToolCall, rs: seq<Response>) {
    var found := LastResponse(rs, call.id);
    && found.Some? && found.value.err.None?
    && !(found.value.result.Some? && found.value.result.value.isError)
    && ReadsAsFailure(ToolText(ResponseText(found.value)))
  }

  lemma CrashIff(call: ToolCall, rs: seq<Response>)
    ensures VerdictOf(OutcomeOf(call, LastResponse(rs, call.id))).Crash? <==> CrashesOn(call, rs)
  {
    hide ReadsAsFailure, LastResponse, Join, NonEmpty, ToolText, AnalyzeHint;
  }

  lemma VerdictInRound(calls: seq<ToolCall>, cap: int, rs: seq<Response>, k: nat)
    requires k < |calls|
    ensures Verdicts(RoundOutcomes(calls, cap, rs))[k].Crash? <==>
            k < Executed(|calls|, cap) && CrashesOn(calls[k], rs)
  {
    hide CrashesOn, Verdicts, VerdictOf, Failed, OutcomeOf;
    var e, results := Executed(|calls|, cap), RoundOutcomes(calls, cap, rs);
    VerdictAt(results, k);
    if k < e {
      OutcomesAt(calls[..e], rs, k);
      CrashIff(calls[k], rs);
    } else {
      DeferralsAligned(calls[e..]);
      assert results[k] == Deferrals(calls[e..])[k - e];
      DeferralFine(results[k]);
    }
  }

  lemma DeferralFine(o: Outcome)
    requires o.text == DeferredText() && o.err.None?
    ensures VerdictOf(o).Fine?
  {
    hide Failed;
    DeferralSucceeds(o);
  }

  /** A round holds a crashing result exactly if one of the calls that run is answered that way. */
  lemma RoundCrashesIff(calls: seq<ToolCall>, cap: int, rs: seq<Response>)
    ensures (exists k :: 0 <= k < |calls| && Verdicts(RoundOutcomes(calls, cap, rs))[k].Crash?) <==>
            exists k :: 0 <= k < Executed(|calls|, cap) && CrashesOn(calls[k], rs)
  {
    hide CrashesOn, Verdicts, RoundOutcomes;
    forall k | 0 <= k < |calls|
      ensures Verdicts(RoundOutcomes(calls, cap, rs))[k].Crash? <==> k < Executed(|calls|, cap) && CrashesOn(calls[k], rs)
    {
      VerdictInRound(calls, cap, rs, k);
    }
    if k :| 0 <= k < Executed(|calls|, cap) && CrashesOn(calls[k], rs) {
      assert Verdicts(RoundOutcomes(calls, cap, rs))[k].Crash?;
    }
  }

  /** A tool that prints "HTTP 404" crashes the turn. */
  lemma PrintedStatusCrashes(call: ToolCall)
    ensures CrashesOn(call, [Response(call.id, Some(ToolOutput(false, "", ["HTTP 404"])), None)])
  {
    var out := "HTTP 404";
    var r := Response(call.id, Some(ToolOutput(false, "", [out])), None);
    assert NonEmpty([out]) == [out] + NonEmpty([out][1..]) && [out][1..] == [];
    assert ResponseText(r) == out;
    assert out[0] == 'H' && out[7] == '4';
    TrimSpaceOf([], out, []);
    assert [] + out + [] == out;
    assert ToolText(out) == out;
  }

  /** None of the first `k` results is fine. */
  predicate NoneFine(vs: seq<Verdict>, k: nat)
    requires k <= |vs|
  {
    k == 0 || (!vs[k - 1].Fine? && NoneFine(vs, k - 1))
  }

  lemma {:induction false} NoneFineMeaning(vs: seq<Verdict>, k: nat)
    requires k <= |vs|
    ensures NoneFine(vs, k) <==> forall j :: 0 <= j < k ==> !vs[j].Fine?
  {
    if k > 0 {
      NoneFineMeaning(vs, k - 1);
    }
  }

  predicate AllFailed(vs: seq<Verdict>) {
    vs != [] && NoneFine(vs, |vs|)
  }

  /** A call the executor did not answer counts as failed. */
  lemma UnansweredFails(call: ToolCall, rs: seq<Response>)
    requires forall r :: r in rs ==> r.toolUseId != call.id
    ensures Failed(OutcomeOf(call, LastResponse(rs, call.id)))
  {
  }

  lemma DeferralSucceeds(o: Outcome)
    requires o.text == DeferredText() && o.err.None?
    ensures !Failed(o)
  {
    hide TrimSpace;
    var d := DeferredText();
    assert d[0] == 'D' && d[7] == 'd';
    assert ToolText(d) == d;
    TrimSpaceOf([], d, []);
    assert [] + d + [] == d;
    assert |AnalyzeHint()| > |d|;
  }

  /** A round that overflows the cap never counts as all failed, even if every call that
      ran did fail: its deferrals read as successes. */
  lemma OverflowNeverAllFailed(calls: seq<ToolCall>, cap: int, rs: seq<Response>)
    requires 0 < cap < |calls|
    ensures !AllFailed(Verdicts(RoundOutcomes(calls, cap, rs)))
  {
    OutcomesAligned(calls[..cap], rs);
    DeferralsAligned(calls[cap..]);
    var results := RoundOutcomes(calls, cap, rs);
    assert results[cap] == Deferrals(calls[cap..])[0];
    DeferralSucceeds(results[cap]);
    VerdictAt(results, cap);
    NoneFineMeaning(Verdicts(results), |results|);
  }
}
