/** The safety net that answers abandoned tool calls at the end of a turn
    (padOrphanToolResults, internal/agent/loop.go). */
module Padding {
  import opened History

  function Pad(call: ToolCall): Message {
    ToolMessage(call, "stopped")
  }

  /** The non-empty ids answered anywhere in the messages. */
  function RepliedIds(ms: Messages): set<string> {
    AnsweredIds(ms) - {""}
  }

  /** A pad for every call whose id is not among the answered ones. */
  function PadsOf(calls: seq<ToolCall>, replied: set<string>): Messages {
    if calls == [] then []
    else (if calls[0].id in replied then [] else [Pad(calls[0])]) + PadsOf(calls[1..], replied)
  }

  /** What the end of a turn appends: only the last message with tool calls is looked at. */
  function PadsFor(ms: Messages): Messages {
    PadsAt(ms, LastAsk(ms))
  }

  function PadsAt(ms: Messages, i: int): Messages
    requires -1 <= i < |ms|
  {
    if i < 0 then [] else PadsOf(ms[i].calls, RepliedIds(ms[i + 1..]))
  }

  lemma {:induction false} PadsOfExact(calls: seq<ToolCall>, replied: set<string>)
    ensures AllTools(PadsOf(calls, replied)) && AnsweredIds(PadsOf(calls, replied)) == Ids(calls) - replied
    ensures PadsOf(calls, replied) == [] <==> Ids(calls) <= replied
  {
    if calls != [] {
      var rest := PadsOf(calls[1..], replied);
      PadsOfExact(calls[1..], replied);
      if calls[0].id in replied {
        assert PadsOf(calls, replied) == rest;
      } else {
        assert PadsOf(calls, replied) == [Pad(calls[0])] + rest;
        assert ([Pad(calls[0])] + rest)[1..] == rest;
      }
    }
  }

  /** How many of the calls are not among the answered ones. */
  function Missing(calls: seq<ToolCall>, replied: set<string>): (n: nat)
    ensures n <= |calls|
  {
    if calls == [] then 0 else (if calls[0].id in replied then 0 else 1) + Missing(calls[1..], replied)
  }

  /** The pads follow the calls that they answer, one for each, with the name of the tool and the
      same notice. */
  lemma {:induction false} PadAt(calls: seq<ToolCall>, replied: set<string>, k: nat)
    requires k < |calls| && calls[k].id !in replied
    ensures var pads, j := PadsOf(calls, replied), Missing(calls[..k], replied);
            && j < |pads| == Missing(calls, replied)
            && pads[j] == Message(Tool, "stopped", [], calls[k].id, calls[k].name, false)
  {
    PadCount(calls, replied);
    if k > 0 {
      PadAt(calls[1..], replied, k - 1);
      assert calls[..k][1..] == calls[1..][..k - 1];
    }
  }

  lemma {:induction false} PadCount(calls: seq<ToolCall>, replied: set<string>)
    ensures |PadsOf(calls, replied)| == Missing(calls, replied)
  {
    if calls != [] {
      PadCount(calls[1..], replied);
    }
  }

  lemma {:induction false} PadsOfSnoc(calls: seq<ToolCall>, c: ToolCall, replied: set<string>)
    ensures PadsOf(calls + [c], replied) == PadsOf(calls, replied) + PadsOf([c], replied)
  {
    var all := calls + [c];
    if calls == [] {
      assert all == [c];
    } else {
      var rest := calls[1..];
      assert all[1..] == rest + [c] && all[0] == calls[0];
      PadsOfSnoc(rest, c, replied);
      if calls[0].id in replied {
        assert PadsOf(all, replied) == PadsOf(rest + [c], replied);
      } else {
        assert PadsOf(all, replied) == [Pad(calls[0])] + PadsOf(rest + [c], replied);
      }
    }
  }

  /** What the messages after the last question answer once the pads are there. */
  lemma RepliedAfterPads(calls: seq<ToolCall>, rest: Messages)
    ensures var all := rest + PadsOf(calls, RepliedIds(rest));
            Ids(calls) <= AnsweredIds(all) && RepliedIds(all) == RepliedIds(rest) + (Ids(calls) - {""})
  {
    var ps := PadsOf(calls, RepliedIds(rest));
    PadsOfExact(calls, RepliedIds(rest));
    AnsweredConcat(rest, ps);
  }

  lemma PadsAreTools(ms: Messages)
    ensures AllTools(PadsFor(ms))
  {
    var i := LastAsk(ms);
    if i >= 0 {
      PadsOfExact(ms[i].calls, RepliedIds(ms[i + 1..]));
    }
  }

  lemma LastAskPadded(ms: Messages)
    ensures NoAsks(PadsFor(ms)) && LastAsk(ms + PadsFor(ms)) == LastAsk(ms)
  {
    var i := LastAsk(ms);
    if i >= 0 {
      PadsOfExact(ms[i].calls, RepliedIds(ms[i + 1..]));
    }
    LastAskKept(ms, PadsAt(ms, i));
  }

  lemma PadResolvesLast(ms: Messages, i: int)
    requires 0 <= i < |ms|
    ensures ResolvedAt(ms + PadsAt(ms, i), i)
  {
    var ps := PadsAt(ms, i);
    assert (ms + ps)[i + 1..] == ms[i + 1..] + ps;
    RepliedAfterPads(ms[i].calls, ms[i + 1..]);
  }

  lemma PadResolvesAt(ms: Messages, k: nat)
    requires OnlyLastOpen(ms) && k < |ms + PadsFor(ms)|
    ensures Asks((ms + PadsFor(ms))[k]) ==> ResolvedAt(ms + PadsFor(ms), k)
  {
    var i := LastAsk(ms);
    if k < i {
      if Asks(ms[k]) {
        ResolvedAtGrows(ms, PadsFor(ms), k);
      }
    } else if k == i {
      PadResolvesLast(ms, i);
    } else {
      LastAskPadded(ms);
      AskBeforeLast(ms + PadsFor(ms), k);
    }
  }

  /** Padding closes the history whenever only its last question may be open. */
  lemma PadResolves(ms: Messages)
    requires OnlyLastOpen(ms)
    ensures Resolved(ms + PadsFor(ms))
  {
    forall k | 0 <= k < |ms + PadsFor(ms)| && Asks((ms + PadsFor(ms))[k])
      ensures ResolvedAt(ms + PadsFor(ms), k)
    {
      PadResolvesAt(ms, k);
    }
  }

  lemma PadAgainAt(ms: Messages, i: int)
    requires 0 <= i < |ms|
    ensures PadsAt(ms + PadsAt(ms, i), i) == [] <==> "" !in Ids(ms[i].calls)
  {
    var ps, calls, rest := PadsAt(ms, i), ms[i].calls, ms[i + 1..];
    assert (ms + ps)[i + 1..] == rest + ps && (ms + ps)[i] == ms[i];
    RepliedAfterPads(calls, rest);
    PadsOfExact(calls, RepliedIds(rest + ps));
  }

  /** Padding a second time adds nothing exactly if the last question has no empty id: a call
      with an empty id is never recognised as answered and is padded again at every turn end. */
  lemma PadTwice(ms: Messages)
    ensures PadsFor(ms + PadsFor(ms)) == [] <==> LastAsk(ms) < 0 || "" !in Ids(ms[LastAsk(ms)].calls)
  {
    LastAskPadded(ms);
    if LastAsk(ms) >= 0 {
      PadAgainAt(ms, LastAsk(ms));
    }
  }

  /** It happens: a session whose only question has no id grows with every turn end. */
  lemma PadComesAgain(name: string, args: string)
    ensures var ms := [AssistantMessage("", [ToolCall("", name, args)])];
            PadsFor(ms) != [] && PadsFor(ms + PadsFor(ms)) != []
  {
    var call := ToolCall("", name, args);
    var ms := [AssistantMessage("", [call])];
    PadsOfExact([call], {});
    assert Ids([call]) == {""} + Ids([call][1..]);
    assert LastAsk(ms) == 0 && ms[1..] == [];
    PadTwice(ms);
  }

  lemma {:induction false} RunIdsReplied(ms: Messages)
    ensures RunIds(ms) <= RepliedIds(ms)
  {
    if ms != [] && ms[0].role.Tool? {
      RunIdsReplied(ms[1..]);
    }
  }

  /** A contiguous history needs no padding. */
  lemma ContiguousNeedsNoPad(ms: Messages)
    requires Contiguous(ms)
    ensures PadsFor(ms) == []
  {
    var i := LastAsk(ms);
    if i >= 0 {
      assert RunAnswers(ms, i);
      RunIdsReplied(ms[i + 1..]);
      PadsOfExact(ms[i].calls, RepliedIds(ms[i + 1..]));
    }
  }

  lemma SettledStays(calls: seq<ToolCall>, a: Messages, b: Messages)
    requires PadsOf(calls, RepliedIds(a)) == []
    ensures PadsOf(calls, RepliedIds(a + b)) == []
  {
    AnsweredConcat(a, b);
    PadsOfExact(calls, RepliedIds(a));
    PadsOfExact(calls, RepliedIds(a + b));
  }

  lemma PadsOfNewQuestion(a: Messages, b: Messages)
    requires LastAsk(b) >= 0
    ensures PadsFor(a + b) == PadsFor(b)
  {
    hide PadsOf;
    var i := LastAsk(b);
    NothingAfterLastAsk(b);
    assert a + b == a + b[..i] + [b[i]] + b[i + 1..];
    LastAskIs(a + b[..i], b[i], b[i + 1..]);
    assert (a + b)[|a| + i + 1..] == b[i + 1..];
  }

  lemma NoPadsWithoutQuestion(a: Messages, b: Messages)
    requires PadsFor(a) == [] && NoAsks(b)
    ensures PadsFor(a + b) == []
  {
    hide PadsOf;
    var k := LastAsk(a);
    LastAskKept(a, b);
    if k >= 0 {
      assert (a + b)[k + 1..] == a[k + 1..] + b;
      SettledStays(a[k].calls, a[k + 1..], b);
    }
  }

  /** Behind a history that needs no padding, what is padded depends on what was appended only. */
  lemma PadsAreLocal(a: Messages, b: Messages)
    requires PadsFor(a) == []
    ensures PadsFor(a + b) == PadsFor(b)
  {
    if LastAsk(b) >= 0 {
      PadsOfNewQuestion(a, b);
    } else {
      NothingAfterLastAsk(b);
      assert b[0..] == b;
      NoPadsWithoutQuestion(a, b);
    }
  }

  lemma PaddedRound(ask: Message, ts: Messages)
    requires Asks(ask) && "" !in Ids(ask.calls) && AnswersInOrder(ts, ask.calls)
    ensures Contiguous([ask] + (ts + PadsOf(ask.calls, RepliedIds(ts))))
  {
    var ps := PadsOf(ask.calls, RepliedIds(ts));
    PadsOfExact(ask.calls, RepliedIds(ts));
    AnswersInOrderIds(ts, ask.calls);
    AnsweredConcat(ts, ps);
    RoundContiguous(ask, ts + ps);
  }

  /** A question whose answers break off is completed on the spot: the result is contiguous. */
  lemma PadAfterPartialRound(pre: Messages, ask: Message, ts: Messages)
    requires Contiguous(pre) && Asks(ask) && "" !in Ids(ask.calls) && AnswersInOrder(ts, ask.calls)
    ensures var ms := pre + [ask] + ts; Contiguous(ms + PadsFor(ms))
  {
    var ms, ps := pre + [ask] + ts, PadsOf(ask.calls, RepliedIds(ts));
    LastAskIs(pre, ask, ts);
    assert ms[|pre| + 1..] == ts && ms[|pre|] == ask;
    PaddedRound(ask, ts);
    ContiguousConcat(pre, [ask] + (ts + ps));
    assert ms + ps == pre + ([ask] + (ts + ps));
  }
}
