/** A chat session (internal/session/manager.go): its messages, and the buffer for steering
    messages that arrive while a turn is running. */
module Session {
  import opened History
  import Padding

  class Session {
    var Messages: Messages
    var turnDepth: nat
    var steerBuf: Messages
    ghost var accepted: Messages  // every steering message accepted so far
    ghost var taken: Messages     // those handed out again, in order

    /** No accepted steering message is lost or reordered, and none is left behind when no
        turn is running. */
    ghost predicate Valid()
      reads this
    {
      && accepted == taken + steerBuf
      && AllUsers(accepted)
      && (turnDepth == 0 ==> steerBuf == [])
    }

    constructor ()
      ensures Valid() && Messages == [] && turnDepth == 0 && accepted == []
    {
      Messages, turnDepth, steerBuf, accepted, taken := [], 0, [], [], [];
    }

    method Append(m: Message)
      modifies this`Messages
      ensures Messages == old(Messages) + [m]
    {
      Messages := Messages + [m];
    }

    method GetMessages() returns (ms: Messages)
      ensures ms == Messages
    {
      ms := Messages;
    }

    method ReplaceMessages(ms: Messages)
      modifies this`Messages
      ensures Messages == ms
    {
      Messages := ms;
    }

    method BeginTurn()
      requires Valid()
      modifies this`turnDepth
      ensures Valid() && turnDepth == old(turnDepth) + 1
    {
      turnDepth := turnDepth + 1;
    }

    method EndTurn() returns (leftover: Messages)
      requires Valid()
      modifies this`turnDepth, this`steerBuf, this`taken
      ensures Valid() && turnDepth == if old(turnDepth) > 0 then old(turnDepth) - 1 else 0
      ensures leftover == if turnDepth > 0 then [] else old(steerBuf)
      ensures taken == old(taken) + leftover && AllUsers(leftover) && steerBuf == if turnDepth > 0 then old(steerBuf) else []
    {
      if turnDepth > 0 {
        turnDepth := turnDepth - 1;
      }
      if turnDepth > 0 || |steerBuf| == 0 {
        return [];
      }
      AllUsersSuffix(taken, steerBuf);
      leftover := steerBuf;
      taken := taken + steerBuf;
      steerBuf := [];
    }

    method PushSteerIfActive(m: Message) returns (ok: bool)
      requires Valid() && m.role.User?
      modifies this`steerBuf, this`accepted
      ensures Valid() && ok == (turnDepth > 0)
      ensures accepted == old(accepted) + if ok then [m] else []
      ensures steerBuf == old(steerBuf) + if ok then [m] else []
    {
      if turnDepth == 0 {
        return false;
      }
      steerBuf := steerBuf + [m];
      accepted := accepted + [m];
      ok := true;
    }

    method DrainSteer() returns (drained: Messages)
      requires Valid()
      modifies this`steerBuf, this`taken
      ensures Valid() && steerBuf == [] && taken == old(taken) + drained && drained == old(steerBuf)
      ensures AllUsers(drained)
    {
      if |steerBuf| == 0 {
        return [];
      }
      AllUsersSuffix(taken, steerBuf);
      drained := steerBuf;
      taken := taken + steerBuf;
      steerBuf := [];
    }
  }

  method PadOrphanToolResults(sess: Session)
    modifies sess`Messages
    ensures sess.Messages == old(sess.Messages) + Padding.PadsFor(old(sess.Messages))
  {
    var msgs := sess.GetMessages();
    var lastAssistantIdx := -1;
    var i := |msgs| - 1;
    assert msgs[..|msgs|] == msgs;
    while i >= 0
      invariant -1 <= i < |msgs| && LastAsk(msgs[..i + 1]) == LastAsk(msgs) && lastAssistantIdx == -1
    {
      assert msgs[..i + 1][..i] == msgs[..i];
      if Asks(msgs[i]) {
        lastAssistantIdx := i;
        break;
      }
      i := i - 1;
    }
    if lastAssistantIdx < 0 {
      return;
    }
    var resolved := AnsweredAfter(msgs[lastAssistantIdx + 1..]);
    PadCalls(sess, msgs[lastAssistantIdx].calls, resolved);
  }

  method AnsweredAfter(rest: Messages) returns (resolved: set<string>)
    ensures resolved == Padding.RepliedIds(rest)
  {
    resolved := {};
    for k := 0 to |rest|
      invariant resolved == Padding.RepliedIds(rest[..k])
    {
      assert rest[..k + 1] == rest[..k] + [rest[k]];
      AnsweredConcat(rest[..k], [rest[k]]);
      if rest[k].role.Tool? && rest[k].callId != "" {
        resolved := resolved + {rest[k].callId};
      }
    }
    assert rest[..|rest|] == rest;
  }

  method PadCalls(sess: Session, calls: seq<ToolCall>, resolved: set<string>)
    modifies sess`Messages
    ensures sess.Messages == old(sess.Messages) + Padding.PadsOf(calls, resolved)
  {
    assert calls[..0] == [];
    for k := 0 to |calls|
      invariant sess.Messages == old(sess.Messages) + Padding.PadsOf(calls[..k], resolved)
    {
      assert calls[..k + 1] == calls[..k] + [calls[k]];
      Padding.PadsOfSnoc(calls[..k], calls[k], resolved);
      if calls[k].id in resolved {
        continue;
      }
      sess.Append(Padding.Pad(calls[k]));
    }
    assert calls[..|calls|] == calls;
  }
}
