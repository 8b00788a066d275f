/** Outbound replies: how the agent joins its text segments with the split marker
    (internal/agent/loop.go), how the channel manager cuts them into bubbles again
    (internal/channels/base.go) and hands them to an adapter (internal/channels/manager.go). */
module Outbound {
  import opened Text

  function Marker(): string { "<|split|>" }

  lemma MarkerShape()
    ensures |Marker()| == 9 && !IsSpace(Marker()[0]) && '\n' !in Marker() && BorderFree(Marker())
  {
    var m := Marker();
    assert m[0] == '<' && m[1] == '|' && m[2] == 's' && m[3] == 'p' && m[4] == 'l' && m[5] == 'i'
        && m[6] == 't' && m[7] == '|' && m[8] == '>';
    forall k | 0 < k < |m| ensures m[..k] != m[|m| - k..] {
      assert m[..k][0] == '<' && m[|m| - k..][0] == m[|m| - k];
    }
  }

  // ----- splitting and joining -----

  /** The non-blank parts, trimmed. */
  function TrimAll(parts: seq<string>): seq<string> {
    if parts == [] then []
    else (if TrimSpace(parts[0]) == "" then [] else [TrimSpace(parts[0])]) + TrimAll(parts[1..])
  }

  /** The bubbles a text is sent as. */
  function Bubbles(text: string): seq<string> {
    TrimAll(Split(text, Marker()))
  }

  lemma {:induction false} TrimAllConcat(a: seq<string>, b: seq<string>)
    ensures TrimAll(a + b) == TrimAll(a) + TrimAll(b)
  {
    if a == [] {
      assert a + b == b;
    } else {
      assert (a + b)[1..] == a[1..] + b;
      TrimAllConcat(a[1..], b);
    }
  }

  method SplitOutboundText(text: string) returns (out: seq<string>)
    ensures out == Bubbles(text)
  {
    var parts := Split(text, Marker());
    out := [];
    for k := 0 to |parts|
      invariant out == TrimAll(parts[..k])
    {
      assert parts[..k + 1] == parts[..k] + [parts[k]];
      TrimAllConcat(parts[..k], [parts[k]]);
      var p := TrimSpace(parts[k]);
      if p == "" {
        continue;
      }
      out := out + [p];
    }
    assert parts[..|parts|] == parts;
  }

  function NonBlank(parts: seq<string>): seq<string> {
    if parts == [] then []
    else (if TrimSpace(parts[0]) == "" then [] else [parts[0]]) + NonBlank(parts[1..])
  }

  lemma {:induction false} NonBlankConcat(a: seq<string>, b: seq<string>)
    ensures NonBlank(a + b) == NonBlank(a) + NonBlank(b)
  {
    if a == [] {
      assert a + b == b;
    } else {
      assert (a + b)[1..] == a[1..] + b;
      NonBlankConcat(a[1..], b);
    }
  }

  function Joined(parts: seq<string>): string {
    Join(NonBlank(parts), Marker())
  }

  method JoinReplyParts(parts: seq<string>) returns (reply: string)
    ensures reply == Joined(parts)
  {
    var out := [];
    for k := 0 to |parts|
      invariant out == NonBlank(parts[..k])
    {
      assert parts[..k + 1] == parts[..k] + [parts[k]];
      NonBlankConcat(parts[..k], [parts[k]]);
      if TrimSpace(parts[k]) != "" {
        out := out + [parts[k]];
      }
    }
    assert parts[..|parts|] == parts;
    if |out| == 0 {
      return "";
    }
    if |out| == 1 {
      return out[0];
    }
    reply := Join(out, Marker());
  }

  function FlatBubbles(parts: seq<string>): seq<string> {
    if parts == [] then [] else Bubbles(parts[0]) + FlatBubbles(parts[1..])
  }

  lemma BlankHasNoBubble(p: string)
    requires Blank(p)
    ensures Bubbles(p) == []
  {
    MarkerShape();
    forall i: nat ensures !HasAt(p, i, Marker()) {
      if i + |Marker()| <= |p| { assert p[i..i + |Marker()|][0] == p[i]; }
    }
    assert Split(p, Marker()) == [p] && [p][1..] == [];
    TrimSpaceBlank(p);
    assert TrimAll([p]) == TrimAll([p][1..]);
  }

  lemma {:induction false} BubblesOfJoin(parts: seq<string>)
    ensures Bubbles(Join(parts, Marker())) == FlatBubbles(parts)
  {
    if parts == [] {
      BlankHasNoBubble("");
    } else if |parts| == 1 {
      assert FlatBubbles(parts[1..]) == [];
    } else {
      var rest := Join(parts[1..], Marker());
      MarkerShape();
      SplitConcat(parts[0], Marker(), rest);
      TrimAllConcat(Split(parts[0], Marker()), Split(rest, Marker()));
      BubblesOfJoin(parts[1..]);
    }
  }

  lemma FlatBubblesCons(p: string, rest: seq<string>)
    ensures FlatBubbles([p] + rest) == Bubbles(p) + FlatBubbles(rest)
  {
    assert ([p] + rest)[1..] == rest;
  }

  lemma {:induction false} FlatBubblesNonBlank(parts: seq<string>)
    ensures FlatBubbles(NonBlank(parts)) == FlatBubbles(parts)
  {
    if parts != [] {
      var p, rest := parts[0], parts[1..];
      FlatBubblesNonBlank(rest);
      FlatBubblesCons(p, NonBlank(rest));
      TrimSpaceBlank(p);
      if Blank(p) {
        BlankHasNoBubble(p);
        assert NonBlank(parts) == NonBlank(rest);
      } else {
        assert NonBlank(parts) == [p] + NonBlank(rest);
      }
    }
  }

  /** Whatever segments the agent accumulated, joining them and splitting the reply gives
      exactly the bubbles of the segments, one after the other. */
  lemma SplitOfJoin(parts: seq<string>)
    ensures Bubbles(Joined(parts)) == FlatBubbles(parts)
  {
    BubblesOfJoin(NonBlank(parts));
    FlatBubblesNonBlank(parts);
  }

  // ----- dispatch -----

  datatype OutboundMessage = OutboundMessage(
    target: string, text: string, replyTo: string, editId: string,
    buttons: seq<string>, mediaPaths: seq<string>, mediaItems: seq<string>, allowSplit: bool)

  /** Everything of a message that must be delivered at most once. */
  function Extras(m: OutboundMessage): (string, string, seq<string>, seq<string>, seq<string>) {
    (m.replyTo, m.editId, m.buttons, m.mediaPaths, m.mediaItems)
  }

  const NO_EXTRAS: (string, string, seq<string>, seq<string>, seq<string>) := ("", "", [], [], [])

  /** An adapter records every message it is handed; `fails` decides, send by send,
      whether it reports an error. */
  class Adapter {
    const fails: nat -> bool
    var received: seq<OutboundMessage>

    constructor (fails: nat -> bool)
      ensures this.fails == fails && received == []
    {
      this.fails := fails;
      received := [];
    }

    method SendMessage(m: OutboundMessage) returns (ok: bool)
      modifies this
      ensures received == old(received) + [m]
      ensures ok == !fails(|old(received)|)
    {
      ok := !fails(|received|);
      received := received + [m];
    }
  }

  /** The messages dispatchOutbound hands over when no send fails. */
  function Plan(msg: OutboundMessage): seq<OutboundMessage> {
    if !Contains(msg.text, Marker()) then [msg]
    else if !msg.allowSplit then [msg.(text := ReplaceAll(msg.text, Marker(), "\n"))]
    else
      var chunks := Bubbles(msg.text);
      seq(|chunks|, i requires 0 <= i < |chunks| => ChunkMessage(msg, chunks[i], i == |chunks| - 1))
  }

  function ChunkMessage(msg: OutboundMessage, chunk: string, last: bool): OutboundMessage {
    if last then msg.(text := chunk)
    else msg.(text := chunk, mediaItems := [], mediaPaths := [], buttons := [], replyTo := "", editId := "")
  }

  /** How many of `n` sends starting at the adapter's `k`-th are attempted: up to and
      including the first that fails. */
  function Attempts(fails: nat -> bool, k: nat, n: nat): (r: nat)
    ensures r <= n
    ensures forall i: nat :: k <= i < k + r - 1 ==> !fails(i)
    ensures r < n ==> r > 0 && fails(k + r - 1)
    decreases n
  {
    if n == 0 then 0 else if fails(k) then 1 else 1 + Attempts(fails, k + 1, n - 1)
  }

  lemma {:induction false} AttemptsAre(fails: nat -> bool, k: nat, n: nat, r: nat)
    requires r <= n && forall i: nat :: k <= i < k + r - 1 ==> !fails(i)
    requires (r == n && (n > 0 ==> !fails(k + n - 1))) || (r > 0 && fails(k + r - 1))
    ensures Attempts(fails, k, n) == r
    decreases n
  {
    if n > 0 && !fails(k) {
      AttemptsAre(fails, k + 1, n - 1, r - 1);
    }
  }

  lemma PlanOfSplit(msg: OutboundMessage)
    requires msg.allowSplit && Contains(msg.text, Marker())
    ensures |Plan(msg)| == |Bubbles(msg.text)|
    ensures forall i :: 0 <= i < |Plan(msg)| ==>
              Plan(msg)[i] == ChunkMessage(msg, Bubbles(msg.text)[i], i == |Plan(msg)| - 1)
  {
  }

  method DispatchOutbound(ch: Adapter, msg: OutboundMessage)
    modifies ch
    ensures ch.received ==
            old(ch.received) + Plan(msg)[..Attempts(ch.fails, |old(ch.received)|, |Plan(msg)|)]
  {
    if !Contains(msg.text, Marker()) {
      var _ := ch.SendMessage(msg);
      return;
    }
    if !msg.allowSplit {
      var _ := ch.SendMessage(msg.(text := ReplaceAll(msg.text, Marker(), "\n")));
      return;
    }
    var chunks := SplitOutboundText(msg.text);
    PlanOfSplit(msg);
    hide Plan;
    SendChunks(ch, msg, chunks, Plan(msg));
  }

  /** The chunks go out in order until one fails; the extras travel with the last one only. */
  method SendChunks(ch: Adapter, msg: OutboundMessage, chunks: seq<string>, ghost plan: seq<OutboundMessage>)
    requires |plan| == |chunks|
    requires forall i :: 0 <= i < |chunks| ==> plan[i] == ChunkMessage(msg, chunks[i], i == |chunks| - 1)
    modifies ch
    ensures ch.received == old(ch.received) + plan[..Attempts(ch.fails, |old(ch.received)|, |plan|)]
  {
    var n0 := |ch.received|;
    for i := 0 to |chunks|
      invariant ch.received == old(ch.received) + plan[..i]
      invariant forall j: nat :: n0 <= j < n0 + i ==> !ch.fails(j)
    {
      var out := msg.(text := chunks[i]);
      if i < |chunks| - 1 {
        out := out.(mediaItems := [], mediaPaths := [], buttons := [], replyTo := "", editId := "");
      }
      assert out == plan[i] && plan[..i + 1] == plan[..i] + [plan[i]];
      var ok := ch.SendMessage(out);
      if !ok {
        AttemptsAre(ch.fails, n0, |plan|, i + 1);
        return;
      }
    }
    AttemptsAre(ch.fails, n0, |plan|, |plan|);
  }

  lemma {:induction false} JoinWithNewlinesFree(parts: seq<string>, sep: string)
    requires sep != [] && '\n' !in sep
    requires forall p :: p in parts ==> !Contains(p, sep)
    ensures !Contains(Join(parts, "\n"), sep)
  {
    if |parts| >= 2 {
      var p, rest := parts[0], Join(parts[1..], "\n");
      JoinWithNewlinesFree(parts[1..], sep);
      var s := p + "\n" + rest;
      forall i | 0 <= i <= |s| ensures !HasAt(s, i, sep) {
        if i + |sep| <= |p| {
          assert p in parts && !HasAt(p, i, sep);
          assert s[i..i + |sep|] == p[i..i + |sep|];
        } else if |p| < i && i + |sep| <= |s| {
          var j := i - |p| - 1;
          assert !HasAt(rest, j, sep);
          assert s[i..i + |sep|] == rest[j..j + |sep|];
        } else if i + |sep| <= |s| {
          assert s[i..i + |sep|][|p| - i] == '\n';
        }
      }
    }
  }

  lemma TrimmedPiece(p: string, sep: string)
    requires !Contains(p, sep)
    ensures !Contains(TrimSpace(p), sep)
  {
    var a, b := TrimSpaceMargins(p);
    SliceFree(p, a, b, sep);
  }

  lemma SubSlice(p: string, a: nat, b: nat, i: nat, j: nat)
    requires a <= b <= |p| && i <= j <= b - a
    ensures p[a..b][i..j] == p[a + i..a + j]
  {
    assert forall k :: 0 <= k < j - i ==> p[a..b][i..j][k] == p[a + i + k];
  }

  lemma SliceFree(p: string, a: nat, b: nat, sep: string)
    requires a <= b <= |p| && !Contains(p, sep)
    ensures !Contains(p[a..b], sep)
  {
    var c := p[a..b];
    forall i | 0 <= i <= |c| ensures !HasAt(c, i, sep) {
      assert !HasAt(p, a + i, sep);
      if i + |sep| <= |c| {
        SubSlice(p, a, b, i, i + |sep|);
      }
    }
  }

  lemma TrimmedTwice(p: string)
    ensures Trimmed(TrimSpace(p)) && (TrimSpace(p) != "" ==> !Blank(TrimSpace(p)))
  {
    var a, b := TrimSpaceMargins(p);
    if TrimSpace(p) != "" {
      assert !IsSpace(TrimSpace(p)[0]);
    }
  }

  lemma {:induction false} TrimAllPieces(parts: seq<string>, sep: string)
    requires forall p :: p in parts ==> !Contains(p, sep)
    ensures forall c :: c in TrimAll(parts) ==> !Contains(c, sep) && !Blank(c) && Trimmed(c)
  {
    hide Contains, Blank, Trimmed, TrimSpace;
    if parts != [] {
      TrimAllPieces(parts[1..], sep);
      assert parts[0] in parts;
      TrimmedPiece(parts[0], sep);
      TrimmedTwice(parts[0]);
    }
  }

  /** No adapter is ever handed the marker, whatever the text and the split setting. */
  lemma PlanHidesMarker(msg: OutboundMessage)
    ensures forall m :: m in Plan(msg) ==> !Contains(m.text, Marker())
  {
    var parts := Split(msg.text, Marker());
    MarkerShape();
    SplitPartsFree(msg.text, Marker());
    JoinWithNewlinesFree(parts, Marker());
    TrimAllPieces(parts, Marker());
  }

  /** On the split path the texts are the bubbles in order, every one of them non-blank,
      and only the last message carries the media, the buttons and the message ids. */
  lemma PlanShape(msg: OutboundMessage)
    ensures forall m :: m in Plan(msg) ==> m.target == msg.target
    ensures forall i :: 0 <= i < |Plan(msg)| - 1 ==> Extras(Plan(msg)[i]) == NO_EXTRAS
    ensures Plan(msg) != [] ==> Extras(Plan(msg)[|Plan(msg)| - 1]) == Extras(msg)
    ensures msg.allowSplit && Contains(msg.text, Marker()) ==>
              && |Plan(msg)| == |Bubbles(msg.text)|
              && forall i :: 0 <= i < |Plan(msg)| ==>
                               Plan(msg)[i].text == Bubbles(msg.text)[i] && !Blank(Plan(msg)[i].text)
  {
    SplitPartsFree(msg.text, Marker());
    TrimAllPieces(Split(msg.text, Marker()), Marker());
  }

  /** The media, buttons and ids of a message reach the adapter exactly when it is not split
      into nothing and every send but the last succeeds: a text of markers and white space
      loses them silently. */
  lemma ExtrasReachAdapter(msg: OutboundMessage, fails: nat -> bool, k: nat)
    requires Extras(msg) != NO_EXTRAS
    ensures (exists i :: 0 <= i < Attempts(fails, k, |Plan(msg)|) && Extras(Plan(msg)[i]) == Extras(msg)) <==>
            && !(msg.allowSplit && Contains(msg.text, Marker()) && Bubbles(msg.text) == [])
            && forall i: nat :: k <= i < k + |Plan(msg)| - 1 ==> !fails(i)
  {
    hide Contains, Bubbles, Marker, ReplaceAll, ChunkMessage;
    PlanShape(msg);
    var n := |Plan(msg)|;
    var r := Attempts(fails, k, n);
    if r == n && n > 0 {
      assert Extras(Plan(msg)[n - 1]) == Extras(msg);
    } else if r < n {
      assert fails(k + r - 1);
    }
  }

  lemma {:induction false} BlanksHaveNoBubble(gaps: seq<string>)
    requires forall g :: g in gaps ==> Blank(g)
    ensures FlatBubbles(gaps) == []
  {
    hide Blank, Bubbles;
    if gaps != [] {
      assert gaps[0] in gaps;
      BlankHasNoBubble(gaps[0]);
      BlanksHaveNoBubble(gaps[1..]);
    }
  }

  /** Such texts exist: the marker alone, or any number of markers with white space around them.
      No message at all is planned for them, so media, buttons and ids never leave. */
  lemma MarkersLoseExtras(msg: OutboundMessage, gaps: seq<string>)
    requires msg.allowSplit && |gaps| >= 2 && (forall g :: g in gaps ==> Blank(g)) && msg.text == Join(gaps, Marker())
    ensures Contains(msg.text, Marker()) && Plan(msg) == []
  {
    hide Blank, Bubbles, Marker, ReplaceAll, ChunkMessage;
    var rest := Join(gaps[1..], Marker());
    assert msg.text == gaps[0] + Marker() + rest;
    assert HasAt(msg.text, |gaps[0]|, Marker());
    BubblesOfJoin(gaps);
    BlanksHaveNoBubble(gaps);
  }

  // ----- which texts are sent -----

  /** A text without the marker is one bubble, trimmed, or none if it is blank; and a marker cuts a
      text in two, wherever it stands. */
  lemma BubblesAre(a: string, b: string)
    ensures Bubbles(a + "<|split|>" + b) == Bubbles(a) + Bubbles(b)
    ensures !Contains(a, "<|split|>") ==> Bubbles(a) == if TrimSpace(a) == "" then [] else [TrimSpace(a)]
  {
    MarkerShape();
    SplitConcat(a, Marker(), b);
    TrimAllConcat(Split(a, Marker()), Split(b, Marker()));
    if !Contains(a, Marker()) {
      WholeText(a, Marker());
      assert TrimAll([a]) == (if TrimSpace(a) == "" then [] else [TrimSpace(a)]) + TrimAll([a][1..]);
    }
  }

  lemma WholeText(s: string, sep: string)
    requires sep != [] && !Contains(s, sep)
    ensures Split(s, sep) == [s]
  {
    var i := Index(s, sep);
    assert i >= 0 ==> HasAt(s, i, sep);
  }

  /** The reply is made of the parts that are not blank, unchanged and in order, with the marker
      between them. */
  lemma JoinedIs(a: seq<string>, blank: string, b: seq<string>)
    requires TrimSpace(blank) == ""
    ensures Joined(a + [blank] + b) == Joined(a + b)
    ensures (forall p :: p in a ==> TrimSpace(p) != "") ==> Joined(a) == Join(a, "<|split|>")
  {
    NonBlankConcat(a + [blank], b);
    NonBlankConcat(a, [blank]);
    NonBlankConcat(a, b);
    assert NonBlank([blank]) == NonBlank([blank][1..]);
    assert NonBlank(a) + [] == NonBlank(a);
    if forall p :: p in a ==> TrimSpace(p) != "" {
      NothingBlank(a);
    }
  }

  lemma {:induction false} NothingBlank(parts: seq<string>)
    requires forall p :: p in parts ==> TrimSpace(p) != ""
    ensures NonBlank(parts) == parts
  {
    if parts != [] {
      assert parts[0] in parts;
      NothingBlank(parts[1..]);
      assert [parts[0]] + parts[1..] == parts;
    }
  }

  lemma Marked(msg: OutboundMessage, ps: seq<string>)
    requires ps != [] && msg.text == Join(ps, Marker()) && forall p :: p in ps ==> !Contains(p, Marker())
    ensures Contains(msg.text, Marker()) <==> |ps| > 1
    ensures ReplaceAll(msg.text, Marker(), "\n") == Join(ps, "\n")
  {
    MarkerShape();
    hide Marker, Contains;
    SplitOfJoinFree(ps, Marker());
    if |ps| > 1 {
      MarkerThere(ps[0], Join(ps[1..], Marker()));
    } else {
      assert ps[0] in ps;
    }
  }

  lemma MarkerThere(a: string, b: string)
    ensures Contains(a + Marker() + b, Marker())
  {
    hide Marker;
    assert HasAt(a + Marker() + b, |a|, Marker());
  }

  /** A message with this text; everything that is delivered once travels with the last. */
  predicate SentAs(msg: OutboundMessage, m: OutboundMessage, text: string, last: bool) {
    && m.text == text && m.target == msg.target && m.allowSplit == msg.allowSplit
    && m.replyTo == (if last then msg.replyTo else "") && m.editId == (if last then msg.editId else "")
    && m.buttons == (if last then msg.buttons else []) && m.mediaPaths == (if last then msg.mediaPaths else [])
    && m.mediaItems == (if last then msg.mediaItems else [])
  }

  lemma PlanOfChunks(msg: OutboundMessage)
    requires msg.allowSplit && Contains(msg.text, Marker())
    ensures |Plan(msg)| == |Bubbles(msg.text)|
    ensures forall i :: 0 <= i < |Plan(msg)| ==>
              SentAs(msg, Plan(msg)[i], Bubbles(msg.text)[i], i == |Plan(msg)| - 1)
  {
    hide Contains, Plan, Bubbles;
    PlanOfSplit(msg);
  }

  lemma PlanOfWhole(msg: OutboundMessage)
    ensures !Contains(msg.text, Marker()) ==> Plan(msg) == [msg]
    ensures Contains(msg.text, Marker()) && !msg.allowSplit ==>
              Plan(msg) == [msg.(text := ReplaceAll(msg.text, Marker(), "\n"))]
  {
    hide Contains, ReplaceAll;
  }

  /** What the adapter is handed: the message itself if it holds no marker; if it may not be split,
      the message with line breaks for the markers; else one message for each bubble. */
  lemma PlanIs(msg: OutboundMessage, ps: seq<string>)
    requires ps != [] && msg.text == Join(ps, "<|split|>") && forall p :: p in ps ==> !Contains(p, "<|split|>")
    ensures |ps| == 1 ==> Plan(msg) == [msg]
    ensures |ps| > 1 && !msg.allowSplit ==> Plan(msg) == [msg.(text := Join(ps, "\n"))]
    ensures |ps| > 1 && msg.allowSplit ==> |Plan(msg)| == |Bubbles(msg.text)|
    ensures |ps| > 1 && msg.allowSplit ==>
              forall i :: 0 <= i < |Plan(msg)| ==>
                SentAs(msg, Plan(msg)[i], Bubbles(msg.text)[i], i == |Plan(msg)| - 1)
  {
    assert Marker() == "<|split|>";
    hide Marker, Bubbles, Contains, Join, ReplaceAll, Plan, SentAs;
    Marked(msg, ps);
    PlanOfWhole(msg);
    if |ps| > 1 && msg.allowSplit {
      PlanOfChunks(msg);
    }
  }

  /** A message without the marker goes out once, as it is. */
  lemma SentAsItIs(msg: OutboundMessage)
    requires !Contains(msg.text, "<|split|>")
    ensures Plan(msg) == [msg]
  {
    hide Contains;
    PlanIs(msg, [msg.text]);
  }
}
