/** Cutting long messages to a platform's size limit, on bytes as the source does
    (internal/channels/telegram.go, internal/channels/discord.go). */
module Chunkers {
  import opened Octets

  const NL: byte := 10

  predicate BreakAt(s: Bytes, i: int, n: nat) {
    0 <= i && i + n <= |s| && forall k :: i <= k < i + n ==> s[k] == NL
  }

  /** strings.LastIndex for a run of `n` newlines. */
  function LastBreak(s: Bytes, n: nat): (r: int)
    ensures r == -1 || 0 <= r <= |s| - n
  {
    LastBreakFrom(s, n, |s|)
  }

  function LastBreakFrom(s: Bytes, n: nat, from: int): (r: int)
    requires from >= -1
    ensures r == -1 || 0 <= r <= |s| - n
    decreases from + 1
  {
    if from < 0 || BreakAt(s, from, n) then from else LastBreakFrom(s, n, from - 1)
  }

  lemma {:induction false} LastBreakFromIsLast(s: Bytes, n: nat, from: int)
    requires -1 <= from
    ensures var r := LastBreakFrom(s, n, from);
            (r >= 0 ==> BreakAt(s, r, n)) && forall i :: r < i <= from ==> !BreakAt(s, i, n)
    decreases from + 1
  {
    if from >= 0 && !BreakAt(s, from, n) {
      LastBreakFromIsLast(s, n, from - 1);
    }
  }

  lemma LastBreakIsLast(s: Bytes, n: nat)
    ensures LastBreak(s, n) >= 0 ==> BreakAt(s, LastBreak(s, n), n)
    ensures forall i :: LastBreak(s, n) < i ==> !BreakAt(s, i, n)
  {
    LastBreakFromIsLast(s, n, |s|);
  }

  function Concat(chunks: seq<Bytes>): Bytes {
    if chunks == [] then [] else chunks[0] + Concat(chunks[1..])
  }

  lemma {:induction false} ConcatSnoc(chunks: seq<Bytes>, c: Bytes)
    ensures Concat(chunks + [c]) == Concat(chunks) + c
  {
    if chunks == [] {
      assert Concat([c]) == c + Concat([c][1..]);
    } else {
      assert (chunks + [c])[1..] == chunks[1..] + [c];
      ConcatSnoc(chunks[1..], c);
    }
  }

  // ----- Telegram -----

  const TELEGRAM_MAX: nat := 4096

  /** A chunk that is not the last one: it fills the limit only if the window holds no newline
      after its first byte; otherwise it ends right after the window's last paragraph break, or
      after its last newline if there is no paragraph break. */
  ghost predicate TelegramCut(chunk: Bytes, window: Bytes) {
    && chunk <= window && |window| == TELEGRAM_MAX
    && var para, line := LastBreak(window, 2), LastBreak(window, 1);
       if para > 0 then |chunk| == para + 2
       else if line > 0 then |chunk| == line + 1
       else |chunk| == TELEGRAM_MAX
  }

  ghost predicate TelegramCuts(chunks: seq<Bytes>, text: Bytes) {
    if |chunks| <= 1 then chunks == [text] && |text| <= TELEGRAM_MAX
    else
      && |text| > TELEGRAM_MAX && chunks[0] <= text && chunks[0] != []
      && TelegramCut(chunks[0], text[..TELEGRAM_MAX])
      && TelegramCuts(chunks[1..], text[|chunks[0]|..])
  }

  /** The pieces put together are exactly the text, and each respects the limit. */
  lemma {:induction false} TelegramCutsLossless(chunks: seq<Bytes>, text: Bytes)
    requires TelegramCuts(chunks, text)
    ensures Concat(chunks) == text
    ensures forall c :: c in chunks ==> |c| <= TELEGRAM_MAX
    ensures forall i :: 0 <= i < |chunks| - 1 ==>
              chunks[i] != [] && (|chunks[i]| == TELEGRAM_MAX || chunks[i][|chunks[i]| - 1] == NL)
  {
    if |chunks| <= 1 {
      assert Concat(chunks) == chunks[0] + Concat([]);
    } else {
      var c := chunks[0];
      TelegramCutsLossless(chunks[1..], text[|c|..]);
      assert text == c + text[|c|..];
      var window := text[..TELEGRAM_MAX];
      LastBreakIsLast(window, 1);
      LastBreakIsLast(window, 2);
      assert c == window[..|c|] && c[|c| - 1] == window[|c| - 1];
      forall i | 0 <= i < |chunks| - 1
        ensures chunks[i] != [] && (|chunks[i]| == TELEGRAM_MAX || chunks[i][|chunks[i]| - 1] == NL)
      {
        if i > 0 { assert chunks[i] == chunks[1..][i - 1]; }
      }
      forall d | d in chunks ensures |d| <= TELEGRAM_MAX {
        if d != c { assert d in chunks[1..]; }
      }
    }
  }

  method SplitTelegramMessage(message: Bytes) returns (chunks: seq<Bytes>)
    ensures TelegramCuts(chunks, message)
  {
    if |message| <= TELEGRAM_MAX {
      return [message];
    }
    chunks := [];
    var text := message;
    assert forall rest: seq<Bytes> :: [] + rest == rest;
    while |text| > 0
      invariant text != []
      invariant forall rest :: rest != [] && TelegramCuts(rest, text) ==> TelegramCuts(chunks + rest, message)
      decreases |text|
    {
      if |text| <= TELEGRAM_MAX {
        assert TelegramCuts([text], text);
        chunks := chunks + [text];
        break;
      }
      var cutAt := TELEGRAM_MAX;
      var idx := LastBreak(text[..TELEGRAM_MAX], 2);
      if idx > 0 {
        cutAt := idx + 2;
      } else {
        idx := LastBreak(text[..TELEGRAM_MAX], 1);
        if idx > 0 {
          cutAt := idx + 1;
        }
      }
      var chunk := text[..cutAt];
      assert chunk == text[..TELEGRAM_MAX][..cutAt];
      forall rest | rest != [] && TelegramCuts(rest, text[cutAt..])
        ensures TelegramCuts(chunks + [chunk] + rest, message)
      {
        assert ([chunk] + rest)[1..] == rest;
        assert TelegramCuts([chunk] + rest, text);
        assert chunks + [chunk] + rest == chunks + ([chunk] + rest);
      }
      chunks := chunks + [chunk];
      text := text[cutAt..];
    }
  }

  // ----- Discord -----

  const DISCORD_MAX: nat := 2000

  function TrimLeftNewlines(s: Bytes): (r: Bytes)
    ensures |r| <= |s|
  {
    if s != [] && s[0] == NL then TrimLeftNewlines(s[1..]) else s
  }

  function Newlines(n: nat): (s: Bytes)
    ensures |s| == n
  {
    if n == 0 then [] else [NL] + Newlines(n - 1)
  }

  lemma {:induction false} TrimLeftDropsNewlines(s: Bytes)
    ensures var r := TrimLeftNewlines(s); s == Newlines(|s| - |r|) + r && (r != [] ==> r[0] != NL)
  {
    if s != [] && s[0] == NL {
      TrimLeftDropsNewlines(s[1..]);
      assert s == [NL] + s[1..];
    }
  }

  /** The cut in a full window: its last paragraph break if that lies in the second half,
      else the last newline there, else the limit. */
  function DiscordCut(window: Bytes): (cut: nat)
    requires |window| == DISCORD_MAX
    ensures 1000 <= cut <= DISCORD_MAX
  {
    var para, line := LastBreak(window, 2), LastBreak(window, 1);
    if para >= 1000 then para else if line >= 1000 then line else DISCORD_MAX
  }

  function DiscordChunks(text: Bytes): seq<Bytes>
    decreases |text|
  {
    if text == [] then []
    else if |text| <= DISCORD_MAX then [text]
    else
      var cut := DiscordCut(text[..DISCORD_MAX]);
      [text[..cut]] + DiscordChunks(TrimLeftNewlines(text[cut..]))
  }

  /** The chunks with `gaps[i]` newlines put back after the i-th. */
  function Weave(chunks: seq<Bytes>, gaps: seq<nat>): Bytes
    requires |chunks| == |gaps|
  {
    if chunks == [] then [] else chunks[0] + Newlines(gaps[0]) + Weave(chunks[1..], gaps[1..])
  }

  /** Nothing but newlines at the cuts is lost: `gaps` says how many at each. */
  lemma {:induction false} DiscordLosesOnlyNewlines(text: Bytes) returns (gaps: seq<nat>)
    ensures |gaps| == |DiscordChunks(text)| && Weave(DiscordChunks(text), gaps) == text
    decreases |text|
  {
    hide LastBreak, DiscordCut, TrimLeftNewlines;
    if text == [] {
      gaps := [];
    } else if |text| <= DISCORD_MAX {
      gaps := [0];
      assert Weave([text], [0]) == text + Newlines(0) + Weave([text][1..], [0][1..]);
    } else {
      var cut := DiscordCut(text[..DISCORD_MAX]);
      var tail := text[cut..];
      var rest := TrimLeftNewlines(tail);
      var gaps' := DiscordLosesOnlyNewlines(rest);
      TrimLeftDropsNewlines(tail);
      gaps := [|tail| - |rest|] + gaps';
      WeaveCons(text[..cut], |tail| - |rest|, DiscordChunks(rest), gaps');
      assert text == text[..cut] + tail;
    }
  }

  lemma WeaveCons(c: Bytes, g: nat, chunks: seq<Bytes>, gaps: seq<nat>)
    requires |chunks| == |gaps|
    ensures Weave([c] + chunks, [g] + gaps) == c + (Newlines(g) + Weave(chunks, gaps))
  {
    assert ([c] + chunks)[1..] == chunks && ([g] + gaps)[1..] == gaps;
  }

  /** No chunk is empty or over the limit, every chunk but the last is at least half full,
      and no later chunk begins with a newline. */
  lemma {:induction false} DiscordChunkSizes(text: Bytes)
    ensures forall c :: c in DiscordChunks(text) ==> 0 < |c| <= DISCORD_MAX
    ensures forall i :: 0 <= i < |DiscordChunks(text)| - 1 ==> |DiscordChunks(text)[i]| >= 1000
    ensures forall i :: 0 < i < |DiscordChunks(text)| ==> DiscordChunks(text)[i] != [] && DiscordChunks(text)[i][0] != NL
    ensures text != [] ==> DiscordChunks(text) != [] && DiscordChunks(text)[0] != [] && DiscordChunks(text)[0][0] == text[0]
    decreases |text|
  {
    if |text| > DISCORD_MAX {
      var cut := DiscordCut(text[..DISCORD_MAX]);
      var rest := TrimLeftNewlines(text[cut..]);
      TrimLeftDropsNewlines(text[cut..]);
      DiscordChunkSizes(rest);
      assert DiscordChunks(text) == [text[..cut]] + DiscordChunks(rest);
      assert |text[..cut]| == cut && text[..cut][0] == text[0];
    }
  }

  lemma ChunkStep(text: Bytes)
    requires text != []
    ensures |text| <= DISCORD_MAX ==> DiscordChunks(text) == [text]
    ensures |text| > DISCORD_MAX ==>
              (var cut := DiscordCut(text[..DISCORD_MAX]);
               DiscordChunks(text) == [text[..cut]] + DiscordChunks(TrimLeftNewlines(text[cut..])))
  {
    hide DiscordCut, TrimLeftNewlines;
  }

  lemma Moved(out: seq<Bytes>, chunk: Bytes, rest: seq<Bytes>)
    ensures out + ([chunk] + rest) == (out + [chunk]) + rest
  {
  }

  method FindCut(window: Bytes) returns (cut: int)
    requires |window| == DISCORD_MAX
    ensures cut == DiscordCut(window)
  {
    hide LastBreak;
    cut := LastBreak(window, 2);
    if cut < 1000 {
      cut := LastBreak(window, 1);
    }
    if cut < 1000 {
      cut := DISCORD_MAX;
    }
  }

  method SplitDiscordMessage(message: Bytes) returns (out: seq<Bytes>)
    ensures out == if message == [] then [[]] else DiscordChunks(message)
  {
    if |message| <= DISCORD_MAX {
      return [message];
    }
    hide DiscordCut, TrimLeftNewlines, DiscordChunks;
    out := [];
    var text := message;
    while |text| > 0
      invariant out + DiscordChunks(text) == DiscordChunks(message)
      decreases |text|
    {
      ChunkStep(text);
      if |text| <= DISCORD_MAX {
        out := out + [text];
        return;
      }
      var cut := FindCut(text[..DISCORD_MAX]);
      Moved(out, text[..cut], DiscordChunks(TrimLeftNewlines(text[cut..])));
      out := out + [text[..cut]];
      text := TrimLeftNewlines(text[cut..]);
    }
  }

  // ----- where the cuts fall -----

  /** In a full window the cut falls on the last paragraph break at byte 1000 or later, else on the
      last newline there, else at the limit. */
  lemma DiscordCutIs(window: Bytes)
    requires |window| == 2000
    ensures var c := DiscordCut(window);
            if exists i :: 1000 <= i && BreakAt(window, i, 2) then
              BreakAt(window, c, 2) && forall i :: c < i ==> !BreakAt(window, i, 2)
            else if exists i :: 1000 <= i && BreakAt(window, i, 1) then
              BreakAt(window, c, 1) && forall i :: c < i ==> !BreakAt(window, i, 1)
            else c == 2000
  {
    hide LastBreak;
    LastBreakIsLast(window, 2);
    LastBreakIsLast(window, 1);
  }

  /** A long message is cut there, and the rest, without the newlines it begins with, is cut again. */
  lemma DiscordSteps(text: Bytes)
    ensures text != [] && |text| <= 2000 ==> DiscordChunks(text) == [text]
    ensures |text| > 2000 ==>
              var c := DiscordCut(text[..2000]);
              exists n: nat ::
                && c + n <= |text| && BreakAt(text, c, n) && !BreakAt(text, c + n, 1)
                && DiscordChunks(text) == [text[..c]] + DiscordChunks(text[c + n..])
  {
    if |text| > 2000 {
      var c := DiscordCut(text[..2000]);
      hide DiscordCut, TrimLeftNewlines, BreakAt;
      var n := GapAt(text, c);
      assert DiscordChunks(text) == [text[..c]] + DiscordChunks(TrimLeftNewlines(text[c..]));
    }
  }

  /** The newlines from position `c` on are what is trimmed there. */
  lemma GapAt(text: Bytes, c: nat) returns (n: nat)
    requires c <= |text|
    ensures c + n <= |text| && TrimLeftNewlines(text[c..]) == text[c + n..]
    ensures BreakAt(text, c, n) && !BreakAt(text, c + n, 1)
  {
    var tail := text[c..];
    var rest := TrimLeftNewlines(tail);
    n := |tail| - |rest|;
    TrimLeftDropsNewlines(tail);
    NewlinesAre(n);
    hide TrimLeftNewlines, Newlines;
    assert tail[n..] == rest && tail[..n] == Newlines(n);
    assert forall k :: 0 <= k < n ==> text[c + k] == tail[k] == tail[..n][k];
    assert text[c + n..] == rest;
  }

  lemma {:induction false} NewlinesAre(n: nat)
    ensures forall k :: 0 <= k < n ==> Newlines(n)[k] == 10
  {
    if n > 0 {
      NewlinesAre(n - 1);
    }
  }

  /** A Telegram chunk that is not the last one ends behind the last paragraph break of the first
      4096 bytes, else behind their last newline, a break at the very beginning not counted, else
      it is as long as that. */
  lemma TelegramCutIs(chunk: Bytes, window: Bytes)
    requires TelegramCut(chunk, window)
    ensures |window| == 4096 && chunk == window[..|chunk|]
    ensures if exists i :: 0 < i && BreakAt(window, i, 2) then
              BreakAt(window, |chunk| - 2, 2) && forall i :: |chunk| - 2 < i ==> !BreakAt(window, i, 2)
            else if exists i :: 0 < i && BreakAt(window, i, 1) then
              BreakAt(window, |chunk| - 1, 1) && forall i :: |chunk| - 1 < i ==> !BreakAt(window, i, 1)
            else |chunk| == 4096
  {
    hide LastBreak;
    LastBreakIsLast(window, 2);
    LastBreakIsLast(window, 1);
  }
}
