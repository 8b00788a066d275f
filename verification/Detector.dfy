/** Loop detection (internal/agent/loop.go and internal/agent/subagent.go): a counter of equal
    successive tool calls that runs across rounds and fires at the third in a row. */
module Detector {
  import opened History
  import opened Options

  /** What two calls must share to count as equal; the argument text stands for its hash. */
  datatype Sig = Sig(name: string, args: string)

  function Sigs(calls: seq<ToolCall>): seq<Sig> {
    if calls == [] then [] else [Sig(calls[0].name, calls[0].args)] + Sigs(calls[1..])
  }

  /** Three equal calls in a row, ending at position `k`. */
  predicate TripleAt(s: seq<Sig>, k: int) {
    2 <= k < |s| && s[k] == s[k - 1] && s[k - 1] == s[k - 2]
  }

  predicate HasTriple(s: seq<Sig>) {
    exists k :: 2 <= k < |s| && TripleAt(s, k)
  }

  /** How many equal calls the history ends with. */
  function Tail(s: seq<Sig>): (n: nat)
    ensures n <= |s|
  {
    if s == [] then 0
    else if |s| >= 2 && s[|s| - 1] == s[|s| - 2] then Tail(s[..|s| - 1]) + 1
    else 1
  }

  datatype Counter = Counter(lastSig: Option<Sig>, consecutive: nat)

  function CounterOf(s: seq<Sig>): Counter {
    Counter(if s == [] then None else Some(s[|s| - 1]), Tail(s))
  }

  /** The signatures of all tool calls in a history. */
  function CallsMade(ms: Messages): seq<Sig> {
    if ms == [] then [] else (if Asks(ms[0]) then Sigs(ms[0].calls) else []) + CallsMade(ms[1..])
  }

  lemma {:induction false} CallsMadeConcat(a: Messages, b: Messages)
    ensures CallsMade(a + b) == CallsMade(a) + CallsMade(b)
  {
    if a == [] {
      assert a + b == b;
    } else {
      assert (a + b)[1..] == a[1..] + b;
      CallsMadeConcat(a[1..], b);
    }
  }

  lemma {:induction false} NoCallsMade(ms: Messages)
    requires NoAsks(ms)
    ensures CallsMade(ms) == []
  {
    if ms != [] {
      NoCallsMade(ms[1..]);
    }
  }

  /** The counter reaches three exactly at a triple. */
  lemma {:induction false} TailIsTriple(s: seq<Sig>)
    ensures Tail(s) >= 3 <==> TripleAt(s, |s| - 1)
  {
    if |s| >= 3 {
      var t := s[..|s| - 1];
      var u := t[..|t| - 1];
      assert s[|s| - 2] == t[|t| - 1] && s[|s| - 3] == t[|t| - 2];
      assert Tail(t) == if t[|t| - 1] == t[|t| - 2] then Tail(u) + 1 else 1;
      assert Tail(u) >= 1;
    }
  }

  lemma TripleSnoc(s: seq<Sig>, x: Sig)
    requires !HasTriple(s)
    ensures HasTriple(s + [x]) <==> Tail(s + [x]) >= 3
  {
    var t := s + [x];
    TailIsTriple(t);
    if HasTriple(t) {
      var k :| 2 <= k < |t| && TripleAt(t, k);
      assert k < |s| ==> TripleAt(s, k);
    }
  }

  /** One step of the counter. */
  lemma CounterStep(s: seq<Sig>, x: Sig)
    ensures CounterOf(s + [x]).lastSig == Some(x)
    ensures CounterOf(s + [x]).consecutive == if CounterOf(s).lastSig == Some(x) then CounterOf(s).consecutive + 1 else 1
  {
    assert (s + [x])[..|s|] == s;
  }

  lemma TripleStays(s: seq<Sig>, t: seq<Sig>)
    requires HasTriple(s)
    ensures HasTriple(s + t)
  {
    var k :| 2 <= k < |s| && TripleAt(s, k);
    assert TripleAt(s + t, k);
  }

  lemma {:induction false} SigsConcat(a: seq<ToolCall>, b: seq<ToolCall>)
    ensures Sigs(a + b) == Sigs(a) + Sigs(b)
  {
    if a == [] {
      assert a + b == b;
    } else {
      assert (a + b)[1..] == a[1..] + b;
      SigsConcat(a[1..], b);
    }
  }

  lemma PrefixSigs(calls: seq<ToolCall>, k: nat)
    requires k < |calls|
    ensures Sigs(calls[..k + 1]) == Sigs(calls[..k]) + [Sig(calls[k].name, calls[k].args)]
  {
    assert calls[..k + 1] == calls[..k] + [calls[k]];
    SigsConcat(calls[..k], [calls[k]]);
  }

  lemma {:induction false} SigsAt(calls: seq<ToolCall>, k: nat)
    requires k < |calls|
    ensures |Sigs(calls)| == |calls| && Sigs(calls)[k] == Sig(calls[k].name, calls[k].args)
  {
    if |calls| > 1 {
      SigsAt(calls[1..], if k > 0 then k - 1 else 0);
    }
  }

  predicate Same(a: ToolCall, b: ToolCall) {
    a.name == b.name && a.args == b.args
  }

  /** Three calls in a row that differ at most in their ids. */
  predicate ThreeAlike(calls: seq<ToolCall>) {
    exists k :: 0 <= k < |calls| - 2 && AlikeAt(calls, k)
  }

  predicate AlikeAt(calls: seq<ToolCall>, k: int)
    requires 0 <= k < |calls| - 2
  {
    Same(calls[k], calls[k + 1]) && Same(calls[k + 1], calls[k + 2])
  }

  /** The detector looks for three calls of the same tool with the same arguments. */
  lemma TripleMeaning(calls: seq<ToolCall>)
    ensures HasTriple(Sigs(calls)) <==> ThreeAlike(calls)
  {
    var s := Sigs(calls);
    if calls != [] {
      SigsAt(calls, 0);
    }
    forall k | 0 <= k < |calls| ensures s[k] == Sig(calls[k].name, calls[k].args) {
      SigsAt(calls, k);
    }
    if k :| 2 <= k < |s| && TripleAt(s, k) {
      assert AlikeAt(calls, k - 2);
    }
    if k :| 0 <= k < |calls| - 2 && AlikeAt(calls, k) {
      assert TripleAt(s, k + 2);
    }
  }

  lemma SigsGrow(seen: seq<Sig>, calls: seq<ToolCall>, k: nat)
    requires k <= |calls|
    ensures seen + Sigs(calls) == seen + Sigs(calls[..k]) + Sigs(calls[k..])
  {
    assert calls == calls[..k] + calls[k..];
    SigsConcat(calls[..k], calls[k..]);
  }

  /** One round of calls is checked against everything seen before: the detector fires if and
      only if the calls made so far now hold three equal ones in a row. */
  method Observe(c: Counter, calls: seq<ToolCall>, ghost seen: seq<Sig>) returns (c': Counter, fired: bool)
    requires c == CounterOf(seen) && !HasTriple(seen)
    ensures fired <==> HasTriple(seen + Sigs(calls))
    ensures !fired ==> c' == CounterOf(seen + Sigs(calls))
  {
    c' := c;
    ghost var s := seen;
    assert seen + Sigs(calls[..0]) == seen;
    for k := 0 to |calls|
      invariant s == seen + Sigs(calls[..k])
      invariant c' == CounterOf(s) && !HasTriple(s)
    {
      var sig := Sig(calls[k].name, calls[k].args);
      CounterStep(s, sig);
      if c'.lastSig == Some(sig) {
        c' := c'.(consecutive := c'.consecutive + 1);
      } else {
        c' := Counter(Some(sig), 1);
      }
      TripleSnoc(s, sig);
      PrefixSigs(calls, k);
      s := s + [sig];
      if c'.consecutive >= 3 {
        assert s == seen + Sigs(calls[..k + 1]);
        SigsGrow(seen, calls, k + 1);
        TripleStays(s, Sigs(calls[k + 1..]));
        return c', true;
      }
    }
    assert calls[..|calls|] == calls;
    fired := false;
  }
}
