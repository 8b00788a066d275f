/** The string operations of the Go standard library that the modelled code relies on,
    over sequences of code points, with the laws the other modules need. */
module Text {

  /** The white space that strings.TrimSpace removes (unicode.IsSpace). */
  predicate IsSpace(c: char) {
    || '\t' <= c <= '\r' || c == ' ' || c == '\U{85}' || c == '\U{A0}' || c == '\U{1680}'
    || '\U{2000}' <= c <= '\U{200A}' || c == '\U{2028}' || c == '\U{2029}'
    || c == '\U{202F}' || c == '\U{205F}' || c == '\U{3000}'
  }

  function TrimLeft(s: string): string {
    if s != [] && IsSpace(s[0]) then TrimLeft(s[1..]) else s
  }

  function TrimRight(s: string): string {
    if s != [] && IsSpace(s[|s| - 1]) then TrimRight(s[..|s| - 1]) else s
  }

  function TrimSpace(s: string): string {
    TrimRight(TrimLeft(s))
  }

  predicate Blank(s: string) {
    forall i :: 0 <= i < |s| ==> IsSpace(s[i])
  }

  /** A string that TrimSpace would leave alone. */
  predicate Trimmed(s: string) {
    s != [] ==> !IsSpace(s[0]) && !IsSpace(s[|s| - 1])
  }

  lemma {:induction false} TrimLeftMargin(s: string) returns (a: nat)
    ensures a <= |s| && TrimLeft(s) == s[a..] && (a < |s| ==> !IsSpace(s[a]))
    ensures forall i :: 0 <= i < a ==> IsSpace(s[i])
  {
    a := 0;
    if s != [] && IsSpace(s[0]) {
      var a' := TrimLeftMargin(s[1..]);
      a := a' + 1;
      assert s[1..][a'..] == s[a..];
      assert forall i :: 1 <= i < a ==> s[i] == s[1..][i - 1];
    }
  }

  lemma {:induction false} TrimRightMargin(s: string) returns (b: nat)
    ensures b <= |s| && TrimRight(s) == s[..b] && (b > 0 ==> !IsSpace(s[b - 1]))
    ensures forall i :: b <= i < |s| ==> IsSpace(s[i])
  {
    b := |s|;
    if s != [] && IsSpace(s[|s| - 1]) {
      b := TrimRightMargin(s[..|s| - 1]);
      assert s[..|s| - 1][..b] == s[..b];
    }
  }

  /** TrimSpace cuts a blank margin off each side and nothing else. */
  lemma TrimSpaceMargins(s: string) returns (a: nat, b: nat)
    ensures a <= b <= |s| && TrimSpace(s) == s[a..b] && Trimmed(TrimSpace(s))
    ensures forall i :: 0 <= i < a || b <= i < |s| ==> IsSpace(s[i])
  {
    a := TrimLeftMargin(s);
    var l := s[a..];
    var b' := TrimRightMargin(l);
    b := a + b';
    assert s[a..b] == l[..b'];
    assert forall i :: b <= i < |s| ==> s[i] == l[i - a];
  }

  lemma TrimSpaceBlank(s: string)
    ensures TrimSpace(s) == [] <==> Blank(s)
  {
    var a, b := TrimSpaceMargins(s);
    assert TrimSpace(s) != [] ==> TrimSpace(s)[0] == s[a];
  }

  /** Blank margins around a trimmed core are removed exactly. */
  lemma TrimSpaceOf(pre: string, core: string, post: string)
    requires Blank(pre) && Blank(post) && Trimmed(core)
    ensures TrimSpace(pre + core + post) == core
  {
    var s := pre + core + post;
    var a, b := TrimSpaceMargins(s);
    TrimSpaceBlank(s);
    if core != [] {
      var e := |pre| + |core|;
      assert !IsSpace(s[|pre|]) && !IsSpace(s[e - 1]);
      assert a <= |pre| && e <= b;
      assert TrimSpace(s)[0] == s[a] && TrimSpace(s)[b - a - 1] == s[b - 1];
      assert forall i :: 0 <= i < |pre| ==> s[i] == pre[i];
      assert forall i :: e <= i < |s| ==> s[i] == post[i - e];
      assert s[a..b] == core;
    }
  }

  predicate HasAt(s: string, i: int, pat: string) {
    0 <= i && i + |pat| <= |s| && s[i..i + |pat|] == pat
  }

  predicate Contains(s: string, pat: string) {
    exists i :: 0 <= i <= |s| && HasAt(s, i, pat)
  }

  /** strings.Index from position `from`: the first occurrence, or -1. */
  function IndexFrom(s: string, pat: string, from: nat): (r: int)
    requires from <= |s|
    ensures r >= 0 ==> r >= from && HasAt(s, r, pat) && forall j :: from <= j < r ==> !HasAt(s, j, pat)
    ensures r < 0 ==> r == -1 && forall j :: from <= j ==> !HasAt(s, j, pat)
    decreases |s| - from
  {
    if HasAt(s, from, pat) then from
    else if from == |s| then -1
    else IndexFrom(s, pat, from + 1)
  }

  function Index(s: string, pat: string): int {
    IndexFrom(s, pat, 0)
  }

  /** strings.Split for a non-empty separator. */
  function Split(s: string, sep: string): (parts: seq<string>)
    requires sep != []
    ensures parts != []
    decreases |s|
  {
    var i := Index(s, sep);
    if i < 0 then [s] else [s[..i]] + Split(s[i + |sep|..], sep)
  }

  function Join(parts: seq<string>, sep: string): string {
    if parts == [] then ""
    else if |parts| == 1 then parts[0]
    else parts[0] + sep + Join(parts[1..], sep)
  }

  /** No proper prefix of `sep` is also a suffix of it. */
  ghost predicate BorderFree(sep: string) {
    forall k {:trigger sep[..k]} :: 0 < k < |sep| ==> sep[..k] != sep[|sep| - k..]
  }

  lemma {:induction false} SplitPartsFree(s: string, sep: string)
    requires sep != []
    ensures forall p :: p in Split(s, sep) ==> !Contains(p, sep)
    decreases |s|
  {
    var i := Index(s, sep);
    if i >= 0 {
      SplitPartsFree(s[i + |sep|..], sep);
      forall j | 0 <= j <= i ensures !HasAt(s[..i], j, sep) {
        assert !HasAt(s, j, sep) || j == i;
        assert j + |sep| <= i ==> s[..i][j..j + |sep|] == s[j..j + |sep|];
      }
    }
  }

  lemma {:induction false} JoinOfSplit(s: string, sep: string)
    requires sep != []
    ensures Join(Split(s, sep), sep) == s
    decreases |s|
  {
    var i := Index(s, sep);
    if i >= 0 {
      JoinOfSplit(s[i + |sep|..], sep);
      assert Split(s, sep)[1..] == Split(s[i + |sep|..], sep);
      assert s == s[..i] + sep + s[i + |sep|..];
    }
  }

  /** A border-free separator cannot straddle an inserted copy of itself. */
  lemma NoStraddle(a: string, sep: string, b: string, j: nat)
    requires BorderFree(sep) && j < |a| < j + |sep| <= |a + sep + b|
    ensures !HasAt(a + sep + b, j, sep)
  {
    var s := a + sep + b;
    var k := j + |sep| - |a|;
    assert s[j..j + |sep|][|sep| - k..] == sep[..k];
  }

  /** The first separator of `a + sep + b` is that of `a`, or else the inserted one. */
  lemma IndexOfConcat(a: string, sep: string, b: string)
    requires sep != [] && BorderFree(sep)
    ensures Index(a + sep + b, sep) == if Index(a, sep) >= 0 then Index(a, sep) else |a|
  {
    var s := a + sep + b;
    var n := |sep|;
    var first := if Index(a, sep) >= 0 then Index(a, sep) else |a|;
    assert s[|a|..|a| + n] == sep;
    forall j: nat | j + n <= |a| ensures HasAt(s, j, sep) == HasAt(a, j, sep) {
      assert s[j..j + n] == a[j..j + n];
    }
    assert HasAt(s, first, sep);
    forall j: nat | j < first ensures !HasAt(s, j, sep) {
      if |a| < j + n { NoStraddle(a, sep, b, j); } else { assert !HasAt(a, j, sep); }
    }
  }

  lemma IndexWithin(s: string, sep: string)
    ensures Index(s, sep) >= 0 ==> Index(s, sep) + |sep| <= |s|
  {
  }

  /** Splitting is a morphism over insertion of the separator. */
  lemma {:induction false} SplitConcat(a: string, sep: string, b: string)
    requires sep != [] && BorderFree(sep)
    ensures Split(a + sep + b, sep) == Split(a, sep) + Split(b, sep)
    decreases |a|
  {
    hide Index, BorderFree;
    var s := a + sep + b;
    var n := |sep|;
    var i := Index(a, sep);
    IndexOfConcat(a, sep, b);
    IndexWithin(a, sep);
    if i < 0 {
      assert s[..|a|] == a && s[|a| + n..] == b;
    } else {
      SplitConcat(a[i + n..], sep, b);
      assert s[..i] == a[..i];
      assert s[i + n..] == a[i + n..] + sep + b;
      assert Split(s, sep) == [a[..i]] + (Split(a[i + n..], sep) + Split(b, sep));
    }
  }

  function FlatSplit(parts: seq<string>, sep: string): seq<string>
    requires sep != []
  {
    if parts == [] then [] else Split(parts[0], sep) + FlatSplit(parts[1..], sep)
  }

  lemma {:induction false} SplitOfJoin(parts: seq<string>, sep: string)
    requires sep != [] && BorderFree(sep) && parts != []
    ensures Split(Join(parts, sep), sep) == FlatSplit(parts, sep)
  {
    if |parts| == 1 {
      assert FlatSplit(parts[1..], sep) == [];
    } else {
      SplitConcat(parts[0], sep, Join(parts[1..], sep));
      SplitOfJoin(parts[1..], sep);
    }
  }

  /** Splitting undoes joining when no part holds the separator. */
  lemma {:induction false} SplitOfJoinFree(parts: seq<string>, sep: string)
    requires sep != [] && BorderFree(sep) && parts != []
    requires forall p :: p in parts ==> !Contains(p, sep)
    ensures Split(Join(parts, sep), sep) == parts
  {
    var p := parts[0];
    assert p in parts;
    assert Split(p, sep) == [p] by {
      var i := Index(p, sep);
      assert i < 0 || HasAt(p, i, sep);
    }
    if |parts| > 1 {
      SplitConcat(p, sep, Join(parts[1..], sep));
      SplitOfJoinFree(parts[1..], sep);
    }
  }

  /** strings.ReplaceAll. */
  function ReplaceAll(s: string, old_: string, new_: string): string
    requires old_ != []
  {
    Join(Split(s, old_), new_)
  }
}
