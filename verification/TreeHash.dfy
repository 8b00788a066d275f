/** The byte stream that the skill installer feeds to its tree hash (internal/agent/bundled_skills.go):
    the files of a directory in walk order, each framed by its path and its decimal length. */
module TreeHash {
  import opened Octets

  const NEWLINE: byte := 10
  const SLASH: byte := 47
  const DOT: byte := 46

  /** A path relative to the tree root, with slashes. */
  type Path = Bytes

  type Tree = map<Path, Bytes>

  datatype Entry = Entry(path: Path, data: Bytes)

  // ----- framing -----

  function Decimal(n: nat): (s: Bytes)
    ensures s != [] && NEWLINE !in s
  {
    if n < 10 then [(48 + n) as byte] else Decimal(n / 10) + [(48 + n % 10) as byte]
  }

  function Frame(e: Entry): Bytes {
    e.path + [NEWLINE] + Decimal(|e.data|) + [NEWLINE] + e.data + [NEWLINE]
  }

  function Stream(files: seq<Entry>): Bytes {
    if files == [] then [] else Frame(files[0]) + Stream(files[1..])
  }

  predicate PathOk(p: Path) {
    NEWLINE !in p
  }

  lemma {:induction false} DecimalInjective(m: nat, n: nat)
    requires Decimal(m) == Decimal(n)
    ensures m == n
  {
    var s := Decimal(m);
    if m >= 10 && n >= 10 {
      assert s[..|s| - 1] == Decimal(m / 10) == Decimal(n / 10);
      DecimalInjective(m / 10, n / 10);
      assert s[|s| - 1] == (48 + m % 10) as byte == (48 + n % 10) as byte;
    }
  }

  /** A newline-free head up to the first newline can be read off in one way only. */
  lemma LineUnique(a: Bytes, x: Bytes, b: Bytes, y: Bytes)
    requires NEWLINE !in a && NEWLINE !in b && a + [NEWLINE] + x == b + [NEWLINE] + y
    ensures a == b && x == y
  {
    var s := a + [NEWLINE] + x;
    assert s[|a|] == NEWLINE && s[|b|] == NEWLINE;
    assert forall i :: 0 <= i < |a| ==> s[i] == a[i];
    assert forall i :: 0 <= i < |b| ==> s[i] == b[i];
    assert |a| == |b|;
    assert a == s[..|a|] == b;
    assert x == s[|a| + 1..] == y;
  }

  lemma FrameUnique(e: Entry, x: Bytes, f: Entry, y: Bytes)
    requires PathOk(e.path) && PathOk(f.path) && Frame(e) + x == Frame(f) + y
    ensures e == f && x == y
  {
    var de, df := e.data + [NEWLINE] + x, f.data + [NEWLINE] + y;
    var le, lf := Decimal(|e.data|) + [NEWLINE] + de, Decimal(|f.data|) + [NEWLINE] + df;
    assert Frame(e) + x == e.path + [NEWLINE] + le;
    assert Frame(f) + y == f.path + [NEWLINE] + lf;
    LineUnique(e.path, le, f.path, lf);
    LineUnique(Decimal(|e.data|), de, Decimal(|f.data|), df);
    DecimalInjective(|e.data|, |f.data|);
    assert e.data == de[..|e.data|] == f.data;
    assert x == de[|e.data| + 1..] == y;
  }

  /** The stream determines the file list. */
  lemma {:induction false} StreamInjective(a: seq<Entry>, b: seq<Entry>)
    requires forall e :: e in a || e in b ==> PathOk(e.path)
    requires Stream(a) == Stream(b)
    ensures a == b
  {
    if a != [] && b != [] {
      assert a[0] in a && b[0] in b;
      FrameUnique(a[0], Stream(a[1..]), b[0], Stream(b[1..]));
      StreamInjective(a[1..], b[1..]);
    } else {
      assert forall e: Entry :: |Frame(e)| > 0;
    }
  }

  // ----- walk order -----

  /** Directory entries are visited by name and a directory before names it is a prefix of,
      so a slash sorts below every other byte. */
  function Rank(b: byte): nat {
    if b == SLASH then 0 else b as nat + 1
  }

  predicate Less(p: Path, q: Path) {
    q != [] && (p == [] || Rank(p[0]) < Rank(q[0]) || (p[0] == q[0] && Less(p[1..], q[1..])))
  }

  lemma {:induction false} LessTotal(p: Path, q: Path)
    ensures Less(p, q) || Less(q, p) || p == q
    ensures !(Less(p, q) && Less(q, p)) && !Less(p, p)
  {
    if p != [] && q != [] && p[0] == q[0] {
      LessTotal(p[1..], q[1..]);
      assert p == [p[0]] + p[1..] && q == [q[0]] + q[1..];
    } else if p != [] {
      LessIrreflexive(p);
    }
  }

  lemma {:induction false} LessIrreflexive(p: Path)
    ensures !Less(p, p)
  {
    if p != [] {
      LessIrreflexive(p[1..]);
    }
  }

  lemma {:induction false} LessTransitive(p: Path, q: Path, r: Path)
    requires Less(p, q) && Less(q, r)
    ensures Less(p, r)
  {
    if p != [] && p[0] == q[0] == r[0] {
      LessTransitive(p[1..], q[1..], r[1..]);
    }
  }

  predicate Ordered(files: seq<Entry>) {
    forall i, j :: 0 <= i < j < |files| ==> Less(files[i].path, files[j].path)
  }

  /** The entries are exactly the files of the tree. */
  predicate Lists(files: seq<Entry>, t: Tree) {
    && (forall e :: e in files ==> e.path in t && t[e.path] == e.data)
    && (forall p :: p in t ==> Entry(p, t[p]) in files)
  }

  lemma {:induction false} FirstPath(s: set<Path>) returns (p: Path)
    requires s != {}
    ensures p in s && forall q :: q in s && q != p ==> Less(p, q)
    decreases |s|
  {
    var x :| x in s;
    var rest := s - {x};
    p := x;
    if rest != {} {
      var y := FirstPath(rest);
      LessTotal(x, y);
      if Less(y, x) { p := y; }
      forall q | q in s && q != p ensures Less(p, q) {
        if q != x && q != y { if p == x { LessTransitive(x, y, q); } }
      }
    }
  }

  predicate IsFirst(t: Tree, p: Path) {
    p in t && forall q :: q in t && q != p ==> Less(p, q)
  }

  lemma FirstUnique(t: Tree)
    requires t != map[]
    ensures exists p :: IsFirst(t, p)
    ensures forall p, q :: IsFirst(t, p) && IsFirst(t, q) ==> p == q
    ensures forall p :: p in t ==> |t - {p}| < |t|
  {
    var p := FirstPath(t.Keys);
    assert IsFirst(t, p);
    forall p, q | IsFirst(t, p) && IsFirst(t, q) ensures p == q { LessTotal(p, q); }
    forall p | p in t ensures |t - {p}| < |t| { assert (t - {p}).Keys == t.Keys - {p}; }
  }

  /** The files of a tree in walk order. */
  function Listing(t: Tree): seq<Entry>
    decreases |t|
  {
    if t == map[] then [] else
      FirstUnique(t);
      var p :| IsFirst(t, p);
      [Entry(p, t[p])] + Listing(t - {p})
  }

  lemma ListingHead(t: Tree) returns (p: Path)
    requires t != map[]
    ensures IsFirst(t, p) && Listing(t) == [Entry(p, t[p])] + Listing(t - {p}) && |t - {p}| < |t|
  {
    FirstUnique(t);
    p := Listing(t)[0].path;
  }

  lemma {:induction false} ListingOk(t: Tree)
    ensures Lists(Listing(t), t) && Ordered(Listing(t))
    decreases |t|
  {
    if t != map[] {
      var p := ListingHead(t);
      var rest, tail := t - {p}, Listing(t - {p});
      ListingOk(rest);
      forall j | 0 <= j < |tail| ensures Less(p, tail[j].path) {
        assert tail[j] in tail;
      }
      forall q | q in t ensures Entry(q, t[q]) in Listing(t) {
        if q != p { assert q in rest && Entry(q, rest[q]) in tail; }
      }
    }
  }

  /** A tree has one ordered listing. */
  lemma {:induction false} ListingUnique(a: seq<Entry>, b: seq<Entry>)
    requires Ordered(a) && Ordered(b) && forall e :: e in a <==> e in b
    ensures a == b
  {
    HeadIn(a);
    HeadIn(b);
    if a != [] {
      assert a[0] in b && b[0] in a;
      var i :| 0 <= i < |b| && b[i] == a[0];
      var j :| 0 <= j < |a| && a[j] == b[0];
      LessTotal(a[0].path, b[0].path);
      assert i == 0 || j == 0;
      assert a[0] == b[0];
      NotLater(a);
      NotLater(b);
      assert forall e :: e in a <==> e == a[0] || e in a[1..];
      assert forall e :: e in b <==> e == b[0] || e in b[1..];
      ListingUnique(a[1..], b[1..]);
    }
  }

  lemma HeadIn(a: seq<Entry>)
    ensures a == [] || a[0] in a
  {
  }

  lemma NotLater(a: seq<Entry>)
    requires a != [] && Ordered(a)
    ensures a[0] !in a[1..]
  {
    forall k | 0 <= k < |a[1..]| ensures a[1..][k] != a[0] {
      assert Less(a[0].path, a[k + 1].path);
      LessTotal(a[0].path, a[0].path);
    }
  }

  // ----- the two walks -----

  /** Some segment of the path begins with a dot. */
  predicate Hidden(p: Path) {
    exists i :: 0 <= i < |p| && p[i] == DOT && (i == 0 || p[i - 1] == SLASH)
  }

  function Visible(t: Tree): Tree {
    map p | p in t && !Hidden(p) :: t[p]
  }

  /** The disk walk skips hidden files as it goes. */
  function SkipHidden(files: seq<Entry>): seq<Entry> {
    if files == [] then []
    else (if Hidden(files[0].path) then [] else [files[0]]) + SkipHidden(files[1..])
  }

  function EmbedStream(t: Tree): Bytes {
    Stream(Listing(t))
  }

  function DiskStream(t: Tree): Bytes {
    Stream(SkipHidden(Listing(t)))
  }

  lemma OrderedTail(files: seq<Entry>)
    requires files != [] && Ordered(files)
    ensures Ordered(files[1..]) && forall e :: e in files[1..] ==> Less(files[0].path, e.path)
  {
    var rest := files[1..];
    forall i, j | 0 <= i < j < |rest| ensures Less(rest[i].path, rest[j].path) {
      assert rest[i] == files[i + 1] && rest[j] == files[j + 1];
    }
    forall e | e in rest ensures Less(files[0].path, e.path) {
      var i :| 0 <= i < |rest| && rest[i] == e;
      assert rest[i] == files[i + 1];
    }
  }

  lemma OrderedCons(f: Entry, rest: seq<Entry>)
    requires Ordered(rest) && forall e :: e in rest ==> Less(f.path, e.path)
    ensures Ordered([f] + rest)
  {
    var r := [f] + rest;
    forall i, j | 0 <= i < j < |r| ensures Less(r[i].path, r[j].path) {
      assert r[j] == rest[j - 1] && rest[j - 1] in rest;
      assert i > 0 ==> r[i] == rest[i - 1];
    }
  }

  lemma {:induction false} SkipHiddenOk(files: seq<Entry>)
    requires Ordered(files)
    ensures Ordered(SkipHidden(files))
    ensures forall e :: e in SkipHidden(files) <==> e in files && !Hidden(e.path)
  {
    hide Ordered, Less, Hidden;
    if files != [] {
      var f, rest := files[0], files[1..];
      OrderedTail(files);
      SkipHiddenOk(rest);
      assert forall e :: e in files <==> e == f || e in rest;
      if !Hidden(f.path) {
        OrderedCons(f, SkipHidden(rest));
        assert SkipHidden(files) == [f] + SkipHidden(rest);
      } else {
        assert SkipHidden(files) == SkipHidden(rest);
      }
    }
  }

  /** The disk walk of a directory emits what the embed walk emits for its visible part. */
  lemma DiskStreamIsVisible(t: Tree)
    ensures DiskStream(t) == EmbedStream(Visible(t))
  {
    ListingOk(t);
    ListingOk(Visible(t));
    SkipHiddenOk(Listing(t));
    forall e ensures e in SkipHidden(Listing(t)) <==> e in Listing(Visible(t)) {
      if e in Listing(Visible(t)) { assert Entry(e.path, t[e.path]) == e; }
      if e in SkipHidden(Listing(t)) { assert e.path in Visible(t) && Entry(e.path, Visible(t)[e.path]) == e; }
    }
    ListingUnique(SkipHidden(Listing(t)), Listing(Visible(t)));
  }

  predicate PathsOk(t: Tree) {
    forall p :: p in t ==> PathOk(p)
  }

  /** Two trees with newline-free paths and the same stream are the same tree. */
  lemma EmbedStreamInjective(s: Tree, t: Tree)
    requires PathsOk(s) && PathsOk(t)
    ensures EmbedStream(s) == EmbedStream(t) <==> s == t
  {
    ListingOk(s);
    ListingOk(t);
    if EmbedStream(s) == EmbedStream(t) {
      StreamInjective(Listing(s), Listing(t));
      assert forall p :: p in s ==> Entry(p, s[p]) in Listing(t);
      assert forall p :: p in t ==> Entry(p, t[p]) in Listing(s);
    }
  }
}
