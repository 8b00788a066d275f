/** The bundled-skill installer (internal/agent/bundled_skills.go): it upgrades skill
    directories that the user has not touched and leaves the others alone. File system
    errors are not modelled; the hash is a parameter. */
module Skills {
  import opened Octets
  import opened TreeHash

  type Name = string
  type Hash = Bytes -> Bytes

  /** "SKILL.md" */
  const SKILL_MD: Path := [83, 75, 73, 76, 76, 46, 109, 100]
  /** ".bundled-hash" */
  const SIDECAR: Path := [46, 98, 117, 110, 100, 108, 101, 100, 45, 104, 97, 115, 104]

  lemma FixedNames()
    ensures !Hidden(SKILL_MD) && Hidden(SIDECAR) && SKILL_MD != SIDECAR && PathOk(SIDECAR)
  {
    assert forall i :: 0 <= i < |SKILL_MD| ==> SKILL_MD[i] != SLASH;
    assert SKILL_MD[0] != DOT;
    assert SIDECAR[0] == DOT;
  }

  predicate IsBlank(b: byte) {
    9 <= b <= 13 || b == 32
  }

  function TrimLeft(s: Bytes): Bytes {
    if s != [] && IsBlank(s[0]) then TrimLeft(s[1..]) else s
  }

  function TrimRight(s: Bytes): Bytes {
    if s != [] && IsBlank(s[|s| - 1]) then TrimRight(s[..|s| - 1]) else s
  }

  predicate NoBlanks(s: Bytes) {
    forall b :: b in s ==> !IsBlank(b)
  }

  /** A hash without collisions whose values are text without white space. */
  ghost predicate GoodHash(hash: Hash) {
    && (forall x, y :: hash(x) == hash(y) ==> x == y)
    && (forall x :: hash(x) != [] && NoBlanks(hash(x)))
  }

  function EmbedTreeHash(hash: Hash, t: Tree): Bytes {
    hash(EmbedStream(t))
  }

  function DiskTreeHash(hash: Hash, t: Tree): Bytes {
    hash(DiskStream(t))
  }

  /** The sidecar holds the hash and a newline. */
  function WriteSidecar(dir: Tree, h: Bytes): Tree {
    dir[SIDECAR := h + [NEWLINE]]
  }

  function ReadSidecar(dir: Tree): Bytes
    requires SIDECAR in dir
  {
    TrimRight(TrimLeft(dir[SIDECAR]))
  }

  lemma SidecarRoundTrip(dir: Tree, h: Bytes)
    requires h != [] && NoBlanks(h)
    ensures ReadSidecar(WriteSidecar(dir, h)) == h
  {
    var s := h + [NEWLINE];
    assert s[0] == h[0] && h[0] in h && TrimLeft(s) == s;
    assert s[..|s| - 1] == h && h[|h| - 1] in h && TrimRight(h) == h;
  }

  // ----- one skill -----

  datatype Decision = Fresh | UpToDate | Overwrite | AdoptSidecar | UserModified

  function Decide(hash: Hash, dir: Tree, bundleHash: Bytes): Decision {
    if SKILL_MD !in dir then Fresh
    else if SIDECAR !in dir then
      if DiskTreeHash(hash, dir) == bundleHash then AdoptSidecar else UserModified
    else if DiskTreeHash(hash, dir) != ReadSidecar(dir) then UserModified
    else if ReadSidecar(dir) == bundleHash then UpToDate
    else Overwrite
  }

  /** The directory after the installer has handled one skill. */
  function Installed(hash: Hash, bundle: Tree, dir: Tree): Tree {
    var h := EmbedTreeHash(hash, bundle);
    match Decide(hash, dir, h)
    case Fresh => WriteSidecar(dir + bundle, h)
    case Overwrite => WriteSidecar(bundle, h)
    case AdoptSidecar => WriteSidecar(dir, h)
    case UpToDate => dir
    case UserModified => dir
  }

  // ----- what the walks see -----

  predicate DotFree(t: Tree) {
    forall p :: p in t ==> !Hidden(p)
  }

  lemma SidecarInvisible(dir: Tree, text: Bytes)
    ensures Visible(dir[SIDECAR := text]) == Visible(dir)
    ensures DiskStream(dir[SIDECAR := text]) == DiskStream(dir)
  {
    FixedNames();
    DiskStreamIsVisible(dir);
    DiskStreamIsVisible(dir[SIDECAR := text]);
  }

  /** The two hashes agree exactly when the visible files are the bundle. */
  lemma HashesAgree(hash: Hash, dir: Tree, bundle: Tree)
    requires GoodHash(hash) && PathsOk(dir) && PathsOk(bundle)
    ensures DiskTreeHash(hash, dir) == EmbedTreeHash(hash, bundle) <==> Visible(dir) == bundle
  {
    DiskStreamIsVisible(dir);
    EmbedStreamInjective(Visible(dir), bundle);
  }

  // ----- idempotence -----

  /** A directory that carries the bundle's hash is left alone from then on, except that a
      missing SKILL.md makes every run copy the same files again. */
  lemma StampedIsStable(hash: Hash, bundle: Tree, dir: Tree)
    requires GoodHash(hash)
    requires var h := EmbedTreeHash(hash, bundle);
             dir == WriteSidecar(dir, h) && (SKILL_MD !in dir ==> WriteSidecar(dir + bundle, h) == dir)
    ensures Installed(hash, bundle, dir) == dir
  {
    SidecarRoundTrip(dir, EmbedTreeHash(hash, bundle));
  }

  lemma StampedOver(bundle: Tree, dir: Tree, h: Bytes)
    ensures var d := WriteSidecar(dir + bundle, h);
            WriteSidecar(d + bundle, h) == d && WriteSidecar(d, h) == d
  {
  }

  /** Running the installer twice is running it once, whatever the directory and the bundle hold. */
  lemma InstallTwice(hash: Hash, bundle: Tree, dir: Tree)
    requires GoodHash(hash)
    ensures Installed(hash, bundle, Installed(hash, bundle, dir)) == Installed(hash, bundle, dir)
  {
    var h := EmbedTreeHash(hash, bundle);
    var d := Installed(hash, bundle, dir);
    hide DiskTreeHash, ReadSidecar, EmbedTreeHash;
    match Decide(hash, dir, h) {
      case Fresh =>
        StampedOver(bundle, dir, h);
        StampedIsStable(hash, bundle, d);
      case Overwrite =>
        assert bundle + bundle == bundle;
        StampedOver(bundle, bundle, h);
        StampedIsStable(hash, bundle, d);
      case AdoptSidecar => StampedIsStable(hash, bundle, d);
      case _ =>
    }
  }

  // ----- fresh copies -----

  /** After a fresh install the skill counts as up to date exactly when the bundle has a SKILL.md
      and the visible files on disk are the bundle: a hidden file in the bundle, or a visible
      leftover in the target, marks it as user-modified for good. */
  lemma FreshIsUpToDate(hash: Hash, bundle: Tree, dir: Tree)
    requires GoodHash(hash) && PathsOk(dir) && PathsOk(bundle) && SKILL_MD !in dir && SKILL_MD in bundle
    ensures var h := EmbedTreeHash(hash, bundle);
            Decide(hash, Installed(hash, bundle, dir), h)
            == if DotFree(bundle) && Visible(dir).Keys <= bundle.Keys then UpToDate else UserModified
  {
    var h := EmbedTreeHash(hash, bundle);
    var d := Installed(hash, bundle, dir);
    SidecarRoundTrip(dir + bundle, h);
    SidecarInvisible(dir + bundle, h + [NEWLINE]);
    HashesAgree(hash, dir + bundle, bundle);
    VisibleOfCopy(bundle, dir);
  }

  lemma VisibleOfCopy(bundle: Tree, dir: Tree)
    ensures Visible(dir + bundle) == bundle <==> DotFree(bundle) && Visible(dir).Keys <= bundle.Keys
  {
    var v := Visible(dir + bundle);
    assert v.Keys == Visible(dir).Keys + Visible(bundle).Keys;
    if v == bundle {
      assert forall p :: p in bundle ==> p in v;
    }
  }

  // ----- whole runs -----

  /** The installer runs, with the bundle of the binary of that time, or the user changes the
      directory in any way. */
  datatype Event = Install(bundle: Tree) | Edit(dir: Tree)

  function Apply(hash: Hash, dir: Tree, e: Event): Tree {
    match e
    case Install(bundle) => Installed(hash, bundle, dir)
    case Edit(d) => d
  }

  function Run(hash: Hash, events: seq<Event>): Tree {
    if events == [] then map[]
    else Apply(hash, Run(hash, events[..|events| - 1]), events[|events| - 1])
  }

  /** The user never writes a sidecar of their own: an edit keeps it or removes it. */
  predicate Honest(hash: Hash, events: seq<Event>) {
    events != [] ==>
      var front, e := events[..|events| - 1], events[|events| - 1];
      && Honest(hash, front)
      && match e
         case Install(bundle) => PathsOk(bundle) && SIDECAR !in bundle
         case Edit(d) =>
           && PathsOk(d)
           && (SIDECAR in d ==> SIDECAR in Run(hash, front) && d[SIDECAR] == Run(hash, front)[SIDECAR])
  }

  predicate Shipped(events: seq<Event>, bundle: Tree) {
    Install(bundle) in events
  }

  lemma InstalledPaths(hash: Hash, bundle: Tree, dir: Tree)
    requires PathsOk(bundle) && PathsOk(dir)
    ensures PathsOk(Installed(hash, bundle, dir))
  {
    FixedNames();
  }

  /** A sidecar always records the hash of a bundle that was shipped. */
  lemma {:induction false} SidecarIsShipped(hash: Hash, events: seq<Event>)
    requires GoodHash(hash) && Honest(hash, events)
    ensures PathsOk(Run(hash, events))
    ensures SIDECAR in Run(hash, events) ==>
              exists b :: Shipped(events, b) && PathsOk(b) && ReadSidecar(Run(hash, events)) == EmbedTreeHash(hash, b)
  {
    if events != [] {
      var front, e := events[..|events| - 1], events[|events| - 1];
      var before, after := Run(hash, front), Run(hash, events);
      SidecarIsShipped(hash, front);
      assert forall b :: Shipped(front, b) ==> Shipped(events, b);
      if e.Install? {
        InstalledPaths(hash, e.bundle, before);
        var h := EmbedTreeHash(hash, e.bundle);
        assert Shipped(events, e.bundle) by { assert events[|events| - 1] == e; }
        if after != before {
          SidecarRoundTrip(before + e.bundle, h);
          SidecarRoundTrip(e.bundle, h);
          SidecarRoundTrip(before, h);
          assert ReadSidecar(after) == h;
        }
      } else if SIDECAR in after {
        assert ReadSidecar(after) == ReadSidecar(before);
      }
    }
  }

  /** What an install may do to the visible files in any run: if the directory had a SKILL.md and
      a visible file changes, then the visible files were, to the byte, a bundle shipped earlier.
      So no visible edit is ever overwritten, unless the user removed SKILL.md. */
  lemma VisibleEditsSurvive(hash: Hash, events: seq<Event>, bundle: Tree)
    requires GoodHash(hash) && Honest(hash, events + [Install(bundle)])
    ensures var before := Run(hash, events);
            var after := Run(hash, events + [Install(bundle)]);
            SKILL_MD in before && Visible(after) != Visible(before) ==> Shipped(events, Visible(before))
  {
    var all := events + [Install(bundle)];
    assert all[..|all| - 1] == events;
    var before := Run(hash, events);
    SidecarIsShipped(hash, events);
    var h := EmbedTreeHash(hash, bundle);
    SidecarInvisible(before, h + [NEWLINE]);
    if Decide(hash, before, h).Overwrite? {
      var b :| Shipped(events, b) && PathsOk(b) && ReadSidecar(before) == EmbedTreeHash(hash, b);
      HashesAgree(hash, before, b);
    }
  }

  /** When SKILL.md is missing the bundle is copied over what is there: exactly the files whose
      path the bundle ships, and the sidecar, can change. */
  lemma FreshKeepsOtherFiles(hash: Hash, bundle: Tree, dir: Tree, p: Path)
    requires SKILL_MD !in dir && p in dir
    ensures var after := Installed(hash, bundle, dir);
            p in after && (p != SIDECAR ==> after[p] == if p in bundle then bundle[p] else dir[p])
  {
  }

  /** The newest bundle reaches every directory that holds an earlier one untouched. */
  predicate Untouched(hash: Hash, dir: Tree) {
    SKILL_MD in dir && SIDECAR in dir && DiskTreeHash(hash, dir) == ReadSidecar(dir)
  }

  /** Whoever wrote the sidecar: with a SKILL.md in place an install changes the visible files
      exactly when the sidecar holds the hash of the files that are there and the bundle shows
      others; it then shows the bundle. */
  lemma VisibleChangeIff(hash: Hash, bundle: Tree, dir: Tree)
    requires GoodHash(hash) && PathsOk(dir) && PathsOk(bundle) && SKILL_MD in dir
    ensures var after := Visible(Installed(hash, bundle, dir));
            && (after != Visible(dir) <==>
                Untouched(hash, dir) && Visible(dir) != bundle && Visible(dir) != Visible(bundle))
            && (after != Visible(dir) ==> after == Visible(bundle))
  {
    var h := EmbedTreeHash(hash, bundle);
    HashesAgree(hash, dir, bundle);
    SidecarInvisible(dir, h + [NEWLINE]);
    SidecarInvisible(bundle, h + [NEWLINE]);
  }

  lemma UpgradeReaches(hash: Hash, bundle: Tree, dir: Tree)
    requires GoodHash(hash) && PathsOk(dir) && PathsOk(bundle) && DotFree(bundle) && SKILL_MD in bundle
    requires Untouched(hash, dir) || dir == map[]
    ensures Visible(Installed(hash, bundle, dir)) == bundle && Untouched(hash, Installed(hash, bundle, dir))
  {
    FixedNames();
    var h := EmbedTreeHash(hash, bundle);
    var d := Installed(hash, bundle, dir);
    HashesAgree(hash, dir, bundle);
    SidecarRoundTrip(bundle, h);
    SidecarInvisible(bundle, h + [NEWLINE]);
    HashesAgree(hash, bundle, bundle);
    assert Visible(bundle) == bundle;
    if dir == map[] {
      assert dir + bundle == bundle;
    }
  }

  function Installs(bundles: seq<Tree>): seq<Event> {
    seq(|bundles|, i requires 0 <= i < |bundles| => Install(bundles[i]))
  }

  lemma RunInstalls(hash: Hash, before: seq<Event>, bundles: seq<Tree>)
    requires bundles != []
    ensures var n := |bundles|;
            Run(hash, before + Installs(bundles)) ==
            Installed(hash, bundles[n - 1], Run(hash, before + Installs(bundles[..n - 1])))
  {
    hide Installed;
    var n, events := |bundles|, before + Installs(bundles);
    assert events[..|events| - 1] == before + Installs(bundles[..n - 1]);
    assert events[|events| - 1] == Install(bundles[n - 1]);
  }

  /** Whatever happened before, if it left the directory empty or holding a bundle untouched, a
      series of installs ends with the last bundle on disk. */
  lemma {:induction false} UpgradesConverge(hash: Hash, before: seq<Event>, bundles: seq<Tree>)
    requires GoodHash(hash) && bundles != []
    requires forall b :: b in bundles ==> PathsOk(b) && DotFree(b) && SKILL_MD in b
    requires var dir := Run(hash, before); PathsOk(dir) && (Untouched(hash, dir) || dir == map[])
    ensures var d := Run(hash, before + Installs(bundles));
            Visible(d) == bundles[|bundles| - 1] && Untouched(hash, d) && PathsOk(d)
  {
    hide Installed, Untouched, Visible, PathsOk, DotFree, GoodHash, Run;
    var n := |bundles|;
    var front := bundles[..n - 1];
    RunInstalls(hash, before, bundles);
    assert bundles[n - 1] in bundles;
    if n > 1 {
      UpgradesConverge(hash, before, front);
    } else {
      assert before + Installs([]) == before;
    }
    var dir := Run(hash, before + Installs(front));
    UpgradeReaches(hash, bundles[n - 1], dir);
    InstalledPaths(hash, bundles[n - 1], dir);
  }

  /** Hidden files are not protected: they are invisible to the hash and an upgrade removes every
      one of them, while any other decision keeps them. */
  lemma HiddenFilesLost(hash: Hash, bundle: Tree, dir: Tree, p: Path)
    requires p in dir && Hidden(p) && p != SIDECAR && p !in bundle
    ensures p in Installed(hash, bundle, dir) <==>
            !Decide(hash, dir, EmbedTreeHash(hash, bundle)).Overwrite?
  {
  }

  /** What an install does, told from the files: without a SKILL.md the bundle is copied over; a
      directory that shows the bundle gets a sidecar if it has none; one that shows what its
      sidecar records, but not the bundle, is replaced by it; anything else stays as it is. */
  lemma InstallIs(hash: Hash, bundle: Tree, dir: Tree)
    requires GoodHash(hash) && PathsOk(dir) && PathsOk(bundle)
    ensures var h, after := EmbedTreeHash(hash, bundle), Installed(hash, bundle, dir);
            after ==
              if SKILL_MD !in dir then (dir + bundle)[SIDECAR := h + [10]]
              else if SIDECAR !in dir then (if Visible(dir) == bundle then dir[SIDECAR := h + [10]] else dir)
              else if ReadSidecar(dir) == EmbedTreeHash(hash, Visible(dir)) && Visible(dir) != bundle
                then bundle[SIDECAR := h + [10]]
              else dir
  {
    HashesAgree(hash, dir, bundle);
    DiskStreamIsVisible(dir);
  }

  /** A directory that shows a bundle but has no sidecar is adopted: no visible file changes, and
      from then on bundles reach it. */
  lemma AdoptionReaches(hash: Hash, bundle: Tree, dir: Tree, next: Tree)
    requires GoodHash(hash) && PathsOk(dir) && PathsOk(bundle) && PathsOk(next)
    requires SKILL_MD in dir && SIDECAR !in dir && Visible(dir) == bundle && DotFree(next) && SKILL_MD in next
    ensures var adopted := Installed(hash, bundle, dir);
            && Visible(adopted) == Visible(dir) && Untouched(hash, adopted)
            && Visible(Installed(hash, next, adopted)) == next
  {
    FixedNames();
    var h := EmbedTreeHash(hash, bundle);
    HashesAgree(hash, dir, bundle);
    SidecarInvisible(dir, h + [NEWLINE]);
    SidecarRoundTrip(dir, h);
    InstalledPaths(hash, bundle, dir);
    UpgradeReaches(hash, next, Installed(hash, bundle, dir));
  }

  // ----- the installer -----

  method WalkFiles(src: Tree) returns (files: seq<Entry>)
    ensures Lists(files, src)
  {
    files := Listing(src);
    ListingOk(src);
  }

  method CopyEmbedTree(src: Tree, dst: Tree) returns (r: Tree)
    ensures r == dst + src
  {
    r := dst;
    var files := WalkFiles(src);
    ghost var done: Tree := map[];
    for k := 0 to |files|
      invariant r == dst + done
      invariant forall p :: p in done ==> p in src && done[p] == src[p]
      invariant forall i :: 0 <= i < k ==> files[i].path in done
    {
      assert files[k] in files;
      r := r[files[k].path := files[k].data];
      done := done[files[k].path := files[k].data];
    }
    assert forall p :: p in src ==> Entry(p, src[p]) in files;
    assert done == src;
  }

  class ManagedSkills {
    var skills: map<Name, Tree>

    constructor (skills: map<Name, Tree>)
      ensures this.skills == skills
    {
      this.skills := skills;
    }

    /** An absent directory is one without files. */
    function Dir(name: Name): Tree
      reads this
    {
      if name in skills then skills[name] else map[]
    }

    method InstallSkill(name: Name, bundle: Tree, hash: Hash)
      modifies this
      ensures forall n :: Dir(n) == if n == name then Installed(hash, bundle, old(Dir(n))) else old(Dir(n))
    {
      var target := Dir(name);
      var bundleHash := EmbedTreeHash(hash, bundle);
      match Decide(hash, target, bundleHash) {
        case Fresh =>
          target := CopyEmbedTree(bundle, target);
          skills := skills[name := WriteSidecar(target, bundleHash)];
        case Overwrite =>
          target := CopyEmbedTree(bundle, map[]);
          assert map[] + bundle == bundle;
          skills := skills[name := WriteSidecar(target, bundleHash)];
        case AdoptSidecar =>
          skills := skills[name := WriteSidecar(target, bundleHash)];
        case UpToDate =>
        case UserModified =>
      }
    }

    /** Every shipped skill is handled once and no other directory changes. */
    method InstallBundledSkills(bundles: map<Name, Tree>, hash: Hash)
      modifies this
      ensures forall n :: Dir(n) == if n in bundles then Installed(hash, bundles[n], old(Dir(n))) else old(Dir(n))
    {
      var todo := bundles.Keys;
      while todo != {}
        invariant todo <= bundles.Keys
        invariant forall n :: n in bundles && n !in todo ==> Dir(n) == Installed(hash, bundles[n], old(Dir(n)))
        invariant forall n :: n !in bundles || n in todo ==> Dir(n) == old(Dir(n))
        decreases |todo|
      {
        var name :| name in todo;
        InstallSkill(name, bundles[name], hash);
        todo := todo - {name};
      }
    }
  }
}
