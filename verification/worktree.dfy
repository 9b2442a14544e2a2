/** Delivery of a build: the recursive cleaner, the file iterator and `merge_back`. */
module Worktree {
  import opened Options
  import opened FileTree
  import Text

  /** `_IGNORE_NAMES`, case-folded. */
  const IGNORE_NAMES: set<Name> := {
    ".git", ".venv", "__pycache__", "node_modules", ".vite", ".ds_store", ".pytest_cache", ".mypy_cache",
    ".ruff_cache", ".build", ".swiftpm", ".skyn3t-swift-module-cache", ".skyn3t-recovery", ".skyn3t-worktree.json"
  }

  predicate Ignored(n: Name) { Text.Fold(n) in IGNORE_NAMES }

  /** `_IGNORE_NAMES`, as they are written. */
  const IgnoreNames: set<Name> := {
    ".git", ".venv", "__pycache__", "node_modules", ".vite", ".DS_Store", ".pytest_cache", ".mypy_cache",
    ".ruff_cache", ".build", ".swiftpm", ".skyn3t-swift-module-cache", ".skyn3t-recovery", ".skyn3t-worktree.json"
  }

  /** A name is ignored when it is one of the names but for its case. */
  lemma IgnoredIff(n: Name)
    ensures Ignored(n) <==> exists m :: m in IgnoreNames && Text.SameButCase(n, m)
  {
    NamesFold();
    hide IgnoreNames, IGNORE_NAMES, Text.Fold, Text.SameButCase;
    forall m ensures Text.Fold(n) == Text.Fold(m) <==> Text.SameButCase(n, m) { Text.FoldIff(n, m); }
  }

  lemma NamesFold()
    ensures forall x :: x in IGNORE_NAMES <==> exists m :: m in IgnoreNames && Text.Fold(m) == x
  {
    ShortNamesFold();
    LongNamesFold();
    LongestNamesFold();
    hide Text.Fold;
  }

  lemma ShortNamesFold()
    ensures Text.Fold(".git") == ".git" && Text.Fold(".venv") == ".venv" && Text.Fold(".vite") == ".vite"
    ensures Text.Fold(".build") == ".build" && Text.Fold(".swiftpm") == ".swiftpm"
    ensures Text.Fold(".DS_Store") == ".ds_store"
    ensures Text.Fold("__pycache__") == "__pycache__" && Text.Fold("node_modules") == "node_modules"
  {
  }

  lemma LongNamesFold()
    ensures Text.Fold(".pytest_cache") == ".pytest_cache" && Text.Fold(".mypy_cache") == ".mypy_cache"
    ensures Text.Fold(".ruff_cache") == ".ruff_cache" && Text.Fold(".skyn3t-recovery") == ".skyn3t-recovery"
  {
  }

  lemma LongestNamesFold()
    ensures Text.Fold(".skyn3t-worktree.json") == ".skyn3t-worktree.json"
    ensures Text.Fold(".skyn3t-swift-module-cache") == ".skyn3t-swift-module-cache"
  {
  }

  predicate HasIgnored(p: Path) { exists n | n in p :: Ignored(n) }

  /** The path up to and including its first ignored name. */
  function Cut(p: Path): (r: Path)
    requires HasIgnored(p)
    ensures r <= p && r != [] && Ignored(r[|r| - 1])
  {
    if Ignored(p[0]) then p[..1] else [p[0]] + Cut(p[1..])
  }

  /** A file that is part of the deliverable. */
  predicate IsDeliverable(t: Node, q: Path) {
    q != [] && StatAt(t, q).IsFile? && !HasIgnored(q)
  }

  // ---- cleaning ------------------------------------------------------------------------------------------

  /** What cleaning leaves of directory `t`: ignored entries whole, and the directories that still hold one. */
  function Cleaned(t: Node): (r: Node)
    requires t.Dir?
    ensures r.Dir?
    decreases t, 0
  {
    Dir(map n | n in t.entries && Survives(n, t.entries[n]) ::
          if Ignored(n) then t.entries[n] else Cleaned(t.entries[n]))
  }

  predicate Survives(n: Name, child: Node)
    decreases child, 1
  {
    !child.Alias? && (Ignored(n) || (child.Dir? && Cleaned(child).entries != map[]))
  }

  /** `s` leads from `t` through ordinary names to an ignored entry that is not an alias. */
  ghost predicate LeadsToIgnored(t: Node, s: Path) {
    s != [] && Ignored(s[|s| - 1]) && !HasIgnored(s[..|s| - 1]) && StatAt(t, s) !in {Missing, IsAlias}
  }

  /** Directory `q` still holds an entry that the cleaner keeps. */
  ghost predicate Pinned(t: Node, q: Path) {
    exists s | s != [] :: LeadsToIgnored(t, q + s)
  }

  lemma HasIgnoredCons(n: Name, p: Path)
    ensures HasIgnored([n] + p) <==> Ignored(n) || HasIgnored(p)
  {
    assert forall x :: x in [n] + p <==> x == n || x in p;
    if HasIgnored(p) {
      var x :| x in p && Ignored(x);
      assert x in [n] + p;
    }
    if Ignored(n) { assert n in [n] + p; }
  }

  lemma HasIgnoredAppend(a: Path, b: Path)
    ensures HasIgnored(a + b) <==> HasIgnored(a) || HasIgnored(b)
  {
    assert forall x :: x in a + b <==> x in a || x in b;
  }

  lemma HasIgnoredLast(q: Path)
    requires q != []
    ensures HasIgnored(q) <==> HasIgnored(q[..|q| - 1]) || Ignored(q[|q| - 1])
  {
    var init, n := q[..|q| - 1], q[|q| - 1];
    assert q == init + [n];
    HasIgnoredAppend(init, [n]);
    HasIgnoredCons(n, []);
    assert [n] + [] == [n];
  }

  lemma LeadsToIgnoredCons(t: Node, n: Name, s: Path)
    requires s != [] && !Ignored(n)
    ensures LeadsToIgnored(t, [n] + s) <==> t.Dir? && n in t.entries && LeadsToIgnored(t.entries[n], s)
  {
    var w := [n] + s;
    assert w[1..] == s && w[|w| - 1] == s[|s| - 1];
    assert w[..|w| - 1] == [n] + s[..|s| - 1];
    HasIgnoredCons(n, s[..|s| - 1]);
  }

  lemma LeadsToIgnoredOne(t: Node, n: Name)
    requires Ignored(n)
    ensures LeadsToIgnored(t, [n]) <==> t.Dir? && n in t.entries && !t.entries[n].Alias?
    ensures forall s :: s != [] ==> !LeadsToIgnored(t, [n] + s)
  {
    LookupOne(t, n);
    assert [n][..0] == [];
    forall s | s != []
      ensures !LeadsToIgnored(t, [n] + s)
    {
      var w := [n] + s;
      assert n in w[..|w| - 1] by { assert w[..|w| - 1][0] == n; }
    }
  }

  /** A cleaned directory is empty exactly when no ignored entry is reachable below it. */
  lemma {:induction false} CleanedNonempty(t: Node)
    requires t.Dir?
    ensures Cleaned(t).entries != map[] <==> exists s :: LeadsToIgnored(t, s)
    decreases t
  {
    var c := Cleaned(t).entries;
    if c != map[] {
      var n :| n in c;
      assert Survives(n, t.entries[n]);
      if Ignored(n) {
        LeadsToIgnoredOne(t, n);
      } else {
        CleanedNonempty(t.entries[n]);
        var s :| LeadsToIgnored(t.entries[n], s);
        LeadsToIgnoredCons(t, n, s);
      }
    }
    forall s | LeadsToIgnored(t, s)
      ensures c != map[]
    {
      var n := s[0];
      assert s == [n] + s[1..];
      if Ignored(n) {
        LeadsToIgnoredOne(t, n);
        assert s == [n];
        assert Survives(n, t.entries[n]) && n in c;
      } else {
        assert s[1..] != [];
        LeadsToIgnoredCons(t, n, s[1..]);
        var child := t.entries[n];
        assert child.Dir? by { assert s[1..] != [] && Lookup(child, s[1..]).Some?; }
        CleanedNonempty(child);
        assert Survives(n, child) && n in c;
      }
    }
  }

  /** Everything under an ignored name is as it was, except that an alias carrying the name is gone. */
  lemma {:induction false} CleanedKeepsIgnored(t: Node, q: Path)
    requires t.Dir? && HasIgnored(q)
    ensures StatAt(Cleaned(t), q) == if StatAt(t, Cut(q)) == IsAlias then Missing else StatAt(t, q)
    decreases |q|
  {
    var n, rest := q[0], q[1..];
    assert q == [n] + rest;
    HasIgnoredCons(n, rest);
    LookupOne(t, n);
    if Ignored(n) {
      assert Cut(q) == [n];
    } else if n in t.entries {
      assert Cut(q) == [n] + Cut(rest) && Cut(q)[1..] == Cut(rest);
      var child := t.entries[n];
      if child.Dir? {
        CleanedKeepsIgnored(child, rest);
        if Cleaned(child).entries == map[] {
          assert StatAt(Cleaned(child), rest) == Missing;
        }
      } else {
        assert Lookup(child, rest).None? && Lookup(child, Cut(rest)).None?;
      }
    } else {
      assert Cut(q)[0] == n;
    }
  }

  lemma PinnedCons(t: Node, n: Name, rest: Path)
    requires !Ignored(n)
    ensures Pinned(t, [n] + rest) <==> t.Dir? && n in t.entries && Pinned(t.entries[n], rest)
  {
    forall s: Path | s != []
      ensures LeadsToIgnored(t, [n] + rest + s) <==> t.Dir? && n in t.entries && LeadsToIgnored(t.entries[n], rest + s)
    {
      assert [n] + rest + s == [n] + (rest + s);
      LeadsToIgnoredCons(t, n, rest + s);
    }
  }

  lemma PinnedHere(t: Node)
    requires t.Dir?
    ensures Pinned(t, []) <==> Cleaned(t).entries != map[]
  {
    CleanedNonempty(t);
    forall s: Path
      ensures [] + s == s
    {
    }
    if s :| LeadsToIgnored(t, s) {
      assert LeadsToIgnored(t, [] + s);
    }
  }

  lemma PinnedIsDir(t: Node, q: Path)
    requires Pinned(t, q)
    ensures StatAt(t, q) == IsDir
  {
    var s :| s != [] && LeadsToIgnored(t, q + s);
    ParentsAreDirs(t, q, s);
  }

  /** Outside the ignored names only the directories pinned by an ignored entry remain. */
  lemma {:induction false} CleanedElsewhere(t: Node, q: Path)
    requires t.Dir? && !HasIgnored(q) && q != []
    ensures StatAt(Cleaned(t), q) == if Pinned(t, q) then IsDir else Missing
    decreases |q|
  {
    var n, rest := q[0], q[1..];
    assert q == [n] + rest;
    HasIgnoredCons(n, rest);
    PinnedCons(t, n, rest);
    if n in t.entries {
      var child := t.entries[n];
      if child.Dir? {
        PinnedHere(child);
        assert Survives(n, child) <==> Pinned(child, []);
        if rest == [] {
          LookupOne(Cleaned(t), n);
        } else {
          CleanedElsewhere(child, rest);
          if Cleaned(child).entries == map[] {
            assert StatAt(Cleaned(child), rest) == Missing;
          }
        }
      } else {
        assert !Survives(n, child);
        if Pinned(child, rest) { PinnedIsDir(child, rest); }
      }
    }
  }

  // ---- listing -------------------------------------------------------------------------------------------

  function Under(n: Name, ps: seq<Path>): (r: seq<Path>) {
    seq(|ps|, i requires 0 <= i < |ps| => [n] + ps[i])
  }

  lemma UnderElements(n: Name, ps: seq<Path>)
    ensures forall q :: q in Under(n, ps) <==> q != [] && q[0] == n && q[1..] in ps
  {
    var r := Under(n, ps);
    forall q | q != [] && q[0] == n && q[1..] in ps
      ensures q in r
    {
      var i :| 0 <= i < |ps| && ps[i] == q[1..];
      assert r[i] == [n] + ps[i] == q;
    }
    forall q | q in r
      ensures q != [] && q[0] == n && q[1..] in ps
    {
      var i :| 0 <= i < |r| && r[i] == q;
      assert r[i] == [n] + ps[i];
    }
  }

  predicate Distinct(ps: seq<Path>) {
    forall i, j | 0 <= i < j < |ps| :: ps[i] != ps[j]
  }

  lemma DistinctAppend(a: seq<Path>, b: seq<Path>)
    requires Distinct(a) && Distinct(b) && forall p | p in a :: p !in b
    ensures Distinct(a + b)
  {
    var r := a + b;
    forall i, j | 0 <= i < j < |r|
      ensures r[i] != r[j]
    {
      if i < |a| <= j { assert r[i] in a && r[j] in b; }
    }
  }

  /** `root.rglob("*")`: every path below the root once, in no particular order. */
  method Rglob(t: Node) returns (all: seq<Path>)
    ensures forall q :: q in all <==> q != [] && StatAt(t, q) != Missing
    ensures Distinct(all)
    decreases t
  {
    all := [];
    if t.Dir? {
      var todo := t.entries.Keys;
      while todo != {}
        invariant todo <= t.entries.Keys
        invariant forall q :: q in all <==> q != [] && q[0] !in todo && StatAt(t, q) != Missing
        invariant Distinct(all)
      {
        var n :| n in todo;
        todo := todo - {n};
        var below := Rglob(t.entries[n]);
        var here := [[]] + below;
        UnderElements(n, here);
        DistinctAppend([[]], below);
        forall q
          ensures q in Under(n, here) <==> q != [] && q[0] == n && StatAt(t, q) != Missing
        {
          if q != [] && q[0] == n {
            assert q[1..] in here <==> q[1..] == [] || q[1..] in below;
            assert Lookup(t, q) == Lookup(t.entries[n], q[1..]);
          }
        }
        forall i, j | 0 <= i < j < |Under(n, here)|
          ensures Under(n, here)[i] != Under(n, here)[j]
        {
          assert Under(n, here)[i][1..] == here[i] && Under(n, here)[j][1..] == here[j];
        }
        DistinctAppend(all, Under(n, here));
        all := all + Under(n, here);
      }
    }
  }

  method IterFiles(t: Node) returns (files: seq<Path>)
    ensures forall q :: q in files <==> IsDeliverable(t, q)
    ensures Distinct(files)
  {
    var all := Rglob(t);
    files := [];
    for i := 0 to |all|
      invariant forall q :: q in files <==> q in all[..i] && IsDeliverable(t, q)
      invariant Distinct(files)
    {
      var p := all[i];
      assert all[..i + 1] == all[..i] + [p];
      if StatAt(t, p).IsFile? && !HasIgnored(p) {
        assert forall k | 0 <= k < i :: all[k] != p;
        DistinctAppend(files, [p]);
        files := files + [p];
      }
    }
    assert all[..|all|] == all;
  }

  // ---- delivering ----------------------------------------------------------------------------------------

  /** Both trees have the same deliverable files, with the same bytes and mode. */
  ghost predicate Mirrors(src: Node, dst: Node) {
    forall q | q != [] && !HasIgnored(q) && (StatAt(src, q).IsFile? || StatAt(dst, q).IsFile?) ::
      StatAt(src, q) == StatAt(dst, q)
  }

  /** Everything under an ignored name is unchanged, save that an alias carrying such a name is gone. */
  ghost predicate IgnoredKept(before: Node, after: Node) {
    forall q | HasIgnored(q) ::
      StatAt(after, q) == if StatAt(before, Cut(q)) == IsAlias then Missing else StatAt(before, q)
  }

  ghost predicate NoAuthoredAlias(t: Node) {
    forall q | !HasIgnored(q) :: StatAt(t, q) != IsAlias
  }

  /** Some file to deliver falls on a directory that the cleaner has to keep. */
  ghost predicate Clashes(src: Node, dst: Node) {
    exists f :: IsDeliverable(src, f) && Pinned(dst, f)
  }

  function Parent(f: Path): Path
    requires f != []
  {
    f[..|f| - 1]
  }

  /** Where a file named like `f` goes when `f` itself is a directory. */
  function Inside(f: Path): Path
    requires f != []
  {
    f + [f[|f| - 1]]
  }

  lemma PrefixOfParent(p: Path, f: Path)
    requires f != []
    ensures p <= Parent(f) <==> p < f
    ensures Parent(f) + [f[|f| - 1]] == f
  {
  }

  /** `shutil.copy2(f, target)`; a directory target receives the file inside it, `None` is an OSError. */
  function CopyTo(t: Node, p: Path, file: Node): Option<Node>
    requires p != [] && StatAt(t, Parent(p)) == IsDir
  {
    if StatAt(t, p) == IsDir then
      match StatAt(t, Inside(p))
      case IsDir => None
      case IsAlias => Some(t)  // the bytes land outside this tree
      case _ => Some(Put(t, p, p[|p| - 1], Some(file)))
    else
      Some(Put(t, Parent(p), p[|p| - 1], Some(file)))
  }

  /** Placing a file changes `lstat` at that one path. */
  lemma PlaceFile(t: Node, d: Path, n: Name, file: Node, q: Path)
    requires StatAt(t, d) == IsDir && StatAt(t, d + [n]) != IsDir && file.File?
    ensures StatAt(Put(t, d, n, Some(file)), q) == if q == d + [n] then StatOf(Some(file)) else StatAt(t, q)
  {
    var x := d + [n];
    StatPut(t, d, n, Some(file), q);
    if x <= q {
      var below := q[|x|..];
      assert q == x + below && q[|d| + 1..] == below;
      if below != [] && StatAt(t, q) != Missing { ParentsAreDirs(t, x, below); }
    }
  }

  /** `q` is where delivering `f` into `t` puts the bytes. */
  predicate Lands(t: Node, f: Path, q: Path)
    requires f != []
  {
    if StatAt(t, f) == IsDir then q == Inside(f) && StatAt(t, q) != IsAlias else q == f
  }

  lemma CopyToStat(t: Node, p: Path, file: Node, q: Path)
    requires p != [] && StatAt(t, Parent(p)) == IsDir && file.File?
    requires CopyTo(t, p, file).Some?
    ensures CopyTo(t, p, file).value.Dir? || t.Alias? || t.File?
    ensures StatAt(CopyTo(t, p, file).value, q) == if Lands(t, p, q) then StatOf(Some(file)) else StatAt(t, q)
  {
    PrefixOfParent([], p);
    if StatAt(t, p) == IsDir {
      if StatAt(t, Inside(p)) != IsAlias { PlaceFile(t, p, p[|p| - 1], file, q); }
    } else {
      PlaceFile(t, Parent(p), p[|p| - 1], file, q);
    }
  }

  datatype Delivery = Skipped | Raised | Failed(tree: Node) | Wrote(tree: Node)

  predicate AliasAbove(t: Node, f: Path) {
    exists k | 0 < k < |f| :: StatAt(t, f[..k]) == IsAlias
  }

  /** One turn of the copy loop: never through an alias, never over an existing target unless asked to. */
  function DeliverOne(t: Node, f: Path, file: Node, overwrite: bool): Delivery
    requires t.Dir? && f != []
  {
    if StatAt(t, f) == IsAlias || AliasAbove(t, f) || (StatAt(t, f) != Missing && !overwrite) then Skipped
    else
      match MkdirAll(t, Parent(f))
      case None => Raised
      case Some(t1) =>
        StatMkdirAll(t, Parent(f), Parent(f));
        match CopyTo(t1, f, file)
        case None => Failed(t1)
        case Some(t2) => Wrote(t2)
  }

  lemma ParentsMade(t: Node, f: Path, q: Path)
    requires t.Dir? && f != [] && MkdirAll(t, Parent(f)).Some?
    ensures StatAt(MkdirAll(t, Parent(f)).value, q) == if q < f then IsDir else StatAt(t, q)
    ensures q < f ==> StatAt(t, q) in {IsDir, Missing}
  {
    PrefixOfParent(q, f);
    StatMkdirAll(t, Parent(f), q);
    MkdirAllSucceeds(t, Parent(f));
  }

  lemma WroteStat(t: Node, f: Path, file: Node, overwrite: bool, q: Path)
    requires t.Dir? && f != [] && file.File? && DeliverOne(t, f, file, overwrite).Wrote?
    ensures DeliverOne(t, f, file, overwrite).tree.Dir?
    ensures StatAt(DeliverOne(t, f, file, overwrite).tree, q) ==
            if Lands(t, f, q) then StatOf(Some(file)) else if q < f then IsDir else StatAt(t, q)
    ensures q < f ==> StatAt(t, q) in {IsDir, Missing}
  {
    var t1 := MkdirAll(t, Parent(f)).value;
    ParentsMade(t, f, Parent(f));
    ParentsMade(t, f, f);
    ParentsMade(t, f, Inside(f));
    ParentsMade(t, f, q);
    CopyToStat(t1, f, file, q);
  }

  lemma FailedIsNoChange(t: Node, f: Path, file: Node, overwrite: bool)
    requires t.Dir? && f != [] && DeliverOne(t, f, file, overwrite).Failed?
    ensures DeliverOne(t, f, file, overwrite).tree == t
  {
    var t' := DeliverOne(t, f, file, overwrite).tree;
    ParentsMade(t, f, Parent(f));
    ParentsMade(t, f, f);
    forall q
      ensures StatAt(t', q) == StatAt(t, q)
    {
      ParentsMade(t, f, q);
      if q < f {
        assert f == q + f[|q|..];
        ParentsAreDirs(t, q, f[|q|..]);
      }
    }
    Extensional(t', t);
  }

  // What the copy loop has done so far, path by path.

  ghost predicate NewParent(done: seq<Path>, q: Path) {
    exists f :: f in done && q < f
  }

  /** `q` holds the bytes of a delivered file. */
  ghost predicate Landed(src: Node, t: Node, done: seq<Path>, q: Path) {
    exists f :: f in done && LandedFrom(src, t, f, q)
  }

  ghost predicate LandedFrom(src: Node, t: Node, f: Path, q: Path) {
    f != [] && (q == f || q == Inside(f)) && StatAt(t, q) == StatAt(src, f)
  }

  /** A path that differs from `base` is a new parent of a delivered file, or holds a delivered file's bytes. */
  ghost predicate Accounted(src: Node, base: Node, t: Node, done: seq<Path>, q: Path) {
    || StatAt(t, q) == StatAt(base, q)
    || (StatAt(t, q) == IsDir && StatAt(base, q) == Missing && NewParent(done, q))
    || Landed(src, t, done, q)
  }

  /** State of the destination, begun as `base`, when the files in `done` have been through the copy loop. */
  ghost predicate Delivered(src: Node, base: Node, t: Node, done: seq<Path>) {
    && t.Dir?
    && (forall f | f in done :: IsDeliverable(src, f))
    && (forall q :: Accounted(src, base, t, done, q))
    && (forall q | StatAt(base, q) == IsDir :: StatAt(t, q) == IsDir)
  }

  /** Nothing in the destination keeps `f` from being delivered: no alias at or above it, no directory in its place, and
      no file unless it may be overwritten. */
  predicate Receives(base: Node, f: Path, overwrite: bool) {
    && StatAt(base, f) !in {IsDir, IsAlias} && !AliasAbove(base, f) && (overwrite || StatAt(base, f) == Missing)
  }

  /** The file is copied, be it into a directory in its place. */
  ghost predicate Takes(base: Node, f: Path, overwrite: bool)
    requires f != []
  {
    && !AliasAbove(base, f)
    && match StatAt(base, f)
       case Missing => true
       case IsFile(_, _) => overwrite
       case IsDir => overwrite && StatAt(base, Inside(f)) != IsDir
       case IsAlias => false
  }

  ghost function PlaceOf(base: Node, f: Path): Path
    requires f != []
  {
    if StatAt(base, f) == IsDir then Inside(f) else f
  }

  lemma ReceivesTakes(base: Node, f: Path, overwrite: bool)
    requires f != [] && Receives(base, f, overwrite)
    ensures Takes(base, f, overwrite) && PlaceOf(base, f) == f && StatAt(base, f) != IsAlias
  {
  }

  ghost predicate Arrived(src: Node, base: Node, t: Node, f: Path, overwrite: bool)
    requires f != []
  {
    Takes(base, f, overwrite) && StatAt(base, PlaceOf(base, f)) != IsAlias ==>
      StatAt(t, PlaceOf(base, f)) == StatAt(src, f)
  }

  ghost predicate Present(src: Node, base: Node, t: Node, done: seq<Path>, overwrite: bool) {
    forall f | f in done && f != [] :: Arrived(src, base, t, f, overwrite)
  }

  /** A file of the source would have to lie below a file of the destination. */
  ghost predicate Blocked(src: Node, base: Node) {
    exists f, p :: IsDeliverable(src, f) && p < f && StatAt(base, p).IsFile?
  }

  /** What may differ from `base`: new parents of source files, and places where the bytes of one landed. */
  ghost predicate OnlyDeliveries(src: Node, base: Node, t: Node) {
    forall q ::
      || StatAt(t, q) == StatAt(base, q)
      || (StatAt(t, q) == IsDir && StatAt(base, q) == Missing && exists f :: IsDeliverable(src, f) && q < f)
      || (exists f :: IsDeliverable(src, f) && LandedFrom(src, t, f, q))
  }

  /** Nothing but directories outside the ignored names: what cleaning leaves. */
  ghost predicate Fresh(base: Node) {
    forall q | !HasIgnored(q) :: StatAt(base, q) in {IsDir, Missing}
  }

  lemma SourceFilesAreLeaves(src: Node, f: Path, g: Path)
    requires StatAt(src, f).IsFile? && StatAt(src, g).IsFile? && f <= g
    ensures f == g
  {
    assert g == f + g[|f|..];
    if f != g { ParentsAreDirs(src, f, g[|f|..]); }
  }

  lemma AccountedGrows(src: Node, base: Node, t: Node, done: seq<Path>, f: Path, q: Path)
    requires Accounted(src, base, t, done, q)
    ensures Accounted(src, base, t, done + [f], q)
  {
    if NewParent(done, q) {
      var g :| g in done && q < g;
      assert g in done + [f];
    }
    if Landed(src, t, done, q) {
      var g :| g in done && LandedFrom(src, t, g, q);
      assert g in done + [f];
    }
  }

  lemma StepAccounted(src: Node, base: Node, t: Node, done: seq<Path>, f: Path, overwrite: bool, q: Path)
    requires Delivered(src, base, t, done) && IsDeliverable(src, f)
    requires DeliverOne(t, f, Lookup(src, f).value, overwrite).Wrote?
    ensures Accounted(src, base, DeliverOne(t, f, Lookup(src, f).value, overwrite).tree, done + [f], q)
    ensures StatAt(base, q) == IsDir ==> StatAt(DeliverOne(t, f, Lookup(src, f).value, overwrite).tree, q) == IsDir
  {
    var file := Lookup(src, f).value;
    var t' := DeliverOne(t, f, file, overwrite).tree;
    WroteStat(t, f, file, overwrite, q);
    assert f in done + [f];
    assert Accounted(src, base, t, done, q);
    AccountedGrows(src, base, t, done, f, q);
    if Lands(t, f, q) {
      assert LandedFrom(src, t', f, q);
      if StatAt(t, f) == IsDir { CopyIntoIsNotDir(t, f, file, overwrite); }
    } else if q < f {
      assert StatAt(t, q) == Missing ==> !Landed(src, t, done, q);
      assert NewParent(done + [f], q);
    } else if Landed(src, t, done + [f], q) {
      var g :| g in done + [f] && LandedFrom(src, t, g, q);
      assert LandedFrom(src, t', g, q);
    }
  }

  lemma CopyIntoIsNotDir(t: Node, f: Path, file: Node, overwrite: bool)
    requires t.Dir? && f != [] && StatAt(t, f) == IsDir && file.File? && DeliverOne(t, f, file, overwrite).Wrote?
    ensures StatAt(t, Inside(f)) != IsDir
  {
    ParentsMade(t, f, f);
    ParentsMade(t, f, Inside(f));
  }

  lemma StepDelivered(src: Node, base: Node, t: Node, done: seq<Path>, f: Path, overwrite: bool)
    requires Delivered(src, base, t, done) && IsDeliverable(src, f)
    ensures var r := DeliverOne(t, f, Lookup(src, f).value, overwrite);
            && (r.Skipped? ==> Delivered(src, base, t, done + [f]))
            && (r.Failed? || r.Wrote? ==> Delivered(src, base, r.tree, done + [f]))
  {
    var file := Lookup(src, f).value;
    var r := DeliverOne(t, f, file, overwrite);
    if r.Failed? { FailedIsNoChange(t, f, file, overwrite); }
    if !r.Wrote? {
      forall q
        ensures Accounted(src, base, t, done + [f], q)
      {
        AccountedGrows(src, base, t, done, f, q);
      }
    }
    if r.Wrote? {
      WroteStat(t, f, file, overwrite, []);
      forall q
        ensures Accounted(src, base, r.tree, done + [f], q)
        ensures StatAt(base, q) == IsDir ==> StatAt(r.tree, q) == IsDir
      {
        StepAccounted(src, base, t, done, f, overwrite, q);
      }
    }
  }

  /** On the way to the next file, and in its place, the destination is as it was, but for new directories above. */
  lemma PathAsBefore(src: Node, base: Node, t: Node, done: seq<Path>, f: Path, p: Path)
    requires Delivered(src, base, t, done) && IsDeliverable(src, f) && p <= f
    ensures p < f ==> StatAt(t, p) == StatAt(base, p) || (StatAt(base, p) == Missing && StatAt(t, p) == IsDir)
    ensures p == f ==> StatAt(t, f) == StatAt(base, f) || (StatAt(t, f) == StatAt(src, f) && f in done)
  {
    assert Accounted(src, base, t, done, p);
    if Landed(src, t, done, p) {
      var g :| g in done && LandedFrom(src, t, g, p);
      SourceFilesAreLeaves(src, g, f);
    }
    if p == f && NewParent(done, f) {
      var g :| g in done && f < g;
      SourceFilesAreLeaves(src, f, g);
    }
  }

  lemma StepRaises(src: Node, base: Node, t: Node, done: seq<Path>, f: Path, overwrite: bool)
    requires Delivered(src, base, t, done) && IsDeliverable(src, f)
    requires DeliverOne(t, f, Lookup(src, f).value, overwrite).Raised?
    ensures Blocked(src, base)
  {
    MkdirAllSucceeds(t, Parent(f));
    var p :| p <= Parent(f) && StatAt(t, p) !in {IsDir, Missing};
    PrefixOfParent(p, f);
    PathAsBefore(src, base, t, done, f, p);
    assert p != [] && f[..|p|] == p;
    assert StatAt(t, p).IsFile?;
  }

  /** The next file is copied exactly when the destination takes it, and the ones before stay delivered. */
  lemma StepPresent(src: Node, base: Node, t: Node, done: seq<Path>, f: Path, overwrite: bool)
    requires Delivered(src, base, t, done) && IsDeliverable(src, f) && Present(src, base, t, done, overwrite)
    requires f !in done && !DeliverOne(t, f, Lookup(src, f).value, overwrite).Raised?
    ensures var r := DeliverOne(t, f, Lookup(src, f).value, overwrite);
            && (r.Wrote? <==> Takes(base, f, overwrite))
            && Present(src, base, if r.Wrote? then r.tree else t, done + [f], overwrite)
  {
    var file := Lookup(src, f).value;
    var r := DeliverOne(t, f, file, overwrite);
    TakesStill(src, base, t, done, f, overwrite);
    if r.Wrote? {
      forall g | g in done + [f] ensures g != [] && Arrived(src, base, r.tree, g, overwrite) {
        assert IsDeliverable(src, g);
        StaysArrived(src, base, t, done, f, overwrite, g);
      }
    }
  }

  lemma StaysArrived(src: Node, base: Node, t: Node, done: seq<Path>, f: Path, overwrite: bool, g: Path)
    requires Delivered(src, base, t, done) && IsDeliverable(src, f) && IsDeliverable(src, g) && f !in done
    requires DeliverOne(t, f, Lookup(src, f).value, overwrite).Wrote?
    requires g == f || Arrived(src, base, t, g, overwrite)
    ensures Arrived(src, base, DeliverOne(t, f, Lookup(src, f).value, overwrite).tree, g, overwrite)
  {
    var file := Lookup(src, f).value;
    var q := PlaceOf(base, g);
    assert StatOf(Some(file)) == StatAt(src, f);
    TakesStill(src, base, t, done, f, overwrite);
    WroteStat(t, f, file, overwrite, q);
    if g != f { PlacesApart(src, f, g, q); }
  }

  /** Two files of the source never share a place. */
  lemma PlacesApart(src: Node, f: Path, g: Path, q: Path)
    requires IsDeliverable(src, f) && IsDeliverable(src, g) && f != g && q in {g, Inside(g)}
    ensures q != f && q != Inside(f) && !(q < f)
  {
    assert g <= Inside(g) && f <= Inside(f);
    if g <= f { SourceFilesAreLeaves(src, g, f); }
    if f <= g { SourceFilesAreLeaves(src, f, g); }
    assert Parent(Inside(f)) == f && Parent(Inside(g)) == g;
  }

  lemma TakesStill(src: Node, base: Node, t: Node, done: seq<Path>, f: Path, overwrite: bool)
    requires Delivered(src, base, t, done) && IsDeliverable(src, f) && f !in done
    requires !DeliverOne(t, f, Lookup(src, f).value, overwrite).Raised?
    ensures StatAt(t, f) == StatAt(base, f)
    ensures StatAt(base, f) == IsDir ==> StatAt(t, Inside(f)) == StatAt(base, Inside(f))
    ensures DeliverOne(t, f, Lookup(src, f).value, overwrite).Wrote? <==> Takes(base, f, overwrite)
  {
    PathAsBefore(src, base, t, done, f, f);
    forall k | 0 < k < |f| ensures StatAt(t, f[..k]) == IsAlias <==> StatAt(base, f[..k]) == IsAlias {
      PathAsBefore(src, base, t, done, f, f[..k]);
    }
    assert AliasAbove(t, f) <==> AliasAbove(base, f);
    if StatAt(base, f) == IsDir { InsideAsBefore(src, base, t, done, f); }
    if MkdirAll(t, Parent(f)).Some? {
      ParentsMade(t, f, f);
      ParentsMade(t, f, Inside(f));
    }
  }

  lemma InsideAsBefore(src: Node, base: Node, t: Node, done: seq<Path>, f: Path)
    requires Delivered(src, base, t, done) && IsDeliverable(src, f) && f !in done
    ensures StatAt(t, Inside(f)) == StatAt(base, Inside(f))
  {
    var q := Inside(f);
    assert Accounted(src, base, t, done, q);
    assert f <= q && Parent(q) == f;
    if NewParent(done, q) {
      var g :| g in done && q < g;
      SourceFilesAreLeaves(src, f, g);
    }
    if Landed(src, t, done, q) {
      var g :| g in done && LandedFrom(src, t, g, q);
      PlacesApart(src, f, g, q);
    }
  }

  /** When the copy loop gets through, no file of the source has to lie below a file. */
  lemma GotThrough(src: Node, base: Node, t: Node, files: seq<Path>, overwrite: bool)
    requires Delivered(src, base, t, files) && Present(src, base, t, files, overwrite)
    requires forall f | IsDeliverable(src, f) :: f in files
    ensures !Blocked(src, base)
  {
    if f, p :| IsDeliverable(src, f) && p < f && StatAt(base, p).IsFile? {
      assert f == p + f[|p|..];
      forall q | p < q && q <= f ensures StatAt(base, q) == Missing {
        assert q == p + q[|p|..];
        if StatAt(base, q) != Missing { ParentsAreDirs(base, p, q[|p|..]); }
      }
      forall k | 0 < k < |f| ensures StatAt(base, f[..k]) != IsAlias {
        if k < |p| {
          assert p == f[..k] + p[k..];
          ParentsAreDirs(base, f[..k], p[k..]);
        } else if k == |p| {
          assert f[..k] == p;
        } else {
          assert p < f[..k];
        }
      }
      assert Arrived(src, base, t, f, overwrite);
      PathAsBefore(src, base, t, files, f, p);
      ParentsAreDirs(t, p, f[|p|..]);
    }
  }

  /** In a destination that holds nothing but directories, nothing is in the way of a file or raises. */
  lemma FreshReceives(src: Node, base: Node, f: Path, overwrite: bool)
    requires Fresh(base) && IsDeliverable(src, f)
    ensures StatAt(base, f) in {IsDir, Missing} && (StatAt(base, f) == Missing ==> Receives(base, f, overwrite))
    ensures forall p | p < f :: StatAt(base, p) in {IsDir, Missing}
  {
    forall p | p <= f ensures StatAt(base, p) in {IsDir, Missing} {
      assert f == p + f[|p|..];
      HasIgnoredAppend(p, f[|p|..]);
    }
    assert forall k | 0 < k < |f| :: f[..k] <= f;
  }

  lemma FreshIsNotBlocked(src: Node, base: Node)
    requires Fresh(base)
    ensures !Blocked(src, base)
  {
    if f, p :| IsDeliverable(src, f) && p < f && StatAt(base, p).IsFile? { FreshReceives(src, base, f, true); }
  }

  /** A file that met a pinned directory is missing from its place. */
  lemma ClashShows(src: Node, old_: Node, base: Node, t: Node, files: seq<Path>)
    requires old_.Dir? && base == Cleaned(old_) && Delivered(src, base, t, files) && Clashes(src, old_)
    ensures !Mirrors(src, t)
  {
    hide Cleaned, Lookup, Pinned;
    var f :| IsDeliverable(src, f) && Pinned(old_, f);
    CleanedElsewhere(old_, f);
    assert StatAt(t, f) == IsDir;
  }

  /** Without a clash every file of the source arrives. */
  lemma FileArrives(src: Node, old_: Node, base: Node, t: Node, files: seq<Path>, overwrite: bool, q: Path)
    requires old_.Dir? && base == Cleaned(old_) && q in files && IsDeliverable(src, q)
    requires Fresh(base) && Present(src, base, t, files, overwrite) && !Pinned(old_, q)
    ensures StatAt(src, q) == StatAt(t, q)
  {
    hide Cleaned, Pinned, Fresh, Receives, Takes;
    CleanedElsewhere(old_, q);
    FreshReceives(src, base, q, overwrite);
    ReceivesTakes(base, q, overwrite);
    assert Arrived(src, base, t, q, overwrite);
  }

  lemma NothingInside(t: Node, f: Path)
    requires f != [] && StatAt(t, f).IsFile?
    ensures !StatAt(t, Inside(f)).IsFile?
  {
    assert Inside(f) == f + [f[|f| - 1]];
    if StatAt(t, Inside(f)).IsFile? { ParentsAreDirs(t, f, [f[|f| - 1]]); }
  }

  /** Once every file has arrived in its place, no other file is left. */
  lemma NothingExtra(src: Node, base: Node, t: Node, files: seq<Path>, q: Path)
    requires forall f | f in files :: StatAt(src, f).IsFile? && StatAt(t, f) == StatAt(src, f)
    requires Fresh(base) && Delivered(src, base, t, files) && !HasIgnored(q) && StatAt(t, q).IsFile?
    ensures StatAt(src, q) == StatAt(t, q)
  {
    hide StatAt, HasIgnored, IsDeliverable, Inside;
    assert Accounted(src, base, t, files, q);
    var f :| f in files && LandedFrom(src, t, f, q);
    NothingInside(t, f);
  }

  /** After cleaning and copying, the mirror is exact precisely when no file fell on a pinned directory. */
  lemma MirrorExactlyWithoutClash(src: Node, old_: Node, base: Node, t: Node, files: seq<Path>, overwrite: bool)
    requires old_.Dir? && base == Cleaned(old_) && (forall q :: q in files <==> IsDeliverable(src, q))
    requires Fresh(base) && Delivered(src, base, t, files) && Present(src, base, t, files, overwrite)
    ensures Mirrors(src, t) <==> !Clashes(src, old_)
  {
    hide Cleaned, Fresh, Delivered, Present, StatAt, HasIgnored, Pinned;
    if Clashes(src, old_) {
      ClashShows(src, old_, base, t, files);
    } else {
      forall f | f in files ensures StatAt(src, f).IsFile? && StatAt(t, f) == StatAt(src, f) {
        FileArrives(src, old_, base, t, files, overwrite, f);
      }
      forall q | q != [] && !HasIgnored(q) && (StatAt(src, q).IsFile? || StatAt(t, q).IsFile?)
        ensures StatAt(src, q) == StatAt(t, q)
      {
        assert StatAt(src, q).IsFile? ==> IsDeliverable(src, q);
        if StatAt(t, q).IsFile? { NothingExtra(src, base, t, files, q); }
      }
    }
  }

  lemma DeliveriesOnly(src: Node, base: Node, t: Node, files: seq<Path>)
    requires Delivered(src, base, t, files)
    ensures OnlyDeliveries(src, base, t)
  {
    forall q
      ensures || StatAt(t, q) == StatAt(base, q)
              || (StatAt(t, q) == IsDir && StatAt(base, q) == Missing && exists f :: IsDeliverable(src, f) && q < f)
              || (exists f :: IsDeliverable(src, f) && LandedFrom(src, t, f, q))
    {
      assert Accounted(src, base, t, files, q);
    }
  }

  lemma DeliveredFrame(src: Node, base: Node, t: Node, done: seq<Path>, q: Path)
    requires Delivered(src, base, t, done)
    ensures HasIgnored(q) ==> StatAt(t, q) == StatAt(base, q)
    ensures Fresh(base) && !HasIgnored(q) ==> StatAt(t, q) != IsAlias
  {
    assert Accounted(src, base, t, done, q);
    if NewParent(done, q) {
      var f :| f in done && q < f;
      assert f == q + f[|q|..];
      HasIgnoredAppend(q, f[|q|..]);
    }
    if Landed(src, t, done, q) {
      var f :| f in done && LandedFrom(src, t, f, q);
      HasIgnoredAppend(f, [f[|f| - 1]]);
      assert f[|f| - 1] in f;
    }
  }

  /** The delivered project directory; an absent directory is an empty one. */
  class Project {
    var tree: Node

    ghost predicate Valid()
      reads this
    {
      tree.Dir?
    }

    constructor (t: Node)
      requires t.Dir?
      ensures Valid() && tree == t
    {
      tree := t;
    }

    method Unlink(d: Path, n: Name)
      requires StatAt(tree, d) == IsDir
      modifies this
      ensures tree == Put(old(tree), d, n, None)
    {
      tree := Put(tree, d, n, None);
    }

    /** `rmdir`: an OSError, and no change, when the directory is not empty. */
    method Rmdir(d: Path, n: Name)
      requires StatAt(tree, d) == IsDir && n in EntriesAt(tree, d) && EntriesAt(tree, d)[n].Dir?
      modifies this
      ensures tree == if EntriesAt(old(tree), d)[n].entries == map[] then Put(old(tree), d, n, None) else old(tree)
    {
      if EntriesAt(tree, d)[n].entries == map[] {
        tree := Put(tree, d, n, None);
      }
    }

    /** Listing `m` once its entry `n` has been cleaned. */
    static ghost function Without(m: map<Name, Node>, n: Name): map<Name, Node>
      requires n in m
    {
      if Survives(n, m[n]) then (if Ignored(n) then m else m[n := Cleaned(m[n])]) else m - {n}
    }

    /** One turn of the cleaner's loop over the children of `at`. */
    method CleanChild(at: Path, n: Name)
      requires StatAt(tree, at) == IsDir && n in EntriesAt(tree, at)
      modifies this
      ensures old(StatAt(tree, at)) == IsDir
      ensures tree == WithEntries(old(tree), at, Without(EntriesAt(old(tree), at), n))
      decreases EntriesAt(tree, at)[n], 1
    {
      ghost var t0, m := tree, EntriesAt(tree, at);
      WithEntriesSame(t0, at);
      var child := EntriesAt(tree, at)[n];
      if child.Alias? {
        Unlink(at, n);
      } else if Ignored(n) {
      } else if child.Dir? {
        LookupSplit(tree, at, [n]);
        LookupOne(Lookup(tree, at).value, n);
        ghost var c := Cleaned(child).entries;
        WithEntriesNested(tree, at, n, c);
        WithEntriesTwice(t0, at, m[n := Dir(c)], m[n := Dir(c)] - {n});
        CleanDeliverableContents(at + [n]);
        Rmdir(at, n);
        assert m[n := Dir(c)] - {n} == m - {n};
      } else {
        Unlink(at, n);
      }
    }

    /** Listing `m` when the children outside `todo` have been cleaned. */
    static ghost function Progress(m: map<Name, Node>, todo: set<Name>): map<Name, Node> {
      map n | n in m && (n in todo || Survives(n, m[n])) ::
        if n in todo || Ignored(n) then m[n] else Cleaned(m[n])
    }

    static lemma ProgressStep(m: map<Name, Node>, todo: set<Name>, n: Name)
      requires n in todo && todo <= m.Keys
      ensures n in Progress(m, todo) && Progress(m, todo)[n] == m[n]
      ensures Without(Progress(m, todo), n) == Progress(m, todo - {n})
    {
      var a, b := Without(Progress(m, todo), n), Progress(m, todo - {n});
      assert a.Keys == b.Keys;
    }

    method CleanDeliverableContents(at: Path)
      requires StatAt(tree, at) == IsDir
      modifies this
      ensures old(StatAt(tree, at)) == IsDir
      ensures tree == WithEntries(old(tree), at, Cleaned(old(Lookup(tree, at).value)).entries)
      decreases Lookup(tree, at).value, 0
    {
      ghost var t0 := tree;
      ghost var m := EntriesAt(tree, at);
      var todo := EntriesAt(tree, at).Keys;
      WithEntriesSame(t0, at);
      assert Progress(m, todo) == m;
      while todo != {}
        invariant todo <= m.Keys
        invariant tree == WithEntries(t0, at, Progress(m, todo))
      {
        var n :| n in todo;
        ProgressStep(m, todo, n);
        WithEntriesTwice(t0, at, Progress(m, todo), Progress(m, todo - {n}));
        CleanChild(at, n);
        todo := todo - {n};
      }
      assert Progress(m, {}) == Cleaned(Dir(m)).entries;
    }
  
    /** The copy loop of `merge_back`. */
    method CopyFiles(src: Node, files: seq<Path>, overwrite: bool) returns (copied: seq<Path>, raised: bool)
      requires Valid() && Distinct(files) && forall f | f in files :: IsDeliverable(src, f)
      modifies this
      ensures Valid() && old(tree).Dir?
      ensures raised ==> Blocked(src, old(tree))
      ensures OnlyDeliveries(src, old(tree), tree)
      ensures forall q | HasIgnored(q) :: StatAt(tree, q) == StatAt(old(tree), q)
      ensures !raised ==> Delivered(src, old(tree), tree, files) && Present(src, old(tree), tree, files, overwrite)
      ensures !raised ==> forall f | f in files && f != [] :: f in copied <==> Takes(old(tree), f, overwrite)
      ensures forall f | f in copied :: f in files && f != [] && Takes(old(tree), f, overwrite)
      ensures !overwrite ==> forall q | StatAt(old(tree), q) != Missing :: StatAt(tree, q) == StatAt(old(tree), q)
      ensures forall q | StatAt(old(tree), q) == IsAlias :: StatAt(tree, q) == IsAlias
    {
      copied, raised := [], false;
      ghost var base := tree;
      hide Takes, OnlyDeliveries;
      for i := 0 to |files|
        invariant Delivered(src, base, tree, files[..i]) && Present(src, base, tree, files[..i], overwrite)
        invariant forall f | f in files[..i] && f != [] :: f in copied <==> Takes(base, f, overwrite)
        invariant forall f | f in copied :: f in files[..i]
        invariant !overwrite ==> forall q | StatAt(base, q) != Missing :: StatAt(tree, q) == StatAt(base, q)
        invariant forall q | StatAt(base, q) == IsAlias :: StatAt(tree, q) == IsAlias
      {
        var f := files[i];
        assert files[..i + 1] == files[..i] + [f];
        assert f !in files[..i] && IsDeliverable(src, f);
        var file := Lookup(src, f).value;
        StepDelivered(src, base, tree, files[..i], f, overwrite);
        if !DeliverOne(tree, f, file, overwrite).Raised? {
          StepPresent(src, base, tree, files[..i], f, overwrite);
        }
        match DeliverOne(tree, f, file, overwrite) {
          case Skipped =>
          case Raised =>
            StepRaises(src, base, tree, files[..i], f, overwrite);
            SoFar(src, base, tree, files[..i]);
            raised := true;
            return;
          case Failed(t) => FailedIsNoChange(tree, f, file, overwrite);
          case Wrote(t) =>
            forall q
              ensures !overwrite && StatAt(tree, q) != Missing ==> StatAt(t, q) == StatAt(tree, q)
              ensures StatAt(tree, q) == IsAlias ==> StatAt(t, q) == IsAlias
            {
              WroteStat(tree, f, file, overwrite, q);
            }
            tree := t;
            copied := copied + [f];
        }
      }
      assert files[..|files|] == files;
      SoFar(src, base, tree, files);
    }

    /** Delivers the files of `src`.  Cleaning first makes the delivery an exact mirror unless a file falls on a
        directory that the cleaner keeps. */
    method MergeBack(src: Option<Node>, overwrite: bool, clean: bool) returns (copied: seq<Path>, raised: bool)
      requires Valid()
      modifies this
      ensures Valid()
      ensures src.None? ==> tree == old(tree) && copied == [] && !raised
      ensures src.Some? && clean ==> !raised
      ensures src.Some? && clean ==> (Mirrors(src.value, tree) <==> !Clashes(src.value, old(tree)))
      ensures src.Some? && clean ==> IgnoredKept(old(tree), tree) && NoAuthoredAlias(tree)
      ensures src.Some? && clean && !Clashes(src.value, old(tree)) ==>
                forall q :: q in copied <==> IsDeliverable(src.value, q)
      ensures !clean && !overwrite ==>
                forall q | StatAt(old(tree), q) != Missing :: StatAt(tree, q) == StatAt(old(tree), q)
      ensures !clean ==> forall q | StatAt(old(tree), q) == IsAlias :: StatAt(tree, q) == IsAlias
      ensures !clean ==> forall q | HasIgnored(q) :: StatAt(tree, q) == StatAt(old(tree), q)
      ensures src.Some? && !clean ==> (raised <==> Blocked(src.value, old(tree)))
      ensures src.Some? && !clean ==> OnlyDeliveries(src.value, old(tree), tree)
      ensures src.Some? && !clean && !raised ==>
                forall f | f != [] :: f in copied <==> IsDeliverable(src.value, f) && Takes(old(tree), f, overwrite)
      ensures src.Some? && !clean && !raised ==>
                forall f | IsDeliverable(src.value, f) && f != [] :: Arrived(src.value, old(tree), tree, f, overwrite)
    {
      hide *;
      copied, raised := [], false;
      if src.None? { return; }
      var files := IterFiles(src.value);
      ghost var before := tree;
      if clean {
        copied := Mirror(src.value, files, overwrite);
      } else {
        copied, raised := CopyFiles(src.value, files, overwrite);
        if !raised {
          GotThrough(src.value, before, tree, files, overwrite);
          AllArrived(src.value, before, tree, files, overwrite);
        }
      }
    }

    /** Cleaning, and then the copy loop. */
    method Mirror(src: Node, files: seq<Path>, overwrite: bool) returns (copied: seq<Path>)
      requires Valid() && Distinct(files) && forall q :: q in files <==> IsDeliverable(src, q)
      modifies this
      ensures Valid()
      ensures Mirrors(src, tree) <==> !Clashes(src, old(tree))
      ensures IgnoredKept(old(tree), tree) && NoAuthoredAlias(tree)
      ensures !Clashes(src, old(tree)) ==> forall q :: q in copied <==> IsDeliverable(src, q)
    {
      ghost var before := tree;
      CleanDeliverableContents([]);
      ghost var base := tree;
      CleanedIsFresh(before);
      FreshIsNotBlocked(src, base);
      var raised: bool;
      hide Cleaned;
      copied, raised := CopyFiles(src, files, overwrite);
      hide Delivered, Present;
      CleanDelivery(src, before, base, tree, files, overwrite);
      MirrorExactlyWithoutClash(src, before, base, tree, files, overwrite);
      if !Clashes(src, before) { NoClashTakes(src, before, base, files, overwrite); }
      hide *;
    }
  }

  lemma CleanedIsFresh(before: Node)
    requires before.Dir?
    ensures Fresh(Cleaned(before))
  {
    forall q | !HasIgnored(q) ensures StatAt(Cleaned(before), q) in {IsDir, Missing} {
      if q != [] { CleanedElsewhere(before, q); }
    }
  }

  lemma CleanDelivery(src: Node, before: Node, base: Node, t: Node, files: seq<Path>, overwrite: bool)
    requires before.Dir? && base == Cleaned(before) && Fresh(base) && Delivered(src, base, t, files)
    ensures IgnoredKept(before, t) && NoAuthoredAlias(t)
  {
    hide Cleaned, Delivered, StatAt, HasIgnored, Cut, Fresh;
    forall q
      ensures HasIgnored(q) ==> StatAt(t, q) == if StatAt(before, Cut(q)) == IsAlias then Missing else StatAt(before, q)
      ensures !HasIgnored(q) ==> StatAt(t, q) != IsAlias
    {
      DeliveredFrame(src, base, t, files, q);
      if HasIgnored(q) { CleanedKeepsIgnored(before, q); }
    }
  }

  /** Without a clash every source file finds its place free in the cleaned destination. */
  lemma NoClashTakes(src: Node, before: Node, base: Node, files: seq<Path>, overwrite: bool)
    requires before.Dir? && base == Cleaned(before) && Fresh(base) && !Clashes(src, before)
    requires forall q | q in files :: IsDeliverable(src, q)
    ensures forall f | f in files :: f != [] && Takes(base, f, overwrite)
  {
    hide Cleaned, Pinned, Takes;
    forall f | f in files ensures f != [] && Takes(base, f, overwrite) {
      CleanedElsewhere(before, f);
      FreshReceives(src, base, f, overwrite);
      ReceivesTakes(base, f, overwrite);
    }
  }

  /** What the copy loop has done when it ends, be it early. */
  lemma SoFar(src: Node, base: Node, t: Node, done: seq<Path>)
    requires Delivered(src, base, t, done)
    ensures OnlyDeliveries(src, base, t)
    ensures forall q | HasIgnored(q) :: StatAt(t, q) == StatAt(base, q)
  {
    DeliveriesOnly(src, base, t, done);
    hide Delivered, OnlyDeliveries;
    forall q | HasIgnored(q) ensures StatAt(t, q) == StatAt(base, q) { DeliveredFrame(src, base, t, done, q); }
  }

  lemma AllArrived(src: Node, base: Node, t: Node, files: seq<Path>, overwrite: bool)
    requires (forall q :: q in files <==> IsDeliverable(src, q)) && Present(src, base, t, files, overwrite)
    ensures forall f | IsDeliverable(src, f) && f != [] :: Arrived(src, base, t, f, overwrite)
  {
    hide Arrived, IsDeliverable;
  }

  /** A clash: the source has a file where the destination has a directory that holds a repository. */
  lemma ClashHappens() returns (src: Node, dst: Node)
    ensures src.Dir? && dst.Dir? && Clashes(src, dst)
  {
    src := Dir(map["a" := File("x", 0)]);
    dst := Dir(map["a" := Dir(map[".git" := Dir(map[])])]);
    var f: Path := ["a"];
    LookupOne(src, "a");
    LookupOne(dst, "a");
    assert Text.Fold("a") == "a" && Text.Fold(".git") == ".git";
    assert !HasIgnored(f);
    assert Lookup(dst, ["a", ".git"]) == Some(Dir(map[])) by {
      assert ["a", ".git"][1..] == [".git"];
      LookupOne(dst.entries["a"], ".git");
    }
    assert f + [".git"] == ["a", ".git"] && f + [".git"] == ["a", ".git"][..1] + [".git"];
    assert LeadsToIgnored(dst, f + [".git"]);
    assert IsDeliverable(src, f);
  }
}
