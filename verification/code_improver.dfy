/** An agentic improvement session on a checkout: the text snapshot, the rollback of a failed session, and the
    acceptance of a successful one. */
module CodeImprover {
  import opened Options
  import opened FileTree
  import opened SessionPruning
  import SourceView
  import Text
  import TreeWalk
  import W = Worktree

  const PRUNED: set<Name> := TreeWalk.SOURCE_EXCLUDED + {"venv", ".cache"}
  const MaxBytes := 1_000_000
  const NewFileMode: nat := 0x1A4

  type Snap = map<Path, string>

  /** Bytes that are no text stand as characters from U+10FF00 on. */
  predicate Decodes(data: string) { forall i | 0 <= i < |data| :: data[i] < '\U{10FF00}' }

  predicate Visible(p: Path) { forall n | n in p :: Text.Fold(n) !in PRUNED }

  /** A file that a snapshot includes. */
  predicate Tracked(t: Node, p: Path) {
    && p != [] && Visible(p)
    && match StatAt(t, p) case IsFile(data, _) => |data| <= MaxBytes && Decodes(data) case _ => false
  }

  /** The names that hide what they stand over: those of the source exclusions and two more, in any case. */
  ghost predicate Hiding(n: Name) {
    || SourceView.LikeSome(n, W.IgnoreNames) || SourceView.LikeSome(n, SourceView.BuildNames)
    || Text.SameButCase(n, "venv") || Text.SameButCase(n, ".cache")
  }

  lemma PrunedIff(n: Name)
    ensures Text.Fold(n) in PRUNED <==> Hiding(n)
  {
    assert Text.Fold("venv") == "venv" && Text.Fold(".cache") == ".cache";
    hide TreeWalk.SOURCE_EXCLUDED, Text.Fold, Text.SameButCase, SourceView.LikeSome, SourceView.BuildNames;
    hide W.IgnoreNames;
    SourceView.ExcludedNameIff(n);
    SourceView.FoldsTo(n, "venv");
    SourceView.FoldsTo(n, ".cache");
  }

  lemma VisibleIff(p: Path)
    ensures Visible(p) <==> forall n | n in p :: !Hiding(n)
  {
    forall n { PrunedIff(n); }
    hide Hiding, PRUNED, Text.Fold;
  }

  lemma DecodesIff(data: string)
    ensures Decodes(data) <==> forall c | c in data :: c < '\U{10FF00}'
  {
    assert forall i | 0 <= i < |data| :: data[i] in data;
    if Decodes(data) {
      forall c | c in data ensures c < '\U{10FF00}' {
        var i :| 0 <= i < |data| && data[i] == c;
      }
    }
  }

  /** A snapshot includes the files of at most a million bytes of text that lie below no hiding name. */
  lemma TrackedIff(t: Node, p: Path)
    ensures Tracked(t, p) <==>
            && p != [] && (forall n | n in p :: !Hiding(n))
            && StatAt(t, p).IsFile? && |StatAt(t, p).data| <= 1_000_000
            && forall c | c in StatAt(t, p).data :: c < '\U{10FF00}'
  {
    VisibleIff(p);
    if StatAt(t, p).IsFile? { DecodesIff(StatAt(t, p).data); }
    hide Visible, Hiding;
  }

  function TextAt(t: Node, p: Path): string
    requires Tracked(t, p)
  {
    Text.Universal(StatAt(t, p).data)
  }

  ghost predicate IsSnapshot(t: Node, snap: Snap) {
    && (forall p :: p in snap <==> Tracked(t, p))
    && (forall p | p in snap && Tracked(t, p) :: snap[p] == TextAt(t, p))
  }

  /** What a snapshot holds can be written back and read again. */
  lemma {:induction false} UniversalDecodes(s: string)
    requires Decodes(s)
    ensures Decodes(Text.Universal(s)) && '\r' !in Text.Universal(s) && |Text.Universal(s)| <= |s|
    decreases |s|
  {
    if s == [] {
    } else if |s| >= 2 && s[0] == '\r' && s[1] == '\n' {
      assert Decodes(s[2..]);
      UniversalDecodes(s[2..]);
    } else {
      assert Decodes(s[1..]);
      UniversalDecodes(s[1..]);
    }
  }

  ghost predicate Readable(snap: Snap) {
    forall p | p in snap :: p != [] && Visible(p) && |snap[p]| <= MaxBytes && Decodes(snap[p]) && '\r' !in snap[p]
  }

  /** No file of a snapshot lies below another. */
  ghost predicate PrefixFree(snap: Snap) { forall p, q | p in snap && q in snap && p <= q :: p == q }

  lemma SnapshotIsSound(t: Node, snap: Snap)
    requires IsSnapshot(t, snap)
    ensures Readable(snap) && PrefixFree(snap)
  {
    forall p | p in snap
      ensures p != [] && Visible(p) && |snap[p]| <= MaxBytes && Decodes(snap[p]) && '\r' !in snap[p]
    {
      assert Tracked(t, p);
      UniversalDecodes(StatAt(t, p).data);
    }
    forall p, q | p in snap && q in snap && p <= q ensures p == q {
      assert Tracked(t, p) && Tracked(t, q);
      if p != q {
        assert q == p + q[|p|..];
        ParentsAreDirs(t, p, q[|p|..]);
      }
    }
  }

  // ---- what a rollback can reach -------------------------------------------------------------------------

  predicate Above(q: Path, p: Path) { q <= p && q != p }

  /** The file can be written: directories, or nothing at all, above it, and no directory or alias in its place. */
  ghost predicate Reachable(t: Node, p: Path) {
    !StatAt(t, p).IsDir? && !StatAt(t, p).IsAlias? && forall q | Above(q, p) :: StatAt(t, q) in {IsDir, Missing}
  }

  /** As `Reachable`, once the tracked files that are new have been removed. */
  ghost predicate Recoverable(t: Node, before: Snap, p: Path) {
    && !StatAt(t, p).IsDir? && !StatAt(t, p).IsAlias?
    && forall q | Above(q, p) :: StatAt(t, q) in {IsDir, Missing} || (Tracked(t, q) && q !in before)
  }

  ghost predicate Restorable(t: Node, before: Snap) { forall p | p in before :: Recoverable(t, before, p) }

  /** The tree after the new tracked files were removed. */
  ghost predicate Pruned(t: Node, before: Snap, gone: Snap, u: Node) {
    u.Dir? && forall q :: StatAt(u, q) == if q in gone && q !in before then Missing else StatAt(t, q)
  }

  /** Files of `before` that can be written into `u`. */
  ghost predicate Target(u: Node, before: Snap, done: set<Path>, p: Path) {
    p in done && p in before && Reachable(u, p)
  }

  /** The tree `u` after the files of `done` were written, as far as they can be. */
  ghost predicate Written(u: Node, before: Snap, done: set<Path>, t: Node) {
    && t.Dir?
    && (forall p | Target(u, before, done, p) :: Tracked(t, p) && TextAt(t, p) == before[p])
    && (forall p, q | Target(u, before, done, p) && Above(q, p) :: StatAt(t, q) == IsDir)
    && (forall q | (forall p | Target(u, before, done, p) :: !(q <= p)) :: StatAt(t, q) == StatAt(u, q))
  }

  /** Writing keeps the mode of a file. */
  function ModeAt(t: Node, p: Path): nat { match StatAt(t, p) case IsFile(_, mode) => mode case _ => NewFileMode }

  /** `t'` is `t` with the text of `p` replaced, where that is possible. */
  ghost predicate WroteText(t: Node, p: Path, text: string, t': Node) {
    && t'.Dir?
    && (Reachable(t, p) ==>
          && StatAt(t', p) == IsFile(text, ModeAt(t, p))
          && forall q | q != p :: StatAt(t', q) == if q <= p then IsDir else StatAt(t, q))
    && (!Reachable(t, p) ==> forall q :: StatAt(t', q) == StatAt(t, q))
  }

  lemma StillReachable(u: Node, before: Snap, done: set<Path>, t: Node, p: Path)
    requires Written(u, before, done, t) && PrefixFree(before) && p in before && p !in done
    ensures Reachable(t, p) <==> Reachable(u, p)
    ensures StatAt(t, p) == StatAt(u, p)
  {
    forall q | q <= p
      ensures q == p ==> StatAt(t, q) == StatAt(u, q)
      ensures StatAt(t, q) in {IsDir, Missing} <==> StatAt(u, q) in {IsDir, Missing}
    {
      if x :| Target(u, before, done, x) && q <= x {
        assert q != x && q != p;
        assert Above(q, x);
      }
    }
  }

  lemma WriteNext(u: Node, before: Snap, done: set<Path>, t: Node, p: Path, t': Node)
    requires Written(u, before, done, t) && PrefixFree(before) && Readable(before) && p in before && p !in done
    requires WroteText(t, p, before[p], t')
    ensures Written(u, before, done + {p}, t')
  {
    StillReachable(u, before, done, t, p);
    var d := done + {p};
    assert forall x :: Target(u, before, d, x) <==> Target(u, before, done, x) || (x == p && Reachable(u, p));
    if Reachable(u, p) {
      assert before[p] in before.Values;
      TextWritten(before, t', p);
      forall x | Target(u, before, d, x) ensures Tracked(t', x) && TextAt(t', x) == before[x] {
        if x != p { assert !(x <= p); }
      }
      forall x, q | Target(u, before, d, x) && Above(q, x) ensures StatAt(t', q) == IsDir {
      }
    }
  }

  lemma TextWritten(before: Snap, t: Node, p: Path)
    requires Readable(before) && p in before && StatAt(t, p).IsFile? && StatAt(t, p).data == before[p]
    ensures Tracked(t, p) && TextAt(t, p) == before[p]
  {
    Text.UniversalFixed(before[p]);
  }

  /** A file that is as it was needs no writing. */
  lemma SkipNext(u: Node, before: Snap, done: set<Path>, t: Node, p: Path)
    requires Written(u, before, done, t) && PrefixFree(before) && p in before && p !in done
    requires Tracked(u, p) && TextAt(u, p) == before[p]
    ensures Written(u, before, done + {p}, t)
  {
    StillReachable(u, before, done, t, p);
    assert Tracked(t, p) && TextAt(t, p) == before[p];
    hide Tracked, TextAt, Reachable;
    assert forall x :: Target(u, before, done + {p}, x) ==> Target(u, before, done, x) || x == p;
    assert forall x :: Target(u, before, done, x) ==> Target(u, before, done + {p}, x);
    forall q | Above(q, p) ensures StatAt(t, q) == IsDir {
      assert p == q + p[|q|..];
      TrackedExists(t, p);
      ParentsAreDirs(t, q, p[|q|..]);
    }
  }

  lemma TrackedExists(t: Node, p: Path)
    requires Tracked(t, p)
    ensures StatAt(t, p) != Missing
  {
  }

  /** What a rollback makes of a file that it can reach: one that reads as it did is left alone, any other is
      written. */
  function Rewritten(t: Node, before: Snap, p: Path): Stat
    requires p in before
  {
    if Tracked(t, p) && TextAt(t, p) == before[p] then StatAt(t, p) else IsFile(before[p], ModeAt(t, p))
  }

  ghost predicate Exactly(u: Node, before: Snap, done: set<Path>, t: Node) {
    forall p | Target(u, before, done, p) :: StatAt(t, p) == Rewritten(u, before, p)
  }

  lemma NothingRewritten(u: Node, before: Snap)
    ensures Exactly(u, before, {}, u) && (u.Dir? ==> Written(u, before, {}, u))
  {
  }

  lemma RewriteNext(u: Node, before: Snap, done: set<Path>, t: Node, p: Path, t': Node)
    requires Written(u, before, done, t) && PrefixFree(before) && p in before && p !in done
    requires Exactly(u, before, done, t)
    requires WroteText(t, p, before[p], t') && !(Tracked(u, p) && TextAt(u, p) == before[p])
    ensures Exactly(u, before, done + {p}, t')
  {
    StillReachable(u, before, done, t, p);
    hide Tracked, TextAt, Written, Reachable;
    forall x | Target(u, before, done + {p}, x) ensures StatAt(t', x) == Rewritten(u, before, x) {
      if x != p { assert Target(u, before, done, x) && !(x <= p); }
    }
  }

  lemma LeaveNext(u: Node, before: Snap, done: set<Path>, t: Node, p: Path)
    requires Written(u, before, done, t) && PrefixFree(before) && p in before && p !in done
    requires Exactly(u, before, done, t)
    requires Tracked(u, p) && TextAt(u, p) == before[p]
    ensures Exactly(u, before, done + {p}, t)
  {
    StillReachable(u, before, done, t, p);
    hide Tracked, TextAt, Written, Reachable;
    forall x | Target(u, before, done + {p}, x) ensures StatAt(t, x) == Rewritten(u, before, x) {
      if x != p { assert Target(u, before, done, x); }
    }
  }

  /** The files of a snapshot after a rollback: those that can be reached are back, and the others are as they were. */
  lemma RestoredExactly(t: Node, before: Snap, after: Snap, u: Node, t': Node)
    requires IsSnapshot(t, after) && Pruned(t, before, after, u) && PrefixFree(before)
    requires Written(u, before, before.Keys, t') && Exactly(u, before, before.Keys, t')
    ensures forall p | p in before ::
              StatAt(t', p) == if Recoverable(t, before, p) then Rewritten(t, before, p) else StatAt(t, p)
    ensures forall p | Tracked(t, p) && p !in before :: !StatAt(t', p).IsFile?
  {
    forall p | p in before
      ensures StatAt(t', p) == if Recoverable(t, before, p) then Rewritten(t, before, p) else StatAt(t, p)
    {
      RecoverableIff(t, before, after, u, p);
      FileRestored(t, before, after, u, t', p);
    }
    forall p | Tracked(t, p) && p !in before ensures !StatAt(t', p).IsFile? { NewFileGone(t, before, after, u, t', p); }
  }

  lemma FileRestored(t: Node, before: Snap, after: Snap, u: Node, t': Node, p: Path)
    requires IsSnapshot(t, after) && Pruned(t, before, after, u) && PrefixFree(before) && p in before
    requires Written(u, before, before.Keys, t') && Exactly(u, before, before.Keys, t')
    ensures StatAt(t', p) == if Reachable(u, p) then Rewritten(t, before, p) else StatAt(t, p)
  {
    hide IsSnapshot, Reachable, Tracked, TextAt;
    assert StatAt(u, p) == StatAt(t, p);
    if Reachable(u, p) {
      assert Target(u, before, before.Keys, p);
      SameRewritten(t, u, before, p);
    } else {
      forall x | Target(u, before, before.Keys, x) ensures !(p <= x) { }
    }
  }

  lemma SameRewritten(t: Node, u: Node, before: Snap, p: Path)
    requires p in before && StatAt(u, p) == StatAt(t, p)
    ensures Rewritten(u, before, p) == Rewritten(t, before, p)
  {
  }

  lemma NewFileGone(t: Node, before: Snap, after: Snap, u: Node, t': Node, p: Path)
    requires IsSnapshot(t, after) && Pruned(t, before, after, u) && Written(u, before, before.Keys, t')
    requires Tracked(t, p) && p !in before
    ensures !StatAt(t', p).IsFile?
  {
    hide Tracked, TextAt, Reachable;
    assert StatAt(u, p) == Missing;
    if x :| Target(u, before, before.Keys, x) && p <= x { assert Above(p, x); }
  }

  /** A rollback brings a file's bytes back exactly when the session left it with those bytes, or with another text and
      the bytes had no CR: a file that reads as it did is left alone, and one that is written back gets the text. */
  lemma RollbackBytes(origin: Node, before: Snap, left: Node, p: Path)
    requires IsSnapshot(origin, before) && p in before
    ensures Tracked(origin, p)
    ensures var was, now := StatAt(origin, p).data, Rewritten(left, before, p);
            && now.IsFile?
            && now.mode == (if StatAt(left, p).IsFile? then StatAt(left, p).mode else 0x1A4)
            && (now.data == was <==>
               if Tracked(left, p) && TextAt(left, p) == before[p] then StatAt(left, p).data == was else '\r' !in was)
  {
    Text.UniversalFixed(StatAt(origin, p).data);
  }

  /** A file that the session deletes loses its CRs in the rollback. */
  lemma RollbackLosesCr() returns (origin: Node, before: Snap, left: Node)
    ensures IsSnapshot(origin, before) && left.Dir? && Restorable(left, before) && ["a"] in before
    ensures StatAt(origin, ["a"]) == IsFile("x\r\n", NewFileMode)
    ensures Rewritten(left, before, ["a"]) == IsFile("x\n", NewFileMode)
  {
    origin := Dir(map["a" := File("x\r\n", NewFileMode)]);
    left := Dir(map[]);
    before := map[["a"] := "x\n"];
    CrFileTracked(origin);
    assert forall q: Path | q != [] :: StatAt(left, q) == Missing;
    hide Tracked, TextAt;
    forall p ensures p in before <==> Tracked(origin, p) { LoneFile(origin, p, "x\r\n"); }
  }

  lemma CrFileTracked(t: Node)
    requires t == Dir(map["a" := File("x\r\n", NewFileMode)])
    ensures Tracked(t, ["a"]) && TextAt(t, ["a"]) == "x\n" && StatAt(t, ["a"]) == IsFile("x\r\n", NewFileMode)
  {
    hide PRUNED;
    LookupOne(t, "a");
    assert Text.Fold("a") == "a";
    assert "a" !in PRUNED by { ShortNameIsKept(); }
    assert "x\r\n"[1..] == "\r\n" && "\r\n"[2..] == "";
    assert Text.Universal("\r\n") == "\n" + Text.Universal("");
    assert Text.Universal("x\r\n") == "x" + Text.Universal("\r\n");
  }

  /** A rollback restores the snapshot exactly when every file of it can be reached. */
  lemma RollbackIff(t: Node, before: Snap, after: Snap, u: Node, t': Node)
    requires IsSnapshot(t, after) && Pruned(t, before, after, u) && Written(u, before, before.Keys, t')
    requires PrefixFree(before)
    ensures IsSnapshot(t', before) <==> Restorable(t, before)
  {
    RestorableIff(t, before, after, u);
    if forall p | p in before :: Reachable(u, p) {
      hide Tracked, TextAt, Pruned, Restorable;
      forall p | p in before ensures Target(u, before, before.Keys, p) { }
      hide Reachable;
      forall p ensures p in before <==> Tracked(t', p) {
        if p !in before { NothingElseTracked(t, before, after, u, t', p); }
      }
    }
    if IsSnapshot(t', before) {
      hide Written, Pruned, Restorable, Reachable;
      forall p | p in before ensures Reachable(u, p) { ReachedIfTracked(before, u, t', p); }
    }
  }

  lemma RestorableIff(t: Node, before: Snap, after: Snap, u: Node)
    requires IsSnapshot(t, after) && Pruned(t, before, after, u) && PrefixFree(before)
    ensures Restorable(t, before) <==> forall p | p in before :: Reachable(u, p)
  {
    hide Recoverable, Reachable, IsSnapshot, Pruned, PrefixFree;
    forall p | p in before { RecoverableIff(t, before, after, u, p); }
  }

  lemma RecoverableIff(t: Node, before: Snap, after: Snap, u: Node, p: Path)
    requires IsSnapshot(t, after) && Pruned(t, before, after, u) && PrefixFree(before) && p in before
    ensures Recoverable(t, before, p) <==> Reachable(u, p)
  {
    hide Tracked, TextAt;
  }

  lemma NothingElseTracked(t: Node, before: Snap, after: Snap, u: Node, t': Node, p: Path)
    requires IsSnapshot(t, after) && Pruned(t, before, after, u) && Written(u, before, before.Keys, t')
    requires p !in before
    ensures !Tracked(t', p)
  {
    if x :| Target(u, before, before.Keys, x) && p <= x { assert Above(p, x); }
  }

  lemma ReachedIfTracked(before: Snap, u: Node, t': Node, p: Path)
    requires Written(u, before, before.Keys, t') && PrefixFree(before) && p in before && Tracked(t', p)
    ensures Reachable(u, p)
  {
    if !Target(u, before, before.Keys, p) {
      assert forall x | Target(u, before, before.Keys, x) :: !(p <= x);
      assert StatAt(t', p) == StatAt(u, p);
      forall q | Above(q, p) ensures StatAt(u, q) in {IsDir, Missing} {
        assert p == q + p[|q|..];
        ParentsAreDirs(t', q, p[|q|..]);
        if x :| Target(u, before, before.Keys, x) && q <= x { assert q != x && Above(q, x); }
      }
    }
  }

  // ---- the checkout --------------------------------------------------------------------------------------

  class Checkout {
    var tree: Node

    constructor (tree: Node)
      ensures this.tree == tree
    {
      this.tree := tree;
    }

    /** `_snapshot` */
    method Snapshot() returns (snap: Snap)
      ensures IsSnapshot(tree, snap)
    {
      var all := W.Rglob(tree);
      snap := map[];
      for i := 0 to |all|
        invariant forall p :: p in snap <==> p in all[..i] && Tracked(tree, p)
        invariant forall p | p in snap && Tracked(tree, p) :: snap[p] == TextAt(tree, p)
      {
        assert all[..i + 1] == all[..i] + [all[i]];
        if Tracked(tree, all[i]) { snap := snap[all[i] := TextAt(tree, all[i])]; }
      }
      assert all[..|all|] == all;
    }

    /** `unlink(missing_ok=True)`, which leaves a directory alone. */
    method Unlink(p: Path)
      requires tree.Dir? && p != []
      modifies this
      ensures tree.Dir?
      ensures forall q ::
                StatAt(tree, q) == if q == p && !StatAt(old(tree), p).IsDir? then Missing else StatAt(old(tree), q)
    {
      if StatAt(tree, p).IsFile? || StatAt(tree, p).IsAlias? {
        var d, n := p[..|p| - 1], p[|p| - 1];
        assert p == d + [n];
        ParentsAreDirs(tree, d, [n]);
        forall q
          ensures StatAt(Put(tree, d, n, None), q) == if q == p then Missing else StatAt(tree, q)
        {
          StatPut(tree, d, n, None, q);
          if p <= q && q != p { NothingBelowLeaf(tree, p, q); }
        }
        tree := Put(tree, d, n, None);
      }
    }

    /** `mkdir(parents=True, exist_ok=True)` and `write_text`; nothing happens when a directory or an alias is in the
        way. */
    method WriteText(p: Path, text: string)
      requires tree.Dir? && p != []
      modifies this
      ensures WroteText(old(tree), p, text, tree)
    {
      var d, n := p[..|p| - 1], p[|p| - 1];
      assert p == d + [n];
      MkdirAllSucceeds(tree, d);
      AboveIsParent(p, d);
      var made := MkdirAll(tree, d);
      if made.Some? && !StatAt(tree, p).IsDir? && !StatAt(tree, p).IsAlias? {
        assert Reachable(tree, p);
        var mode := ModeAt(tree, p);
        StatMkdirAll(tree, d, d);
        WriteAfterMkdir(tree, made.value, p, d, n, text, mode);
        tree := Put(made.value, d, n, Some(File(text, mode)));
      }
    }

    method RemoveNew(after: Snap, before: Snap)
      requires tree.Dir? && IsSnapshot(tree, after)
      modifies this
      ensures Pruned(old(tree), before, after, tree)
    {
      ghost var t := tree;
      var todo := after.Keys - before.Keys;
      while todo != {}
        invariant todo <= after.Keys - before.Keys && tree.Dir?
        invariant forall q ::
                    StatAt(tree, q) == if q in after && q !in before && q !in todo then Missing else StatAt(t, q)
      {
        var p :| p in todo;
        assert Tracked(t, p);
        Unlink(p);
        todo := todo - {p};
      }
    }

    method WriteBack(after: Snap, before: Snap)
      requires tree.Dir? && PrefixFree(before) && Readable(before)
      requires forall p | p in after && p in before :: Tracked(tree, p) && TextAt(tree, p) == after[p]
      requires forall p | p in before && Tracked(tree, p) :: p in after
      modifies this
      ensures Written(old(tree), before, before.Keys, tree) && Exactly(old(tree), before, before.Keys, tree)
    {
      hide *;
      ghost var u := tree;
      var todo := before.Keys;
      assert before.Keys - todo == {};
      NothingRewritten(u, before);
      while todo != {}
        invariant todo <= before.Keys && Written(u, before, before.Keys - todo, tree) && tree.Dir?
        invariant Exactly(u, before, before.Keys - todo, tree)
      {
        var p :| p in todo;
        ghost var done := before.Keys - todo;
        NonEmpty(before, p);
        if p in after && after[p] == before[p] {
          SkipNext(u, before, done, tree, p);
          LeaveNext(u, before, done, tree, p);
        } else {
          ghost var t0 := tree;
          WriteText(p, before[p]);
          WriteNext(u, before, done, t0, p, tree);
          RewriteNext(u, before, done, t0, p, tree);
          WrittenIsDir(u, before, done + {p}, tree);
        }
        todo := todo - {p};
        assert before.Keys - todo == done + {p};
      }
      assert before.Keys - todo == before.Keys;
    }

    /** `_restore_snapshot`.  It restores every file of the snapshot that the tree left behind lets it reach, and so the
        snapshot exactly when that is all of them; new files that a snapshot would include go; and it touches nothing
        but the files of the snapshot, what must lie above them, and new files that a snapshot would include. */
    method RestoreSnapshot(before: Snap, ghost origin: Node)
      requires tree.Dir? && IsSnapshot(origin, before)
      modifies this
      ensures tree.Dir?
      ensures IsSnapshot(tree, before) <==> Restorable(old(tree), before)
      ensures forall p | p in before ::
                StatAt(tree, p) == if Recoverable(old(tree), before, p) then Rewritten(old(tree), before, p)
                                   else StatAt(old(tree), p)
      ensures forall p | Tracked(old(tree), p) && p !in before :: !StatAt(tree, p).IsFile?
      ensures forall q | !Tracked(old(tree), q) && (forall p | p in before :: !(q <= p)) ::
                StatAt(tree, q) == StatAt(old(tree), q)
    {
      SnapshotIsSound(origin, before);
      ghost var t := tree;
      var after := Snapshot();
      hide Readable, PrefixFree, Restorable, WroteText;
      RemoveNew(after, before);
      ghost var u := tree;
      WriteBack(after, before);
      hide Tracked, TextAt;
      RollbackIff(t, before, after, u, tree);
      RestoredExactly(t, before, after, u, tree);
      hide Pruned, Written, IsSnapshot;
      forall q | !Tracked(t, q) && (forall p | p in before :: !(q <= p)) ensures StatAt(tree, q) == StatAt(t, q) {
        Untouched(t, before, after, u, tree, q);
      }
    }

    /** The accept-or-unwind loop.  A change that is refused is undone; all other files stay as the session left
        them. */
    method AcceptOrUnwind(before: Snap, ghost origin: Node, accept: (Path, Option<string>, string) -> bool)
      returns (improved: set<Path>)
      requires tree.Dir? && IsSnapshot(origin, before)
      modifies this
      ensures tree.Dir?
      ensures forall p :: p in improved <==>
                Tracked(old(tree), p) && Changed(old(tree), before, p) && !Refused(old(tree), before, accept, p)
      ensures forall p ::
                Tracked(tree, p) <==> Tracked(old(tree), p) && (Refused(old(tree), before, accept, p) ==> p in before)
      ensures forall p | Tracked(tree, p) && Tracked(old(tree), p) ::
                TextAt(tree, p) == if Refused(old(tree), before, accept, p) then before[p] else TextAt(old(tree), p)
      ensures forall q :: StatAt(tree, q) == if Tracked(old(tree), q) && Refused(old(tree), before, accept, q)
                                             then (if q in before then IsFile(before[q], ModeAt(old(tree), q))
                                                   else Missing)
                                             else StatAt(old(tree), q)
    {
      SnapshotIsSound(origin, before);
      ghost var t := tree;
      var after := Snapshot();
      hide Readable, PrefixFree, Tracked, TextAt, Refused, Changed, Unwound, IsSnapshot;
      SnapshotMeans(t, after);
      UnwoundNothing(t, before, accept);
      assert after.Keys - after.Keys == {};
      improved := {};
      var todo := after.Keys;
      while todo != {}
        invariant todo <= after.Keys && tree.Dir? && forall q | q in after :: Tracked(t, q)
        invariant forall p ::
                    p in improved <==>
                    p in after && p !in todo && Changed(t, before, p) && !Refused(t, before, accept, p)
        invariant Unwound(t, before, accept, after.Keys - todo, tree)
      {
        var p :| p in todo;
        assert Tracked(t, p);
        RefusedMeans(t, before, accept, p);
        var original := if p in before then Some(before[p]) else None;
        if original != Some(after[p]) {
          if accept(p, original, after[p]) {
            improved := improved + {p};
          } else {
            Unwind(p, original, before, t, accept, after.Keys - todo);
          }
        }
        UnwoundSkip(t, before, accept, after.Keys - todo, tree, p);
        assert after.Keys - (todo - {p}) == (after.Keys - todo) + {p};
        todo := todo - {p};
      }
      assert after.Keys - todo == after.Keys;
      forall p
        ensures Tracked(tree, p) <==> Tracked(t, p) && (Refused(t, before, accept, p) ==> p in before)
        ensures Tracked(tree, p) && Tracked(t, p) ==>
                  TextAt(tree, p) == if Refused(t, before, accept, p) then before[p] else TextAt(t, p)
        ensures StatAt(tree, p) == if Tracked(t, p) && Refused(t, before, accept, p)
                                   then (if p in before then IsFile(before[p], ModeAt(t, p)) else Missing)
                                   else StatAt(t, p)
      {
        UnwoundAt(t, before, accept, after.Keys, tree, p);
      }
    }

    /** Undoes one refused change. */
    method Unwind(p: Path, original: Option<string>, before: Snap, ghost t: Node,
                  ghost accept: (Path, Option<string>, string) -> bool, ghost done: set<Path>)
      requires tree.Dir? && (forall q | q in done :: Tracked(t, q)) && Unwound(t, before, accept, done, tree)
      requires Tracked(t, p) && p !in done && Refused(t, before, accept, p)
      requires original == if p in before then Some(before[p]) else None
      modifies this
      ensures Unwound(t, before, accept, done + {p}, tree)
    {
      ghost var t0 := tree;
      UnwoundStill(t, before, accept, done, tree, p);
      hide Unwound, Refused, Tracked;
      if original.None? { Unlink(p); } else { WriteText(p, original.value); }
      UnwindNext(t, before, accept, done, t0, p, tree);
    }

    /** `rmdir`, which removes a directory only when it is empty. */
    method Rmdir(p: Path)
      requires tree.Dir? && p != [] && StatAt(tree, p).IsDir?
      modifies this
      ensures tree.Dir? && StatAt(old(tree), p).IsDir?
      ensures forall q ::
                StatAt(tree, q) == if q == p && EntriesAt(old(tree), p) == map[] then Missing else StatAt(old(tree), q)
    {
      if EntriesAt(tree, p) == map[] {
        var d, n := p[..|p| - 1], p[|p| - 1];
        assert p == d + [n];
        ParentsAreDirs(tree, d, [n]);
        EmptyIff(tree, p);
        forall q
          ensures StatAt(Put(tree, d, n, None), q) == if q == p then Missing else StatAt(tree, q)
        {
          StatPut(tree, d, n, None, q);
          assert p <= q && q != p ==> p < q;
        }
        tree := Put(tree, d, n, None);
      }
    }

    /** `_prune_untrusted_agentic_new_paths`: deepest paths first, untrusted new files and then empty directories go. */
    method PruneNewPaths(pol: Policy) returns (removed: set<Path>)
      requires tree.Dir? && pol.visible == Visible
      modifies this
      ensures PrunedTo(old(tree), pol, tree)
      ensures forall q :: q in removed <==> Junk(old(tree), pol, q)
    {
      ghost var t := tree;
      var all := W.Rglob(tree);
      var todo := set p | p in all && Visible(p);
      ghost var paths, done := todo, {};
      removed := {};
      assert forall q :: q in paths <==> q != [] && pol.visible(q) && StatAt(t, q) != Missing;
      hide *;
      NothingPruned(t, pol);
      JunkIsSeen(t, pol);
      while todo != {}
        invariant PrunedIn(t, pol, done, tree) && tree.Dir?
        invariant forall q :: q in paths <==> q in todo || q in done
        invariant forall q | q in todo :: q !in done
        invariant forall q :: q in removed <==> q in done && Junk(t, pol, q)
      {
        ghost var deepest := Deepest(todo);
        var p :| p in todo && forall q | q in todo :: |q| <= |p|;
        var gone := PrunePath(p, pol, t, done);
        if gone { removed := removed + {p}; }
        todo, done := todo - {p}, done + {p};
      }
      AllPruned(t, pol, done, tree);
    }

    method PrunePath(p: Path, pol: Policy, ghost t: Node, ghost done: set<Path>) returns (gone: bool)
      requires tree.Dir? && p != [] && pol.visible(p) && p !in done && PrunedIn(t, pol, done, tree)
      requires forall q | p < q && pol.visible(q) && StatAt(t, q) != Missing :: q in done
      modifies this
      ensures tree.Dir? && PrunedIn(t, pol, done + {p}, tree) && (gone <==> Junk(t, pol, p))
    {
      ghost var t0 := tree;
      assert StatAt(tree, p) == StatAt(t, p);
      gone := Junk(tree, pol, p);
      assert gone <==> Junk(t, pol, p);
      if gone {
        Unlink(p);
      } else if StatAt(tree, p).IsDir? {
        EmptyIffHollow(t, pol, done, tree, p);
        Rmdir(p);
      }
      hide PrunedIn, Solid;
      PruneNext(t, pol, done, t0, p, tree);
    }

    /** One agentic session, which leaves any tree behind.  What it delivers is, file by file, what was there before or
        what it reports as improved, and no new file that is not trusted; a failed session is rolled back wherever that
        can be done.  `kept` is what the session left without the untrusted new files. */
    method AgenticImprove(left: Node, ok: bool, trusted: Path -> bool, toFile: Path -> bool,
                          accept: (Path, Option<string>, string) -> bool)
      returns (improved: set<Path>, removed: set<Path>, ghost before: Snap, ghost known: set<Path>, ghost kept: Node)
      requires tree.Dir? && left.Dir?
      modifies this
      ensures IsSnapshot(old(tree), before)
      ensures forall q :: q in known <==> q != [] && Visible(q) && StatAt(old(tree), q) != Missing
      ensures ok ==> PrunedTo(left, Policy(Visible, known, trusted, toFile), kept)
      ensures ok ==> forall q :: q in removed <==> Junk(left, Policy(Visible, known, trusted, toFile), q)
      ensures ok ==> forall q | q != [] && Visible(q) && StatAt(tree, q).IsFile? :: q in known || trusted(q)
      ensures ok ==> forall p | Tracked(tree, p) :: (p in before && TextAt(tree, p) == before[p]) || p in improved
      ensures ok ==>
                forall p | p in improved :: Tracked(tree, p) && Tracked(kept, p) && TextAt(tree, p) == TextAt(kept, p)
      ensures ok ==> forall q :: StatAt(tree, q) == if Tracked(kept, q) && Refused(kept, before, accept, q)
                                                    then (if q in before then IsFile(before[q], ModeAt(kept, q))
                                                          else Missing)
                                                    else StatAt(kept, q)
      ensures !ok ==> improved == removed == {} && (IsSnapshot(tree, before) <==> Restorable(left, before))
      ensures !ok ==> forall p | p in before ::
                StatAt(tree, p) == if Recoverable(left, before, p) then Rewritten(left, before, p) else StatAt(left, p)
      ensures !ok ==> forall p | Tracked(left, p) && p !in before :: !StatAt(tree, p).IsFile?
      ensures !ok ==> forall q | !Tracked(left, q) && (forall p | p in before :: !(q <= p)) ::
                        StatAt(tree, q) == StatAt(left, q)
    {
      improved, removed := {}, {};
      var was := Snapshot();
      before := was;
      var all := W.Rglob(tree);
      var existing := set p | p in all && Visible(p);
      known := existing;
      ghost var origin := tree;
      tree := left;
      kept := left;
      KnownBefore(origin, before, known);
      if !ok {
        hide IsSnapshot, Tracked, TextAt, Visible;
        RestoreSnapshot(was, origin);
        return;
      }
      var pol := Policy(Visible, existing, trusted, toFile);
      hide *;
      removed := PruneNewPaths(pol);
      kept := tree;
      PrunedIsDir(left, pol, kept);
      improved := AcceptOrUnwind(was, origin, accept);
      forall q | q != [] && Visible(q) && StatAt(tree, q).IsFile? ensures q in known || trusted(q) {
        NothingUntrusted(left, pol, kept, q);
      }
      ChangedMeans(kept, before, accept);
    }
  }

  /** What a snapshot holds was there. */
  lemma KnownBefore(origin: Node, before: Snap, known: set<Path>)
    requires IsSnapshot(origin, before)
    requires forall q :: q in known <==> q != [] && Visible(q) && StatAt(origin, q) != Missing
    ensures forall q | q in before :: q in known
  {
    forall q | q in before ensures q in known { assert Tracked(origin, q); }
  }

  lemma ChangedMeans(t: Node, before: Snap, accept: (Path, Option<string>, string) -> bool)
    ensures forall p | Tracked(t, p) && !Changed(t, before, p) :: p in before && TextAt(t, p) == before[p]
    ensures forall p | Tracked(t, p) && Refused(t, before, accept, p) :: Changed(t, before, p)
  {
  }

  lemma NonEmpty(before: Snap, p: Path)
    requires Readable(before) && p in before
    ensures p != []
  {
  }

  lemma WrittenIsDir(u: Node, before: Snap, done: set<Path>, t: Node)
    requires Written(u, before, done, t)
    ensures t.Dir?
  {
  }

  lemma Untouched(t: Node, before: Snap, after: Snap, u: Node, t': Node, q: Path)
    requires IsSnapshot(t, after) && Pruned(t, before, after, u) && Written(u, before, before.Keys, t')
    requires !Tracked(t, q) && (forall p | p in before :: !(q <= p))
    ensures StatAt(t', q) == StatAt(t, q)
  {
    assert forall p | Target(u, before, before.Keys, p) :: !(q <= p);
  }

  /** A session that turns a file into a directory cannot be rolled back. */
  lemma DirectoryBlocksRollback() returns (origin: Node, before: Snap, left: Node)
    ensures IsSnapshot(origin, before) && left.Dir? && !Restorable(left, before)
  {
    origin := Dir(map["a" := File("x", NewFileMode)]);
    left := Dir(map["a" := Dir(map[])]);
    before := map[["a"] := "x"];
    LookupOne(left, "a");
    assert StatAt(left, ["a"]) == IsDir;
    LoneFileTracked(origin);
    hide Tracked, TextAt;
    forall p ensures p in before <==> Tracked(origin, p) { LoneFile(origin, p, "x"); }
  }

  lemma LoneFileTracked(t: Node)
    requires t == Dir(map["a" := File("x", NewFileMode)])
    ensures Tracked(t, ["a"]) && TextAt(t, ["a"]) == "x"
  {
    hide PRUNED;
    LookupOne(t, "a");
    Text.UniversalFixed("x");
    assert Text.Fold("a") == "a";
    assert "a" !in PRUNED by { ShortNameIsKept(); }
  }

  lemma ShortNameIsKept()
    ensures "a" !in PRUNED
  {
  }

  lemma LoneFile(t: Node, p: Path, data: string)
    requires t == Dir(map["a" := File(data, NewFileMode)])
    ensures Tracked(t, p) ==> p == ["a"]
  {
    hide Visible;
    if Tracked(t, p) {
      assert p[0] == "a" && Lookup(File(data, NewFileMode), p[1..]).Some?;
      assert p == ["a"] + p[1..];
    }
  }

  // ---- acceptance ----------------------------------------------------------------------------------------

  predicate Changed(t: Node, before: Snap, p: Path)
    requires Tracked(t, p)
  {
    p !in before || before[p] != TextAt(t, p)
  }

  predicate Refused(t: Node, before: Snap, accept: (Path, Option<string>, string) -> bool, p: Path)
    requires Tracked(t, p)
  {
    Changed(t, before, p) && !accept(p, if p in before then Some(before[p]) else None, TextAt(t, p))
  }

  /** The refused changes among `done` are undone. */
  ghost predicate Unwound(t: Node, before: Snap, accept: (Path, Option<string>, string) -> bool, done: set<Path>,
                          t': Node)
    requires forall p | p in done :: Tracked(t, p)
  {
    && t'.Dir?
    && (forall q | !(q in done && Refused(t, before, accept, q)) :: StatAt(t', q) == StatAt(t, q))
    && (forall q | q in done && Refused(t, before, accept, q) ::
          StatAt(t', q) == if q in before then IsFile(before[q], ModeAt(t, q)) else Missing)
  }

  lemma UnwoundStill(t: Node, before: Snap, accept: (Path, Option<string>, string) -> bool, done: set<Path>, t': Node,
                     p: Path)
    requires (forall q | q in done :: Tracked(t, q)) && Unwound(t, before, accept, done, t')
    requires Tracked(t, p) && p !in done
    ensures StatAt(t', p) == StatAt(t, p) && Reachable(t', p) && p != []
  {
    forall q | Above(q, p) ensures StatAt(t', q) == IsDir {
      assert p == q + p[|q|..];
      ParentsAreDirs(t', q, p[|q|..]);
    }
  }

  lemma UnwindNext(t: Node, before: Snap, accept: (Path, Option<string>, string) -> bool, done: set<Path>,
                   t0: Node, p: Path, t': Node)
    requires (forall q | q in done :: Tracked(t, q)) && Unwound(t, before, accept, done, t0)
    requires Tracked(t, p) && p !in done && Refused(t, before, accept, p) && t'.Dir?
    requires p !in before ==>
               forall q :: StatAt(t', q) == if q == p && StatAt(t0, p).IsFile? then Missing else StatAt(t0, q)
    requires p in before ==> WroteText(t0, p, before[p], t')
    ensures Unwound(t, before, accept, done + {p}, t')
  {
    UnwoundStill(t, before, accept, done, t0, p);
    forall q | Above(q, p) ensures StatAt(t0, q) == IsDir {
      assert p == q + p[|q|..];
      ParentsAreDirs(t0, q, p[|q|..]);
    }
  }

  lemma SnapshotMeans(t: Node, after: Snap)
    requires IsSnapshot(t, after)
    ensures forall p :: p in after <==> Tracked(t, p)
    ensures forall p | p in after && Tracked(t, p) :: after[p] == TextAt(t, p)
  {
  }

  lemma RefusedMeans(t: Node, before: Snap, accept: (Path, Option<string>, string) -> bool, p: Path)
    requires Tracked(t, p)
    ensures var original := if p in before then Some(before[p]) else None;
            && (Changed(t, before, p) <==> original != Some(TextAt(t, p)))
            && (Refused(t, before, accept, p) <==> original != Some(TextAt(t, p)) && !accept(p, original, TextAt(t, p)))
  {
  }

  lemma UnwoundNothing(t: Node, before: Snap, accept: (Path, Option<string>, string) -> bool)
    requires t.Dir?
    ensures Unwound(t, before, accept, {}, t)
  {
  }

  lemma UnwoundSkip(t: Node, before: Snap, accept: (Path, Option<string>, string) -> bool, done: set<Path>, t': Node,
                    p: Path)
    requires (forall q | q in done :: Tracked(t, q)) && Tracked(t, p)
    ensures Unwound(t, before, accept, done, t') && !Refused(t, before, accept, p) ==>
              Unwound(t, before, accept, done + {p}, t')
    ensures Unwound(t, before, accept, done, t') ==> t'.Dir?
    ensures Unwound(t, before, accept, done + {p}, t') ==> t'.Dir?
  {
  }

  /** What the unwound tree has at a path. */
  lemma UnwoundAt(t: Node, before: Snap, accept: (Path, Option<string>, string) -> bool, done: set<Path>, t': Node,
                  p: Path)
    requires Readable(before) && (forall q :: q in done <==> Tracked(t, q)) && Unwound(t, before, accept, done, t')
    ensures Tracked(t', p) <==> Tracked(t, p) && (Refused(t, before, accept, p) ==> p in before)
    ensures Tracked(t', p) && Tracked(t, p) ==>
              TextAt(t', p) == if Refused(t, before, accept, p) then before[p] else TextAt(t, p)
    ensures StatAt(t', p) == if Tracked(t, p) && Refused(t, before, accept, p)
                             then (if p in before then IsFile(before[p], ModeAt(t, p)) else Missing)
                             else StatAt(t, p)
  {
    if p in before { TextWrittenIf(before, t', p); }
  }

  lemma TextWrittenIf(before: Snap, t: Node, p: Path)
    requires Readable(before) && p in before
    ensures StatAt(t, p).IsFile? && StatAt(t, p).data == before[p] ==> Tracked(t, p) && TextAt(t, p) == before[p]
  {
    if StatAt(t, p).IsFile? && StatAt(t, p).data == before[p] { TextWritten(before, t, p); }
  }

  lemma NothingBelowLeaf(t: Node, p: Path, q: Path)
    requires (StatAt(t, p).IsFile? || StatAt(t, p).IsAlias?) && p <= q && q != p
    ensures StatAt(t, q) == Missing
  {
    assert q == p + q[|p|..];
    LookupSplit(t, p, q[|p|..]);
  }

  lemma AboveIsParent(p: Path, d: Path)
    requires p != [] && d == p[..|p| - 1]
    ensures forall q :: Above(q, p) <==> q <= d
  {
  }

  lemma WriteAfterMkdir(t: Node, m: Node, p: Path, d: Path, n: Name, text: string, mode: nat)
    requires t.Dir? && MkdirAll(t, d) == Some(m) && StatAt(m, d) == IsDir && p == d + [n]
    requires Reachable(t, p) && mode == ModeAt(t, p)
    ensures WroteText(t, p, text, Put(m, d, n, Some(File(text, mode))))
  {
    var t' := Put(m, d, n, Some(File(text, mode)));
    AboveIsParent(p, d);
    forall q ensures StatAt(t', q) == if q == p then IsFile(text, mode) else if q <= p then IsDir else StatAt(t, q) {
      StatPut(m, d, n, Some(File(text, mode)), q);
      StatMkdirAll(t, d, q);
      if p <= q && q != p {
        assert q == p + q[|p|..] && q[|d| + 1..] == q[|p|..];
        if StatAt(t, q) != Missing { ParentsAreDirs(t, p, q[|p|..]); }
      }
    }
  }
}
