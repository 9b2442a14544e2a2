/** What a successful session leaves on disk once untrusted new files and empty directories have been removed. */
module SessionPruning {
  import opened FileTree

  /** `visible` paths are looked at; `known` ones were there before the session; new ones may stay when `trusted`; and
      `toFile` says which aliases lead to a file. */
  datatype Policy = Policy(visible: Path -> bool, known: set<Path>, trusted: Path -> bool, toFile: Path -> bool)

  /** A new file that may not stay. */
  predicate Junk(t: Node, pol: Policy, q: Path) {
    && q != [] && pol.visible(q) && q !in pol.known && !pol.trusted(q)
    && (StatAt(t, q).IsFile? || (StatAt(t, q).IsAlias? && pol.toFile(q)))
  }

  /** Something that is not looked at, or neither a directory nor removed: it keeps the directories above it. */
  predicate Solid(t: Node, pol: Policy, q: Path) {
    StatAt(t, q) != Missing && (!pol.visible(q) || (!StatAt(t, q).IsDir? && !Junk(t, pol, q)))
  }

  ghost predicate Hollow(t: Node, pol: Policy, q: Path) {
    q != [] && pol.visible(q) && StatAt(t, q).IsDir? && !exists s :: q <= s && Solid(t, pol, s)
  }

  ghost predicate Goes(t: Node, pol: Policy, q: Path) { Junk(t, pol, q) || Hollow(t, pol, q) }

  /** The paths in `done` have been looked at. */
  ghost predicate PrunedIn(t: Node, pol: Policy, done: set<Path>, t': Node) {
    t'.Dir? && forall q :: StatAt(t', q) == if q in done && Goes(t, pol, q) then Missing else StatAt(t, q)
  }

  /** Exactly the untrusted new files and the directories with nothing but such files in them are gone. */
  ghost predicate PrunedTo(t: Node, pol: Policy, t': Node) {
    t'.Dir? && forall q :: StatAt(t', q) == if Goes(t, pol, q) then Missing else StatAt(t, q)
  }

  /** Every file that is looked at was there before or is trusted, and every directory holds something. */
  lemma NothingUntrusted(t: Node, pol: Policy, t': Node, q: Path)
    requires PrunedTo(t, pol, t') && q != [] && pol.visible(q)
    ensures StatAt(t', q).IsFile? ==> q in pol.known || pol.trusted(q)
    ensures StatAt(t', q).IsDir? ==> exists s :: q <= s && Solid(t', pol, s)
  {
    if StatAt(t', q).IsDir? {
      var s :| q <= s && Solid(t, pol, s);
      SolidStays(t, pol, s);
      assert StatAt(t', s) == StatAt(t, s) && Solid(t', pol, s);
    }
  }

  /** A file goes exactly when it is looked at, new and not trusted; an alias also has to lead to a file. */
  lemma GoneIff(t: Node, pol: Policy, t': Node, q: Path)
    requires PrunedTo(t, pol, t') && StatAt(t, q) !in {Missing, IsDir}
    ensures StatAt(t', q) in {Missing, StatAt(t, q)}
    ensures StatAt(t', q) == Missing <==>
            pol.visible(q) && q !in pol.known && !pol.trusted(q) && (StatAt(t, q) == IsAlias ==> pol.toFile(q))
  {
    assert StatAt(t', []) == IsDir && StatAt(t', []) == StatAt(t, []);
  }

  /** A directory stays exactly when it is the root, or not looked at, or holds something other than directories that
      are looked at. */
  lemma DirectoryStaysIff(t: Node, pol: Policy, t': Node, q: Path)
    requires PrunedTo(t, pol, t') && StatAt(t, q) == IsDir
    ensures StatAt(t', q) in {Missing, IsDir}
    ensures StatAt(t', q) == IsDir <==>
            || q == [] || !pol.visible(q)
            || exists s :: q <= s && StatAt(t', s) != Missing && (!pol.visible(s) || StatAt(t', s) != IsDir)
  {
    if q != [] && pol.visible(q) {
      if StatAt(t', q) == IsDir { NothingUntrusted(t, pol, t', q); }
      if s :| q <= s && StatAt(t', s) != Missing && (!pol.visible(s) || StatAt(t', s) != IsDir) {
        assert StatAt(t, s) == StatAt(t', s) && Solid(t, pol, s);
      }
    }
  }

  /** Pruning again changes nothing. */
  lemma PrunedStays(t: Node, pol: Policy, t': Node)
    requires PrunedTo(t, pol, t')
    ensures forall q :: !Goes(t', pol, q)
  {
    forall q ensures !Goes(t', pol, q) {
      if q != [] && pol.visible(q) { NothingUntrusted(t, pol, t', q); }
    }
  }

  lemma PrunedIsDir(t: Node, pol: Policy, t': Node)
    requires PrunedTo(t, pol, t')
    ensures t'.Dir?
  {
  }

  lemma JunkIsSeen(t: Node, pol: Policy)
    ensures forall q | Junk(t, pol, q) :: q != [] && pol.visible(q) && StatAt(t, q) != Missing
  {
  }

  lemma NothingPruned(t: Node, pol: Policy)
    requires t.Dir?
    ensures PrunedIn(t, pol, {}, t)
  {
  }

  lemma AllPruned(t: Node, pol: Policy, done: set<Path>, t': Node)
    requires PrunedIn(t, pol, done, t') && forall q | q != [] && pol.visible(q) && StatAt(t, q) != Missing :: q in done
    ensures PrunedTo(t, pol, t')
  {
    hide Solid;
  }

  /** A directory is empty when nothing lies below it. */
  lemma EmptyIff(t: Node, p: Path)
    requires StatAt(t, p) == IsDir
    ensures EntriesAt(t, p) == map[] <==> forall q | p < q :: StatAt(t, q) == Missing
  {
    var m := EntriesAt(t, p);
    forall q | p < q ensures StatAt(t, q) != Missing ==> q[|p|] in m {
      assert q == p + q[|p|..];
      LookupSplit(t, p, q[|p|..]);
    }
    if n :| n in m {
      LookupSplit(t, p, [n]);
      LookupOne(Lookup(t, p).value, n);
      assert p < p + [n] && StatAt(t, p + [n]) != Missing;
    }
  }

  /** With everything below it looked at, a directory is empty exactly when it is to go. */
  lemma EmptyIffHollow(t: Node, pol: Policy, done: set<Path>, t': Node, p: Path)
    requires PrunedIn(t, pol, done, t') && p != [] && pol.visible(p) && p !in done && StatAt(t, p).IsDir?
    requires forall q | p < q && pol.visible(q) && StatAt(t, q) != Missing :: q in done
    ensures StatAt(t', p).IsDir? && (EntriesAt(t', p) == map[] <==> Hollow(t, pol, p))
  {
    EmptyIff(t', p);
    if Hollow(t, pol, p) {
      forall q | p < q ensures StatAt(t', q) == Missing {
        if StatAt(t, q) != Missing { GoesBelowHollow(t, pol, p, q); }
      }
    } else {
      var s :| p <= s && Solid(t, pol, s);
      SolidStays(t, pol, s);
      assert s != p && StatAt(t', s) != Missing;
    }
  }

  lemma GoesBelowHollow(t: Node, pol: Policy, p: Path, q: Path)
    requires Hollow(t, pol, p) && p < q && StatAt(t, q) != Missing
    ensures Goes(t, pol, q) && pol.visible(q)
  {
    assert !Solid(t, pol, q);
    forall s | q <= s ensures !Solid(t, pol, s) { assert p <= s; }
  }

  lemma SolidStays(t: Node, pol: Policy, s: Path)
    requires Solid(t, pol, s)
    ensures !Goes(t, pol, s)
  {
  }

  /** One more path has been looked at. */
  lemma PruneNext(t: Node, pol: Policy, done: set<Path>, t': Node, p: Path, t'': Node)
    requires PrunedIn(t, pol, done, t') && t''.Dir?
    requires forall q :: StatAt(t'', q) == if q == p && Goes(t, pol, p) then Missing else StatAt(t', q)
    ensures PrunedIn(t, pol, done + {p}, t'')
  {
    hide Goes;
  }

  /** A longest path. */
  lemma {:induction false} Deepest(todo: set<Path>) returns (p: Path)
    requires todo != {}
    ensures p in todo && forall q | q in todo :: |q| <= |p|
  {
    p :| p in todo;
    if todo != {p} {
      var r := Deepest(todo - {p});
      if |r| > |p| { p := r; }
    }
  }
}
