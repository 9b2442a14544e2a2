/** The traversal of `_tree_snapshot`: the recursive walk, the paths it meets, and its explicit-stack form. */
module TreeWalk {
  import opened Options
  import opened FileTree
  import Text
  import W = Worktree

  const SOURCE_EXCLUDED: set<Name> := W.IGNORE_NAMES + {
    ".astro", ".next", ".nuxt", ".preview", ".svelte-kit", ".turbo", "build", "coverage", "dist", "out"
  }

  function FoldPath(p: Path): (r: Path)
    ensures |r| == |p|
  {
    seq(|p|, i requires 0 <= i < |p| => Text.Fold(p[i]))
  }

  /** `_source_tree_internal_output` */
  predicate InternalOutput(p: Path) {
    var f := FoldPath(p);
    || f == ["skyn3t_manifest.json"] || f == ["skyn3t-observability.json"]
    || [".skyn3t", "proof-ladder"] <= f || [".skyn3t", "visual-proof"] <= f
  }

  predicate EndsWith(s: string, t: string) {
    |t| <= |s| && s[|s| - |t|..] == t
  }

  predicate ExcludedDir(deliverable: bool, p: Path)
    requires p != []
  {
    var n := p[|p| - 1];
    if deliverable then W.Ignored(n)
    else
      || Text.Fold(n) in SOURCE_EXCLUDED || InternalOutput(p)
      || EndsWith(Text.Fold(n), ".egg-info") || EndsWith(Text.Fold(n), ".dist-info")
  }

  predicate ExcludedFile(deliverable: bool, p: Path)
    requires p != []
  {
    W.Ignored(p[|p| - 1]) || (!deliverable && InternalOutput(p))
  }

  // ---- the walk, recursively -----------------------------------------------------------------------------

  datatype Entry = Entry(path: Path, node: Node)

  predicate IsWalked(deliverable: bool, e: Entry) {
    e.path != [] && e.node.Dir? && !ExcludedDir(deliverable, e.path)
  }

  predicate IsListed(deliverable: bool, e: Entry) {
    e.path != [] && e.node.File? && !ExcludedFile(deliverable, e.path)
  }

  /** One directory's entries in `(casefold, name)` order. */
  function Listing(d: Entry): (r: seq<Entry>)
    requires d.node.Dir?
    ensures forall e | e in r :: e.path != [] && e.node < d.node
    ensures |r| == |d.node.entries|
  {
    var names := Text.SortNames(d.node.entries.Keys);
    Text.SortNamesElements(d.node.entries.Keys);
    seq(|names|, i requires 0 <= i < |names| =>
      assert names[i] in names; Entry(d.path + [names[i]], d.node.entries[names[i]]))
  }

  /** Every entry met below directory `d`: its listing, then its walked directories in order. */
  function Walk(deliverable: bool, d: Entry): seq<Entry>
    requires d.node.Dir?
    decreases d.node, 1, 0
  {
    Listing(d) + WalkBelow(deliverable, d.node, Listing(d))
  }

  function WalkBelow(deliverable: bool, parent: Node, es: seq<Entry>): seq<Entry>
    requires forall e | e in es :: e.node < parent
    decreases parent, 0, |es|
  {
    if es == [] then []
    else
      (if IsWalked(deliverable, es[0]) then Walk(deliverable, es[0]) else [])
      + WalkBelow(deliverable, parent, es[1..])
  }

  /** `q` is met below a directory whose own path is `at`: only walked directories lie above it. */
  predicate Met(deliverable: bool, d: Node, at: Path, q: Path)
    decreases |q|
  {
    && q != [] && d.Dir? && q[0] in d.entries
    && (|q| == 1 || (!ExcludedDir(deliverable, at + [q[0]]) && Met(deliverable, d.entries[q[0]], at + [q[0]], q[1..])))
  }

  lemma ListingElements(d: Entry, e: Entry)
    requires d.node.Dir?
    ensures e in Listing(d) <==> exists n | n in d.node.entries :: e == Entry(d.path + [n], d.node.entries[n])
  {
    var names := Text.SortNames(d.node.entries.Keys);
    Text.SortNamesElements(d.node.entries.Keys);
    if n :| n in d.node.entries && e == Entry(d.path + [n], d.node.entries[n]) {
      var i :| 0 <= i < |names| && names[i] == n;
      assert Listing(d)[i] == e;
    }
    if e in Listing(d) {
      var i :| 0 <= i < |names| && Listing(d)[i] == e;
      assert names[i] in names;
    }
  }

  lemma {:induction false} WalkBelowElements(deliverable: bool, parent: Node, es: seq<Entry>, e: Entry)
    requires forall x | x in es :: x.node < parent
    ensures e in WalkBelow(deliverable, parent, es) <==>
            exists x | x in es :: IsWalked(deliverable, x) && e in Walk(deliverable, x)
    decreases |es|
  {
    if es != [] {
      WalkBelowElements(deliverable, parent, es[1..], e);
      assert forall x :: x in es <==> x == es[0] || x in es[1..];
    }
  }

  ghost predicate IsMetEntry(deliverable: bool, d: Entry, q: Path, e: Entry) {
    e.path == d.path + q && Met(deliverable, d.node, d.path, q) && Lookup(d.node, q) == Some(e.node)
  }

  lemma {:induction false} MetExists(deliverable: bool, d: Node, at: Path, q: Path)
    requires Met(deliverable, d, at, q)
    ensures Lookup(d, q).Some?
    decreases |q|
  {
    if |q| == 1 {
      assert q == [q[0]]; LookupOne(d, q[0]);
    } else {
      MetExists(deliverable, d.entries[q[0]], at + [q[0]], q[1..]);
    }
  }

  lemma MetEntryCons(deliverable: bool, d: Entry, n: Name, q: Path, e: Entry)
    requires d.node.Dir? && n in d.node.entries && q != []
    ensures var x := Entry(d.path + [n], d.node.entries[n]);
            IsMetEntry(deliverable, d, [n] + q, e) <==> IsWalked(deliverable, x) && IsMetEntry(deliverable, x, q, e)
  {
    var w := [n] + q;
    assert w[0] == n && w[1..] == q && |w| > 1 && d.path + w == d.path + [n] + q;
    assert Lookup(d.node, w) == Lookup(d.node.entries[n], q);
  }

  lemma MetEntryHere(deliverable: bool, d: Entry, e: Entry)
    requires d.node.Dir?
    ensures e in Listing(d) <==> exists n :: IsMetEntry(deliverable, d, [n], e)
  {
    ListingElements(d, e);
    forall n
      ensures IsMetEntry(deliverable, d, [n], e) <==> n in d.node.entries && e == Entry(d.path + [n], d.node.entries[n])
    {
      LookupOne(d.node, n);
    }
  }

  lemma WalkUnfolds(deliverable: bool, d: Entry, e: Entry)
    requires d.node.Dir?
    ensures e in Walk(deliverable, d) <==> e in Listing(d) || e in WalkBelow(deliverable, d.node, Listing(d))
  {
  }

  lemma MetThrough(deliverable: bool, d: Entry, x: Entry, e: Entry)
    requires d.node.Dir? && x in Listing(d) && IsWalked(deliverable, x) && exists q :: IsMetEntry(deliverable, x, q, e)
    ensures exists q :: IsMetEntry(deliverable, d, q, e)
  {
    ListingElements(d, x);
    var n :| n in d.node.entries && x == Entry(d.path + [n], d.node.entries[n]);
    var q :| IsMetEntry(deliverable, x, q, e);
    MetEntryCons(deliverable, d, n, q, e);
  }

  lemma {:induction false} WalkSound(deliverable: bool, d: Entry, e: Entry)
    requires d.node.Dir? && e in Walk(deliverable, d)
    ensures exists q :: IsMetEntry(deliverable, d, q, e)
    decreases d.node
  {
    MetEntryHere(deliverable, d, e);
    WalkUnfolds(deliverable, d, e);
    hide Walk;
    hide Listing;
    if e !in Listing(d) {
      WalkBelowElements(deliverable, d.node, Listing(d), e);
      var x :| x in Listing(d) && IsWalked(deliverable, x) && e in Walk(deliverable, x);
      WalkSound(deliverable, x, e);
      MetThrough(deliverable, d, x, e);
    }
  }

  lemma {:induction false} WalkComplete(deliverable: bool, d: Entry, q: Path, e: Entry)
    requires d.node.Dir? && IsMetEntry(deliverable, d, q, e)
    ensures e in Walk(deliverable, d)
    decreases d.node
  {
    if |q| == 1 {
      assert q == [q[0]];
      MetEntryHere(deliverable, d, e);
    } else {
      var n := q[0];
      var x := Entry(d.path + [n], d.node.entries[n]);
      assert q == [n] + q[1..];
      MetEntryCons(deliverable, d, n, q[1..], e);
      WalkComplete(deliverable, x, q[1..], e);
      ListingElements(d, x);
      WalkBelowElements(deliverable, d.node, Listing(d), e);
    }
  }

  /** The walk meets exactly the entries whose parents are all walked. */
  lemma WalkElements(deliverable: bool, d: Entry, e: Entry)
    requires d.node.Dir?
    ensures e in Walk(deliverable, d) <==> exists q :: IsMetEntry(deliverable, d, q, e)
  {
    if e in Walk(deliverable, d) { WalkSound(deliverable, d, e); }
    forall q | IsMetEntry(deliverable, d, q, e)
      ensures e in Walk(deliverable, d)
    {
      WalkComplete(deliverable, d, q, e);
    }
  }

  // ---- the walk meets a path once ------------------------------------------------------------------------

  predicate PathsDistinct(es: seq<Entry>) {
    forall i, j | 0 <= i < j < |es| :: es[i].path != es[j].path
  }

  /** Entries of one directory: siblings with different names. */
  predicate Siblings(at: Path, es: seq<Entry>) {
    && PathsDistinct(es)
    && forall e | e in es :: e.path != [] && e.path[..|e.path| - 1] == at
  }

  lemma ListingSiblings(d: Entry)
    requires d.node.Dir?
    ensures Siblings(d.path, Listing(d))
  {
    var names := Text.SortNames(d.node.entries.Keys);
    Text.SortNamesSorted(d.node.entries.Keys);
    var es := Listing(d);
    forall i, j | 0 <= i < j < |es|
      ensures es[i].path != es[j].path
    {
      assert es[i].path[|d.path|] == names[i] && es[j].path[|d.path|] == names[j];
    }
    forall e | e in es
      ensures e.path != [] && e.path[..|e.path| - 1] == d.path
    {
      ListingElements(d, e);
    }
  }

  lemma WalkIsBelow(deliverable: bool, d: Entry, e: Entry)
    requires d.node.Dir? && e in Walk(deliverable, d)
    ensures d.path < e.path
  {
    WalkSound(deliverable, d, e);
  }

  lemma PathsDistinctAppend(a: seq<Entry>, b: seq<Entry>)
    requires PathsDistinct(a) && PathsDistinct(b)
    requires forall x, y | x in a && y in b :: x.path != y.path
    ensures PathsDistinct(a + b)
  {
    var r := a + b;
    forall i, j | 0 <= i < j < |r|
      ensures r[i].path != r[j].path
    {
      if i < |a| <= j { assert r[i] in a && r[j] in b; }
    }
  }

  lemma SiblingWalksDisjoint(deliverable: bool, x: Entry, y: Entry, u: Entry, v: Entry)
    requires x.node.Dir? && y.node.Dir? && x.path != y.path && |x.path| == |y.path|
    requires u in Walk(deliverable, x) && v in Walk(deliverable, y)
    ensures u.path != v.path
  {
    WalkIsBelow(deliverable, x, u);
    WalkIsBelow(deliverable, y, v);
  }

  lemma {:induction false} WalkBelowDistinct(deliverable: bool, parent: Node, at: Path, es: seq<Entry>)
    requires (forall e | e in es :: e.node < parent) && Siblings(at, es)
    ensures PathsDistinct(WalkBelow(deliverable, parent, es))
    decreases parent, 0, |es|
  {
    hide Walk;
    if es != [] {
      var x, rest := es[0], es[1..];
      assert Siblings(at, rest);
      WalkBelowDistinct(deliverable, parent, at, rest);
      if IsWalked(deliverable, x) {
        var a, b := Walk(deliverable, x), WalkBelow(deliverable, parent, rest);
        WalkDistinct(deliverable, x);
        forall u, v | u in a && v in b
          ensures u.path != v.path
        {
          WalkBelowElements(deliverable, parent, rest, v);
          var y :| y in rest && IsWalked(deliverable, y) && v in Walk(deliverable, y);
          assert x.path != y.path by {
            var j :| 0 <= j < |rest| && rest[j] == y;
            assert es[j + 1] == y;
          }
          assert |x.path| == |at| + 1 == |y.path| by { assert x in es && y in es; }
          SiblingWalksDisjoint(deliverable, x, y, u, v);
        }
        PathsDistinctAppend(a, b);
      }
    }
  }

  lemma {:induction false} WalkDistinct(deliverable: bool, d: Entry)
    requires d.node.Dir?
    ensures PathsDistinct(Walk(deliverable, d))
    decreases d.node, 1, 0
  {
    var es := Listing(d);
    ListingSiblings(d);
    WalkBelowDistinct(deliverable, d.node, d.path, es);
    forall u, v | u in es && v in WalkBelow(deliverable, d.node, es)
      ensures u.path != v.path
    {
      WalkBelowElements(deliverable, d.node, es, v);
      var y :| y in es && IsWalked(deliverable, y) && v in Walk(deliverable, y);
      WalkIsBelow(deliverable, y, v);
      assert |u.path| == |d.path| + 1 == |y.path|;
    }
    PathsDistinctAppend(es, WalkBelow(deliverable, d.node, es));
  }

  // ---- the walk, with the explicit stack -----------------------------------------------------------------

  predicate AreDirs(stack: seq<Entry>) { forall d | d in stack :: d.node.Dir? }

  /** What is still to come from a stack whose top is its last element. */
  function Pending(deliverable: bool, stack: seq<Entry>): seq<Entry>
    requires AreDirs(stack)
  {
    if stack == [] then []
    else Walk(deliverable, stack[|stack| - 1]) + Pending(deliverable, stack[..|stack| - 1])
  }

  /** `pending_directories.extend(reversed(child_directories))` for the directories among `es`. */
  function Extended(deliverable: bool, stack: seq<Entry>, es: seq<Entry>): (r: seq<Entry>)
    ensures AreDirs(stack) ==> AreDirs(r)
    ensures |r| <= |stack| + |es|
  {
    if es == [] then stack
    else Extended(deliverable, stack, es[1..]) + if IsWalked(deliverable, es[0]) then [es[0]] else []
  }

  lemma PendingPush(deliverable: bool, stack: seq<Entry>, d: Entry)
    requires AreDirs(stack) && d.node.Dir?
    ensures Pending(deliverable, stack + [d]) == Walk(deliverable, d) + Pending(deliverable, stack)
  {
    assert (stack + [d])[..|stack|] == stack;
  }

  /** Pushing the child directories in reverse order schedules the recursive walk. */
  lemma {:induction false} PushChildren(deliverable: bool, stack: seq<Entry>, parent: Node, es: seq<Entry>)
    requires AreDirs(stack) && forall e | e in es :: e.node < parent
    ensures Pending(deliverable, Extended(deliverable, stack, es)) ==
            WalkBelow(deliverable, parent, es) + Pending(deliverable, stack)
    decreases |es|
  {
    if es != [] {
      var pushed, below := Extended(deliverable, stack, es[1..]), WalkBelow(deliverable, parent, es[1..]);
      PushChildren(deliverable, stack, parent, es[1..]);
      if IsWalked(deliverable, es[0]) {
        PendingPush(deliverable, pushed, es[0]);
        SeqAssoc(Walk(deliverable, es[0]), below, Pending(deliverable, stack));
      } else {
        assert pushed + [] == pushed && [] + below == below;
      }
    }
  }

  lemma SeqAssoc<T>(a: seq<T>, b: seq<T>, c: seq<T>)
    ensures a + b + c == a + (b + c)
  {
  }
}
