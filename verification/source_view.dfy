/** The authored files of a project, told without case folding: what a source snapshot lists. */
module SourceView {
  import opened Options
  import opened FileTree
  import opened TreeWalk
  import opened TreeSnapshot
  import D = DigestStream
  import Text
  import W = Worktree

  /** Directories that are no source, besides the ignored names. */
  const BuildNames: set<Name> := {
    ".astro", ".next", ".nuxt", ".preview", ".svelte-kit", ".turbo", "build", "coverage", "dist", "out"
  }

  ghost predicate LikeSome(n: Name, names: set<Name>) { exists m :: m in names && Text.SameButCase(n, m) }

  ghost predicate EndsLike(n: Name, suffix: string) {
    |suffix| <= |n| && Text.SameButCase(n[|n| - |suffix|..], suffix)
  }

  ghost predicate NoSourceDir(n: Name) {
    || LikeSome(n, W.IgnoreNames) || LikeSome(n, BuildNames) || EndsLike(n, ".egg-info") || EndsLike(n, ".dist-info")
  }

  /** At or below one of the two metadata files at the root, or one of the two proof directories of the runner. */
  ghost predicate RunnerOwned(q: Path) {
    && q != []
    && (|| Text.SameButCase(q[0], "skyn3t_manifest.json") || Text.SameButCase(q[0], "skyn3t-observability.json")
        || (&& |q| >= 2 && Text.SameButCase(q[0], ".skyn3t")
            && (Text.SameButCase(q[1], "proof-ladder") || Text.SameButCase(q[1], "visual-proof"))))
  }

  /** No directory above is a source exclusion. */
  ghost predicate ClearAbove(q: Path)
    requires q != []
  {
    forall n | n in q[..|q| - 1] :: !NoSourceDir(n)
  }

  /** A regular file with no source exclusion above it, whose own name is not ignored, and which is not the runner's. */
  ghost predicate Authored(root: Node, q: Path) {
    && q != [] && StatAt(root, q).IsFile? && !RunnerOwned(q)
    && ClearAbove(q) && !LikeSome(q[|q| - 1], W.IgnoreNames)
  }

  // ---- the exclusions of the walk ------------------------------------------------------------------------

  lemma BuildNamesFold()
    ensures Text.Fold(".astro") == ".astro" && Text.Fold(".next") == ".next" && Text.Fold(".nuxt") == ".nuxt"
    ensures Text.Fold(".preview") == ".preview" && Text.Fold(".svelte-kit") == ".svelte-kit"
    ensures Text.Fold(".turbo") == ".turbo" && Text.Fold("build") == "build" && Text.Fold("coverage") == "coverage"
    ensures Text.Fold("dist") == "dist" && Text.Fold("out") == "out"
  {
  }

  lemma MetadataNamesFold()
    ensures Text.Fold("skyn3t_manifest.json") == "skyn3t_manifest.json"
    ensures Text.Fold("skyn3t-observability.json") == "skyn3t-observability.json"
  {
  }

  lemma ProofNamesFold()
    ensures Text.Fold(".skyn3t") == ".skyn3t"
    ensures Text.Fold("proof-ladder") == "proof-ladder" && Text.Fold("visual-proof") == "visual-proof"
  {
  }

  lemma SuffixesFold()
    ensures Text.Fold(".egg-info") == ".egg-info" && Text.Fold(".dist-info") == ".dist-info"
  {
  }

  lemma FoldsTo(n: Name, m: Name)
    requires Text.Fold(m) == m
    ensures Text.Fold(n) == m <==> Text.SameButCase(n, m)
  {
    Text.FoldIff(n, m);
  }

  lemma ExcludedNameIff(n: Name)
    ensures Text.Fold(n) in SOURCE_EXCLUDED <==> LikeSome(n, W.IgnoreNames) || LikeSome(n, BuildNames)
  {
    W.IgnoredIff(n);
    BuildNamesFold();
    hide Text.Fold, Text.SameButCase, W.IgnoreNames;
    forall m | m in BuildNames ensures Text.Fold(n) == m <==> Text.SameButCase(n, m) { FoldsTo(n, m); }
    assert SOURCE_EXCLUDED == W.IGNORE_NAMES + BuildNames;
    hide BuildNames, W.IGNORE_NAMES, SOURCE_EXCLUDED;
  }

  lemma EndsWithIff(n: Name, suffix: string)
    requires Text.Fold(suffix) == suffix
    ensures EndsWith(Text.Fold(n), suffix) <==> EndsLike(n, suffix)
  {
    if |suffix| <= |n| {
      var tail := n[|n| - |suffix|..];
      assert Text.Fold(tail) == Text.Fold(n)[|n| - |suffix|..];
      FoldsTo(tail, suffix);
    }
  }

  lemma InternalOutputIff(p: Path)
    requires p != []
    ensures InternalOutput(p) <==>
            || (|p| == 1 && (|| Text.SameButCase(p[0], "skyn3t_manifest.json")
                             || Text.SameButCase(p[0], "skyn3t-observability.json")))
            || (&& |p| >= 2 && Text.SameButCase(p[0], ".skyn3t")
                && (Text.SameButCase(p[1], "proof-ladder") || Text.SameButCase(p[1], "visual-proof")))
  {
    MetadataNamesFold();
    ProofNamesFold();
    hide Text.Fold, Text.SameButCase;
    FoldsTo(p[0], "skyn3t_manifest.json");
    FoldsTo(p[0], "skyn3t-observability.json");
    FoldsTo(p[0], ".skyn3t");
    if |p| >= 2 {
      FoldsTo(p[1], "proof-ladder");
      FoldsTo(p[1], "visual-proof");
    }
    FoldedShape(p);
  }

  lemma FoldedShape(p: Path)
    requires p != []
    ensures forall a :: FoldPath(p) == [a] <==> |p| == 1 && Text.Fold(p[0]) == a
    ensures forall a, b :: [a, b] <= FoldPath(p) <==> |p| >= 2 && Text.Fold(p[0]) == a && Text.Fold(p[1]) == b
  {
    hide Text.Fold;
    var f := FoldPath(p);
    if |f| == 1 { assert f == [f[0]]; }
    forall a, b ensures [a, b] <= f <==> |p| >= 2 && f[0] == a && f[1] == b {
      if |p| >= 2 { assert f[..2] == [f[0], f[1]]; }
    }
  }

  lemma ExcludedDirIff(p: Path)
    requires p != []
    ensures ExcludedDir(false, p) <==> NoSourceDir(p[|p| - 1]) || InternalOutput(p)
  {
    var n := p[|p| - 1];
    SuffixesFold();
    hide Text.Fold, InternalOutput, LikeSome, EndsLike, EndsWith, SOURCE_EXCLUDED;
    ExcludedNameIff(n);
    EndsWithIff(n, ".egg-info");
    EndsWithIff(n, ".dist-info");
  }

  ghost predicate NoneExcluded(deliverable: bool, at: Path, q: Path) {
    forall k | 0 < k < |q| :: !ExcludedDir(deliverable, at + q[..k])
  }

  lemma NoneExcludedCons(deliverable: bool, at: Path, q: Path)
    requires |q| > 1
    ensures NoneExcluded(deliverable, at, q) <==>
            !ExcludedDir(deliverable, at + [q[0]]) && NoneExcluded(deliverable, at + [q[0]], q[1..])
  {
    hide ExcludedDir;
    var rest := q[1..];
    assert q[..1] == [q[0]];
    forall k | 0 < k < |rest| ensures at + [q[0]] + rest[..k] == at + q[..k + 1] {
      assert [q[0]] + rest[..k] == q[..k + 1];
    }
    forall k | 1 < k < |q| ensures at + q[..k] == at + [q[0]] + rest[..k - 1] {
      assert [q[0]] + rest[..k - 1] == q[..k];
    }
  }

  /** An existing entry is met when no directory above it is excluded. */
  lemma {:induction false} MetIff(deliverable: bool, d: Node, at: Path, q: Path)
    requires d.Dir? && q != [] && Lookup(d, q).Some?
    ensures Met(deliverable, d, at, q) <==> NoneExcluded(deliverable, at, q)
    decreases |q|
  {
    if |q| > 1 {
      assert d.entries[q[0]].Dir?;
      MetIff(deliverable, d.entries[q[0]], at + [q[0]], q[1..]);
      NoneExcludedCons(deliverable, at, q);
      hide ExcludedDir, NoneExcluded;
    } else {
      LookupOne(d, q[0]);
      assert q == [q[0]];
      hide ExcludedDir;
    }
  }

  ghost predicate InternalAt(q: Path, k: int) { 0 < k <= |q| && InternalOutput(q[..k]) }

  lemma ExcludedAt(q: Path, k: int)
    requires 0 < k < |q|
    ensures ExcludedDir(false, [] + q[..k]) <==> NoSourceDir(q[k - 1]) || InternalAt(q, k)
  {
    hide NoSourceDir, InternalOutput, ExcludedDir;
    assert [] + q[..k] == q[..k] && q[..k][k - 1] == q[k - 1];
    ExcludedDirIff(q[..k]);
  }

  lemma NoneExcludedIff(q: Path)
    requires q != []
    ensures NoneExcluded(false, [], q) <==> ClearAbove(q) && !exists k :: k < |q| && InternalAt(q, k)
  {
    forall k | 0 < k < |q| { ExcludedAt(q, k); }
    hide ExcludedDir, NoSourceDir, InternalOutput;
    var init := q[..|q| - 1];
    if NoneExcluded(false, [], q) {
      forall n | n in init ensures !NoSourceDir(n) {
        var j :| 0 <= j < |init| && init[j] == n;
        assert !ExcludedDir(false, [] + q[..j + 1]) && q[(j + 1) - 1] == n;
      }
    } else {
      var k :| 0 < k < |q| && ExcludedDir(false, [] + q[..k]);
      assert init[k - 1] == q[k - 1] && q[k - 1] in init;
    }
  }

  /** No directory above the path is excluded, and the path is not the runner's. */
  lemma AboveIff(q: Path)
    requires q != []
    ensures NoneExcluded(false, [], q) && !InternalOutput(q) <==> ClearAbove(q) && !RunnerOwned(q)
  {
    NoneExcludedIff(q);
    RunnerOwnedIff(q);
    assert q[..|q|] == q;
    hide NoneExcluded, ClearAbove, InternalOutput, RunnerOwned;
    assert InternalAt(q, |q|) <==> InternalOutput(q);
  }

  lemma RunnerOwnedIff(q: Path)
    requires q != []
    ensures RunnerOwned(q) <==> exists k :: InternalAt(q, k)
  {
    forall k | 0 < k <= |q| { InternalOutputIff(q[..k]); }
    hide InternalOutput, Text.SameButCase;
    assert q[..1][0] == q[0] && InternalAt(q, 1) == InternalOutput(q[..1]);
    if |q| >= 2 { assert q[..2][0] == q[0] && q[..2][1] == q[1] && InternalAt(q, 2) == InternalOutput(q[..2]); }
  }

  lemma AuthoredIffListed(root: Node, q: Path)
    requires root.Dir? && q != [] && Lookup(root, q).Some?
    ensures var e := Entry(q, Lookup(root, q).value);
            Authored(root, q) <==> Met(false, root, [], q) && IsListed(false, e)
  {
    MetIff(false, root, [], q);
    AboveIff(q);
    W.IgnoredIff(q[|q| - 1]);
    hide ExcludedDir, NoneExcluded, ClearAbove, InternalOutput, RunnerOwned, Met, W.Ignored, Lookup, Text.SameButCase;
    hide W.IgnoreNames;
  }

  /** A source snapshot lists exactly the authored files. */
  lemma SourceListsAuthored(root: Node, s: string)
    requires root.Dir?
    ensures s in SortedFiles(false, root) <==> exists q :: Authored(root, q) && s == Rel(q)
  {
    var es := AllEntries(false, root);
    hide AllEntries, Listed, Authored, Met, IsListed, Lookup;
    Text.SortNamesElements(Elements(Listed(false, es)));
    ListedElements(false, es, s);
    if e :| e in es && IsListed(false, e) && s == Rel(e.path) {
      ListedHasPath(e);
      AllEntriesAreMet(false, root, e);
      AuthoredIffListed(root, e.path);
    }
    if q :| Authored(root, q) && s == Rel(q) {
      AuthoredExists(root, q);
      var e := Entry(q, Lookup(root, q).value);
      AllEntriesAreMet(false, root, e);
      AuthoredIffListed(root, q);
      assert e in es && IsListed(false, e) && s == Rel(e.path);
    }
  }

  lemma ListedHasPath(e: Entry)
    requires IsListed(false, e)
    ensures e.path != []
  {
  }

  lemma AuthoredExists(root: Node, q: Path)
    requires Authored(root, q)
    ensures q != [] && Lookup(root, q).Some? && StatAt(root, q).IsFile?
  {
  }

  /** Trees that differ in an authored file have different source streams. */
  lemma SourceStreamsDiffer(a: Node, b: Node, q: Path)
    requires a.Dir? && b.Dir? && NamesOk(a) && NamesOk(b)
    requires D.Plain(a, SortedFiles(false, a)) && D.Plain(b, SortedFiles(false, b))
    requires Authored(a, q) && !(Authored(b, q) && StatAt(b, q) == StatAt(a, q))
    ensures Stream(false, a, SortedFiles(false, a)) != Stream(false, b, SortedFiles(false, b))
  {
    hide SortedFiles, Stream, Authored, D.Plain;
    var fa, fb := SortedFiles(false, a), SortedFiles(false, b);
    SourceListsAuthored(a, Rel(q));
    SourceListsAuthored(b, Rel(q));
    AuthoredNames(a, q);
    if Stream(false, a, fa) == Stream(false, b, fb) {
      D.StreamDecodes(false, a, fa, false, b, fb);
      var p :| Authored(b, p) && Rel(p) == Rel(q);
      AuthoredNames(b, p);
      RelInjective(p, q);
      FileNodeAt(a, q);
      FileNodeAt(b, q);
    }
  }

  lemma AuthoredNames(root: Node, q: Path)
    requires NamesOk(root) && Authored(root, q)
    ensures PathOk(q)
  {
  }

  lemma FileNodeAt(root: Node, q: Path)
    requires PathOk(q)
    ensures FileNode(root, Rel(q)) == Lookup(root, q)
  {
    Text.SplitJoin(q, '/');
  }

  /** A listed file counts with the length of its content. */
  lemma FileSizeAt(root: Node, q: Path)
    requires NamesOk(root) && StatAt(root, q).IsFile? && q != []
    ensures FileSize(root, Rel(q)) == |StatAt(root, q).data| && Bytes(root, [Rel(q)]) == |StatAt(root, q).data|
    ensures Record(root, Rel(q)) ==
            Rel(q) + "\0" + Octal(StatAt(root, q).mode, 4) + "\0" + StatAt(root, q).data + "\0"
  {
    FileNodeAt(root, q);
    assert [Rel(q)][..0] == [];
  }

  // ---- the other exclusions, without case folding --------------------------------------------------------

  /** A deliverable file is a regular one with no name on its path that is ignored in any case. */
  lemma DeliverableIff(root: Node, q: Path)
    ensures W.IsDeliverable(root, q) <==>
            q != [] && StatAt(root, q).IsFile? && forall n | n in q :: !LikeSome(n, W.IgnoreNames)
  {
    forall n ensures W.Ignored(n) <==> LikeSome(n, W.IgnoreNames) { W.IgnoredIff(n); }
    hide W.Ignored, LikeSome;
  }

  /** The walk of the source view gets to the path: no source exclusion lies above it. */
  ghost predicate Open(q: Path) { q != [] && ClearAbove(q) && !RunnerOwned(q[..|q| - 1]) }

  lemma OpenIff(q: Path)
    requires q != []
    ensures NoneExcluded(false, [], q) <==> Open(q)
  {
    var init := q[..|q| - 1];
    NoneExcludedIff(q);
    if init != [] { RunnerOwnedIff(init); }
    forall k ensures InternalAt(init, k) <==> k < |q| && InternalAt(q, k) {
      if 0 < k < |q| { assert init[..k] == q[..k]; }
    }
    hide NoneExcluded, ClearAbove, InternalOutput, InternalAt;
  }

  /** The entries that the source walk meets, told by their paths. */
  lemma SourceEntries(root: Node, e: Entry)
    requires root.Dir? && e.path != []
    ensures e in AllEntries(false, root) <==> Open(e.path) && Lookup(root, e.path) == Some(e.node)
  {
    AllEntriesAreMet(false, root, e);
    hide AllEntries, Met, Open, NoneExcluded;
    if Lookup(root, e.path).Some? {
      MetIff(false, root, [], e.path);
      OpenIff(e.path);
    }
  }

  lemma SourceAliasesIff(root: Node)
    requires root.Dir?
    ensures NoAliases(AllEntries(false, root)) <==> forall q | Open(q) :: StatAt(root, q) != IsAlias
  {
    var es := AllEntries(false, root);
    hide AllEntries, Open;
    forall e | e in es ensures e.path != [] { MetHasPath(root, e); }
    forall e: Entry | e.path != []
      ensures e in es <==> Open(e.path) && Lookup(root, e.path) == Some(e.node)
    {
      SourceEntries(root, e);
    }
    if q :| Open(q) && StatAt(root, q) == IsAlias {
      OpenHasPath(q);
      var e := Entry(q, Lookup(root, q).value);
      assert e in es && e.node.Alias?;
    }
    if e :| e in es && e.node.Alias? { assert StatAt(root, e.path) == IsAlias; }
  }

  lemma OpenHasPath(q: Path)
    requires Open(q)
    ensures q != []
  {
  }

  lemma MetHasPath(root: Node, e: Entry)
    requires root.Dir? && e in AllEntries(false, root)
    ensures e.path != []
  {
    WalkElements(false, Entry([], root), e);
    var q :| IsMetEntry(false, Entry([], root), q, e);
    assert [] + q == q;
  }

  /** When a source snapshot is valid: nothing it gets to is an alias, no two authored files differ in case only, and
      the three limits are kept. */
  lemma SourceValidIff(root: Node, limits: Limits)
    requires root.Dir? && NamesOk(root)
    ensures var files := SortedFiles(false, root);
            Acceptable(false, root, limits) <==>
            && (forall q | Open(q) :: StatAt(root, q) != IsAlias)
            && (forall p, q | Authored(root, p) && Authored(root, q) && Text.SameButCase(Rel(p), Rel(q)) :: p == q)
            && (limits.maxFiles.Some? ==> |files| <= limits.maxFiles.value)
            && (limits.maxBytes.Some? ==> Bytes(root, files) <= limits.maxBytes.value)
            && (limits.maxEntries.Some? ==> |AllEntries(false, root)| <= limits.maxEntries.value)
  {
    var listed := Listed(false, AllEntries(false, root));
    SourceAliasesIff(root);
    SortedFilesShape(false, root);
    ConflictsIff(root);
    hide NoAliases, AllEntries, Listed, SortedFiles, FoldsApart, Open, Authored, StatAt, Bytes, Text.SameButCase;
  }

  lemma ConflictsIff(root: Node)
    requires root.Dir? && NamesOk(root)
    ensures FoldsApart(Listed(false, AllEntries(false, root))) <==>
            forall p, q | Authored(root, p) && Authored(root, q) && Text.SameButCase(Rel(p), Rel(q)) :: p == q
  {
    var listed := Listed(false, AllEntries(false, root));
    Text.SortNamesElements(Elements(listed));
    forall s ensures s in listed <==> exists q :: Authored(root, q) && s == Rel(q) { SourceListsAuthored(root, s); }
    hide AllEntries, Listed, Authored, Text.Fold, Text.SameButCase, Rel, NamesOk;
    forall a, b ensures Text.Fold(a) == Text.Fold(b) <==> Text.SameButCase(a, b) { Text.FoldIff(a, b); }
    forall p, q | Authored(root, p) && Authored(root, q) ensures Rel(p) == Rel(q) ==> p == q {
      AuthoredNames(root, p);
      AuthoredNames(root, q);
      if Rel(p) == Rel(q) { RelInjective(p, q); }
    }
  }
}
