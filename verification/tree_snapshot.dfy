/** `_tree_snapshot`: the checks, the sorted file list and the byte stream that is hashed. */
module TreeSnapshot {
  import opened Options
  import opened FileTree
  import opened TreeWalk
  import Text
  import W = Worktree

  datatype Limits = Limits(maxFiles: Option<int>, maxBytes: Option<int>, maxEntries: Option<int>)

  predicate Positive(limit: Option<int>) { limit.Some? ==> limit.value >= 1 }

  lemma PositiveIff(limits: Limits)
    ensures Positive(limits.maxFiles) && Positive(limits.maxBytes) && Positive(limits.maxEntries) <==>
            !exists n | n <= 0 :: Some(n) in {limits.maxFiles, limits.maxBytes, limits.maxEntries}
  {
  }

  predicate Within(limit: Option<int>, n: int) { limit.Some? ==> n <= limit.value }

  function Rel(p: Path): string { Text.Join(p, '/') }

  /** File names on disk contain neither a separator nor a zero byte. */
  ghost predicate NamesOk(root: Node) {
    forall q, n | StatAt(root, q) != Missing && n in q :: '/' !in n && '\0' !in n
  }

  function AllEntries(deliverable: bool, root: Node): seq<Entry>
    requires root.Dir?
  {
    Walk(deliverable, Entry([], root))
  }

  /** Relative paths of the files met, in walk order. */
  function Listed(deliverable: bool, es: seq<Entry>): seq<string> {
    if es == [] then []
    else
      var e := es[|es| - 1];
      Listed(deliverable, es[..|es| - 1]) + if IsListed(deliverable, e) then [Rel(e.path)] else []
  }

  predicate NoAliases(es: seq<Entry>) { forall e | e in es :: !e.node.Alias? }

  /** No two different relative paths agree after case folding. */
  predicate FoldsApart(rels: seq<string>) {
    forall a, b | a in rels && b in rels && a != b :: Text.Fold(a) != Text.Fold(b)
  }

  function Elements(rels: seq<string>): set<string> { set s | s in rels }

  function SortedFiles(deliverable: bool, root: Node): seq<string>
    requires root.Dir?
  {
    Text.SortNames(Elements(Listed(deliverable, AllEntries(deliverable, root))))
  }

  function FileNode(root: Node, rel: string): Option<Node> { Lookup(root, Text.Split(rel, '/')) }

  function FileSize(root: Node, rel: string): nat {
    match FileNode(root, rel)
    case Some(File(data, _)) => |data|
    case _ => 0
  }

  function Bytes(root: Node, rels: seq<string>): nat {
    if rels == [] then 0 else Bytes(root, rels[..|rels| - 1]) + FileSize(root, rels[|rels| - 1])
  }

  /** The snapshot is valid: no alias met, no case-folded collision, every budget respected. */
  ghost predicate Acceptable(deliverable: bool, root: Node, limits: Limits) {
    && root.Dir?
    && var es := AllEntries(deliverable, root);
    && NoAliases(es) && FoldsApart(Listed(deliverable, es))
    && Within(limits.maxFiles, |Listed(deliverable, es)|) && Within(limits.maxEntries, |es|)
    && Within(limits.maxBytes, Bytes(root, SortedFiles(deliverable, root)))
  }

  // ---- the hashed stream ---------------------------------------------------------------------------------

  function Digit(n: nat): char
    requires n < 8
  {
    ('0' as int + n) as char
  }

  /** `f"{mode:0{width}o}"` */
  function Octal(n: nat, width: nat): string
    decreases n, width
  {
    if n == 0 && width == 0 then "" else Octal(n / 8, if width == 0 then 0 else width - 1) + [Digit(n % 8)]
  }

  function Algorithm(deliverable: bool): string {
    if deliverable then "deliverable-tree-sha256-v1" else "source-tree-sha256-v1"
  }

  /** What the digest is fed for one file: path, mode and content, each closed by a zero byte. */
  function Record(root: Node, rel: string): string {
    match FileNode(root, rel)
    case Some(File(data, mode)) => rel + "\0" + Octal(mode, 4) + "\0" + data + "\0"
    case _ => ""
  }

  function Records(root: Node, rels: seq<string>): string {
    if rels == [] then "" else Records(root, rels[..|rels| - 1]) + Record(root, rels[|rels| - 1])
  }

  function Stream(deliverable: bool, root: Node, rels: seq<string>): string {
    Algorithm(deliverable) + "\0" + Records(root, rels)
  }

  // ---- the method ----------------------------------------------------------------------------------------

  datatype Tally = Tally(
    files: seq<string>, seen: map<string, string>, collisions: seq<(string, string)>, aliases: seq<string>,
    excluded: nat, exceeded: bool)

  /** Takes one file into the list, unless its folded path is taken or the list is full. */
  function Take(maxFiles: Option<int>, c: Tally, rel: string): Tally {
    var folded := Text.Fold(rel);
    if folded in c.seen && c.seen[folded] != rel then
      c.(collisions := c.collisions + [(c.seen[folded], rel)])
    else
      var d := c.(seen := c.seen[folded := rel]);
      if maxFiles.Some? && |c.files| >= maxFiles.value then d.(exceeded := true) else d.(files := d.files + [rel])
  }

  /** The body of the loop over one directory's entries. */
  function Count(deliverable: bool, maxFiles: Option<int>, c: Tally, e: Entry): Tally
    requires e.path != []
  {
    if e.node.Dir? then
      if ExcludedDir(deliverable, e.path) then c.(excluded := c.excluded + 1) else c
    else if ExcludedFile(deliverable, e.path) || e.node.Alias? then
      c.(excluded := c.excluded + 1, aliases := if e.node.Alias? then c.aliases + [Rel(e.path)] else c.aliases)
    else
      Take(maxFiles, c, Rel(e.path))
  }

  /** The file counters describe the relative paths `rels`. */
  ghost predicate Taken(maxFiles: Option<int>, rels: seq<string>, c: Tally) {
    && (c.collisions == [] <==> FoldsApart(rels))
    && (c.collisions == [] ==> c.files == rels)
    && |c.files| <= |rels| && Within(maxFiles, |c.files|) && !c.exceeded
    && (forall k | k in c.seen :: c.seen[k] in rels && Text.Fold(c.seen[k]) == k)
    && (forall s | s in rels :: Text.Fold(s) in c.seen)
  }

  lemma InAppend(rels: seq<string>, rel: string)
    ensures forall a :: a in rels + [rel] <==> a in rels || a == rel
  {
  }

  lemma TakeStep(maxFiles: Option<int>, rels: seq<string>, c: Tally, rel: string)
    requires Taken(maxFiles, rels, c)
    ensures var d := Take(maxFiles, c, rel);
            if d.exceeded then !Within(maxFiles, |rels| + 1) else Taken(maxFiles, rels + [rel], d)
  {
    var folded := Text.Fold(rel);
    InAppend(rels, rel);
    if folded in c.seen && c.seen[folded] != rel {
      assert c.seen[folded] in rels + [rel] && rel in rels + [rel];
    } else if FoldsApart(rels) {
      forall a | a in rels && a != rel
        ensures Text.Fold(a) != folded
      {
        assert folded in c.seen ==> c.seen[folded] in rels;
      }
    }
  }

  /** How many of the entries the snapshot passes over: those that are neither walked nor listed. */
  ghost function PassedOver(deliverable: bool, es: seq<Entry>): nat {
    if es == [] then 0
    else
      var e := es[|es| - 1];
      PassedOver(deliverable, es[..|es| - 1]) + if IsWalked(deliverable, e) || IsListed(deliverable, e) then 0 else 1
  }

  lemma PassedOverSnoc(deliverable: bool, done: seq<Entry>, e: Entry)
    ensures PassedOver(deliverable, done + [e]) ==
            PassedOver(deliverable, done) + if IsWalked(deliverable, e) || IsListed(deliverable, e) then 0 else 1
  {
    assert (done + [e])[..|done|] == done;
  }

  /** The counters describe the entries in `done`. */
  ghost predicate Counted(deliverable: bool, maxFiles: Option<int>, done: seq<Entry>, c: Tally) {
    && (c.aliases == [] <==> NoAliases(done)) && Taken(maxFiles, Listed(deliverable, done), c)
    && c.excluded == PassedOver(deliverable, done)
  }

  lemma ListedSnoc(deliverable: bool, done: seq<Entry>, e: Entry)
    ensures Listed(deliverable, done + [e]) ==
            Listed(deliverable, done) + if IsListed(deliverable, e) then [Rel(e.path)] else []
  {
    assert (done + [e])[..|done|] == done;
  }

  lemma NoAliasesSnoc(done: seq<Entry>, e: Entry)
    ensures NoAliases(done + [e]) <==> NoAliases(done) && !e.node.Alias?
  {
    assert forall x :: x in done + [e] <==> x in done || x == e;
  }

  lemma CountStep(deliverable: bool, maxFiles: Option<int>, done: seq<Entry>, c: Tally, e: Entry)
    requires Counted(deliverable, maxFiles, done, c) && e.path != []
    ensures var d := Count(deliverable, maxFiles, c, e);
            if d.exceeded then !Within(maxFiles, |Listed(deliverable, done + [e])|)
            else Counted(deliverable, maxFiles, done + [e], d)
  {
    hide Listed;
    hide FoldsApart;
    hide NoAliases;
    hide Rel;
    var rels := Listed(deliverable, done);
    ListedSnoc(deliverable, done, e);
    NoAliasesSnoc(done, e);
    PassedOverSnoc(deliverable, done, e);
    hide PassedOver;
    if IsListed(deliverable, e) {
      TakeStep(maxFiles, rels, c, Rel(e.path));
    } else {
      assert rels + [] == rels;
    }
  }

  lemma ListedPrefix(deliverable: bool, a: seq<Entry>, b: seq<Entry>)
    ensures |Listed(deliverable, a)| <= |Listed(deliverable, a + b)|
  {
    if b == [] {
      assert a + b == a;
    } else {
      var i := b[..|b| - 1];
      ListedPrefix(deliverable, a, i);
      assert a + b == (a + i) + [b[|b| - 1]];
      ListedSnoc(deliverable, a + i, b[|b| - 1]);
    }
  }

  /** The loop over the sorted entries of one directory; `done` is what was counted before. */
  method CountAll(deliverable: bool, maxFiles: Option<int>, c0: Tally, ghost done: seq<Entry>, entries: seq<Entry>)
    returns (c: Tally)
    requires Counted(deliverable, maxFiles, done, c0) && !c0.exceeded && forall e | e in entries :: e.path != []
    ensures if c.exceeded then !Within(maxFiles, |Listed(deliverable, done + entries)|)
            else Counted(deliverable, maxFiles, done + entries, c)
  {
    hide Counted;
    hide Listed;
    hide Count;
    hide Within;
    c := c0;
    ghost var past := done;
    var j := 0;
    while j < |entries|
      invariant 0 <= j <= |entries| && past == done + entries[..j]
      invariant Counted(deliverable, maxFiles, past, c) && !c.exceeded
    {
      var e := entries[j];
      CountStep(deliverable, maxFiles, past, c, e);
      c := Count(deliverable, maxFiles, c, e);
      past := past + [e];
      j := j + 1;
      if c.exceeded {
        TooMany(deliverable, maxFiles, past, entries[j..], done + entries);
        return;
      }
    }
    assert past == done + entries;
  }

  lemma TooMany(deliverable: bool, maxFiles: Option<int>, a: seq<Entry>, b: seq<Entry>, all: seq<Entry>)
    requires !Within(maxFiles, |Listed(deliverable, a)|) && a + b == all
    ensures !Within(maxFiles, |Listed(deliverable, all)|)
  {
    ListedPrefix(deliverable, a, b);
  }

  /** The entries counted so far and those the stack still holds make up the recursive walk. */
  ghost predicate OnTrack(deliverable: bool, done: seq<Entry>, stack: seq<Entry>, all: seq<Entry>) {
    AreDirs(stack) && done + Pending(deliverable, stack) == all
  }

  lemma OnTrackAtStart(deliverable: bool, root: Node)
    requires root.Dir?
    ensures OnTrack(deliverable, [], [Entry([], root)], AllEntries(deliverable, root))
  {
    var all := AllEntries(deliverable, root);
    PendingPush(deliverable, [], Entry([], root));
    assert [] + [Entry([], root)] == [Entry([], root)] && [] + all == all && all + [] == all;
  }

  lemma OnTrackAtEnd(deliverable: bool, done: seq<Entry>, all: seq<Entry>)
    requires OnTrack(deliverable, done, [], all)
    ensures done == all
  {
    assert done + [] == done;
  }

  /** Popping a directory, counting its entries and pushing its children moves along the recursive walk. */
  lemma PopStep(deliverable: bool, done: seq<Entry>, stack: seq<Entry>, all: seq<Entry>) returns (rest: seq<Entry>)
    requires stack != [] && OnTrack(deliverable, done, stack, all)
    ensures AreDirs(stack)
    ensures var entries := Listing(stack[|stack| - 1]);
            var pushed := Extended(deliverable, stack[..|stack| - 1], entries);
            && AreDirs(pushed) && OnTrack(deliverable, done + entries, pushed, all)
            && done + entries + rest == all
            && |Pending(deliverable, pushed)| + |pushed| < |Pending(deliverable, stack)| + |stack|
  {
    var d, below := stack[|stack| - 1], stack[..|stack| - 1];
    var entries := Listing(d);
    PushChildren(deliverable, below, d.node, entries);
    rest := Pending(deliverable, Extended(deliverable, below, entries));
    assert Pending(deliverable, stack) == entries + rest by {
      SeqAssoc(entries, WalkBelow(deliverable, d.node, entries), Pending(deliverable, below));
    }
    SeqAssoc(done, entries, rest);
  }

  /** The walk of the snapshot, with its stack of pending directories. */
  lemma NoneCounted(deliverable: bool, maxFiles: Option<int>)
    requires Positive(maxFiles)
    ensures Counted(deliverable, maxFiles, [], Tally([], map[], [], [], 0, false))
  {
  }

  method Collect(deliverable: bool, root: Node, limits: Limits) returns (c: Tally)
    requires root.Dir? && Positive(limits.maxFiles) && Positive(limits.maxEntries)
    ensures var all := AllEntries(deliverable, root);
            if c.exceeded then !Within(limits.maxFiles, |Listed(deliverable, all)|) || !Within(limits.maxEntries, |all|)
            else Counted(deliverable, limits.maxFiles, all, c) && Within(limits.maxEntries, |all|)
  {
    ghost var all := AllEntries(deliverable, root);
    ghost var done: seq<Entry> := [];
    c := Tally([], map[], [], [], 0, false);
    var stack := [Entry([], root)];
    var entryCount := 0;
    hide Counted, Listed, Pending, Extended, AllEntries, Listing, OnTrack;
    OnTrackAtStart(deliverable, root);
    NoneCounted(deliverable, limits.maxFiles);
    while stack != []
      invariant AreDirs(stack) && OnTrack(deliverable, done, stack, all)
      invariant Counted(deliverable, limits.maxFiles, done, c) && !c.exceeded
      invariant entryCount == |done| && Within(limits.maxEntries, |done|)
      decreases |Pending(deliverable, stack)| + |stack|
    {
      ghost var rest := PopStep(deliverable, done, stack, all);
      var entries := Listing(stack[|stack| - 1]);
      stack := stack[..|stack| - 1];
      entryCount := entryCount + |entries|;
      if limits.maxEntries.Some? && entryCount > limits.maxEntries.value {
        c := c.(exceeded := true);
        return;
      }
      c := CountAll(deliverable, limits.maxFiles, c, done, entries);
      done := done + entries;
      if c.exceeded {
        TooMany(deliverable, limits.maxFiles, done, rest, all);
        return;
      }
      stack := Extended(deliverable, stack, entries);
    }
    OnTrackAtEnd(deliverable, done, all);
  }

  datatype Snapshot = Snapshot(
    digestInput: string, files: seq<string>, byteCount: nat, excluded: nat, collisions: seq<(string, string)>,
    aliases: seq<string>, budgetExceeded: bool, valid: bool)

  /** The loop that reads and hashes the files, stopping at the byte budget. */
  method Digest(deliverable: bool, root: Node, maxBytes: Option<int>, files: seq<string>)
    returns (stream: string, total: nat, exceeded: bool)
    requires Positive(maxBytes)
    ensures exceeded <==> !Within(maxBytes, Bytes(root, files))
    ensures !exceeded ==> stream == Stream(deliverable, root, files) && total == Bytes(root, files)
  {
    stream, total, exceeded := Algorithm(deliverable) + "\0", 0, false;
    DigestStart(deliverable, root, files);
    hide Bytes;
    hide Stream;
    hide Record;
    hide FileSize;
    for i := 0 to |files|
      invariant stream == Stream(deliverable, root, files[..i])
      invariant total == Bytes(root, files[..i]) && Within(maxBytes, total)
    {
      var size := FileSize(root, files[i]);
      DigestStep(deliverable, root, files, i);
      if maxBytes.Some? && size > maxBytes.value - total {
        exceeded := true;
        return;
      }
      stream := stream + Record(root, files[i]);
      total := total + size;
    }
  }

  lemma DigestStart(deliverable: bool, root: Node, files: seq<string>)
    ensures Stream(deliverable, root, files[..0]) == Algorithm(deliverable) + "\0" && Bytes(root, files[..0]) == 0
    ensures files[..|files|] == files
  {
    assert files[..0] == [];
  }

  lemma DigestStep(deliverable: bool, root: Node, files: seq<string>, i: nat)
    requires i < |files|
    ensures Stream(deliverable, root, files[..i + 1]) == Stream(deliverable, root, files[..i]) + Record(root, files[i])
    ensures Bytes(root, files[..i + 1]) == Bytes(root, files[..i]) + FileSize(root, files[i]) <= Bytes(root, files)
  {
    hide *;
    assert files[..i + 1] == files[..i] + [files[i]];
    StreamSnoc(deliverable, root, files[..i], files[i]);
    BytesSnoc(root, files[..i], files[i]);
    BytesPrefix(root, files[..i + 1], files[i + 1..]);
    assert files[..i + 1] + files[i + 1..] == files;
  }

  /** `None` is the ValueError for a limit that is not a positive integer. */
  method TakeSnapshot(deliverable: bool, root: Node, limits: Limits) returns (r: Option<Snapshot>)
    ensures r.None? <==> exists n | n <= 0 :: Some(n) in {limits.maxFiles, limits.maxBytes, limits.maxEntries}
    ensures r.Some? ==> (r.value.valid <==> Acceptable(deliverable, root, limits))
    ensures r.Some? && r.value.valid ==> r.value.files == SortedFiles(deliverable, root)
    ensures r.Some? && r.value.valid ==>
              r.value.byteCount == Bytes(root, r.value.files) && Within(limits.maxBytes, r.value.byteCount)
    ensures r.Some? && r.value.valid ==> r.value.digestInput == Stream(deliverable, root, r.value.files)
    ensures r.Some? && r.value.valid ==> r.value.excluded == PassedOver(deliverable, AllEntries(deliverable, root))
    ensures r.Some? && !r.value.valid ==> r.value.digestInput == ""
  {
    PositiveIff(limits);
    if !(Positive(limits.maxFiles) && Positive(limits.maxBytes) && Positive(limits.maxEntries)) { return None; }
    if !root.Dir? { return Some(Snapshot("", [], 0, 0, [], [], false, false)); }
    var c := Collect(deliverable, root, limits);
    if c.exceeded {
      return Some(Snapshot("", [], 0, c.excluded, c.collisions, c.aliases, true, false));
    }
    var files := Text.SortNames(Elements(c.files));
    var stream, total, exceeded := Digest(deliverable, root, limits.maxBytes, files);
    var valid := c.collisions == [] && c.aliases == [] && !exceeded;
    CountedDecides(deliverable, root, limits, c);
    return Some(Snapshot(if valid then stream else "", files, total, c.excluded, c.collisions, c.aliases, exceeded,
                         valid));
  }

  lemma CountedDecides(deliverable: bool, root: Node, limits: Limits, c: Tally)
    requires root.Dir? && Counted(deliverable, limits.maxFiles, AllEntries(deliverable, root), c)
    requires Within(limits.maxEntries, |AllEntries(deliverable, root)|)
    ensures c.collisions == [] ==> Text.SortNames(Elements(c.files)) == SortedFiles(deliverable, root)
    ensures c.excluded == PassedOver(deliverable, AllEntries(deliverable, root))
    ensures Acceptable(deliverable, root, limits) <==>
            (&& c.collisions == [] && c.aliases == []
             && Within(limits.maxBytes, Bytes(root, SortedFiles(deliverable, root))))
  {
  }

  lemma BytesSnoc(root: Node, rels: seq<string>, rel: string)
    ensures Bytes(root, rels + [rel]) == Bytes(root, rels) + FileSize(root, rel)
  {
    assert (rels + [rel])[..|rels|] == rels;
  }

  lemma StreamSnoc(deliverable: bool, root: Node, rels: seq<string>, rel: string)
    ensures Stream(deliverable, root, rels + [rel]) == Stream(deliverable, root, rels) + Record(root, rel)
  {
    assert (rels + [rel])[..|rels|] == rels;
    SeqAssoc(Algorithm(deliverable) + "\0", Records(root, rels), Record(root, rel));
  }

  lemma BytesPrefix(root: Node, a: seq<string>, b: seq<string>)
    ensures Bytes(root, a) <= Bytes(root, a + b)
  {
    if b == [] {
      assert a + b == a;
    } else {
      BytesPrefix(root, a, b[..|b| - 1]);
      assert (a + b)[..|a + b| - 1] == a + b[..|b| - 1];
    }
  }

  // ---- the two walkers agree -----------------------------------------------------------------------------

  lemma ListedElements(deliverable: bool, es: seq<Entry>, s: string)
    ensures s in Listed(deliverable, es) <==> exists e | e in es :: IsListed(deliverable, e) && s == Rel(e.path)
  {
    if es != [] {
      var init, e := es[..|es| - 1], es[|es| - 1];
      ListedElements(deliverable, init, s);
      assert es == init + [e];
      assert forall x :: x in es <==> x in init || x == e;
    }
  }

  /** In the deliverable view an entry is met when no name above it is ignored. */
  lemma {:induction false} MetDeliverable(d: Node, at: Path, q: Path)
    requires d.Dir? && q != [] && Lookup(d, q).Some?
    ensures Met(true, d, at, q) <==> !W.HasIgnored(q[..|q| - 1])
    decreases |q|
  {
    if |q| == 1 {
      assert q == [q[0]] && q[..0] == [];
    } else {
      var n, rest := q[0], q[1..];
      var init := rest[..|rest| - 1];
      assert q[..|q| - 1] == [n] + init;
      W.HasIgnoredCons(n, init);
      hide W.HasIgnored;
      assert Lookup(d.entries[n], rest).Some? && d.entries[n].Dir?;
      MetDeliverable(d.entries[n], at + [n], rest);
    }
  }

  /** Among entries of the tree, being met and listed is being deliverable. */
  lemma MetIsDeliverable(root: Node, e: Entry)
    requires root.Dir? && Lookup(root, e.path) == Some(e.node) && e.path != []
    ensures Met(true, root, [], e.path) && IsListed(true, e) <==> W.IsDeliverable(root, e.path)
  {
    W.HasIgnoredLast(e.path);
    MetDeliverable(root, [], e.path);
    hide Met;
    hide W.HasIgnored;
    hide W.Ignored;
    hide Lookup;
  }

  lemma ListedIsDeliverable(root: Node, e: Entry)
    requires root.Dir? && e.path != []
    ensures e in AllEntries(true, root) && IsListed(true, e) <==>
            Lookup(root, e.path) == Some(e.node) && W.IsDeliverable(root, e.path)
  {
    hide *;
    AllEntriesAreMet(true, root, e);
    if Lookup(root, e.path) == Some(e.node) { MetIsDeliverable(root, e); }
  }

  lemma AllEntriesAreMet(deliverable: bool, root: Node, e: Entry)
    requires root.Dir? && e.path != []
    ensures e in AllEntries(deliverable, root) <==>
              Met(deliverable, root, [], e.path) && Lookup(root, e.path) == Some(e.node)
  {
    hide Walk;
    hide Lookup;
    hide Met;
    WalkElements(deliverable, Entry([], root), e);
    assert [] + e.path == e.path;
    if q :| IsMetEntry(deliverable, Entry([], root), q, e) {
      assert [] + q == q;
    } else {
      assert !IsMetEntry(deliverable, Entry([], root), e.path, e);
    }
  }

  /** The stack walk lists exactly the files that the `rglob` filter of `_iter_files` yields. */
  lemma TwoWalkersAgree(root: Node, s: string)
    requires root.Dir?
    ensures s in SortedFiles(true, root) <==> exists q :: W.IsDeliverable(root, q) && s == Rel(q)
  {
    hide Walk;
    hide Listed;
    var es := AllEntries(true, root);
    Text.SortNamesElements(Elements(Listed(true, es)));
    ListedElements(true, es, s);
    if e :| e in es && IsListed(true, e) && s == Rel(e.path) {
      ListedIsDeliverable(root, e);
    }
    if q :| W.IsDeliverable(root, q) && s == Rel(q) {
      ListedIsDeliverable(root, Entry(q, Lookup(root, q).value));
    }
  }

  /** The list is strictly sorted by `(casefold, name)` and loses no file of the walk. */
  lemma SortedFilesShape(deliverable: bool, root: Node)
    requires root.Dir? && NamesOk(root)
    ensures Text.StrictlySorted(SortedFiles(deliverable, root))
    ensures |SortedFiles(deliverable, root)| == |Listed(deliverable, AllEntries(deliverable, root))|
  {
    hide Walk;
    hide Listed;
    var es := AllEntries(deliverable, root);
    Text.SortNamesSorted(Elements(Listed(deliverable, es)));
    Text.SortNamesElements(Elements(Listed(deliverable, es)));
    WalkDistinct(deliverable, Entry([], root));
    forall e | e in es
      ensures PathOk(e.path)
    {
      WalkElements(deliverable, Entry([], root), e);
      var q :| IsMetEntry(deliverable, Entry([], root), q, e);
      assert [] + q == q;
    }
    ListedCount(deliverable, es);
  }

  ghost predicate PathOk(p: Path) { p != [] && forall n | n in p :: '/' !in n }

  lemma RelInjective(p: Path, q: Path)
    requires PathOk(p) && PathOk(q) && Rel(p) == Rel(q)
    ensures p == q
  {
    Text.SplitJoin(p, '/');
    Text.SplitJoin(q, '/');
  }

  lemma {:induction false} ListedCount(deliverable: bool, es: seq<Entry>)
    requires PathsDistinct(es) && forall e | e in es :: PathOk(e.path)
    ensures |Elements(Listed(deliverable, es))| == |Listed(deliverable, es)|
    decreases |es|
  {
    if es == [] {
      assert Elements([]) == {};
    } else {
      var init, e := es[..|es| - 1], es[|es| - 1];
      assert PathsDistinct(init);
      ListedCount(deliverable, init);
      assert forall k | 0 <= k < |init| :: es[k].path != e.path && init[k] == es[k];
      if IsListed(deliverable, e) {
        var rels := Listed(deliverable, init);
        assert Rel(e.path) !in rels by {
          ListedElements(deliverable, init, Rel(e.path));
          if x :| x in init && IsListed(deliverable, x) && Rel(e.path) == Rel(x.path) {
            RelInjective(e.path, x.path);
          }
        }
        assert Elements(rels + [Rel(e.path)]) == Elements(rels) + {Rel(e.path)};
      } else {
        assert Listed(deliverable, es) == Listed(deliverable, init);
      }
    }
  }
}
