/** The production build cache of an npm project: what a receipt stands for, and how its stamp is written.  Digests are
    taken as the bytes they stand for. */
module NpmBuildCache {
  import opened Options
  import opened FileTree
  import SourceView
  import TreeWalk
  import Text
  import W = Worktree

  datatype Mark = Directory | Content(data: string)

  type Manifest = map<Path, Mark>

  const SkipDirs: set<Path> := {[".git"], ["node_modules"]}
  const Outputs: set<Name> := {"dist", ".next"}
  const Modules: Path := ["node_modules"]
  const StampName: Name := ".skyn3t-build.json"
  const DepFiles: set<Name> := {".package-lock.json", ".skyn3t-install.json", ".skyn3t-docker-install.json"}
  const Tools: set<Name> := {"vite", "astro", "next", "typescript"}

  // ---- manifests -----------------------------------------------------------------------------------------

  predicate Skipped(skip: Option<set<Path>>, p: Path) { skip.Some? && (p in skip.value || TreeWalk.InternalOutput(p)) }

  /** The walk gets there: it skips neither the path nor a directory above it. */
  ghost predicate Visited(skip: Option<set<Path>>, q: Path) {
    q != [] && forall p | p <= q && p != [] :: !Skipped(skip, p)
  }

  datatype Seen = Nothing | Folder | Bytes(data: string) | Unsafe

  /** What the walk makes of a path.  Only a walk that skips nothing records directories. */
  ghost function SeenAt(t: Node, skip: Option<set<Path>>, q: Path): Seen {
    if !Visited(skip, q) then Nothing
    else
      match StatAt(t, q)
      case Missing => Nothing
      case IsDir => if skip.None? then Folder else Nothing
      case IsFile(data, _) => Bytes(data)
      case IsAlias => Unsafe
  }

  function MarkOf(s: Seen): Mark { if s.Bytes? then Content(s.data) else Directory }

  /** The manifest holds what the walk sees; there is none when the root is no directory or an alias is in the tree. */
  ghost predicate IsManifest(t: Node, skip: Option<set<Path>>, m: Option<Manifest>) {
    && (m.Some? <==> t.Dir? && forall q :: SeenAt(t, skip, q) != Unsafe)
    && (m.Some? ==> forall q :: q in m.value <==> SeenAt(t, skip, q) != Nothing)
    && (m.Some? ==> forall q | q in m.value :: m.value[q] == MarkOf(SeenAt(t, skip, q)))
  }

  /** Manifests are equal exactly when the two walks see the same. */
  lemma ManifestsAgree(t: Node, t': Node, skip: Option<set<Path>>, m: Option<Manifest>, m': Option<Manifest>)
    requires IsManifest(t, skip, m) && IsManifest(t', skip, m') && m.Some?
    ensures m == m' <==> t'.Dir? && forall q :: SeenAt(t, skip, q) == SeenAt(t', skip, q)
  {
    hide SeenAt;
    if m' == m {
      forall q ensures SeenAt(t, skip, q) == SeenAt(t', skip, q) {
        SeenMark(t, skip, q);
        SeenMark(t', skip, q);
      }
    }
    if t'.Dir? && forall q :: SeenAt(t, skip, q) == SeenAt(t', skip, q) {
      assert forall q :: q in m.value <==> q in m'.value;
      assert m.value == m'.value;
    }
  }

  lemma SeenMark(t: Node, skip: Option<set<Path>>, q: Path)
    ensures var s := SeenAt(t, skip, q);
            s != Nothing && s != Unsafe ==>
              s == match MarkOf(s) case Content(data) => Bytes(data) case Directory => Folder
  {
  }

  predicate VisitedFrom(skip: Option<set<Path>>, q: Path, k: nat)
    requires k <= |q|
    decreases |q| - k
  {
    k == |q| || (!Skipped(skip, q[..k + 1]) && VisitedFrom(skip, q, k + 1))
  }

  lemma {:induction false} VisitedFromIff(skip: Option<set<Path>>, q: Path, k: nat)
    requires k <= |q|
    ensures VisitedFrom(skip, q, k) <==> forall n | k < n <= |q| :: !Skipped(skip, q[..n])
    decreases |q| - k
  {
    if k < |q| { VisitedFromIff(skip, q, k + 1); }
  }

  lemma VisitedIff(skip: Option<set<Path>>, q: Path)
    ensures Visited(skip, q) <==> q != [] && VisitedFrom(skip, q, 0)
  {
    VisitedFromIff(skip, q, 0);
    hide Skipped;
    assert forall p | p <= q :: p == q[..|p|];
    assert forall n | 0 <= n <= |q| :: q[..n] <= q;
  }

  ghost function Paths(t: Node): set<Path> {
    if t.Dir? then set n, q | n in t.entries && q in Paths(t.entries[n]) + {[]} :: [n] + q else {}
  }

  lemma PathsCons(t: Node, q: Path)
    ensures q in Paths(t) <==> t.Dir? && q != [] && q[0] in t.entries && q[1..] in Paths(t.entries[q[0]]) + {[]}
  {
    if t.Dir? && q != [] && q[0] in t.entries && q[1..] in Paths(t.entries[q[0]]) + {[]} {
      assert q == [q[0]] + q[1..];
    }
    if q in Paths(t) {
      var n, r :| n in t.entries && r in Paths(t.entries[n]) + {[]} && q == [n] + r;
      assert q[0] == n && q[1..] == r;
    }
  }

  lemma {:induction false} PathsAreAll(t: Node, q: Path)
    ensures q in Paths(t) <==> q != [] && StatAt(t, q) != Missing
    decreases |q|
  {
    PathsCons(t, q);
    if t.Dir? && q != [] && q[0] in t.entries {
      var child := t.entries[q[0]];
      PathsAreAll(child, q[1..]);
      assert StatAt(t, q) == StatAt(child, q[1..]) && StatAt(child, []) == StatOf(Some(child));
    }
  }

  /** The manifest of a tree. */
  ghost function ManifestOf(t: Node, skip: Option<set<Path>>): (m: Option<Manifest>)
    ensures IsManifest(t, skip, m)
  {
    assert forall q :: q in Paths(t) <==> q != [] && StatAt(t, q) != Missing by {
      forall q ensures q in Paths(t) <==> q != [] && StatAt(t, q) != Missing { PathsAreAll(t, q); }
    }
    if t.Dir? && forall q :: SeenAt(t, skip, q) != Unsafe
    then Some(map q | q in Paths(t) && SeenAt(t, skip, q) != Nothing :: MarkOf(SeenAt(t, skip, q)))
    else None
  }

  lemma OneManifest(t: Node, skip: Option<set<Path>>, m: Option<Manifest>, m': Option<Manifest>)
    requires IsManifest(t, skip, m) && IsManifest(t, skip, m')
    ensures m == m'
  {
    if m.Some? { ManifestsAgree(t, t, skip, m, m'); }
  }

  /** `_build_tree_manifest` */
  method BuildTreeManifest(t: Node, skip: Option<set<Path>>) returns (m: Option<Manifest>)
    ensures m == ManifestOf(t, skip)
  {
    m := ScanTree(t, skip);
    OneManifest(t, skip, m, ManifestOf(t, skip));
  }

  method ScanTree(t: Node, skip: Option<set<Path>>) returns (m: Option<Manifest>)
    ensures IsManifest(t, skip, m)
  {
    if !t.Dir? { return None; }
    var all := W.Rglob(t);
    var out: Manifest := map[];
    hide Visited;
    for i := 0 to |all|
      invariant forall q | q in all[..i] :: SeenAt(t, skip, q) != Unsafe
      invariant forall q :: q in out <==> q in all[..i] && SeenAt(t, skip, q) != Nothing
      invariant forall q | q in out :: out[q] == MarkOf(SeenAt(t, skip, q))
    {
      var q := all[i];
      assert all[..i + 1] == all[..i] + [q];
      VisitedIff(skip, q);
      if VisitedFrom(skip, q, 0) {
        match StatAt(t, q) {
          case Missing =>
          case IsAlias =>
            assert SeenAt(t, skip, q) == Unsafe;
            return None;
          case IsDir => if skip.None? { out := out[q := Directory]; }
          case IsFile(data, _) => out := out[q := Content(data)];
        }
      }
    }
    assert all[..|all|] == all;
    m := Some(out);
  }

  // ---- receipts ------------------------------------------------------------------------------------------

  type Env = map<string, string>

  /** `layout` recognises a default website layout from `package.json` and the configuration files, and names its output
      directory. */
  datatype Rules = Rules(layout: (string, map<Name, string>) -> Name)

  datatype Fingerprint = Fingerprint(cmd: string, env: Env, inputs: Manifest)

  datatype Receipt = Receipt(cmd: string, fingerprint: Fingerprint, output: Name, outputs: Manifest)

  predicate IsConfig(n: Name) { Text.Contains(n, ".config.") }

  function EntriesOf(t: Node): map<Name, Node> { if t.Dir? then t.entries else map[] }

  predicate ConfigsAreFiles(t: Node) { forall n | n in EntriesOf(t) && IsConfig(n) :: EntriesOf(t)[n].File? }

  function Configs(t: Node): map<Name, string> {
    map n | n in EntriesOf(t) && IsConfig(n) && EntriesOf(t)[n].File? :: EntriesOf(t)[n].data
  }

  /** `_production_output`; "" when the layout is not recognised. */
  function ProductionOutput(rules: Rules, t: Node, cmd: string): Name {
    if cmd != "build" || !t.Dir? || !StatAt(t, ["package.json"]).IsFile? || !ConfigsAreFiles(t) then ""
    else
      var o := rules.layout(StatAt(t, ["package.json"]).data, Configs(t));
      if o in Outputs then o else ""
  }

  function InputSkip(output: Name): Option<set<Path>> { Some(SkipDirs + {[output]}) }

  function DepPaths(): set<Path> {
    (set n | n in DepFiles :: Modules + [n]) + (set n | n in Tools :: Modules + [n, "package.json"])
  }

  /** The dependency metadata can be read: `node_modules` is a directory, no metadata file is anything but a file, and
      every installed tool is a directory with its `package.json`. */
  predicate DepsReadable(t: Node) {
    && StatAt(t, Modules).IsDir?
    && (forall n | n in DepFiles :: StatAt(t, Modules + [n]).Missing? || StatAt(t, Modules + [n]).IsFile?)
    && (forall n | n in Tools ::
          || StatAt(t, Modules + [n]).Missing?
          || (StatAt(t, Modules + [n]).IsDir? && StatAt(t, Modules + [n, "package.json"]).IsFile?))
  }

  function Deps(t: Node): Manifest { map p | p in DepPaths() && StatAt(t, p).IsFile? :: Content(StatAt(t, p).data) }

  /** `npm_build_fingerprint` */
  ghost function FingerprintOf(rules: Rules, t: Node, cmd: string, env: Env): Option<Fingerprint> {
    var output := ProductionOutput(rules, t, cmd);
    var m := ManifestOf(t, InputSkip(output));
    if output == "" || m.None? || !DepsReadable(t) then None else Some(Fingerprint(cmd, env, m.value + Deps(t)))
  }

  predicate NonEmptyFile(m: Manifest, p: Path) { p in m && m[p].Content? && m[p].data != "" }

  predicate SomeFileUnder(m: Manifest, d: Name) { exists p | p in m :: |p| > 1 && p[0] == d && m[p].Content? }

  predicate Complete(output: Name, m: Manifest) {
    if output == ".next" then NonEmptyFile(m, ["BUILD_ID"]) && SomeFileUnder(m, "server") && SomeFileUnder(m, "static")
    else NonEmptyFile(m, ["index.html"])
  }

  ghost function OutputManifest(t: Node, output: Name): Option<Manifest> {
    var n := Lookup(t, [output]);
    if n.None? then None else ManifestOf(n.value, None)
  }

  /** `_build_receipt` */
  ghost function ReceiptOf(rules: Rules, t: Node, cmd: string, env: Env): Option<Receipt> {
    var fingerprint := FingerprintOf(rules, t, cmd, env);
    var output := ProductionOutput(rules, t, cmd);
    var m := OutputManifest(t, output);
    if fingerprint.None? || m.None? || !Complete(output, m.value) then None
    else Some(Receipt(cmd, fingerprint.value, output, m.value))
  }

  method BuildFingerprint(rules: Rules, t: Node, cmd: string, env: Env) returns (fingerprint: Option<Fingerprint>)
    ensures fingerprint == FingerprintOf(rules, t, cmd, env)
  {
    var output := ProductionOutput(rules, t, cmd);
    if output == "" { return None; }
    var m := BuildTreeManifest(t, InputSkip(output));
    if m.None? || !DepsReadable(t) { return None; }
    fingerprint := Some(Fingerprint(cmd, env, m.value + Deps(t)));
  }

  method BuildReceipt(rules: Rules, t: Node, cmd: string, env: Env) returns (r: Option<Receipt>)
    ensures r == ReceiptOf(rules, t, cmd, env)
  {
    var fingerprint := BuildFingerprint(rules, t, cmd, env);
    if fingerprint.None? { return None; }
    var output := ProductionOutput(rules, t, cmd);
    var n := Lookup(t, [output]);
    if n.None? { return None; }
    var m := BuildTreeManifest(n.value, None);
    if m.None? || !Complete(output, m.value) { return None; }
    r := Some(Receipt(cmd, fingerprint.value, output, m.value));
  }

  // ---- what a receipt stands for -------------------------------------------------------------------------

  function DataAt(t: Node, p: Path): Option<string> {
    match StatAt(t, p) case IsFile(data, _) => Some(data) case _ => None
  }

  /** What is at a path, but for the mode of a file. */
  function FormAt(t: Node, p: Path): Seen {
    match StatAt(t, p)
    case Missing => Nothing
    case IsDir => Folder
    case IsFile(data, _) => Bytes(data)
    case IsAlias => Unsafe
  }

  /** Both trees have the same build: the same files where the build reads, the same dependency metadata, and the same
      output tree, empty directories included.  File modes do not count; a directory that is named like a configuration
      file does. */
  ghost predicate SameBuild(t: Node, t': Node, output: Name) {
    && t'.Dir? && ConfigsAreFiles(t') && DepsReadable(t')
    && (forall q :: SeenAt(t, InputSkip(output), q) == SeenAt(t', InputSkip(output), q))
    && (forall p | p in DepPaths() :: DataAt(t, p) == DataAt(t', p))
    && (forall q :: FormAt(t, [output] + q) == FormAt(t', [output] + q))
  }

  lemma InputsOutsideModules(t: Node, output: Name, q: Path)
    requires SeenAt(t, InputSkip(output), q) != Nothing
    ensures q != [] && q[0] != "node_modules"
  {
    assert Visited(InputSkip(output), q);
    assert q[..1] <= q && q[..1] == [q[0]];
    if q[0] == "node_modules" { assert Skipped(InputSkip(output), q[..1]); }
  }

  lemma DepsUnderModules(p: Path)
    requires p in DepPaths()
    ensures |p| > 1 && p[0] == "node_modules"
  {
  }

  /** Merging the two parts of a fingerprint loses neither. */
  lemma PartsAgree(t: Node, t': Node, output: Name, m: Manifest, m': Manifest)
    requires IsManifest(t, InputSkip(output), Some(m)) && IsManifest(t', InputSkip(output), Some(m'))
    ensures m + Deps(t) == m' + Deps(t') <==> m == m' && Deps(t) == Deps(t')
  {
    forall q
      ensures q in m || q in m' ==> q !in Deps(t) && q !in Deps(t')
    {
      if q in m { InputsOutsideModules(t, output, q); }
      if q in m' { InputsOutsideModules(t', output, q); }
      if q in DepPaths() { DepsUnderModules(q); }
    }
    if m + Deps(t) == m' + Deps(t') { DisjointUnions(m, Deps(t), m', Deps(t')); }
  }

  lemma DisjointUnions(a: Manifest, b: Manifest, c: Manifest, d: Manifest)
    requires a + b == c + d
    requires forall q | q in a || q in c :: q !in b && q !in d
    ensures a == c && b == d
  {
    forall q ensures (q in a <==> q in c) && (q in b <==> q in d) {
      assert q in a + b <==> q in a || q in b;
      assert q in c + d <==> q in c || q in d;
    }
    forall q | q in a ensures a[q] == c[q] { assert (a + b)[q] == a[q] && (c + d)[q] == c[q]; }
    forall q | q in b ensures b[q] == d[q] { assert (a + b)[q] == b[q] && (c + d)[q] == d[q]; }
  }

  lemma DepsAgree(t: Node, t': Node)
    ensures Deps(t) == Deps(t') <==> forall p | p in DepPaths() :: DataAt(t, p) == DataAt(t', p)
  {
    forall u, p | p in DepPaths()
      ensures p in Deps(u) <==> DataAt(u, p).Some?
      ensures p in Deps(u) ==> Deps(u)[p] == Content(DataAt(u, p).value)
    {
    }
    hide DepPaths;
    if Deps(t) == Deps(t') {
      forall p | p in DepPaths() ensures DataAt(t, p) == DataAt(t', p) {
        assert p in Deps(t) <==> p in Deps(t');
      }
    }
    if forall p | p in DepPaths() :: DataAt(t, p) == DataAt(t', p) {
      assert Deps(t).Keys == Deps(t').Keys;
    }
  }

  lemma OutputForms(t: Node, output: Name, q: Path)
    requires q != [] && Lookup(t, [output]).Some?
    ensures SeenAt(Lookup(t, [output]).value, None, q) == FormAt(t, [output] + q)
  {
    LookupSplit(t, [output], q);
  }

  lemma OutputsAgree(t: Node, t': Node, output: Name)
    requires OutputManifest(t, output).Some?
    ensures OutputManifest(t, output) == OutputManifest(t', output) <==>
            forall q :: FormAt(t, [output] + q) == FormAt(t', [output] + q)
  {
    var n := Lookup(t, [output]).value;
    assert [output] + [] == [output];
    assert FormAt(t, [output] + []) == Folder;
    if Lookup(t', [output]).Some? {
      var n' := Lookup(t', [output]).value;
      ManifestsAgree(n, n', None, ManifestOf(n, None), ManifestOf(n', None));
      forall q
        ensures q != [] ==>
                  SeenAt(n, None, q) == FormAt(t, [output] + q) && SeenAt(n', None, q) == FormAt(t', [output] + q)
        ensures q == [] ==>
                  SeenAt(n, None, q) == SeenAt(n', None, q) && (FormAt(t', [output] + q) == Folder <==> n'.Dir?)
      {
        if q != [] {
          OutputForms(t, output, q);
          OutputForms(t', output, q);
        }
      }
    } else {
      assert FormAt(t', [output] + []) == Nothing;
    }
  }

  lemma PackageIsInput(output: Name)
    requires output in Outputs
    ensures Visited(InputSkip(output), ["package.json"])
  {
    var p: Path := ["package.json"];
    assert TreeWalk.FoldPath(p)[0] == Text.Fold("package.json");
    forall x | x <= p && x != [] ensures !Skipped(InputSkip(output), x) { assert x == p; }
  }

  /** A configuration file at the root is among the inputs. */
  lemma ConfigIsInput(output: Name, n: Name)
    requires output in Outputs && IsConfig(n)
    ensures Visited(InputSkip(output), [n]) && n != "node_modules"
  {
    var i :| 0 <= i <= |n| && Text.StartsAt(n, i, ".config.");
    assert n[i..][0] == '.' && n[i..][7] == '.';
    assert n[i] == '.' && n[i + 7] == '.' && i + 8 <= |n|;
    var f := Text.Fold(n);
    assert f[i] == '.' && f[i + 7] == '.' && TreeWalk.FoldPath([n]) == [f];
    OneDot(n, f, i);
    forall x: Path | x <= [n] && x != [] ensures !Skipped(InputSkip(output), x) { assert x == [n]; }
  }

  lemma OneDot(n: Name, f: Name, i: nat)
    requires i + 8 <= |n| == |f| && n[i] == '.' && n[i + 7] == '.' && f[i] == '.' && f[i + 7] == '.'
    ensures n !in {".git", "node_modules", "dist", ".next"}
    ensures f != "skyn3t_manifest.json" && f != "skyn3t-observability.json"
  {
    var a, b := "skyn3t_manifest.json", "skyn3t-observability.json";
    assert forall k | 0 <= k < |a| && a[k] == '.' :: k == 15;
    assert forall k | 0 <= k < |b| && b[k] == '.' :: k == 20;
  }

  lemma LayoutAgrees(rules: Rules, t: Node, t': Node, cmd: string)
    requires ProductionOutput(rules, t, cmd) != "" && SameBuild(t, t', ProductionOutput(rules, t, cmd))
    ensures ProductionOutput(rules, t', cmd) == ProductionOutput(rules, t, cmd)
  {
    var output := ProductionOutput(rules, t, cmd);
    PackageIsInput(output);
    hide Visited, InputSkip, Skipped;
    var p: Path := ["package.json"];
    assert SeenAt(t, InputSkip(output), p) == SeenAt(t', InputSkip(output), p);
    forall n | IsConfig(n)
      ensures n in Configs(t) <==> n in Configs(t')
      ensures n in Configs(t) ==> Configs(t)[n] == Configs(t')[n]
    {
      ConfigIsInput(output, n);
      assert SeenAt(t, InputSkip(output), [n]) == SeenAt(t', InputSkip(output), [n]);
      LookupOne(t, n);
      LookupOne(t', n);
    }
    assert Configs(t) == Configs(t');
  }

  /** A receipt stands for the build: it is the receipt of another tree exactly when command and environment are the
      same and the trees have the same build. */
  lemma ReceiptStandsForBuild(rules: Rules, t: Node, cmd: string, env: Env, r: Receipt, t': Node, cmd': string,
                              env': Env)
    requires ReceiptOf(rules, t, cmd, env) == Some(r)
    ensures ReceiptOf(rules, t', cmd', env') == Some(r) <==> cmd' == cmd && env' == env && SameBuild(t, t', r.output)
  {
    var output := r.output;
    if ReceiptOf(rules, t', cmd', env') == Some(r) { SameReceiptSameBuild(rules, t, cmd, env, r, t', cmd', env'); }
    if cmd' == cmd && SameBuild(t, t', output) {
      LayoutAgrees(rules, t, t', cmd);
      SameBuildSameParts(t, t', output);
    }
  }

  lemma ReceiptParts(rules: Rules, t: Node, cmd: string, env: Env, r: Receipt)
    requires ReceiptOf(rules, t, cmd, env) == Some(r)
    ensures r.cmd == cmd && r.fingerprint.env == env && r.output == ProductionOutput(rules, t, cmd)
    ensures t.Dir? && ConfigsAreFiles(t) && DepsReadable(t)
    ensures ManifestOf(t, InputSkip(r.output)).Some?
    ensures r.fingerprint.inputs == ManifestOf(t, InputSkip(r.output)).value + Deps(t)
    ensures OutputManifest(t, r.output) == Some(r.outputs)
  {
  }

  lemma SameReceiptSameBuild(rules: Rules, t: Node, cmd: string, env: Env, r: Receipt, t': Node, cmd': string,
                             env': Env)
    requires ReceiptOf(rules, t, cmd, env) == Some(r) && ReceiptOf(rules, t', cmd', env') == Some(r)
    ensures cmd' == cmd && env' == env && SameBuild(t, t', r.output)
  {
    ReceiptParts(rules, t, cmd, env, r);
    ReceiptParts(rules, t', cmd', env', r);
    hide ReceiptOf, ManifestOf, OutputManifest, IsManifest, SeenAt, FormAt, DataAt, DepPaths, Deps, DepsReadable;
    SameInputs(t, t', r.output);
    OutputsAgree(t, t', r.output);
  }

  lemma SameInputs(t: Node, t': Node, output: Name)
    requires ManifestOf(t, InputSkip(output)).Some? && ManifestOf(t', InputSkip(output)).Some?
    requires ManifestOf(t, InputSkip(output)).value + Deps(t) == ManifestOf(t', InputSkip(output)).value + Deps(t')
    ensures forall q :: SeenAt(t, InputSkip(output), q) == SeenAt(t', InputSkip(output), q)
    ensures forall p | p in DepPaths() :: DataAt(t, p) == DataAt(t', p)
  {
    var m, m' := ManifestOf(t, InputSkip(output)), ManifestOf(t', InputSkip(output));
    hide SeenAt, DataAt, DepPaths, Deps, ManifestOf;
    PartsAgree(t, t', output, m.value, m'.value);
    ManifestsAgree(t, t', InputSkip(output), m, m');
    DepsAgree(t, t');
  }

  lemma SameBuildSameParts(t: Node, t': Node, output: Name)
    requires SameBuild(t, t', output) && ManifestOf(t, InputSkip(output)).Some? && OutputManifest(t, output).Some?
    ensures ManifestOf(t', InputSkip(output)) == ManifestOf(t, InputSkip(output))
    ensures Deps(t') == Deps(t) && OutputManifest(t', output) == OutputManifest(t, output) && DepsReadable(t')
  {
    var skip := InputSkip(output);
    ManifestsAgree(t, t', skip, ManifestOf(t, skip), ManifestOf(t', skip));
    OutputsAgree(t, t', output);
    DepsAgree(t, t');
  }

  /** The names in `node_modules` that a receipt depends on. */
  predicate DependedOn(n: Name) { n in DepFiles || n in Tools }

  /** Whatever else changes in `node_modules`, such as the stamp itself, a receipt is not disturbed. */
  lemma Undisturbed(rules: Rules, t: Node, t': Node, cmd: string, env: Env, n: Name)
    requires !DependedOn(n) && t.Dir? && t'.Dir? && SameElsewhere(t, t', n)
    ensures ReceiptOf(rules, t', cmd, env) == ReceiptOf(rules, t, cmd, env)
  {
    if ReceiptOf(rules, t, cmd, env).Some? {
      var r := ReceiptOf(rules, t, cmd, env).value;
      ElsewhereSame(t, t', r.output, n);
      ReceiptStandsForBuild(rules, t, cmd, env, r, t', cmd, env);
    } else if ReceiptOf(rules, t', cmd, env).Some? {
      var r := ReceiptOf(rules, t', cmd, env).value;
      ElsewhereSame(t', t, r.output, n);
      ReceiptStandsForBuild(rules, t', cmd, env, r, t, cmd, env);
    }
  }

  /** Nothing but the entry `n` of `node_modules` differs. */
  ghost predicate SameElsewhere(t: Node, t': Node, n: Name) {
    forall q | !(Modules + [n] <= q) :: StatAt(t', q) == StatAt(t, q)
  }

  lemma OutsideModules(t: Node, t': Node, n: Name, q: Path)
    requires SameElsewhere(t, t', n) && (q == [] || q[0] != "node_modules")
    ensures StatAt(t', q) == StatAt(t, q)
  {
    assert (Modules + [n])[0] == "node_modules";
  }

  lemma OtherModule(t: Node, t': Node, n: Name, p: Path)
    requires SameElsewhere(t, t', n) && |p| > 1 && p[1] != n
    ensures StatAt(t', p) == StatAt(t, p)
  {
    assert (Modules + [n])[1] == n;
  }

  lemma ElsewhereDeps(t: Node, t': Node, n: Name)
    requires !DependedOn(n) && SameElsewhere(t, t', n) && DepsReadable(t)
    ensures DepsReadable(t') && forall p | p in DepPaths() :: DataAt(t, p) == DataAt(t', p)
  {
    assert StatAt(t', Modules) == StatAt(t, Modules);
    hide SameElsewhere;
    forall x: Name | x in DepFiles || x in Tools
      ensures StatAt(t', Modules + [x]) == StatAt(t, Modules + [x])
      ensures StatAt(t', Modules + [x, "package.json"]) == StatAt(t, Modules + [x, "package.json"])
    {
      OtherModule(t, t', n, Modules + [x]);
      OtherModule(t, t', n, Modules + [x, "package.json"]);
    }
    forall p | p in DepPaths() ensures DataAt(t, p) == DataAt(t', p) {
      DepPathCases(p);
      hide StatAt;
    }
  }

  lemma DepPathCases(p: Path)
    requires p in DepPaths()
    ensures exists x :: (x in DepFiles && p == Modules + [x]) || (x in Tools && p == Modules + [x, "package.json"])
  {
  }

  lemma ElsewhereInputs(t: Node, t': Node, output: Name, n: Name, q: Path)
    requires SameElsewhere(t, t', n)
    ensures SeenAt(t, InputSkip(output), q) == SeenAt(t', InputSkip(output), q)
  {
    if q != [] && q[0] == "node_modules" {
      if SeenAt(t, InputSkip(output), q) != Nothing { InputsOutsideModules(t, output, q); }
      if SeenAt(t', InputSkip(output), q) != Nothing { InputsOutsideModules(t', output, q); }
    } else {
      OutsideModules(t, t', n, q);
    }
  }

  lemma ElsewhereSame(t: Node, t': Node, output: Name, n: Name)
    requires !DependedOn(n) && t'.Dir? && output in Outputs && SameElsewhere(t, t', n)
    requires ConfigsAreFiles(t) && DepsReadable(t)
    ensures SameBuild(t, t', output)
  {
    ElsewhereDeps(t, t', n);
    hide DepsReadable, DepPaths, DependedOn;
    forall q ensures SeenAt(t, InputSkip(output), q) == SeenAt(t', InputSkip(output), q) {
      ElsewhereInputs(t, t', output, n, q);
    }
    forall x ensures x in EntriesOf(t') && IsConfig(x) ==> EntriesOf(t')[x].File? {
      if x == "node_modules" {
        ModulesIsNoConfig();
      } else {
        LookupOne(t, x);
        LookupOne(t', x);
        OutsideModules(t, t', n, [x]);
      }
    }
    forall q ensures FormAt(t, [output] + q) == FormAt(t', [output] + q) {
      OutsideModules(t, t', n, [output] + q);
    }
  }

  lemma ModulesIsNoConfig()
    ensures !IsConfig("node_modules")
  {
    if IsConfig("node_modules") { ConfigIsInput("dist", "node_modules"); }
  }

  /** An empty directory that is named like a configuration file spoils the build, although nothing the build reads,
      none of its dependencies and nothing in its output has changed. */
  lemma ConfigDirectoryMisses(rules: Rules, t: Node, cmd: string, env: Env, r: Receipt, n: Name)
    requires ReceiptOf(rules, t, cmd, env) == Some(r) && IsConfig(n) && n !in EntriesOf(t)
    ensures t.Dir? && StatAt(t, []) == IsDir
    ensures var t' := Put(t, [], n, Some(Dir(map[])));
            && (forall q :: SeenAt(t, InputSkip(r.output), q) == SeenAt(t', InputSkip(r.output), q))
            && (forall p | p in DepPaths() :: DataAt(t, p) == DataAt(t', p))
            && (forall q :: FormAt(t, [r.output] + q) == FormAt(t', [r.output] + q))
            && ReceiptOf(rules, t', cmd, env).None?
  {
    ReceiptParts(rules, t, cmd, env, r);
    var t' := Put(t, [], n, Some(Dir(map[])));
    forall q
      ensures StatAt(t', q) == (if q == [n] then IsDir else StatAt(t, q)) && (q == [n] ==> StatAt(t, q) == Missing)
    {
      EmptyDirAdded(t, n, q);
    }
    assert AddsDir(t, t', n);
    ConfigDirectorySpoils(rules, t', cmd, env, n);
    hide *;
    forall q ensures SeenAt(t, InputSkip(r.output), q) == SeenAt(t', InputSkip(r.output), q) {
      SeenDespite(t, t', n, r.output, q);
    }
    forall p | p in DepPaths() ensures DataAt(t, p) == DataAt(t', p) { DataDespite(t, t', n, p); }
    forall q ensures FormAt(t, [r.output] + q) == FormAt(t', [r.output] + q) { FormDespite(t, t', n, r.output, q); }
  }

  /** `t'` is `t` with a new directory at its root. */
  ghost predicate AddsDir(t: Node, t': Node, n: Name) {
    StatAt(t, [n]) == Missing && forall q :: StatAt(t', q) == if q == [n] then IsDir else StatAt(t, q)
  }

  lemma SeenDespite(t: Node, t': Node, n: Name, output: Name, q: Path)
    requires AddsDir(t, t', n)
    ensures SeenAt(t, InputSkip(output), q) == SeenAt(t', InputSkip(output), q)
  {
    hide Visited;
  }

  lemma DataDespite(t: Node, t': Node, n: Name, p: Path)
    requires AddsDir(t, t', n) && p in DepPaths()
    ensures DataAt(t, p) == DataAt(t', p)
  {
    DepsUnderModules(p);
    hide DepPaths;
  }

  lemma FormDespite(t: Node, t': Node, n: Name, output: Name, q: Path)
    requires AddsDir(t, t', n) && output in Outputs && IsConfig(n)
    ensures FormAt(t, [output] + q) == FormAt(t', [output] + q)
  {
    OutputIsNoConfig(output, n, q);
  }

  lemma EmptyDirAdded(t: Node, n: Name, q: Path)
    requires t.Dir? && n !in t.entries
    ensures StatAt(t, []) == IsDir
    ensures StatAt(Put(t, [], n, Some(Dir(map[]))), q) == if q == [n] then IsDir else StatAt(t, q)
    ensures [n] <= q ==> StatAt(t, q) == Missing
  {
    StatPut(t, [], n, Some(Dir(map[])), q);
    assert [] + [n] == [n];
  }

  lemma OutputIsNoConfig(output: Name, n: Name, q: Path)
    requires output in Outputs && IsConfig(n)
    ensures [output] + q != [n]
  {
    ConfigIsInput(output, n);
    OutputIsSkipped(output);
    hide *;
    assert ([output] + q)[0] == output && [n][0] == n;
  }

  lemma OutputIsSkipped(output: Name)
    ensures !Visited(InputSkip(output), [output])
  {
    var p := [output];
    assert p <= p && Skipped(InputSkip(output), p);
  }

  lemma ConfigDirectorySpoils(rules: Rules, t: Node, cmd: string, env: Env, n: Name)
    requires IsConfig(n) && StatAt(t, [n]) == IsDir
    ensures ReceiptOf(rules, t, cmd, env).None?
  {
    LookupOne(t, n);
    assert !ConfigsAreFiles(t);
    hide IsManifest, SeenAt, ManifestOf, OutputManifest;
  }

  // ---- builds, told over the tree ------------------------------------------------------------------------

  ghost predicate NamedConfig(n: Name) { exists a, b :: n == a + ".config." + b }

  /** What the build reads: all but Git, the dependencies, the output and what belongs to the runner. */
  ghost predicate IsInput(output: Name, q: Path) {
    q != [] && q[0] != ".git" && q[0] != "node_modules" && q[0] != output && !SourceView.RunnerOwned(q)
  }

  lemma SkippedAt(output: Name, q: Path, k: int)
    requires 0 < k <= |q|
    ensures Skipped(InputSkip(output), q[..k]) <==>
            SourceView.InternalAt(q, k) || (k == 1 && q[0] in {".git", "node_modules", output})
  {
    hide TreeWalk.InternalOutput;
    var p := q[..k];
    assert p[0] == q[0];
    assert |p| == 1 ==> p == [p[0]];
  }

  lemma InputIff(output: Name, q: Path)
    ensures Visited(InputSkip(output), q) <==> IsInput(output, q)
  {
    if q != [] {
      SourceView.RunnerOwnedIff(q);
      hide SourceView.RunnerOwned, TreeWalk.InternalOutput, Skipped, InputSkip, SourceView.InternalAt;
      VisitedSteps(InputSkip(output), q);
      hide Visited;
      forall k | 0 < k <= |q| { SkippedAt(output, q, k); }
      NotBeyond(q);
      assert 0 < 1 <= |q| && q[0] in {".git", "node_modules", output} ==> Skipped(InputSkip(output), q[..1]);
    }
  }

  lemma NotBeyond(q: Path)
    ensures forall k | SourceView.InternalAt(q, k) :: 0 < k <= |q|
  {
  }

  lemma VisitedSteps(skip: Option<set<Path>>, q: Path)
    requires q != []
    ensures Visited(skip, q) <==> forall k | 0 < k <= |q| :: !Skipped(skip, q[..k])
  {
    hide Skipped;
    assert forall p: Path | p <= q && p != [] :: p == q[..|p|];
    forall k | 0 < k <= |q| ensures q[..k] <= q && q[..k] != [] { }
  }

  ghost predicate HasText(t: Node, p: Path) { StatAt(t, p).IsFile? && |StatAt(t, p).data| > 0 }

  ghost predicate HasFileUnder(t: Node, d: Path) { exists q :: d < q && StatAt(t, q).IsFile? }

  /** The output of a finished build. */
  ghost predicate Finished(t: Node, output: Name) {
    || (output == "dist" && HasText(t, ["dist", "index.html"]))
    || (&& output == ".next" && HasText(t, [".next", "BUILD_ID"])
        && HasFileUnder(t, [".next", "server"]) && HasFileUnder(t, [".next", "static"]))
  }

  /** The metadata of the installed dependencies is there to be read. */
  ghost predicate Installed(t: Node) {
    && StatAt(t, ["node_modules"]) == IsDir
    && (forall n | n in {".package-lock.json", ".skyn3t-install.json", ".skyn3t-docker-install.json"} ::
          StatAt(t, ["node_modules", n]) == Missing || StatAt(t, ["node_modules", n]).IsFile?)
    && forall n | n in {"vite", "astro", "next", "typescript"} ::
         || StatAt(t, ["node_modules", n]) == Missing
         || (StatAt(t, ["node_modules", n]) == IsDir && StatAt(t, ["node_modules", n, "package.json"]).IsFile?)
  }

  /** A finished build of a recognised layout, free of aliases. */
  ghost predicate BuildStands(rules: Rules, t: Node, cmd: string, output: Name) {
    && cmd == "build" && StatAt(t, ["package.json"]).IsFile? && Installed(t)
    && (forall n | NamedConfig(n) && StatAt(t, [n]) != Missing :: StatAt(t, [n]).IsFile?)
    && rules.layout(StatAt(t, ["package.json"]).data, Configs(t)) == output
    && (forall q | IsInput(output, q) :: StatAt(t, q) != IsAlias)
    && StatAt(t, [output]) == IsDir && (forall q :: StatAt(t, [output] + q) != IsAlias) && Finished(t, output)
  }

  lemma ConfigIff(n: Name)
    ensures IsConfig(n) <==> NamedConfig(n)
  {
    Text.ContainsIff(n, ".config.");
  }

  lemma ConfigsAre(t: Node, n: Name)
    ensures n in Configs(t) <==> NamedConfig(n) && StatAt(t, [n]).IsFile?
    ensures n in Configs(t) ==> Configs(t)[n] == StatAt(t, [n]).data
  {
    ConfigIff(n);
    LookupOne(t, n);
    hide IsConfig, NamedConfig;
  }

  lemma ConfigsAreFilesIff(t: Node)
    ensures ConfigsAreFiles(t) <==> forall n | NamedConfig(n) && StatAt(t, [n]) != Missing :: StatAt(t, [n]).IsFile?
  {
    forall n ensures IsConfig(n) <==> NamedConfig(n) { ConfigIff(n); }
    hide IsConfig, NamedConfig;
    forall n ensures Lookup(t, [n]) == if n in EntriesOf(t) then Some(EntriesOf(t)[n]) else None { LookupOne(t, n); }
  }

  lemma InstalledIff(t: Node)
    ensures DepsReadable(t) <==> Installed(t)
  {
    assert Modules == ["node_modules"];
    forall n ensures Modules + [n] == ["node_modules", n] { }
    forall n ensures Modules + [n, "package.json"] == ["node_modules", n, "package.json"] { }
  }

  lemma InputsFreeOfAliases(t: Node, output: Name)
    requires t.Dir?
    ensures ManifestOf(t, InputSkip(output)).Some? <==> forall q | IsInput(output, q) :: StatAt(t, q) != IsAlias
  {
    forall q ensures Visited(InputSkip(output), q) <==> IsInput(output, q) { InputIff(output, q); }
    hide Visited, IsInput, StatAt;
    assert forall q :: SeenAt(t, InputSkip(output), q) == Unsafe <==> IsInput(output, q) && StatAt(t, q) == IsAlias;
  }

  lemma OutputFreeOfAliases(t: Node, output: Name)
    ensures OutputManifest(t, output).Some? <==>
            StatAt(t, [output]) == IsDir && forall q :: StatAt(t, [output] + q) != IsAlias
  {
    assert [output] + [] == [output];
    var n := Lookup(t, [output]);
    if n.Some? {
      forall q | q != [] ensures SeenAt(n.value, None, q) == FormAt(t, [output] + q) { OutputForms(t, output, q); }
      assert SeenAt(n.value, None, []) == Nothing;
      hide SeenAt;
      assert forall q :: FormAt(t, [output] + q) == Unsafe <==> StatAt(t, [output] + q) == IsAlias;
    } else {
      assert StatAt(t, [output]) == Missing;
    }
  }

  lemma OutputFile(t: Node, output: Name, m: Manifest, q: Path)
    requires OutputManifest(t, output) == Some(m) && q != []
    ensures q in m && m[q].Content? <==> StatAt(t, [output] + q).IsFile?
    ensures q in m && m[q].Content? ==> m[q].data == StatAt(t, [output] + q).data
  {
    OutputForms(t, output, q);
    SeenMark(Lookup(t, [output]).value, None, q);
  }

  /** The files of the output are those of its manifest. */
  ghost predicate SameFiles(t: Node, output: Name, m: Manifest) {
    forall q: Path | q != [] ::
      && (q in m && m[q].Content? <==> StatAt(t, [output] + q).IsFile?)
      && (q in m && m[q].Content? ==> m[q].data == StatAt(t, [output] + q).data)
  }

  lemma CompleteIff(t: Node, output: Name, m: Manifest)
    requires OutputManifest(t, output) == Some(m) && output in Outputs
    ensures Complete(output, m) <==> Finished(t, output)
  {
    forall q: Path | q != []
      ensures q in m && m[q].Content? <==> StatAt(t, [output] + q).IsFile?
      ensures q in m && m[q].Content? ==> m[q].data == StatAt(t, [output] + q).data
    {
      OutputFile(t, output, m, q);
    }
    assert SameFiles(t, output, m);
    hide OutputManifest, StatAt, SameFiles, NonEmptyFile, HasText, SomeFileUnder, HasFileUnder;
    if output == ".next" {
      TextIff(t, output, m, "BUILD_ID");
      SomeFileIff(t, m, "server");
      SomeFileIff(t, m, "static");
    } else {
      TextIff(t, output, m, "index.html");
    }
  }

  lemma TextIff(t: Node, output: Name, m: Manifest, n: Name)
    requires SameFiles(t, output, m)
    ensures NonEmptyFile(m, [n]) <==> HasText(t, [output, n])
  {
    hide StatAt;
    assert [output] + [n] == [output, n];
  }

  lemma SomeFileIff(t: Node, m: Manifest, d: Name)
    requires SameFiles(t, ".next", m)
    ensures SomeFileUnder(m, d) <==> HasFileUnder(t, [".next", d])
  {
    hide StatAt;
    if p :| p in m && |p| > 1 && p[0] == d && m[p].Content? {
      var q := [".next"] + p;
      assert q[..2] == [".next", d] && [".next", d] < q && StatAt(t, q).IsFile?;
    }
    if q :| [".next", d] < q && StatAt(t, q).IsFile? {
      var p := q[1..];
      assert q == [".next"] + p && p[0] == q[1] == d && |p| > 1;
    }
  }

  lemma LayoutIff(rules: Rules, t: Node, cmd: string, output: Name)
    requires output in Outputs
    ensures ProductionOutput(rules, t, cmd) == output <==>
            && cmd == "build" && StatAt(t, ["package.json"]).IsFile?
            && (forall n | NamedConfig(n) && StatAt(t, [n]) != Missing :: StatAt(t, [n]).IsFile?)
            && rules.layout(StatAt(t, ["package.json"]).data, Configs(t)) == output
  {
    StatOfRoot(t);
    ConfigsAreFilesIff(t);
    assert output != "";
    hide ConfigsAreFiles, NamedConfig, StatAt, Configs;
  }

  /** Inputs, dependencies and output of a build can be read, and it is complete. */
  ghost predicate Ready(t: Node, output: Name) {
    && ManifestOf(t, InputSkip(output)).Some? && DepsReadable(t)
    && var m := OutputManifest(t, output); m.Some? && Complete(output, m.value)
  }

  lemma ReadyIff(t: Node, output: Name)
    requires output in Outputs && t.Dir?
    ensures Ready(t, output) <==>
            && Installed(t) && (forall q | IsInput(output, q) :: StatAt(t, q) != IsAlias)
            && StatAt(t, [output]) == IsDir && (forall q :: StatAt(t, [output] + q) != IsAlias) && Finished(t, output)
  {
    InstalledIff(t);
    InputsFreeOfAliases(t, output);
    OutputFreeOfAliases(t, output);
    var m := OutputManifest(t, output);
    if m.Some? { CompleteIff(t, output, m.value); }
    hide *;
    ReadyMeans(t, output);
  }

  lemma ReadyMeans(t: Node, output: Name)
    ensures Ready(t, output) <==>
            && ManifestOf(t, InputSkip(output)).Some? && DepsReadable(t)
            && var m := OutputManifest(t, output); m.Some? && Complete(output, m.value)
  {
  }

  lemma StandsIff(rules: Rules, t: Node, cmd: string, output: Name)
    requires output in Outputs
    ensures BuildStands(rules, t, cmd, output) <==> ProductionOutput(rules, t, cmd) == output && Ready(t, output)
  {
    LayoutIff(rules, t, cmd, output);
    StatOfRoot(t);
    if t.Dir? { ReadyIff(t, output); }
    hide Ready, ProductionOutput, Installed, Finished, IsInput, NamedConfig, StatAt, Configs;
  }

  /** There is a receipt exactly when a build stands. */
  lemma ReceiptIff(rules: Rules, t: Node, cmd: string, env: Env)
    ensures ReceiptOf(rules, t, cmd, env).Some? <==>
            exists output | output in {"dist", ".next"} :: BuildStands(rules, t, cmd, output)
  {
    var o := ProductionOutput(rules, t, cmd);
    assert o != "" ==> o in Outputs;
    hide ProductionOutput, BuildStands;
    forall output | output in Outputs { StandsIff(rules, t, cmd, output); }
    hide ManifestOf, DepsReadable, OutputManifest, Complete;
    assert ReceiptOf(rules, t, cmd, env).Some? <==> o != "" && Ready(t, o);
    assert "" !in Outputs;
  }

  /** A build stands, and no directory is in the place of the stamp. */
  ghost predicate Markable(rules: Rules, t: Node, cmd: string) {
    && (exists output | output in {"dist", ".next"} :: BuildStands(rules, t, cmd, output))
    && StatAt(t, ["node_modules", ".skyn3t-build.json"]) != IsDir
  }

  lemma MarkableIff(rules: Rules, t: Node, cmd: string, env: Env)
    ensures Markable(rules, t, cmd) <==>
            ReceiptOf(rules, t, cmd, env).Some? && !StatAt(t, Modules + [StampName]).IsDir?
  {
    assert Modules + [StampName] == ["node_modules", ".skyn3t-build.json"];
    hide ReceiptOf, BuildStands;
    ReceiptIff(rules, t, cmd, env);
  }

  ghost predicate SameFile(t: Node, t': Node, p: Path) {
    && (StatAt(t, p).IsFile? <==> StatAt(t', p).IsFile?)
    && (StatAt(t, p).IsFile? ==> StatAt(t, p).data == StatAt(t', p).data)
  }

  ghost predicate SameKind(t: Node, t': Node, p: Path) {
    && SameFile(t, t', p) && (StatAt(t, p) == IsAlias <==> StatAt(t', p) == IsAlias)
    && (StatAt(t, p) == IsDir <==> StatAt(t', p) == IsDir)
  }

  /** Nothing a build depends on has changed, nor what came out of it: the files it reads, the metadata of the installed
      dependencies, and the whole output tree, empty directories included. */
  ghost predicate Unchanged(t: Node, t': Node, output: Name) {
    && Installed(t') && (forall n | NamedConfig(n) && StatAt(t', [n]) != Missing :: StatAt(t', [n]).IsFile?)
    && (forall q | IsInput(output, q) ::
          SameFile(t, t', q) && (StatAt(t, q) == IsAlias <==> StatAt(t', q) == IsAlias))
    && (forall n | n in {".package-lock.json", ".skyn3t-install.json", ".skyn3t-docker-install.json"} ::
          SameFile(t, t', ["node_modules", n]))
    && (forall n | n in {"vite", "astro", "next", "typescript"} ::
          SameFile(t, t', ["node_modules", n, "package.json"]))
    && forall q :: SameKind(t, t', [output] + q)
  }

  lemma SeenSame(t: Node, t': Node, output: Name, q: Path)
    ensures SeenAt(t, InputSkip(output), q) == SeenAt(t', InputSkip(output), q) <==>
            (IsInput(output, q) ==> SameFile(t, t', q) && (StatAt(t, q) == IsAlias <==> StatAt(t', q) == IsAlias))
  {
    InputIff(output, q);
    hide Visited, IsInput, StatAt;
  }

  lemma FormSame(t: Node, t': Node, p: Path)
    ensures FormAt(t, p) == FormAt(t', p) <==> SameKind(t, t', p)
    ensures DataAt(t, p) == DataAt(t', p) <==> SameFile(t, t', p)
  {
    hide StatAt;
  }

  lemma DepsSame(t: Node, t': Node)
    ensures (forall p | p in DepPaths() :: DataAt(t, p) == DataAt(t', p)) <==>
            && (forall n | n in {".package-lock.json", ".skyn3t-install.json", ".skyn3t-docker-install.json"} ::
                  SameFile(t, t', ["node_modules", n]))
            && forall n | n in {"vite", "astro", "next", "typescript"} ::
                 SameFile(t, t', ["node_modules", n, "package.json"])
  {
    forall p ensures DataAt(t, p) == DataAt(t', p) <==> SameFile(t, t', p) { FormSame(t, t', p); }
    hide DataAt, SameFile;
    assert Modules == ["node_modules"];
    forall n ensures Modules + [n] == ["node_modules", n] { }
    forall n ensures Modules + [n, "package.json"] == ["node_modules", n, "package.json"] { }
  }

  lemma SameBuildIff(t: Node, t': Node, output: Name)
    ensures SameBuild(t, t', output) <==> Unchanged(t, t', output)
  {
    InstalledIff(t');
    ConfigsAreFilesIff(t');
    DepsSame(t, t');
    forall q { SeenSame(t, t', output, q); }
    forall q { FormSame(t, t', [output] + q); }
    if Installed(t') { assert t'.Dir?; }
    hide SeenAt, FormAt, DataAt, DepPaths, DepsReadable, Installed, NamedConfig, ConfigsAreFiles, IsInput, SameFile;
    hide SameKind, StatAt, InputSkip;
  }

  lemma StatOfRoot(t: Node)
    ensures StatAt(t, ["package.json"]).IsFile? ==> t.Dir?
  {
  }

  // ---- the stamp -----------------------------------------------------------------------------------------

  /** How a receipt is written to the stamp file and read back. */
  datatype Codec = Codec(dumps: Receipt -> string, loads: string -> Option<Receipt>) {
    ghost predicate RoundTrips() { forall r: Receipt :: loads(dumps(r)) == Some(r) }
  }

  function StampOf(t: Node): Option<string> { DataAt(t, Modules + [StampName]) }

  /** What `npm_build_current` decides. */
  ghost predicate IsCurrent(rules: Rules, codec: Codec, t: Node, cmd: string, env: Env) {
    && StatAt(t, Modules).IsDir? && StampOf(t).Some?
    && codec.loads(StampOf(t).value).Some? && ReceiptOf(rules, t, cmd, env) == codec.loads(StampOf(t).value)
  }

  /** With the stamp of an earlier build in place, a build is current exactly when nothing it depends on has changed. */
  lemma CurrentIffSameBuild(rules: Rules, codec: Codec, t: Node, cmd: string, env: Env, r: Receipt,
                            t': Node, cmd': string, env': Env)
    requires codec.RoundTrips() && ReceiptOf(rules, t, cmd, env) == Some(r) && StampOf(t') == Some(codec.dumps(r))
    ensures IsCurrent(rules, codec, t', cmd', env') <==> cmd' == cmd && env' == env && Unchanged(t, t', r.output)
  {
    SameBuildIff(t, t', r.output);
    ReceiptStandsForBuild(rules, t, cmd, env, r, t', cmd', env');
    assert codec.loads(codec.dumps(r)) == Some(r);
    hide ReceiptOf, SameBuild, Unchanged;
    ParentsAreDirs(t', Modules, [StampName]);
  }

  /** An entry of `node_modules` is written or removed. */
  lemma SetStep(rules: Rules, t: Node, n: Name, x: Option<Node>, cmd: string, env: Env)
    requires t.Dir? && StatAt(t, Modules).IsDir? && !DependedOn(n)
    ensures var t' := Put(t, Modules, n, x);
            && StatAt(t', Modules).IsDir? && SameElsewhere(t, t', n) && StatAt(t', Modules + [n]) == StatOf(x)
            && (n != StampName ==> StampOf(t') == StampOf(t))
            && ReceiptOf(rules, t', cmd, env) == ReceiptOf(rules, t, cmd, env)
  {
    var t' := Put(t, Modules, n, x);
    forall q ensures !(Modules + [n] <= q) ==> StatAt(t', q) == StatAt(t, q) { StatPut(t, Modules, n, x, q); }
    StatPut(t, Modules, n, x, Modules + [n]);
    assert (Modules + [n])[|Modules| + 1..] == [];
    assert StatAt(t', Modules) == StatAt(t, Modules);
    if n != StampName { OtherModule(t, t', n, Modules + [StampName]); }
    hide ReceiptOf;
    Undisturbed(rules, t, t', cmd, env, n);
  }

  /** The stamp is absent, or it is the receipt of the very tree it is in. */
  ghost predicate Honest(rules: Rules, codec: Codec, t: Node, cmd: string, env: Env) {
    StampOf(t).None? || exists r :: ReceiptOf(rules, t, cmd, env) == Some(r) && StampOf(t) == Some(codec.dumps(r))
  }

  lemma StampIsNoDependency()
    ensures !DependedOn(StampName)
  {
  }

  class Project {
    const rules: Rules
    const codec: Codec
    var tree: Node
    /** Every tree that others can see, up to now. */
    ghost var trail: seq<Node>

    ghost predicate Valid() reads this { trail != [] && trail[|trail| - 1] == tree }

    constructor (rules: Rules, codec: Codec, tree: Node)
      ensures this.rules == rules && this.codec == codec && this.tree == tree && trail == [tree] && Valid()
    {
      this.rules, this.codec, this.tree, trail := rules, codec, tree, [tree];
    }

    /** `npm_build_current` */
    method Current(cmd: string, env: Env) returns (current: bool)
      ensures current <==> IsCurrent(rules, codec, tree, cmd, env)
    {
      hide ReceiptOf;
      if !StatAt(tree, Modules).IsDir? || StampOf(tree).None? { return false; }
      var stored := codec.loads(StampOf(tree).value);
      if stored.None? { return false; }
      var now := BuildReceipt(rules, tree, cmd, env);
      current := now.Some? && stored == now;
    }

    /** One visible change in `node_modules`. */
    method Set(n: Name, x: Option<Node>, ghost cmd: string, ghost env: Env)
      requires Valid() && tree.Dir? && StatAt(tree, Modules).IsDir? && !DependedOn(n)
      modifies this
      ensures Valid()
      ensures tree == Put(old(tree), Modules, n, x) && trail == old(trail) + [tree]
      ensures StatAt(tree, Modules).IsDir? && SameElsewhere(old(tree), tree, n)
      ensures StatAt(tree, Modules + [n]) == StatOf(x)
      ensures n != StampName ==> StampOf(tree) == StampOf(old(tree))
      ensures ReceiptOf(rules, tree, cmd, env) == ReceiptOf(rules, old(tree), cmd, env)
    {
      SetStep(rules, tree, n, x, cmd, env);
      hide ReceiptOf, SameElsewhere, StampOf;
      tree := Put(tree, Modules, n, x);
      trail := trail + [tree];
    }

    /** `invalidate_npm_build`: false when the stamp cannot be removed. */
    method Invalidate(ghost cmd: string, ghost env: Env) returns (done: bool)
      requires Valid() && tree.Dir?
      modifies this
      ensures Valid()
      ensures done <==> StatAt(old(tree), Modules).Missing?
                        || (StatAt(old(tree), Modules).IsDir? && !StatAt(old(tree), Modules + [StampName]).IsDir?)
      ensures done ==> StatAt(tree, Modules + [StampName]).Missing? && StampOf(tree).None?
      ensures !done ==> tree == old(tree) && StampOf(tree).None?
      ensures tree.Dir? && (trail == old(trail) || trail == old(trail) + [tree])
      ensures StatAt(tree, Modules) == StatAt(old(tree), Modules)
      ensures SameElsewhere(old(tree), tree, StampName)
      ensures ReceiptOf(rules, tree, cmd, env) == ReceiptOf(rules, old(tree), cmd, env)
    {
      hide ReceiptOf;
      StampIsNoDependency();
      LookupSplit(tree, Modules, [StampName]);
      done := StatAt(tree, Modules).Missing?;
      if StatAt(tree, Modules).IsDir? && !StatAt(tree, Modules + [StampName]).IsDir? {
        if !StatAt(tree, Modules + [StampName]).Missing? {
          Set(StampName, None, cmd, env);
        }
        done := true;
      }
    }

    /** Writes the stamp: `temporary` is a fresh name, and `cut` says how much of the text the first write gets down.
        At every moment the stamp is absent or complete. */
    method Publish(r: Receipt, temporary: Name, cut: nat, ghost cmd: string, ghost env: Env)
      requires Valid() && tree.Dir? && StatAt(tree, Modules).IsDir? && ReceiptOf(rules, tree, cmd, env) == Some(r)
      requires StampOf(tree).None? && !DependedOn(temporary) && temporary != StampName
      requires StatAt(tree, Modules + [temporary]).Missing?
      modifies this
      ensures Valid()
      ensures StampOf(tree) == Some(codec.dumps(r)) && ReceiptOf(rules, tree, cmd, env) == Some(r)
      ensures SameElsewhere(old(tree), tree, StampName) && tree.Dir?
      ensures old(trail) <= trail
      ensures forall i | |old(trail)| <= i < |trail| :: Honest(rules, codec, trail[i], cmd, env)
    {
      hide ReceiptOf, DependedOn, Honest;
      ghost var t0 := tree;
      var text := codec.dumps(r);
      WriteTemporary(text, temporary, cut, cmd, env);
      ghost var written := tree;
      Replace(text, temporary, cmd, env);
      OnlyTheStamp(t0, written, temporary, Some(File(text, 0x180)));
      HonestStamp(rules, codec, tree, cmd, env, r);
    }

    /** Writes the temporary file, in pieces. */
    method WriteTemporary(text: string, temporary: Name, cut: nat, ghost cmd: string, ghost env: Env)
      requires Valid() && tree.Dir? && StatAt(tree, Modules).IsDir? && StampOf(tree).None?
      requires !DependedOn(temporary) && temporary != StampName
      modifies this
      ensures Valid() && tree.Dir? && StatAt(tree, Modules).IsDir? && StampOf(tree).None?
      ensures ReceiptOf(rules, tree, cmd, env) == ReceiptOf(rules, old(tree), cmd, env)
      ensures SameElsewhere(old(tree), tree, temporary) && old(trail) <= trail
      ensures StatAt(tree, Modules + [temporary]) == IsFile(text, 0x180)
      ensures forall i | |old(trail)| <= i < |trail| :: Honest(rules, codec, trail[i], cmd, env)
    {
      hide ReceiptOf, DependedOn;
      Set(temporary, Some(File("", 0x180)), cmd, env);
      Set(temporary, Some(File(text[..if cut < |text| then cut else |text|], 0x180)), cmd, env);
      Set(temporary, Some(File(text, 0x180)), cmd, env);
    }

    /** `os.replace`: the temporary file becomes the stamp, in one visible change. */
    method Replace(ghost text: string, temporary: Name, ghost cmd: string, ghost env: Env)
      requires Valid() && tree.Dir? && StatAt(tree, Modules).IsDir? && !DependedOn(temporary) && temporary != StampName
      requires StatAt(tree, Modules + [temporary]) == IsFile(text, 0x180)
      modifies this
      ensures Valid() && trail == old(trail) + [tree]
      ensures StatAt(Put(old(tree), Modules, temporary, None), Modules).IsDir?
      ensures tree == Put(Put(old(tree), Modules, temporary, None), Modules, StampName, Some(File(text, 0x180)))
      ensures StampOf(tree) == Some(text) && ReceiptOf(rules, tree, cmd, env) == ReceiptOf(rules, old(tree), cmd, env)
    {
      hide ReceiptOf, DependedOn;
      StampIsNoDependency();
      FileInModules(tree, temporary, text);
      var moved := EntriesAt(tree, Modules)[temporary];
      SetStep(rules, tree, temporary, None, cmd, env);
      SetStep(rules, Put(tree, Modules, temporary, None), StampName, Some(moved), cmd, env);
      tree := Put(Put(tree, Modules, temporary, None), Modules, StampName, Some(moved));
      trail := trail + [tree];
    }

    /** `mark_npm_build_current` */
    method Mark(cmd: string, env: Env, temporary: Name, cut: nat) returns (marked: bool)
      requires Valid() && tree.Dir? && !DependedOn(temporary) && temporary != StampName
      requires StatAt(tree, Modules + [temporary]).Missing?
      modifies this
      ensures Valid()
      ensures marked <==>
                ReceiptOf(rules, old(tree), cmd, env).Some? && !StatAt(old(tree), Modules + [StampName]).IsDir?
      ensures marked <==> Markable(rules, old(tree), cmd)
      ensures marked ==> StampOf(tree) == Some(codec.dumps(ReceiptOf(rules, old(tree), cmd, env).value))
      ensures !marked ==> StampOf(tree).None?
      ensures SameElsewhere(old(tree), tree, StampName)
      ensures old(trail) <= trail
      ensures forall i | |old(trail)| <= i < |trail| :: Honest(rules, codec, trail[i], cmd, env)
    {
      ReceiptNeedsModules(rules, tree, cmd, env);
      MarkableIff(rules, tree, cmd, env);
      hide ReceiptOf, Markable;
      ghost var t0 := tree;
      marked := false;
      var done := Invalidate(cmd, env);
      if !done { return; }
      OtherModule(t0, tree, StampName, Modules + [temporary]);
      var r := BuildReceipt(rules, tree, cmd, env);
      if r.None? { return; }
      ghost var t1 := tree;
      Publish(r.value, temporary, cut, cmd, env);
      marked := true;
    }
  }

  lemma FileInModules(t: Node, n: Name, text: string)
    requires StatAt(t, Modules).IsDir? && StatAt(t, Modules + [n]) == IsFile(text, 0x180)
    ensures n in EntriesAt(t, Modules) && EntriesAt(t, Modules)[n] == File(text, 0x180)
  {
    LookupSplit(t, Modules, [n]);
    LookupOne(Lookup(t, Modules).value, n);
  }

  lemma HonestStamp(rules: Rules, codec: Codec, t: Node, cmd: string, env: Env, r: Receipt)
    requires ReceiptOf(rules, t, cmd, env) == Some(r) && StampOf(t) == Some(codec.dumps(r))
    ensures Honest(rules, codec, t, cmd, env)
  {
  }

  lemma ReceiptNeedsModules(rules: Rules, t: Node, cmd: string, env: Env)
    ensures ReceiptOf(rules, t, cmd, env).Some? ==> StatAt(t, Modules).IsDir?
  {
  }

  lemma BelowMissing(t: Node, p: Path, q: Path)
    requires p <= q && StatAt(t, p).Missing?
    ensures StatAt(t, q).Missing?
  {
    assert q == p + q[|p|..];
    LookupSplit(t, p, q[|p|..]);
  }

  lemma OnlyTheStamp(t0: Node, written: Node, temporary: Name, x: Option<Node>)
    requires temporary != StampName && StatAt(t0, Modules + [temporary]).Missing?
    requires SameElsewhere(t0, written, temporary) && StatAt(written, Modules).IsDir?
    requires StatAt(Put(written, Modules, temporary, None), Modules).IsDir?
    ensures SameElsewhere(t0, Put(Put(written, Modules, temporary, None), Modules, StampName, x), StampName)
  {
    var a := Put(written, Modules, temporary, None);
    forall q | !(Modules + [StampName] <= q) ensures StatAt(Put(a, Modules, StampName, x), q) == StatAt(t0, q) {
      StatPut(a, Modules, StampName, x, q);
      StatPut(written, Modules, temporary, None, q);
      if Modules + [temporary] <= q { BelowMissing(t0, Modules + [temporary], q); }
    }
  }
}
