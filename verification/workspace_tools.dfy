/** `_run_tool`: the tools that a model may call on a project's text files.  Paths are resolved paths. */
module WorkspaceTools {
  import opened Options
  import opened Json
  import opened ToolCalls
  import CrlfEdit
  import Text

  type Path = string
  type Body = string
  type Files = map<Path, Body>

  /** `confine` resolves a path a model names, unless it escapes the project or is the project's root. */
  datatype Rules = Rules(confine: string -> Option<Path>, allowed: Option<set<Path>>, binary: Path -> bool,
                         rc: Receipts) {
    predicate Permits(p: Path) { (allowed.None? || p in allowed.value) && !binary(p) }
  }

  function BodyAt(files: Files, p: Path): Option<Body> { if p in files then Some(files[p]) else None }

  /** The file holds the text, up to line ends. */
  ghost predicate Durable(files: Files, p: Path, body: Body) {
    p in files && (files[p] == body || Text.Universal(files[p]) == body)
  }

  /** Text mode is decoding line ends, and then taking any CR that is left for one. */
  lemma {:induction false} UniversalDecodes(s: Body)
    ensures |Text.Universal(s)| == |CrlfEdit.Decode(s)|
    ensures forall i | 0 <= i < |Text.Universal(s)| ::
              Text.Universal(s)[i] == if CrlfEdit.Decode(s)[i] == '\r' then '\n' else CrlfEdit.Decode(s)[i]
    decreases |s|
  {
    if s == [] {
    } else if |s| >= 2 && s[0] == '\r' && s[1] == '\n' {
      UniversalDecodes(s[2..]);
    } else {
      UniversalDecodes(s[1..]);
    }
  }

  // ---- history -------------------------------------------------------------------------------------------

  datatype Change = Change(path: Path, before: Option<Body>, after: Body)

  /** A change that the tools count.  Writing a text over itself is among them only when it has a CR, which reading in
      text mode hides. */
  predicate Counted(c: Change) { c.before != Some(c.after) || '\r' in c.after }

  function Replay(files: Files, log: seq<Change>): Files {
    if log == [] then files
    else Replay(files, log[..|log| - 1])[log[|log| - 1].path := log[|log| - 1].after]
  }

  ghost predicate HistoryOf(rules: Rules, initial: Files, log: seq<Change>, files: Files) {
    && files == Replay(initial, log)
    && forall i | 0 <= i < |log| ::
         && log[i].before == BodyAt(Replay(initial, log[..i]), log[i].path)
         && Counted(log[i]) && rules.Permits(log[i].path)
  }

  lemma HistorySnoc(rules: Rules, initial: Files, log: seq<Change>, files: Files, p: Path, body: Body)
    requires HistoryOf(rules, initial, log, files)
    requires rules.Permits(p) && Counted(Change(p, BodyAt(files, p), body))
    ensures HistoryOf(rules, initial, log + [Change(p, BodyAt(files, p), body)], files[p := body])
  {
    var l := log + [Change(p, BodyAt(files, p), body)];
    assert l[..|log|] == log;
    forall i | 0 <= i < |l|
      ensures l[i].before == BodyAt(Replay(initial, l[..i]), l[i].path) && Counted(l[i]) && rules.Permits(l[i].path)
    {
      if i < |log| { assert l[..i] == log[..i]; }
    }
  }

  /** A counted change changes the project, unless it writes a text with a CR over itself. */
  lemma CountedChangeIsReal(rules: Rules, initial: Files, log: seq<Change>, files: Files, i: nat)
    requires HistoryOf(rules, initial, log, files) && i < |log|
    ensures var before, after := Replay(initial, log[..i]), Replay(initial, log[..i + 1]);
            && (after == before <==> log[i].before == Some(log[i].after))
            && (after == before ==> '\r' in log[i].after)
            && (forall p | !rules.Permits(p) :: BodyAt(after, p) == BodyAt(before, p))
  {
    assert log[..i + 1][..i] == log[..i];
    var before, after := Replay(initial, log[..i]), Replay(initial, log[..i + 1]);
    assert after == before[log[i].path := log[i].after];
    if after == before { assert before[log[i].path] == log[i].after; }
  }

  /** A session may count a change without changing anything: it writes a text with a CR over itself. */
  lemma CountedWithoutChange(rules: Rules, p: Path)
    requires rules.Permits(p)
    ensures var files: Files, c := map[p := "\r"], Change(p, Some("\r"), "\r");
            HistoryOf(rules, files, [c], files) && Replay(files, [c]) == files
  {
    var files: Files, c := map[p := "\r"], Change(p, Some("\r"), "\r");
    assert [c][..0] == [];
    assert Replay(files, [c]) == files[p := "\r"] == files;
  }

  // ---- batches -------------------------------------------------------------------------------------------

  datatype Target = Target(path: Path, body: Body)

  predicate DistinctTargets(ts: seq<Target>) { forall i, j | 0 <= i < j < |ts| :: ts[i].path != ts[j].path }

  function WriteAll(files: Files, ts: seq<Target>): Files {
    if ts == [] then files else WriteAll(files, ts[..|ts| - 1])[ts[|ts| - 1].path := ts[|ts| - 1].body]
  }

  lemma {:induction false} WriteAllAt(files: Files, ts: seq<Target>)
    requires DistinctTargets(ts)
    ensures forall t | t in ts :: BodyAt(WriteAll(files, ts), t.path) == Some(t.body)
    ensures forall p | (forall t | t in ts :: t.path != p) :: BodyAt(WriteAll(files, ts), p) == BodyAt(files, p)
  {
    if ts != [] {
      var init, t := ts[..|ts| - 1], ts[|ts| - 1];
      assert ts == init + [t];
      WriteAllAt(files, init);
    }
  }

  /** The files of a batch, resolved; None when one of them escapes. */
  ghost predicate Resolves(rules: Rules, items: seq<Json>, ts: seq<Target>)
    requires FilesOk(items)
  {
    |ts| == |items| && forall i | 0 <= i < |items| && FileItemOk(items[i]) ::
      && rules.confine(Get(items[i].fields, "path").s) == Some(ts[i].path)
      && ts[i].body == Get(items[i].fields, "content").s
      && !IsReceipt(items[i].fields, rules.rc)
  }

  predicate AllPermitted(rules: Rules, ts: seq<Target>) { forall i | 0 <= i < |ts| :: rules.Permits(ts[i].path) }

  /** Every permitted file of the batch holds its text. */
  ghost predicate Landed(rules: Rules, ts: seq<Target>, files: Files) {
    forall i | 0 <= i < |ts| && rules.Permits(ts[i].path) :: Durable(files, ts[i].path, ts[i].body)
  }

  /** Every permitted file of the batch reads as its text already. */
  ghost predicate InPlace(rules: Rules, ts: seq<Target>, files: Files) {
    forall i | 0 <= i < |ts| && rules.Permits(ts[i].path) :: ReadsAs(files, ts[i])
  }

  predicate ReadsAs(files: Files, t: Target) { t.path in files && Text.Universal(files[t.path]) == t.body }

  /** A write call that is fully persisted: every file in it was allowed and holds its text. */
  ghost predicate FullyPersisted(rules: Rules, name: string, args: Args, files: Files)
    requires ArgsOk(name, args)
  {
    && (name == "write_file" ==>
          exists p :: rules.confine(Get(args, "path").s) == Some(p) && Durable(files, p, Get(args, "content").s))
    && (name == "write_files" ==>
          exists ts :: Resolves(rules, Get(args, "files").items, ts) && Landed(rules, ts, files)
            && AllPermitted(rules, ts))
  }

  /** Not among the owned files, where those are given, or binary. */
  ghost predicate OutOfScope(rules: Rules, p: Path) {
    (rules.allowed.Some? && p !in rules.allowed.value) || rules.binary(p)
  }

  /** An edit is refused: for its path, as a receipt, or because the snippet does not have exactly one match. */
  ghost predicate EditRefused(rules: Rules, args: Args, files: Files)
    requires ArgsOk("edit_file", args)
  {
    var target, text := rules.confine(Get(args, "path").s), Get(args, "new_text").s;
    || target.None? || OutOfScope(rules, target.value) || target.value !in files
    || IsReceipt(args, rules.rc) || rules.rc.receiptBody(text)
    || CrlfEdit.EditText(files[target.value], Get(args, "old_text").s, text) in {CrlfEdit.NotFound, CrlfEdit.Ambiguous}
  }

  ghost predicate WriteRefused(rules: Rules, args: Args)
    requires ArgsOk("write_file", args)
  {
    var target := rules.confine(Get(args, "path").s);
    IsReceipt(args, rules.rc) || target.None? || OutOfScope(rules, target.value)
  }

  /** A batch is refused: as a receipt, when it does not resolve to distinct files, or when it may write none of
      them. */
  ghost predicate BatchRefused(rules: Rules, args: Args)
    requires ArgsOk("write_files", args)
  {
    || IsReceipt(args, rules.rc)
    || !exists ts :: Resolves(rules, Get(args, "files").items, ts) && DistinctTargets(ts) && SomePermitted(rules, ts)
  }

  /** A batch that would drop an unpersisted body: some of its files are allowed and in place, and some are not
      allowed. */
  ghost predicate QuietRefusal(rules: Rules, args: Args, files: Files)
    requires ArgsOk("write_files", args)
  {
    && !IsReceipt(args, rules.rc)
    && exists ts :: && Resolves(rules, Get(args, "files").items, ts) && DistinctTargets(ts)
                    && SomePermitted(rules, ts) && !AllPermitted(rules, ts) && InPlace(rules, ts, files)
  }

  /** What a batch leaves: a permitted file that does not read as its text yet holds it, and all other files are as they
      were. */
  ghost predicate BatchLeaves(rules: Rules, ts: seq<Target>, before: Files, after: Files) {
    && (forall i | 0 <= i < |ts| && Due(rules, ts[i], before) :: BodyAt(after, ts[i].path) == Some(ts[i].body))
    && forall p | !DueAt(rules, ts, before, p) :: BodyAt(after, p) == BodyAt(before, p)
  }

  predicate Due(rules: Rules, t: Target, files: Files) { rules.Permits(t.path) && !ReadsAs(files, t) }

  predicate DueAt(rules: Rules, ts: seq<Target>, files: Files, p: Path) {
    exists i :: 0 <= i < |ts| && Due(rules, ts[i], files) && ts[i].path == p
  }

  /** What a call that reports success leaves in the project. */
  ghost predicate Leaves(rules: Rules, name: string, args: Args, before: Files, after: Files)
    requires ArgsOk(name, args)
  {
    if name == "edit_file" then
      var p := rules.confine(Get(args, "path").s);
      p.Some? && p.value in before
      && match CrlfEdit.EditText(before[p.value], Get(args, "old_text").s, Get(args, "new_text").s)
         case Edited(t) => after == before[p.value := t]
         case _ => after == before
    else if name == "write_file" then
      var p, body := rules.confine(Get(args, "path").s), Get(args, "content").s;
      p.Some? && after == if ReadsAs(before, Target(p.value, body)) then before else before[p.value := body]
    else if name == "write_files" then
      exists ts :: && Resolves(rules, Get(args, "files").items, ts) && DistinctTargets(ts)
                   && BatchLeaves(rules, ts, before, after)
    else after == before
  }

  ghost predicate CallRefused(rules: Rules, name: string, args: Args, files: Files)
    requires ArgsOk(name, args)
  {
    || (name == "edit_file" && EditRefused(rules, args, files)) || (name == "write_file" && WriteRefused(rules, args))
    || (name == "write_files" && BatchRefused(rules, args))
  }

  /** What a call does to the project: nothing when it is refused or no write, and otherwise what its tool leaves. */
  ghost predicate CallLeaves(rules: Rules, name: string, args: Args, before: Files, after: Files)
    requires ArgsOk(name, args)
  {
    if CallRefused(rules, name, args, before) || name !in {"edit_file", "write_file", "write_files"}
      then after == before
    else Leaves(rules, name, args, before, after)
  }

  /** What a call reports.  A write that is refused reports an error; any other says whether its text was there already,
      and a batch whether it had to leave files out. */
  ghost predicate Tells(rules: Rules, name: string, args: Args, files: Files, r: Result)
    requires ArgsOk(name, args)
  {
    if CallRefused(rules, name, args, files) then r.Error?
    else if name == "edit_file" then
      var target, path := rules.confine(Get(args, "path").s), Get(args, "path").s;
      && target.Some? && target.value in files
      && var e := CrlfEdit.EditText(files[target.value], Get(args, "old_text").s, Get(args, "new_text").s);
         r == if e.Edited? then OkEdited(path) else OkUnchanged(path)
    else if name == "write_file" then
      var target, path := rules.confine(Get(args, "path").s), Get(args, "path").s;
      && target.Some?
      && r == if ReadsAs(files, Target(target.value, Get(args, "content").s)) then OkUnchanged(path) else OkWrote(path)
    else if name == "write_files" then
      exists ts :: Resolves(rules, Get(args, "files").items, ts) && TellsBatch(rules, ts, files, r)
    else if name == "finish" then r == Ok
    else r.Error? || r.Observed?
  }

  ghost predicate TellsBatch(rules: Rules, ts: seq<Target>, files: Files, r: Result) {
    if InPlace(rules, ts, files) then r == OkUnchangedBatch
    else r.OkWroteBatch? && (r.refused == [] <==> AllPermitted(rules, ts))
  }

  /** What the calls do to the project and report, one after the other. */
  ghost predicate BatchRuns(rules: Rules, calls: seq<Parsed>, results: seq<Result>, before: Files, after: Files)
    requires forall p | p in calls :: ArgsOk(p.call.name, p.args)
  {
    if calls == [] then results == [] && after == before
    else
      results != [] &&
      var init, p, earlier, r := calls[..|calls| - 1], calls[|calls| - 1], results[..|results| - 1],
        results[|results| - 1];
      exists between :: BatchRuns(rules, init, earlier, before, between) && Follows(rules, p, r, between, after)
  }

  ghost predicate Follows(rules: Rules, p: Parsed, r: Result, before: Files, after: Files)
    requires ArgsOk(p.call.name, p.args)
  {
    CallLeaves(rules, p.call.name, p.args, before, after) && Tells(rules, p.call.name, p.args, before, r)
  }

  lemma {:induction false} BatchHasResults(rules: Rules, calls: seq<Parsed>, results: seq<Result>, before: Files,
                                           after: Files)
    requires (forall p | p in calls :: ArgsOk(p.call.name, p.args)) && BatchRuns(rules, calls, results, before, after)
    ensures |results| == |calls|
  {
    if calls != [] {
      var init, earlier := calls[..|calls| - 1], results[..|results| - 1];
      var between :| BatchRuns(rules, init, earlier, before, between);
      BatchHasResults(rules, init, earlier, before, between);
    }
  }

  lemma BatchStarts(rules: Rules, calls: seq<Parsed>, files: Files)
    ensures calls[..0] == [] && BatchRuns(rules, [], [], files, files)
  {
  }

  lemma BatchGoesOn(rules: Rules, calls: seq<Parsed>, k: nat, results: seq<Result>, r: Result, before: Files,
                    between: Files, after: Files)
    requires k < |calls| && forall p | p in calls :: ArgsOk(p.call.name, p.args)
    requires BatchRuns(rules, calls[..k], results, before, between)
    requires Follows(rules, calls[k], r, between, after)
    ensures BatchRuns(rules, calls[..k + 1], results + [r], before, after)
  {
    hide ArgsOk, Follows;
    assert calls[..k + 1][..k] == calls[..k] && (results + [r])[..|results|] == results;
  }

  lemma CallLeavesIf(rules: Rules, name: string, args: Args, r: Result, before: Files, after: Files)
    requires ArgsOk(name, args) && Tells(rules, name, args, before, r)
    requires if r.Error? then after == before else Leaves(rules, name, args, before, after)
    ensures CallLeaves(rules, name, args, before, after)
  {
    hide EditRefused, WriteRefused, BatchRefused, Resolves;
  }

  lemma EditTells(rules: Rules, args: Args, files: Files, r: Result)
    requires ArgsOk("edit_file", args) && (r.Error? <==> EditRefused(rules, args, files))
    requires !r.Error? ==>
               var p, path := rules.confine(Get(args, "path").s).value, Get(args, "path").s;
               var e := CrlfEdit.EditText(files[p], Get(args, "old_text").s, Get(args, "new_text").s);
               r == if e.Edited? then OkEdited(path) else OkUnchanged(path)
    ensures Tells(rules, "edit_file", args, files, r)
  {
    hide WriteRefused, BatchRefused;
  }

  lemma WriteTells(rules: Rules, args: Args, files: Files, r: Result)
    requires ArgsOk("write_file", args) && (r.Error? <==> WriteRefused(rules, args))
    requires !r.Error? ==>
               var target, path := rules.confine(Get(args, "path").s).value, Get(args, "path").s;
               && r in {OkUnchanged(path), OkWrote(path)}
               && (r.OkUnchanged? <==> target in files && Text.Universal(files[target]) == Get(args, "content").s)
    ensures Tells(rules, "write_file", args, files, r)
  {
    hide EditRefused, BatchRefused;
  }

  lemma BatchTells(rules: Rules, args: Args, files: Files, r: Result)
    requires ArgsOk("write_files", args) && (r.Error? <==> BatchRefused(rules, args))
    requires !r.Error? ==>
               exists ts :: Resolves(rules, Get(args, "files").items, ts) && TellsBatch(rules, ts, files, r)
    ensures Tells(rules, "write_files", args, files, r)
  {
    hide EditRefused, WriteRefused, BatchRefused, Resolves, TellsBatch;
  }

  lemma LookTells(rules: Rules, name: string, args: Args, files: Files, r: Result)
    requires ArgsOk(name, args) && name !in {"edit_file", "write_file", "write_files"} && (r.Error? || r.Observed?)
    ensures CallLeaves(rules, name, args, files, files) && (name != "finish" ==> Tells(rules, name, args, files, r))
  {
  }

  class Workspace {
    const rules: Rules
    var files: Files
    ghost const initial: Files
    ghost var log: seq<Change>

    ghost predicate Valid() reads this { HistoryOf(rules, initial, log, files) }

    constructor (rules: Rules, files: Files)
      ensures Valid() && this.rules == rules && this.files == initial == files && log == []
    {
      this.rules, this.files, initial, log := rules, files, files, [];
    }

    method Put(p: Path, body: Body)
      requires Valid() && rules.Permits(p) && Counted(Change(p, BodyAt(files, p), body))
      modifies this
      ensures Valid() && files == old(files)[p := body]
      ensures log == old(log) + [Change(p, old(BodyAt(files, p)), body)]
    {
      HistorySnoc(rules, initial, log, files, p, body);
      log := log + [Change(p, BodyAt(files, p), body)];
      files := files[p := body];
    }

    method EditFile(args: Args) returns (r: Result, changed: nat, failed: bool)
      requires Valid() && ArgsOk("edit_file", args)
      modifies this
      ensures Valid() && old(log) <= log && |log| == |old(log)| + changed && (changed == 0 ==> files == old(files))
      ensures (failed <==> r.Error?) && (r.Error? ==> changed == 0)
      ensures r.Error? <==> EditRefused(rules, args, old(files))
      ensures !r.Error? ==>
                var p, path := rules.confine(Get(args, "path").s).value, Get(args, "path").s;
                match CrlfEdit.EditText(old(files)[p], Get(args, "old_text").s, Get(args, "new_text").s)
                case Edited(t) =>
                  r == OkEdited(path) && changed == 1 && files == old(files)[p := t] && old(files)[p] != t
                case _ => r == OkUnchanged(path) && changed == 0
      ensures !r.Error? ==> Leaves(rules, "edit_file", args, old(files), files)
    {
      r, changed, failed := Error, 0, true;
      var p, old_, new_ := rules.confine(Get(args, "path").s), Get(args, "old_text").s, Get(args, "new_text").s;
      if p.None? || !rules.Permits(p.value) || p.value !in files { return; }
      if IsReceipt(args, rules.rc) || rules.rc.receiptBody(new_) { return; }
      match CrlfEdit.EditText(files[p.value], old_, new_) {
        case NotFound => return;
        case Ambiguous => return;
        case Unchanged => return OkUnchanged(Get(args, "path").s), 0, false;
        case Edited(t) =>
          EditChanges(files[p.value], old_, new_, t);
          Put(p.value, t);
          return OkEdited(Get(args, "path").s), 1, false;
      }
    }

    method WriteFile(args: Args) returns (r: Result, changed: nat, failed: bool)
      requires Valid() && ArgsOk("write_file", args)
      modifies this
      ensures Valid() && old(log) <= log && |log| == |old(log)| + changed && (changed == 0 ==> files == old(files))
      ensures (failed <==> r.Error?) && (r.Error? ==> changed == 0)
      ensures var target, body := rules.confine(Get(args, "path").s), Get(args, "content").s;
              && (r.Error? <==> WriteRefused(rules, args))
              && (!r.Error? ==>
                    && r in {OkUnchanged(Get(args, "path").s), OkWrote(Get(args, "path").s)}
                    && (changed == 1 <==> r.OkWrote?)
                    && (r.OkUnchanged? <==>
                          target.value in old(files) && Text.Universal(old(files)[target.value]) == body)
                    && (r.OkWrote? ==> files == old(files)[target.value := body])
                    && (BodyAt(old(files), target.value) == Some(body) ==> (changed == 1 <==> '\r' in body)))
      ensures !r.Error? ==> FullyPersisted(rules, "write_file", args, files)
      ensures !r.Error? ==> Leaves(rules, "write_file", args, old(files), files)
    {
      r, changed, failed := Error, 0, true;
      var p, body := rules.confine(Get(args, "path").s), Get(args, "content").s;
      if IsReceipt(args, rules.rc) || p.None? || !rules.Permits(p.value) { return; }
      Text.UniversalFixed(body);
      if p.value in files && Text.Universal(files[p.value]) == body {
        return OkUnchanged(Get(args, "path").s), 0, false;
      }
      Put(p.value, body);
      assert Durable(files, p.value, body);
      return OkWrote(Get(args, "path").s), 1, false;
    }

    /** The files of the batch that would change. */
    method Changing(ts: seq<Target>) returns (out: seq<Target>)
      requires DistinctTargets(ts)
      ensures DistinctTargets(out)
      ensures (forall t | t in out :: t in ts && Counted(Change(t.path, BodyAt(files, t.path), t.body)))
      ensures forall t | t in ts && t !in out :: Durable(files, t.path, t.body)
      ensures forall t | t in ts :: t in out <==> !ReadsAs(files, t)
    {
      out := [];
      for i := 0 to |ts|
        invariant DistinctTargets(out) && (forall t | t in out :: t in ts[..i] && t in ts)
        invariant forall t | t in out :: Counted(Change(t.path, BodyAt(files, t.path), t.body))
        invariant forall j | 0 <= j < i && ts[j] !in out :: Durable(files, ts[j].path, ts[j].body)
        invariant forall j | 0 <= j < i :: ts[j] in out <==> !ReadsAs(files, ts[j])
      {
        if !ReadsAs(files, ts[i]) {
          Text.UniversalFixed(ts[i].body);
          forall t | t in out ensures t.path != ts[i].path { }
          out := out + [ts[i]];
        }
      }
    }

    method WriteEach(ts: seq<Target>)
      requires Valid() && DistinctTargets(ts)
      requires forall t | t in ts :: rules.Permits(t.path) && Counted(Change(t.path, BodyAt(files, t.path), t.body))
      modifies this
      ensures Valid() && old(log) <= log && |log| == |old(log)| + |ts| && files == WriteAll(old(files), ts)
    {
      hide HistoryOf;
      hide Counted;
      assert ts[..0] == [];
      for i := 0 to |ts|
        invariant Valid() && old(log) <= log && |log| == |old(log)| + i && files == WriteAll(old(files), ts[..i])
      {
        assert ts[..i + 1][..i] == ts[..i] && DistinctTargets(ts[..i]);
        WriteAllAt(old(files), ts[..i]);
        assert ts[i] in ts && forall t | t in ts[..i] :: t.path != ts[i].path;
        assert BodyAt(files, ts[i].path) == BodyAt(old(files), ts[i].path);
        Put(ts[i].path, ts[i].body);
      }
      assert ts[..|ts|] == ts;
    }

    /** The whole batch, resolved before anything is written. */
    method Resolve(items: seq<Json>) returns (ts: Option<seq<Target>>)
      requires FilesOk(items)
      ensures ts.Some? <==> exists t :: Resolves(rules, items, t) && DistinctTargets(t)
      ensures ts.Some? ==> Resolves(rules, items, ts.value) && DistinctTargets(ts.value)
    {
      var out: seq<Target> := [];
      for i := 0 to |items|
        invariant Resolves(rules, items[..i], out) && DistinctTargets(out)
      {
        assert FileItemOk(items[i]);
        var path := rules.confine(Get(items[i].fields, "path").s);
        if IsReceipt(items[i].fields, rules.rc) || path.None? || exists j :: 0 <= j < i && out[j].path == path.value {
          NoResolution(rules, items, out, i);
          return None;
        }
        out := out + [Target(path.value, Get(items[i].fields, "content").s)];
      }
      assert items[..|items|] == items;
      ts := Some(out);
    }

    /** The files of the batch that may be written; `refused` names the others. */
    method Select(ts: seq<Target>) returns (checked: seq<Target>, refused: seq<string>)
      requires DistinctTargets(ts)
      ensures DistinctTargets(checked) && (forall t | t in checked :: t in ts && rules.Permits(t.path))
      ensures forall j | 0 <= j < |ts| && rules.Permits(ts[j].path) :: ts[j] in checked
      ensures refused == [] <==> AllPermitted(rules, ts)
    {
      checked, refused := [], [];
      for i := 0 to |ts|
        invariant DistinctTargets(checked)
        invariant forall t | t in checked :: rules.Permits(t.path) && exists j :: 0 <= j < i && ts[j] == t
        invariant forall j | 0 <= j < i && rules.Permits(ts[j].path) :: ts[j] in checked
        invariant refused == [] <==> forall j | 0 <= j < i :: rules.Permits(ts[j].path)
      {
        if rules.Permits(ts[i].path) {
          checked := checked + [ts[i]];
        } else {
          refused := refused + [ts[i].path];
        }
      }
    }

    method WriteFiles(args: Args) returns (r: Result, changed: nat, failed: bool)
      requires Valid() && ArgsOk("write_files", args)
      modifies this
      ensures Valid() && old(log) <= log && |log| == |old(log)| + changed && (changed == 0 ==> files == old(files))
      ensures r.Error? || r.OkUnchangedBatch? || r.OkWroteBatch?
      ensures r.Error? ==> changed == 0 && failed
      ensures r.Error? <==> BatchRefused(rules, args)
      ensures !r.Error? ==> exists ts :: && Resolves(rules, Get(args, "files").items, ts) && DistinctTargets(ts)
                                         && Landed(rules, ts, files)
                                         && (failed <==> !AllPermitted(rules, ts))
                                         && TellsBatch(rules, ts, old(files), r)
      ensures (r.OkWroteBatch? <==> changed > 0) && (failed && Confirmed(r) ==> r == OkUnchangedBatch)
      ensures !r.Error? ==> (FullyPersisted(rules, "write_files", args, files) <==> !failed)
      ensures (Confirmed(r) && failed) <==> QuietRefusal(rules, args, old(files))
      ensures !r.Error? ==> Leaves(rules, "write_files", args, old(files), files)
    {
      r, changed, failed := Error, 0, true;
      if IsReceipt(args, rules.rc) { return; }
      QuietNeedsTargets(rules, args, files);
      hide *;
      var items := Get(args, "files").items;
      var resolved := Resolve(items);
      if resolved.None? { return; }
      var ts := resolved.value;
      var checked, refused := Select(ts);
      SelectedSome(rules, ts, checked);
      if checked == [] {
        forall t | Resolves(rules, items, t) ensures t == ts { ResolvesOneWay(rules, items, t, ts); }
        return;
      }
      var changing := Changing(checked);
      WriteEach(changing);
      BatchLanded(rules, old(files), ts, checked, changing);
      BatchLeft(rules, args, old(files), ts, checked, changing);
      changed, failed := |changing|, refused != [];
      r := if changing == [] then OkUnchangedBatch else OkWroteBatch(refused);
      PersistedIffAllPermitted(rules, args, files, ts);
      NothingChanging(rules, old(files), ts, checked, changing);
      TellsBatchIf(rules, ts, old(files), r);
      QuietIff(rules, args, old(files), ts);
      ConfirmedShape(r);
    }

    /** One tool call other than `finish`. */
    method RunTool(name: string, args: Args) returns (r: Result, changed: nat, failed: bool)
      requires Valid() && ArgsOk(name, args)
      modifies this
      ensures Valid() && old(log) <= log && |log| == |old(log)| + changed && (changed == 0 ==> files == old(files))
      ensures changed > 0 ==> name in {"edit_file", "write_file", "write_files"} && !r.Error?
      ensures name != "finish" ==> Tells(rules, name, args, old(files), r)
      ensures CallLeaves(rules, name, args, old(files), files)
      ensures name in {"write_file", "write_files"} && IsReceipt(args, rules.rc) ==> r.Error?
      ensures name in {"write_file", "write_files"} && !r.Error? ==>
                (FullyPersisted(rules, name, args, files) <==> !failed)
      ensures name in {"write_file", "write_files"} && failed && Confirmed(r) ==> r == OkUnchangedBatch && changed == 0
      ensures name == "write_file" ==> !(Confirmed(r) && failed)
      ensures name == "write_files" ==> ((Confirmed(r) && failed) <==> QuietRefusal(rules, args, old(files)))
    {
      hide *;
      r, changed, failed := Error, 0, true;
      match name {
        case "edit_file" =>
          r, changed, failed := EditFile(args);
          EditTells(rules, args, old(files), r);
          CallLeavesIf(rules, name, args, r, old(files), files);
        case "write_file" =>
          r, changed, failed := WriteFile(args);
          WriteTells(rules, args, old(files), r);
          CallLeavesIf(rules, name, args, r, old(files), files);
        case "write_files" =>
          r, changed, failed := WriteFiles(args);
          BatchTells(rules, args, old(files), r);
          CallLeavesIf(rules, name, args, r, old(files), files);
        case _ =>  // read_file and list_files only look
          var text: string := *;
          var found: bool := *;
          if found { r, failed := Observed(text), false; }
          LookTells(rules, name, args, files, r);
      }
      ConfirmedShape(r);
      if IsReceipt(args, rules.rc) { ReceiptsRefused(rules, name, args); }
    }
  }

  lemma ReceiptsRefused(rules: Rules, name: string, args: Args)
    requires ArgsOk(name, args) && IsReceipt(args, rules.rc)
    ensures name == "write_file" ==> WriteRefused(rules, args)
    ensures name == "write_files" ==> BatchRefused(rules, args)
  {
  }

  lemma QuietIff(rules: Rules, args: Args, files: Files, ts: seq<Target>)
    requires ArgsOk("write_files", args) && !IsReceipt(args, rules.rc)
    requires Resolves(rules, Get(args, "files").items, ts) && DistinctTargets(ts) && SomePermitted(rules, ts)
    ensures QuietRefusal(rules, args, files) <==> !AllPermitted(rules, ts) && InPlace(rules, ts, files)
  {
    var items := Get(args, "files").items;
    forall t | Resolves(rules, items, t) ensures t == ts { ResolvesOneWay(rules, items, t, ts); }
  }

  lemma TellsBatchIf(rules: Rules, ts: seq<Target>, files: Files, r: Result)
    requires r.OkUnchangedBatch? || r.OkWroteBatch?
    requires r.OkUnchangedBatch? <==> InPlace(rules, ts, files)
    requires r.OkWroteBatch? ==> (r.refused == [] <==> AllPermitted(rules, ts))
    ensures TellsBatch(rules, ts, files, r)
  {
  }

  lemma QuietNeedsTargets(rules: Rules, args: Args, files: Files)
    requires ArgsOk("write_files", args)
    ensures QuietRefusal(rules, args, files) ==>
              exists ts :: Resolves(rules, Get(args, "files").items, ts) && DistinctTargets(ts)
                && SomePermitted(rules, ts)
  {
  }

  lemma ConfirmedShape(r: Result)
    ensures Confirmed(r) ==> !r.Error? && (r.OkWroteBatch? ==> r.refused == [])
    ensures r.OkUnchangedBatch? || (r.OkWroteBatch? && r.refused == []) ==> Confirmed(r)
  {
  }

  lemma PersistedIffAllPermitted(rules: Rules, args: Args, files: Files, ts: seq<Target>)
    requires ArgsOk("write_files", args) && Resolves(rules, Get(args, "files").items, ts) && Landed(rules, ts, files)
    ensures FullyPersisted(rules, "write_files", args, files) <==> AllPermitted(rules, ts)
  {
    var items := Get(args, "files").items;
    forall t | Resolves(rules, items, t) ensures t == ts { ResolvesOneWay(rules, items, t, ts); }
  }

  predicate SomePermitted(rules: Rules, ts: seq<Target>) { exists i :: 0 <= i < |ts| && rules.Permits(ts[i].path) }

  lemma SelectedSome(rules: Rules, ts: seq<Target>, checked: seq<Target>)
    requires forall t | t in checked :: t in ts && rules.Permits(t.path)
    requires forall j | 0 <= j < |ts| && rules.Permits(ts[j].path) :: ts[j] in checked
    ensures checked != [] <==> SomePermitted(rules, ts)
  {
    if checked != [] { assert checked[0] in ts && rules.Permits(checked[0].path); }
  }

  lemma ResolvesOneWay(rules: Rules, items: seq<Json>, a: seq<Target>, b: seq<Target>)
    requires FilesOk(items) && Resolves(rules, items, a) && Resolves(rules, items, b)
    ensures a == b
  {
    forall i | 0 <= i < |items| ensures a[i] == b[i] { assert FileItemOk(items[i]); }
  }

  lemma NoResolution(rules: Rules, items: seq<Json>, out: seq<Target>, i: nat)
    requires i < |items| && FilesOk(items) && FileItemOk(items[i]) && Resolves(rules, items[..i], out)
    requires var path := rules.confine(Get(items[i].fields, "path").s);
             || IsReceipt(items[i].fields, rules.rc) || path.None?
             || exists j :: 0 <= j < i && out[j].path == path.value
    ensures forall t | Resolves(rules, items, t) :: !DistinctTargets(t)
  {
    forall t | Resolves(rules, items, t) ensures !DistinctTargets(t) {
      assert Resolves(rules, items[..i], t[..i]);
      ResolvesOneWay(rules, items[..i], t[..i], out);
      var j :| 0 <= j < i && out[j].path == rules.confine(Get(items[i].fields, "path").s).value;
      assert t[j] == out[j];
    }
  }

  lemma EditChanges(body: Body, old_: Body, new_: Body, t: Body)
    requires old_ != [] && CrlfEdit.EditText(body, old_, new_) == CrlfEdit.Edited(t)
    ensures body != t
  {
    CrlfEdit.EncodeShape(CrlfEdit.Decode(old_));
    var consistent := CrlfEdit.Consistent(body);
    var o := if consistent then CrlfEdit.Encode(CrlfEdit.Decode(old_)) else old_;
    var n := if consistent then CrlfEdit.Encode(CrlfEdit.Decode(new_)) else new_;
    CrlfEdit.EditIsLocal(body, o, n, t);
    var a, b :| body == a + o + b && t == a + n + b;
    assert body[|a|..|body| - |b|] == o && t[|a|..|t| - |b|] == n;
  }

  lemma NothingChanging(rules: Rules, files: Files, ts: seq<Target>, checked: seq<Target>, changing: seq<Target>)
    requires forall t | t in checked :: t in ts && rules.Permits(t.path)
    requires forall i | 0 <= i < |ts| && rules.Permits(ts[i].path) :: ts[i] in checked
    requires forall t | t in changing :: t in checked
    requires forall t | t in checked :: t in changing <==> !ReadsAs(files, t)
    ensures changing == [] <==> InPlace(rules, ts, files)
  {
    if changing != [] {
      var t := changing[0];
      assert t in changing && t in checked;
      var i :| 0 <= i < |ts| && ts[i] == t;
      assert !ReadsAs(files, ts[i]);
    }
  }

  /** A body can leave the conversation without ever having been written: one file of this batch is out of scope, the
      other is in place, so the report reads like a success. */
  lemma RefusedBodyIsDropped(codec: Codec, stub: nat -> string, text: string)
    returns (rules: Rules, files: Files, p: Parsed, ts: seq<Target>)
    requires forall j :: codec.dumps(j) == Some(text)
    ensures p.call.name == "write_files" && ArgsOk(p.call.name, p.args)
    ensures Resolves(rules, Get(p.args, "files").items, ts) && DistinctTargets(ts)
    ensures SomePermitted(rules, ts) && InPlace(rules, ts, files)
    ensures Confirmed(OkUnchangedBatch) && Kept(p, OkUnchangedBatch, codec, rules.rc) != p.call
    ensures !FullyPersisted(rules, p.call.name, p.args, files)
  {
    rules := Rules(path => Some(path), Some({"a"}), path => false, Receipts(body => false, stub));
    var a := Obj(map["path" := Str("a"), "content" := Str("x")]);
    var b := Obj(map["path" := Str("b"), "content" := Str("y")]);
    p := Parsed(Call("1", "write_files", text + "!"), map["files" := List([a, b])]);
    ts, files := [Target("a", "x"), Target("b", "y")], map["a" := "x"];
    assert 'a' in "a" && 'b' in "b";
    assert FileItemOk(a) && FileItemOk(b);
    assert Get(p.args, "files").items == [a, b];
    assert rules.Permits("a") && !rules.Permits("b");
    TwoTargets(rules, files, ts);
    assert ArgsOk(p.call.name, p.args);
    assert Resolves(rules, [a, b], ts);
    PersistedIffAllPermitted(rules, p.args, files, ts);
    hide *;
    KeptIsCompact(p, codec, rules.rc, text);
    assert |text + "!"| == |text| + 1;
  }

  lemma TwoTargets(rules: Rules, files: Files, ts: seq<Target>)
    requires ts == [Target("a", "x"), Target("b", "y")] && files == map["a" := "x"]
    requires rules.Permits("a") && !rules.Permits("b")
    ensures DistinctTargets(ts) && SomePermitted(rules, ts) && InPlace(rules, ts, files) && Landed(rules, ts, files)
    ensures !AllPermitted(rules, ts)
  {
    Text.UniversalFixed("x");
    hide Rules.Permits;
    assert ts[0].path == "a" && ts[1].path == "b";
  }

  lemma KeptIsCompact(p: Parsed, codec: Codec, rc: Receipts, text: string)
    requires p.call.name == "write_files" && ArgsOk(p.call.name, p.args) && forall j :: codec.dumps(j) == Some(text)
    ensures Confirmed(OkUnchangedBatch) && Kept(p, OkUnchangedBatch, codec, rc).arguments == text
  {
  }

  lemma BatchLeft(rules: Rules, args: Args, files: Files, ts: seq<Target>, checked: seq<Target>, changing: seq<Target>)
    requires ArgsOk("write_files", args) && Resolves(rules, Get(args, "files").items, ts) && DistinctTargets(ts)
    requires DistinctTargets(changing)
    requires forall t | t in checked :: t in ts && rules.Permits(t.path)
    requires forall i | 0 <= i < |ts| && rules.Permits(ts[i].path) :: ts[i] in checked
    requires forall t | t in changing :: t in checked
    requires forall t | t in checked :: t in changing <==> !ReadsAs(files, t)
    ensures Leaves(rules, "write_files", args, files, WriteAll(files, changing))
  {
    hide ArgsOk, Resolves, ReadsAs, Rules.Permits, Get, DistinctTargets;
    WriteAllAt(files, changing);
    var after := WriteAll(files, changing);
    forall p | !DueAt(rules, ts, files, p) ensures BodyAt(after, p) == BodyAt(files, p) {
      forall t | t in changing ensures t.path != p {
        var i :| 0 <= i < |ts| && ts[i] == t;
        assert Due(rules, ts[i], files);
      }
    }
    assert BatchLeaves(rules, ts, files, after);
  }

  lemma BatchLanded(rules: Rules, files: Files, ts: seq<Target>, checked: seq<Target>, changing: seq<Target>)
    requires DistinctTargets(checked) && DistinctTargets(changing)
    requires forall t | t in changing :: t in checked
    requires forall t | t in checked && t !in changing :: Durable(files, t.path, t.body)
    requires forall i | 0 <= i < |ts| && rules.Permits(ts[i].path) :: ts[i] in checked
    ensures Landed(rules, ts, WriteAll(files, changing))
  {
    WriteAllAt(files, changing);
    var after := WriteAll(files, changing);
    forall i | 0 <= i < |ts| && rules.Permits(ts[i].path) ensures Durable(after, ts[i].path, ts[i].body) {
      if ts[i] !in changing {
        forall t | t in changing ensures t.path != ts[i].path { }
        assert BodyAt(after, ts[i].path) == BodyAt(files, ts[i].path);
      } else {
        assert BodyAt(after, ts[i].path) == Some(ts[i].body);
      }
    }
  }
}
