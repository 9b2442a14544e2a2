/** Tool calls of a model response: `_validate_tool_batch` and `_compact_persisted_write_call`. */
module ToolCalls {
  import opened Options
  import opened Json
  import Text

  type Args = map<string, Json>

  /** A call as it is kept in the conversation; `arguments` is JSON text. */
  datatype Call = Call(id: string, name: string, arguments: string)

  datatype Parsed = Parsed(call: Call, args: Args)

  const KnownTools: set<string> := {"edit_file", "write_file", "write_files", "read_file", "list_files", "finish"}

  // ---- validation ----------------------------------------------------------------------------------------

  predicate PathOk(args: Args) { Get(args, "path").Str? && !Text.Blank(Get(args, "path").s) }

  predicate FileItemOk(item: Json) { item.Obj? && PathOk(item.fields) && Get(item.fields, "content").Str? }

  predicate FilesOk(items: seq<Json>) { forall i | 0 <= i < |items| :: FileItemOk(items[i]) }

  predicate LineOk(args: Args, key: string) { key in args ==> args[key].Int? && args[key].i >= 1 }

  predicate RangeOk(args: Args) {
    && LineOk(args, "start_line") && LineOk(args, "end_line")
    && var start := if "start_line" in args then args["start_line"].i else 1;
       (if "end_line" in args then args["end_line"].i else start) >= start
  }

  predicate ArgsOk(name: string, args: Args) {
    && (name == "edit_file" ==> && PathOk(args) && Get(args, "old_text").Str? && Get(args, "old_text").s != ""
                                && Get(args, "new_text").Str?)
    && (name == "write_file" ==> PathOk(args) && Get(args, "content").Str?)
    && (name == "write_files" ==> && Get(args, "files").List? && Get(args, "files").items != []
                                  && FilesOk(Get(args, "files").items))
    && (name == "read_file" ==> && PathOk(args) && RangeOk(args)
                                && ("search" in args ==> args["search"].Str? && args["search"].s != ""))
  }

  /** One call taken on its own. */
  function ParseCall(tc: Json, codec: Codec): Option<Parsed> {
    if !tc.Obj? then None else
    var id, typ, fn := Get(tc.fields, "id"), Get(tc.fields, "type"), Get(tc.fields, "function");
    if !id.Str? || Text.Blank(id.s) || (typ != Null && typ != Str("function")) || !fn.Obj? then None else
    var name, raw := Get(fn.fields, "name"), Get(fn.fields, "arguments");
    if !name.Str? || name.s !in KnownTools then None else
    var args := if raw.Str? then codec.loads(raw.s) else if raw.Obj? then Some(raw) else None;
    if args.None? || !args.value.Obj? || !ArgsOk(name.s, args.value.fields) then None else
    var text := if raw.Str? then Some(raw.s) else codec.dumps(raw);
    if text.None? then None else Some(Parsed(Call(id.s, name.s, text.value), args.value.fields))
  }

  predicate DistinctIds(calls: seq<Parsed>) {
    forall i, j | 0 <= i < j < |calls| :: calls[i].call.id != calls[j].call.id
  }

  /** The arguments name a path that is not blank. */
  ghost predicate NamesPath(args: Args) {
    "path" in args && args["path"].Str? && exists c :: c in args["path"].s && c !in {' ', '\t', '\n', '\r'}
  }

  ghost predicate HasText(args: Args, key: string) { key in args && args[key].Str? }

  /** What each tool asks of its arguments. */
  ghost predicate Suits(name: string, args: Args) {
    && (name in {"edit_file", "write_file", "read_file"} ==> NamesPath(args))
    && (name == "edit_file" ==> HasText(args, "new_text") && HasText(args, "old_text") && |args["old_text"].s| > 0)
    && (name == "write_file" ==> HasText(args, "content"))
    && (name == "write_files" ==>
          && "files" in args && args["files"].List? && |args["files"].items| > 0
          && forall f | f in args["files"].items :: f.Obj? && NamesPath(f.fields) && HasText(f.fields, "content"))
    && (name == "read_file" ==>
          && (forall key | key in args && key in {"start_line", "end_line"} :: args[key].Int? && args[key].i > 0)
          && ("start_line" in args && "end_line" in args ==> args["start_line"].i <= args["end_line"].i)
          && ("search" in args ==> HasText(args, "search") && |args["search"].s| > 0))
  }

  /** The call that an item of the reply asks for: under the item's id and name, with its arguments as they are when
      they are a text, which holds an object, and printed when they are an object. */
  ghost predicate Stands(tc: Json, codec: Codec, p: Parsed) {
    && tc.Obj? && "id" in tc.fields && tc.fields["id"] == Str(p.call.id)
    && (exists c :: c in p.call.id && c !in {' ', '\t', '\n', '\r'})
    && ("type" in tc.fields ==> tc.fields["type"] in {Null, Str("function")})
    && "function" in tc.fields && tc.fields["function"].Obj?
    && var fn := tc.fields["function"].fields;
    && "name" in fn && fn["name"] == Str(p.call.name)
    && p.call.name in {"edit_file", "write_file", "write_files", "read_file", "list_files", "finish"}
    && Suits(p.call.name, p.args)
    && "arguments" in fn
    && (|| (fn["arguments"] == Str(p.call.arguments) && codec.loads(p.call.arguments) == Some(Obj(p.args)))
        || (fn["arguments"] == Obj(p.args) && codec.dumps(Obj(p.args)) == Some(p.call.arguments)))
  }

  /** An item asks for at most one call. */
  lemma StandsOneWay(tc: Json, codec: Codec, p: Parsed, q: Parsed)
    requires Stands(tc, codec, p) && Stands(tc, codec, q)
    ensures p == q
  {
    hide Suits;
  }

  lemma BlankIff(s: string)
    ensures Text.Blank(s) <==> !exists c :: c in s && c !in {' ', '\t', '\n', '\r'}
  {
  }

  lemma PathOkIff(args: Args)
    ensures PathOk(args) <==> NamesPath(args)
  {
    if "path" in args && args["path"].Str? { BlankIff(args["path"].s); }
    hide Text.Blank;
  }

  lemma FilesOkIff(items: seq<Json>)
    ensures FilesOk(items) <==> forall f | f in items :: f.Obj? && NamesPath(f.fields) && HasText(f.fields, "content")
  {
    forall i | 0 <= i < |items|
      ensures FileItemOk(items[i]) <==>
              items[i].Obj? && NamesPath(items[i].fields) && HasText(items[i].fields, "content")
    {
      if items[i].Obj? { PathOkIff(items[i].fields); }
    }
    hide FileItemOk, NamesPath, HasText;
    assert forall i | 0 <= i < |items| :: items[i] in items;
  }

  lemma ArgsOkIff(name: string, args: Args)
    ensures ArgsOk(name, args) <==> Suits(name, args)
  {
    PathOkIff(args);
    if "files" in args && args["files"].List? { FilesOkIff(args["files"].items); }
    hide PathOk, NamesPath, FilesOk;
  }

  lemma ParseCallStands(tc: Json, codec: Codec)
    ensures forall p :: ParseCall(tc, codec) == Some(p) <==> Stands(tc, codec, p)
  {
    hide ArgsOk, Suits;
    forall p ensures ParseCall(tc, codec) == Some(p) <==> Stands(tc, codec, p) {
      BlankIff(p.call.id);
      ArgsOkIff(p.call.name, p.args);
      ParseCallIff(tc, codec, p);
    }
  }

  lemma ParseCallIff(tc: Json, codec: Codec, p: Parsed)
    requires ArgsOk(p.call.name, p.args) <==> Suits(p.call.name, p.args)
    requires Text.Blank(p.call.id) <==> !exists c :: c in p.call.id && c !in {' ', '\t', '\n', '\r'}
    ensures ParseCall(tc, codec) == Some(p) <==> Stands(tc, codec, p)
  {
    hide ArgsOk, Suits, Text.Blank;
  }

  /** A batch in which every item asks for a call. */
  ghost predicate ParsesTo(tcs: seq<Json>, codec: Codec, calls: seq<Parsed>) {
    |calls| == |tcs| && forall i | 0 <= i < |tcs| :: Stands(tcs[i], codec, calls[i])
  }

  lemma ParsesOneWay(tcs: seq<Json>, codec: Codec, a: seq<Parsed>, b: seq<Parsed>)
    requires ParsesTo(tcs, codec, a) && ParsesTo(tcs, codec, b)
    ensures a == b
  {
    hide Stands;
    forall i | 0 <= i < |tcs| ensures a[i] == b[i] { StandsOneWay(tcs[i], codec, a[i], b[i]); }
  }

  lemma StandingIsSound(tc: Json, codec: Codec, p: Parsed)
    requires Stands(tc, codec, p)
    ensures ArgsOk(p.call.name, p.args) && p.call.name in KnownTools
  {
    ArgsOkIff(p.call.name, p.args);
    hide ArgsOk, Suits;
  }

  /** A batch is taken as a whole or not at all: it is non-empty, every item asks for a call, and no id is used
      twice. */
  method ValidateBatch(tcs: seq<Json>, codec: Codec) returns (ok: bool, calls: seq<Parsed>)
    ensures ok <==> tcs != [] && exists c :: ParsesTo(tcs, codec, c) && DistinctIds(c)
    ensures ok ==> ParsesTo(tcs, codec, calls) && DistinctIds(calls)
    ensures ok ==> forall p | p in calls :: ArgsOk(p.call.name, p.args) && p.call.name in KnownTools
    ensures !ok ==> calls == []
  {
    hide ParseCall, ArgsOk, Stands;
    if tcs == [] { return false, []; }
    calls := [];
    var ids: set<string> := {};
    for k := 0 to |tcs|
      invariant ParsesTo(tcs[..k], codec, calls) && DistinctIds(calls)
      invariant forall id :: id in ids <==> exists i | 0 <= i < k :: calls[i].call.id == id
      invariant forall p | p in calls :: ArgsOk(p.call.name, p.args) && p.call.name in KnownTools
    {
      var parsed := ParseCall(tcs[k], codec);
      ParseCallStands(tcs[k], codec);
      if parsed.None? || parsed.value.call.id in ids {
        forall c: seq<Parsed> | ParsesTo(tcs, codec, c) ensures !DistinctIds(c) {
          assert Stands(tcs[k], codec, c[k]) && parsed == Some(c[k]);
          var i :| 0 <= i < k && calls[i].call.id == c[k].call.id;
          assert Stands(tcs[..k][i], codec, calls[i]) && Stands(tcs[i], codec, c[i]);
          StandsOneWay(tcs[i], codec, c[i], calls[i]);
        }
        return false, [];
      }
      StandingIsSound(tcs[k], codec, parsed.value);
      ids := ids + {parsed.value.call.id};
      calls := calls + [parsed.value];
    }
    assert tcs[..|tcs|] == tcs;
    ok := true;
  }

  // ---- results -------------------------------------------------------------------------------------------

  /** What a tool reports back.  The batch report names the paths it refused; all other reports of success name at
      most the path they are about. */
  datatype Result =
    | Error
    | OkUnchanged(path: string)
    | OkWrote(path: string)
    | OkEdited(path: string)
    | OkUnchangedBatch
    | OkWroteBatch(refused: seq<string>)
    | Observed(text: string)
    | Ok

  /** `outcome.startswith("OK ") and "rejected" not in outcome.lower()`, for the reports of the two write tools. */
  predicate Confirmed(r: Result) {
    match r
    case OkUnchanged(p) => !Text.Contains(Text.Fold(p), "rejected")
    case OkWrote(p) => !Text.Contains(Text.Fold(p), "rejected")
    case OkUnchangedBatch => true
    case OkWroteBatch(refused) => refused == []
    case _ => false
  }

  ghost predicate Mentions(text: string, word: string) {
    exists a, w, b :: text == a + w + b && Text.SameButCase(w, word)
  }

  lemma MentionsIff(text: string, word: string)
    requires Text.Fold(word) == word
    ensures Text.Contains(Text.Fold(text), word) <==> Mentions(text, word)
  {
    Text.ContainsIff(Text.Fold(text), word);
    hide Text.Contains, Text.SameButCase;
    if a, b :| Text.Fold(text) == a + word + b {
      var w := text[|a|..|a| + |word|];
      assert text == text[..|a|] + w + text[|a| + |word|..];
      assert Text.Fold(w) == Text.Fold(text)[|a|..|a| + |word|] == word;
      Text.FoldIff(w, word);
    }
    if a, w, b :| text == a + w + b && Text.SameButCase(w, word) {
      Text.FoldIff(w, word);
      assert Text.Fold(text) == Text.Fold(a) + Text.Fold(w) + Text.Fold(b);
    }
  }

  /** Only a write that left nothing out is confirmed, and not when its path happens to speak of a rejection. */
  lemma ConfirmedIff(r: Result)
    ensures Confirmed(r) <==>
            || (exists path :: r in {OkUnchanged(path), OkWrote(path)} && !Mentions(path, "rejected"))
            || r in {OkUnchangedBatch, OkWroteBatch([])}
  {
    assert Text.Fold("rejected") == "rejected";
    hide Mentions, Text.Contains, Text.Fold;
    if r.OkUnchanged? || r.OkWrote? {
      MentionsIff(r.path, "rejected");
      assert r in {OkUnchanged(r.path), OkWrote(r.path)};
    }
  }

  // ---- receipts ------------------------------------------------------------------------------------------

  const ReceiptKey := "__skyn3t_persisted_write_receipt__"

  /** `receiptBody` recognises a file body that is a receipt; `stub` is the text that replaces a body of that size. */
  datatype Receipts = Receipts(receiptBody: string -> bool, stub: nat -> string)

  /** `is_persisted_write_receipt` */
  predicate IsReceipt(args: Args, rc: Receipts) {
    || ReceiptKey in args
    || (Get(args, "content").Obj? && ReceiptKey in Get(args, "content").fields)
    || (Get(args, "content").Str? && rc.receiptBody(Get(args, "content").s))
  }

  /** A receipt carries the mark, itself or in its content, or holds the text of one. */
  lemma IsReceiptIff(args: Args, rc: Receipts)
    ensures IsReceipt(args, rc) <==>
            var mark := "__skyn3t_persisted_write_receipt__";
            || mark in args
            || ("content" in args && match args["content"]
                                     case Obj(fields) => mark in fields
                                     case Str(text) => rc.receiptBody(text)
                                     case _ => false)
  {
  }

  function FileReceipt(size: nat): Json {
    Obj(map["version" := Int(1), "kind" := Str("write_file"), "bytes" := Int(size)])
  }

  function BatchReceipt(n: nat): Json { Obj(map["version" := Int(1), "kind" := Str("write_files"), "files" := Int(n)]) }

  function CompactFile(args: Args, codec: Codec, rc: Receipts): Args
    requires Get(args, "content").Str?
  {
    var size := codec.bytes(Get(args, "content").s);
    args[ReceiptKey := FileReceipt(size)]["content" := Str(rc.stub(size))]
  }

  function CompactFiles(items: seq<Json>, codec: Codec, rc: Receipts): (r: seq<Json>)
    requires FilesOk(items)
    ensures |r| == |items|
  {
    seq(|items|, i requires 0 <= i < |items| && FileItemOk(items[i]) => Obj(CompactFile(items[i].fields, codec, rc)))
  }

  function CompactArgs(name: string, args: Args, codec: Codec, rc: Receipts): Args
    requires name in {"write_file", "write_files"} && ArgsOk(name, args)
  {
    if name == "write_file" then CompactFile(args, codec, rc)
    else
      var files := Get(args, "files").items;
      args["files" := List(CompactFiles(files, codec, rc))][ReceiptKey := BatchReceipt(|files|)]
  }

  /** The call as it stays in the conversation once its result is known. */
  function Kept(p: Parsed, r: Result, codec: Codec, rc: Receipts): Call
    requires ArgsOk(p.call.name, p.args)
  {
    if p.call.name !in {"write_file", "write_files"} || !Confirmed(r) then p.call
    else
      var text := codec.dumps(Obj(CompactArgs(p.call.name, p.args, codec, rc)));
      if text.None? then p.call else p.call.(arguments := text.value)
  }

  lemma KeptShape(p: Parsed, r: Result, codec: Codec, rc: Receipts)
    requires ArgsOk(p.call.name, p.args)
    ensures var call := Kept(p, r, codec, rc);
            && call.id == p.call.id && call.name == p.call.name
            && (call != p.call ==> Confirmed(r) && p.call.name in {"write_file", "write_files"})
  {
  }

  method CompactWriteCall(p: Parsed, r: Result, codec: Codec, rc: Receipts) returns (call: Call, saved: nat)
    requires ArgsOk(p.call.name, p.args)
    ensures call == Kept(p, r, codec, rc)
    ensures var was, now := codec.bytes(p.call.arguments), codec.bytes(call.arguments);
            saved == if now <= was then was - now else 0
  {
    call, saved := p.call, 0;
    if p.call.name !in {"write_file", "write_files"} || !Confirmed(r) { return; }
    var compact := p.args;
    if p.call.name == "write_file" {
      compact := CompactFile(p.args, codec, rc);
    } else {
      var files := Get(p.args, "files").items;
      var receipts: seq<Json> := [];
      for i := 0 to |files|
        invariant |receipts| == i && receipts == CompactFiles(files, codec, rc)[..i]
      {
        assert FileItemOk(files[i]);
        receipts := receipts + [Obj(CompactFile(files[i].fields, codec, rc))];
      }
      assert receipts == CompactFiles(files, codec, rc);
      compact := compact["files" := List(receipts)][ReceiptKey := BatchReceipt(|receipts|)];
    }
    var text := codec.dumps(Obj(compact));
    if text.None? { return; }
    call := call.(arguments := text.value);
    var was, now := codec.bytes(p.call.arguments), codec.bytes(call.arguments);
    saved := if was >= now then was - now else 0;
  }

  /** The arguments `c` are those of `args` with the body replaced by a receipt for its size. */
  ghost predicate Receipted(args: Args, c: Args, codec: Codec, rc: Receipts) {
    HasText(args, "content") &&
    var size := codec.bytes(args["content"].s);
    var receipt := Obj(map["kind" := Str("write_file"), "version" := Int(1), "bytes" := Int(size)]);
    c == args["content" := Str(rc.stub(size))]["__skyn3t_persisted_write_receipt__" := receipt]
  }

  ghost predicate BatchReceipted(files: seq<Json>, receipts: seq<Json>, codec: Codec, rc: Receipts) {
    |receipts| == |files| && forall i | 0 <= i < |files| ::
      && files[i].Obj? && receipts[i].Obj? && Receipted(files[i].fields, receipts[i].fields, codec, rc)
      && IsReceipt(receipts[i].fields, rc)
  }

  /** Compaction tells receipts from content: what it leaves is recognised as a receipt, as a whole and file by file,
      and it loses nothing but the bodies. */
  lemma CompactedIsReceipt(name: string, args: Args, codec: Codec, rc: Receipts)
    requires name in {"write_file", "write_files"} && ArgsOk(name, args)
    ensures var c := CompactArgs(name, args, codec, rc);
            && IsReceipt(c, rc) && ArgsOk(name, c)
            && (name == "write_file" ==> Receipted(args, c, codec, rc))
            && (name == "write_files" ==>
                  && Get(args, "files").List? && Get(c, "files").List?
                  && var files, mark := Get(args, "files").items, "__skyn3t_persisted_write_receipt__";
                  && BatchReceipted(files, Get(c, "files").items, codec, rc)
                    && c - {"files", mark} == args - {"files", mark}
                  && mark in c
                  && c[mark] == Obj(map["kind" := Str("write_files"), "version" := Int(1), "files" := Int(|files|)]))
  {
    if name == "write_files" {
      FilesReceipted(Get(args, "files").items, codec, rc);
    } else {
      FileReceipted(args, codec, rc);
    }
  }

  lemma FileReceipted(args: Args, codec: Codec, rc: Receipts)
    requires Get(args, "content").Str?
    ensures Receipted(args, CompactFile(args, codec, rc), codec, rc)
  {
    var size := codec.bytes(args["content"].s);
    var fields := map["kind" := Str("write_file"), "version" := Int(1), "bytes" := Int(size)];
    assert FileReceipt(size).fields == fields;
    assert "content" != "__skyn3t_persisted_write_receipt__";
  }

  lemma FilesReceipted(files: seq<Json>, codec: Codec, rc: Receipts)
    requires FilesOk(files)
    ensures FilesOk(CompactFiles(files, codec, rc))
    ensures BatchReceipted(files, CompactFiles(files, codec, rc), codec, rc)
  {
    forall i | 0 <= i < |files|
      ensures FileItemOk(files[i]) && FileItemOk(CompactFiles(files, codec, rc)[i])
      ensures files[i].Obj? && CompactFiles(files, codec, rc)[i].Obj?
      ensures var c := CompactFiles(files, codec, rc)[i].fields;
              Receipted(files[i].fields, c, codec, rc) && IsReceipt(c, rc)
    {
      assert FileItemOk(files[i]);
      FileReceipted(files[i].fields, codec, rc);
    }
  }
}
