/** What the hashed stream says about a tree, and what delivery does to it. */
module DigestStream {
  import opened Options
  import opened FileTree
  import opened TreeWalk
  import opened TreeSnapshot
  import Text
  import W = Worktree

  // ---- decoding ------------------------------------------------------------------------------------------

  /** Every token followed by a zero byte. */
  function Close(ts: seq<string>): string {
    if ts == [] then "" else ts[0] + ['\0'] + Close(ts[1..])
  }

  function Tokens(root: Node, rels: seq<string>): seq<string> {
    if rels == [] then []
    else
      Tokens(root, rels[..|rels| - 1]) +
      match FileNode(root, rels[|rels| - 1])
      case Some(File(data, mode)) => [rels[|rels| - 1], Octal(mode, 4), data]
      case _ => []
  }

  lemma {:induction false} CloseAppend(a: seq<string>, b: seq<string>)
    ensures Close(a + b) == Close(a) + Close(b)
  {
    if a == [] {
      assert a + b == b;
    } else {
      CloseAppend(a[1..], b);
      assert (a + b)[1..] == a[1..] + b;
    }
  }

  lemma {:induction false} SplitClose(ts: seq<string>)
    requires forall t | t in ts :: '\0' !in t
    ensures Text.Split(Close(ts), '\0') == ts + [""]
  {
    if ts != [] {
      SplitClose(ts[1..]);
      Text.SplitWord(ts[0], Close(ts[1..]), '\0');
      assert ts == [ts[0]] + ts[1..];
    }
  }

  lemma RecordIsClose(rel: string, mode: string, data: string)
    ensures Close([rel, mode, data]) == rel + "\0" + mode + "\0" + data + "\0"
  {
    var three, two, one := [rel, mode, data], [mode, data], [data];
    assert three[1..] == two && two[1..] == one && one[1..] == [];
    assert Close(one) == data + "\0";
    assert Close(two) == mode + "\0" + Close(one);
  }

  lemma {:induction false} RecordsAreClosed(root: Node, rels: seq<string>)
    ensures Records(root, rels) == Close(Tokens(root, rels))
  {
    if rels != [] {
      var init, rel := rels[..|rels| - 1], rels[|rels| - 1];
      RecordsAreClosed(root, init);
      match FileNode(root, rel) {
        case Some(File(data, mode)) =>
          RecordIsClose(rel, Octal(mode, 4), data);
          CloseAppend(Tokens(root, init), [rel, Octal(mode, 4), data]);
        case _ =>
          assert Tokens(root, init) + [] == Tokens(root, init);
      }
    }
  }

  function OctalValue(s: string): int {
    if s == "" then 0 else 8 * OctalValue(s[..|s| - 1]) + (s[|s| - 1] as int - '0' as int)
  }

  lemma OctalSnoc(high: string, d: nat)
    requires d < 8 && '\0' !in high
    ensures OctalValue(high + [Digit(d)]) == 8 * OctalValue(high) + d && '\0' !in high + [Digit(d)]
  {
    assert (high + [Digit(d)])[..|high|] == high;
  }

  lemma {:induction false} OctalDecodes(n: nat, width: nat)
    ensures OctalValue(Octal(n, width)) == n
    ensures '\0' !in Octal(n, width)
    decreases n, width
  {
    if n != 0 || width != 0 {
      var w := if width == 0 then 0 else width - 1;
      var high := Octal(n / 8, w);
      OctalDecodes(n / 8, w);
      OctalSnoc(high, n % 8);
      assert Octal(n, width) == high + [Digit(n % 8)];
    }
  }

  /** Octal digits, padded to the width with zeros and no further. */
  lemma {:induction false} OctalDigits(n: nat, width: nat)
    ensures |Octal(n, width)| >= width && (|Octal(n, width)| > width ==> Octal(n, width)[0] != '0')
    ensures forall c | c in Octal(n, width) :: '0' <= c <= '7'
    decreases n, width
  {
    if n != 0 || width != 0 {
      OctalDigits(n / 8, if width == 0 then 0 else width - 1);
      if n / 8 == 0 && width <= 1 { assert Octal(n / 8, 0) == ""; }
    }
  }

  /** The listed names are files of the tree, and no name or content holds a zero byte. */
  ghost predicate Plain(root: Node, rels: seq<string>) {
    forall rel | rel in rels ::
      && '\0' !in rel && FileNode(root, rel).Some? && FileNode(root, rel).value.File?
      && '\0' !in FileNode(root, rel).value.data
  }

  lemma {:induction false} TokensPlain(root: Node, rels: seq<string>)
    requires Plain(root, rels)
    ensures forall t | t in Tokens(root, rels) :: '\0' !in t
    ensures |Tokens(root, rels)| == 3 * |rels|
  {
    if rels != [] {
      var init, rel := rels[..|rels| - 1], rels[|rels| - 1];
      assert rel in rels && forall r | r in init :: r in rels;
      TokensPlain(root, init);
      OctalDecodes(FileNode(root, rel).value.mode, 4);
    }
  }

  lemma {:induction false} TokensDecode(r1: Node, f1: seq<string>, r2: Node, f2: seq<string>)
    requires Plain(r1, f1) && Plain(r2, f2) && Tokens(r1, f1) == Tokens(r2, f2)
    ensures f1 == f2
    ensures forall rel | rel in f1 :: FileNode(r1, rel) == FileNode(r2, rel)
  {
    TokensPlain(r1, f1);
    TokensPlain(r2, f2);
    if f1 != [] {
      var i1, i2, x1, x2 := f1[..|f1| - 1], f2[..|f2| - 1], f1[|f1| - 1], f2[|f2| - 1];
      var n1, n2 := FileNode(r1, x1).value, FileNode(r2, x2).value;
      var t1, t2 := [x1, Octal(n1.mode, 4), n1.data], [x2, Octal(n2.mode, 4), n2.data];
      assert f1 == i1 + [x1] && f2 == i2 + [x2];
      assert Plain(r1, i1) && Plain(r2, i2);
      TokensPlain(r1, i1);
      TokensPlain(r2, i2);
      assert Tokens(r1, f1) == Tokens(r1, i1) + t1 && Tokens(r2, f2) == Tokens(r2, i2) + t2;
      assert Tokens(r1, i1) == Tokens(r1, f1)[..3 * |i1|] == Tokens(r2, i2);
      assert t1 == Tokens(r1, f1)[3 * |i1|..] == t2;
      assert t1[0] == t2[0] && t1[1] == t2[1] && t1[2] == t2[2];
      OctalDecodes(n1.mode, 4);
      OctalDecodes(n2.mode, 4);
      TokensDecode(r1, i1, r2, i2);
    }
  }

  /** Equal digest inputs come from the same view of trees with the same paths, modes and contents. */
  lemma StreamDecodes(d1: bool, r1: Node, f1: seq<string>, d2: bool, r2: Node, f2: seq<string>)
    requires Plain(r1, f1) && Plain(r2, f2)
    requires Stream(d1, r1, f1) == Stream(d2, r2, f2)
    ensures d1 == d2 && f1 == f2
    ensures forall rel | rel in f1 :: FileNode(r1, rel) == FileNode(r2, rel)
  {
    var t1, t2 := [Algorithm(d1)] + Tokens(r1, f1), [Algorithm(d2)] + Tokens(r2, f2);
    StreamIsClosed(d1, r1, f1);
    StreamIsClosed(d2, r2, f2);
    SplitClose(t1);
    SplitClose(t2);
    assert t1 == (t1 + [""])[..|t1|] && t2 == (t2 + [""])[..|t2|];
    assert t1[0] == t2[0] && t1[1..] == t2[1..];
    assert Algorithm(true)[0] != Algorithm(false)[0];
    TokensDecode(r1, f1, r2, f2);
  }

  lemma StreamIsClosed(d: bool, root: Node, rels: seq<string>)
    requires Plain(root, rels)
    ensures Stream(d, root, rels) == Close([Algorithm(d)] + Tokens(root, rels))
    ensures forall t | t in [Algorithm(d)] + Tokens(root, rels) :: '\0' !in t
  {
    RecordsAreClosed(root, rels);
    TokensPlain(root, rels);
    var all := [Algorithm(d)] + Tokens(root, rels);
    assert all[1..] == Tokens(root, rels);
  }

  // ---- delivery ------------------------------------------------------------------------------------------

  lemma SameFileNodes(src: Node, dst: Node, rel: string)
    requires src.Dir? && dst.Dir? && NamesOk(src) && W.Mirrors(src, dst) && rel in SortedFiles(true, src)
    ensures FileNode(src, rel) == FileNode(dst, rel)
  {
    TwoWalkersAgree(src, rel);
    var q :| W.IsDeliverable(src, q) && rel == Rel(q);
    Text.SplitJoin(q, '/');
    assert StatAt(src, q) == StatAt(dst, q);
  }

  lemma {:induction false} SameRecords(src: Node, dst: Node, rels: seq<string>)
    requires forall rel | rel in rels :: FileNode(src, rel) == FileNode(dst, rel)
    ensures Records(src, rels) == Records(dst, rels) && Bytes(src, rels) == Bytes(dst, rels)
  {
    if rels != [] {
      var init := rels[..|rels| - 1];
      assert rels[|rels| - 1] in rels && forall r | r in init :: r in rels;
      SameRecords(src, dst, init);
    }
  }

  /** An exact mirror has the source's file list, byte count and deliverable stream. */
  lemma MirrorHasSameStream(src: Node, dst: Node)
    requires src.Dir? && dst.Dir? && NamesOk(src) && W.Mirrors(src, dst)
    ensures SortedFiles(true, src) == SortedFiles(true, dst)
    ensures Stream(true, src, SortedFiles(true, src)) == Stream(true, dst, SortedFiles(true, dst))
    ensures Bytes(src, SortedFiles(true, src)) == Bytes(dst, SortedFiles(true, dst))
  {
    var a, b := Elements(Listed(true, AllEntries(true, src))), Elements(Listed(true, AllEntries(true, dst)));
    forall s
      ensures s in a <==> s in b
    {
      TwoWalkersAgree(src, s);
      TwoWalkersAgree(dst, s);
      Text.SortNamesElements(a);
      Text.SortNamesElements(b);
      assert forall q :: W.IsDeliverable(src, q) <==> W.IsDeliverable(dst, q);
    }
    assert a == b;
    forall rel | rel in SortedFiles(true, src)
      ensures FileNode(src, rel) == FileNode(dst, rel)
    {
      SameFileNodes(src, dst, rel);
    }
    SameRecords(src, dst, SortedFiles(true, src));
  }

  lemma CutWhole(a: Path, n: Name)
    requires !W.HasIgnored(a) && W.Ignored(n)
    ensures W.HasIgnored(a + [n]) && W.Cut(a + [n]) == a + [n]
  {
    assert n in a + [n];
    var c := W.Cut(a + [n]);
    assert c[|c| - 1] in c;
    assert forall k | 0 <= k < |a| :: a[k] in a && (a + [n])[k] == a[k];
  }

  lemma MetIsNotAlias(before: Node, after: Node, q: Path)
    requires after.Dir? && W.IgnoredKept(before, after) && W.NoAuthoredAlias(after) && Met(true, after, [], q)
    ensures StatAt(after, q) != IsAlias
  {
    MetExists(true, after, [], q);
    MetDeliverable(after, [], q);
    W.HasIgnoredLast(q);
    if W.HasIgnored(q) {
      CutWhole(q[..|q| - 1], q[|q| - 1]);
      assert q[..|q| - 1] + [q[|q| - 1]] == q;
    }
  }

  /** A clean delivery leaves nothing in view that the snapshot would object to. */
  lemma DeliveredHasNoAliases(before: Node, after: Node)
    requires after.Dir? && W.IgnoredKept(before, after) && W.NoAuthoredAlias(after)
    ensures NoAliases(AllEntries(true, after))
  {
    hide W.IgnoredKept;
    hide W.NoAuthoredAlias;
    hide Walk;
    hide Met;
    forall e | e in AllEntries(true, after)
      ensures !e.node.Alias?
    {
      WalkIsBelow(true, Entry([], after), e);
      AllEntriesAreMet(true, after, e);
      MetIsNotAlias(before, after, e.path);
    }
  }

  /** After an exact clean delivery the stream is that of the source, and the destination's snapshot is valid, given
      that the source's was, exactly when its own directory entries stay within the limit: kept directories count
      too. */
  lemma DeliverySnapshot(src: Node, before: Node, after: Node, limits: Limits)
    requires src.Dir? && after.Dir? && NamesOk(src) && NamesOk(after)
    requires W.Mirrors(src, after) && W.IgnoredKept(before, after) && W.NoAuthoredAlias(after)
    requires Acceptable(true, src, limits)
    ensures Acceptable(true, after, limits) <==> Within(limits.maxEntries, |AllEntries(true, after)|)
    ensures Stream(true, after, SortedFiles(true, after)) == Stream(true, src, SortedFiles(true, src))
  {
    MirrorHasSameStream(src, after);
    DeliveredHasNoAliases(before, after);
    SortedFilesShape(true, src);
    SortedFilesShape(true, after);
    SameElements(src, after);
    hide W.IgnoredKept;
    hide W.NoAuthoredAlias;
    hide W.Mirrors;
    hide NamesOk;
    hide AllEntries;
    hide Listed;
    hide Bytes;
    hide Stream;
    hide SortedFiles;
  }

  lemma SameElements(a: Node, b: Node)
    requires a.Dir? && b.Dir? && SortedFiles(true, a) == SortedFiles(true, b)
    ensures forall s :: s in Listed(true, AllEntries(true, a)) <==> s in Listed(true, AllEntries(true, b))
  {
    hide AllEntries;
    hide Listed;
    Text.SortNamesElements(Elements(Listed(true, AllEntries(true, a))));
    Text.SortNamesElements(Elements(Listed(true, AllEntries(true, b))));
    forall s
      ensures s in Listed(true, AllEntries(true, a)) <==> s in Listed(true, AllEntries(true, b))
    {
      assert s in Elements(Listed(true, AllEntries(true, a))) <==> s in SortedFiles(true, a);
      assert s in Elements(Listed(true, AllEntries(true, b))) <==> s in SortedFiles(true, b);
    }
  }
}
