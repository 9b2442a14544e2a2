/** A directory tree and the few primitive changes the models make to it.  Everything is stated through `Stat`,
    what `lstat` reports at a relative path, so that an update and its frame are one quantifier. */
module FileTree {
  import opened Options

  type Name = string
  type Path = seq<Name>

  datatype Node =
    | File(data: string, mode: nat)
    | Dir(entries: map<Name, Node>)
    | Alias

  datatype Stat = Missing | IsFile(data: string, mode: nat) | IsDir | IsAlias

  function Lookup(t: Node, p: Path): Option<Node> {
    if p == [] then Some(t)
    else if t.Dir? && p[0] in t.entries then Lookup(t.entries[p[0]], p[1..])
    else None
  }

  function StatOf(n: Option<Node>): Stat {
    match n
    case None => Missing
    case Some(File(data, mode)) => IsFile(data, mode)
    case Some(Dir(_)) => IsDir
    case Some(Alias) => IsAlias
  }

  function StatAt(t: Node, p: Path): Stat { StatOf(Lookup(t, p)) }

  function EntriesAt(t: Node, d: Path): map<Name, Node>
    requires StatAt(t, d) == IsDir
  {
    Lookup(t, d).value.entries
  }

  lemma LookupOne(t: Node, n: Name)
    ensures Lookup(t, [n]) == if t.Dir? && n in t.entries then Some(t.entries[n]) else None
  {
    assert [n][1..] == [];
  }

  /** Replaces the listing of directory `d`. */
  function WithEntries(t: Node, d: Path, m: map<Name, Node>): (r: Node)
    requires StatAt(t, d) == IsDir
    ensures r.Dir?
  {
    if d == [] then Dir(m) else Dir(t.entries[d[0] := WithEntries(t.entries[d[0]], d[1..], m)])
  }

  lemma {:induction false} LookupSplit(t: Node, a: Path, b: Path)
    ensures Lookup(t, a + b) == match Lookup(t, a) case None => None case Some(n) => Lookup(n, b)
  {
    if a == [] {
      assert a + b == b;
    } else if t.Dir? && a[0] in t.entries {
      assert (a + b)[1..] == a[1..] + b;
      LookupSplit(t.entries[a[0]], a[1..], b);
    }
  }

  /** A path that exists has directories above it. */
  lemma {:induction false} ParentsAreDirs(t: Node, a: Path, b: Path)
    requires b != [] && StatAt(t, a + b) != Missing
    ensures StatAt(t, a) == IsDir
  {
    LookupSplit(t, a, b);
  }

  lemma {:induction false} LookupWithEntries(t: Node, d: Path, m: map<Name, Node>, q: Path)
    requires StatAt(t, d) == IsDir
    ensures d <= q ==> Lookup(WithEntries(t, d, m), q) == Lookup(Dir(m), q[|d|..])
    ensures !(d <= q) ==> StatAt(WithEntries(t, d, m), q) == StatAt(t, q)
  {
    if d != [] && q != [] && q[0] == d[0] {
      LookupWithEntries(t.entries[d[0]], d[1..], m, q[1..]);
      assert d <= q <==> d[1..] <= q[1..];
      if d <= q { assert q[1..][|d| - 1..] == q[|d|..]; }
    }
  }

  lemma {:induction false} WithEntriesTwice(t: Node, d: Path, m: map<Name, Node>, m': map<Name, Node>)
    requires StatAt(t, d) == IsDir
    ensures StatAt(WithEntries(t, d, m), d) == IsDir && EntriesAt(WithEntries(t, d, m), d) == m
    ensures WithEntries(WithEntries(t, d, m), d, m') == WithEntries(t, d, m')
  {
    LookupWithEntries(t, d, m, d);
    if d != [] { WithEntriesTwice(t.entries[d[0]], d[1..], m, m'); }
  }

  lemma {:induction false} WithEntriesSame(t: Node, d: Path)
    requires StatAt(t, d) == IsDir
    ensures WithEntries(t, d, EntriesAt(t, d)) == t
  {
    if d != [] { WithEntriesSame(t.entries[d[0]], d[1..]); }
  }

  /** Changing a child directory is changing its parent's listing. */
  lemma {:induction false} WithEntriesNested(t: Node, d: Path, n: Name, m: map<Name, Node>)
    requires StatAt(t, d + [n]) == IsDir
    ensures StatAt(t, d) == IsDir && n in EntriesAt(t, d)
    ensures EntriesAt(t, d)[n] == Dir(EntriesAt(t, d + [n]))
    ensures WithEntries(t, d + [n], m) == WithEntries(t, d, EntriesAt(t, d)[n := Dir(m)])
  {
    LookupSplit(t, d, [n]);
    assert Lookup(t, d + [n]) == Lookup(Lookup(t, d).value, [n]);
    if d != [] {
      assert (d + [n])[1..] == d[1..] + [n];
      WithEntriesNested(t.entries[d[0]], d[1..], n, m);
    } else {
      assert d + [n] == [n] && [n][1..] == [];
    }
  }

  /** Adds, replaces or (with `None`) removes the entry `n` of directory `d`. */
  function Put(t: Node, d: Path, n: Name, x: Option<Node>): (r: Node)
    requires StatAt(t, d) == IsDir
    ensures r.Dir?
  {
    var m := EntriesAt(t, d);
    WithEntries(t, d, if x.Some? then m[n := x.value] else m - {n})
  }

  lemma StatPut(t: Node, d: Path, n: Name, x: Option<Node>, q: Path)
    requires StatAt(t, d) == IsDir
    ensures StatAt(Put(t, d, n, x), q) ==
            if d + [n] <= q then (if x.Some? then StatAt(x.value, q[|d| + 1..]) else Missing) else StatAt(t, q)
  {
    var m := EntriesAt(t, d);
    LookupWithEntries(t, d, if x.Some? then m[n := x.value] else m - {n}, q);
    if d <= q {
      var rest := q[|d|..];
      assert q == d + rest;
      LookupSplit(t, d, rest);
      if rest != [] && rest[0] == n {
        assert (d + [n]) == q[..|d| + 1];
        assert rest[1..] == q[|d| + 1..];
      }
    }
  }

  /** `mkdir(parents=True, exist_ok=True)`; `None` when something other than a directory is in the way. */
  function MkdirAll(t: Node, d: Path): (r: Option<Node>)
    requires t.Dir?
    ensures r.Some? ==> r.value.Dir?
    decreases |d|
  {
    if d == [] then Some(t)
    else
      var child := if d[0] in t.entries then t.entries[d[0]] else Dir(map[]);
      if !child.Dir? then None
      else
        match MkdirAll(child, d[1..])
        case None => None
        case Some(c) => Some(Dir(t.entries[d[0] := c]))
  }

  lemma {:induction false} StatMkdirAll(t: Node, d: Path, q: Path)
    requires t.Dir? && MkdirAll(t, d).Some?
    ensures StatAt(MkdirAll(t, d).value, q) == if q <= d then IsDir else StatAt(t, q)
    decreases |d|
  {
    if d != [] {
      var child := if d[0] in t.entries then t.entries[d[0]] else Dir(map[]);
      if q != [] && q[0] == d[0] {
        StatMkdirAll(child, d[1..], q[1..]);
        assert q <= d <==> q[1..] <= d[1..];
        if q[1..] != [] && d[0] !in t.entries {
          assert StatAt(child, q[1..]) == Missing;
        }
      }
    }
  }

  lemma {:induction false} MkdirAllSucceeds(t: Node, d: Path)
    requires t.Dir?
    ensures MkdirAll(t, d).Some? <==> forall q | q <= d :: StatAt(t, q) in {IsDir, Missing}
    decreases |d|
  {
    if d != [] {
      LookupOne(t, d[0]);
      var child := if d[0] in t.entries then t.entries[d[0]] else Dir(map[]);
      assert StatOf(Some(child)) == IsDir || d[0] in t.entries;
      if child.Dir? {
        MkdirAllSucceeds(child, d[1..]);
        if d[0] in t.entries {
          forall q | q <= d[1..]
            ensures StatAt(t, [d[0]] + q) == StatAt(child, q)
          {
            assert ([d[0]] + q)[1..] == q;
          }
          forall q | q <= d && q != []
            ensures StatAt(t, q) == StatAt(child, q[1..]) && q[1..] <= d[1..]
          {
          }
          if forall q | q <= d :: StatAt(t, q) in {IsDir, Missing} {
            forall q | q <= d[1..]
              ensures StatAt(child, q) in {IsDir, Missing}
            {
              assert [d[0]] + q <= d;
            }
          }
        }
      } else {
        assert [d[0]] <= d && StatAt(t, [d[0]]) == StatOf(Some(child));
      }
    }
  }

  /** Two directory trees with the same `lstat` at every path are the same tree. */
  lemma {:induction false} Extensional(a: Node, b: Node)
    requires forall q :: StatAt(a, q) == StatAt(b, q)
    ensures a == b
    decreases a
  {
    assert StatAt(a, []) == StatAt(b, []);
    if a.Dir? {
      forall n
        ensures n in a.entries <==> n in b.entries
        ensures n in a.entries ==> a.entries[n] == b.entries[n]
      {
        assert StatAt(a, [n]) == StatAt(b, [n]);
        LookupOne(a, n);
        LookupOne(b, n);
        if n in a.entries {
          forall q
            ensures StatAt(a.entries[n], q) == StatAt(b.entries[n], q)
          {
            assert ([n] + q)[1..] == q;
            assert StatAt(a, [n] + q) == StatAt(b, [n] + q);
          }
          Extensional(a.entries[n], b.entries[n]);
        }
      }
    }
  }
}
