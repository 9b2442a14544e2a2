/** Text helpers shared by the models.  A `char` stands for one unit of encoded text, and case folding is
    ASCII case folding. */
module Text {
  function LowerChar(c: char): char {
    if 'A' <= c <= 'Z' then (c as int + 32) as char else c
  }

  function Fold(s: string): (r: string)
    ensures |r| == |s|
  {
    seq(|s|, i requires 0 <= i < |s| => LowerChar(s[i]))
  }

  const SmallLetters := "abcdefghijklmnopqrstuvwxyz"
  const CapitalLetters := "ABCDEFGHIJKLMNOPQRSTUVWXYZ"

  /** The same character, or the same letter in both cases. */
  predicate SameLetter(a: char, b: char) {
    a == b || exists k | 0 <= k < 26 :: {a, b} == {SmallLetters[k], CapitalLetters[k]}
  }

  /** The texts differ at most in case. */
  ghost predicate SameButCase(a: string, b: string) { |a| == |b| && forall i | 0 <= i < |a| :: SameLetter(a[i], b[i]) }

  lemma Alphabet(k: int)
    requires 0 <= k < 26
    ensures SmallLetters[k] as int == 97 + k && CapitalLetters[k] as int == 65 + k
  {
  }

  lemma LowerCharIff(a: char, b: char)
    ensures LowerChar(a) == LowerChar(b) <==> SameLetter(a, b)
  {
    forall k | 0 <= k < 26
      ensures SmallLetters[k] as int == 97 + k && CapitalLetters[k] as int == 65 + k
    {
      Alphabet(k);
    }
    hide SmallLetters, CapitalLetters;
    if LowerChar(a) == LowerChar(b) && a != b {
      var k := LowerChar(a) as int - 97;
      assert SmallLetters[k] == LowerChar(a);
    }
  }

  /** Folding identifies exactly the texts that differ at most in case. */
  lemma FoldIff(a: string, b: string)
    ensures Fold(a) == Fold(b) <==> SameButCase(a, b)
  {
    forall i | 0 <= i < |a| && i < |b| ensures Fold(a)[i] == Fold(b)[i] <==> SameLetter(a[i], b[i]) {
      LowerCharIff(a[i], b[i]);
    }
    hide LowerChar, SameLetter;
    if SameButCase(a, b) { assert Fold(a) == Fold(b); }
  }

  /** Folding turns capital letters into small ones and leaves everything else. */
  lemma FoldedLetter(s: string, i: nat)
    requires i < |s|
    ensures || (s[i] !in CapitalLetters && Fold(s)[i] == s[i])
            || exists k :: 0 <= k < 26 && s[i] == CapitalLetters[k] && Fold(s)[i] == SmallLetters[k]
  {
    forall k | 0 <= k < 26 { Alphabet(k); }
    assert |CapitalLetters| == 26 && |SmallLetters| == 26;
    hide SmallLetters, CapitalLetters;
    if 'A' <= s[i] <= 'Z' {
      var k := s[i] as int - 65;
      assert s[i] == CapitalLetters[k] && Fold(s)[i] == SmallLetters[k];
    } else {
      forall k | 0 <= k < 26 ensures CapitalLetters[k] != s[i] { }
    }
  }

  /** `a` comes first: it is the beginning of `b`, or has the smaller character where they first differ. */
  ghost predicate Before(a: string, b: string) { a < b || exists k :: FirstDifference(a, b, k) && a[k] < b[k] }

  ghost predicate FirstDifference(a: string, b: string, k: int) {
    0 <= k < |a| && k < |b| && a[k] != b[k] && forall j | 0 <= j < k :: a[j] == b[j]
  }

  /** Code-unit order on strings, the order `sorted` uses on a `str` key. */
  predicate StrLe(a: string, b: string) {
    a == "" || (b != "" && (a[0] < b[0] || (a[0] == b[0] && StrLe(a[1..], b[1..]))))
  }

  lemma {:induction false} StrLeIff(a: string, b: string)
    ensures StrLe(a, b) <==> a == b || Before(a, b)
  {
    if a != "" && b != "" {
      if a[0] == b[0] {
        StrLeIff(a[1..], b[1..]);
        BeforeCons(a, b);
        hide Before;
      } else {
        assert FirstDifference(a, b, 0);
      }
    }
  }

  lemma BeforeCons(a: string, b: string)
    requires a != "" && b != "" && a[0] == b[0]
    ensures Before(a, b) <==> Before(a[1..], b[1..])
    ensures a == b <==> a[1..] == b[1..]
  {
    assert a == [a[0]] + a[1..] && b == [b[0]] + b[1..];
    if k :| FirstDifference(a, b, k) && a[k] < b[k] { assert FirstDifference(a[1..], b[1..], k - 1); }
    if k :| FirstDifference(a[1..], b[1..], k) && a[1..][k] < b[1..][k] {
      forall j | 0 <= j < k + 1 ensures a[j] == b[j] {
        if j > 0 { assert a[1..][j - 1] == b[1..][j - 1]; }
      }
      assert FirstDifference(a, b, k + 1);
    }
  }

  lemma StrLeTotal(a: string, b: string)
    ensures StrLe(a, b) || StrLe(b, a)
  {
  }

  lemma StrLeAntisymmetric(a: string, b: string)
    requires StrLe(a, b) && StrLe(b, a)
    ensures a == b
  {
    if a != "" {
      StrLeAntisymmetric(a[1..], b[1..]);
      assert a == [a[0]] + a[1..] && b == [b[0]] + b[1..];
    }
  }

  lemma StrLeTransitive(a: string, b: string, c: string)
    requires StrLe(a, b) && StrLe(b, c)
    ensures StrLe(a, c)
  {
    if a != "" && a[0] == b[0] == c[0] {
      StrLeTransitive(a[1..], b[1..], c[1..]);
    }
  }

  /** The sort key `(name.casefold(), name)`. */
  predicate KeyLe(a: string, b: string) {
    if Fold(a) == Fold(b) then StrLe(a, b) else StrLe(Fold(a), Fold(b))
  }

  /** Names are ordered without regard to case, and by case only when nothing else tells them apart. */
  lemma KeyLeIff(a: string, b: string)
    ensures KeyLe(a, b) <==> a == b || if SameButCase(a, b) then Before(a, b) else Before(Fold(a), Fold(b))
  {
    StrLeIff(a, b);
    StrLeIff(Fold(a), Fold(b));
    FoldIff(a, b);
    hide StrLe, Fold, SameButCase;
  }

  lemma KeyLeTotal(a: string, b: string)
    ensures KeyLe(a, b) || KeyLe(b, a)
  {
    StrLeTotal(a, b);
    StrLeTotal(Fold(a), Fold(b));
  }

  lemma KeyLeAntisymmetric(a: string, b: string)
    requires KeyLe(a, b) && KeyLe(b, a)
    ensures a == b
  {
    if Fold(a) == Fold(b) {
      StrLeAntisymmetric(a, b);
    } else {
      StrLeAntisymmetric(Fold(a), Fold(b));
    }
  }

  lemma KeyLeTransitive(a: string, b: string, c: string)
    requires KeyLe(a, b) && KeyLe(b, c)
    ensures KeyLe(a, c)
  {
    if Fold(a) == Fold(b) == Fold(c) {
      StrLeTransitive(a, b, c);
    } else {
      if Fold(a) == Fold(b) {
        assert StrLe(Fold(a), Fold(b)) by { StrLeTotal(Fold(a), Fold(b)); }
      }
      if Fold(b) == Fold(c) {
        assert StrLe(Fold(b), Fold(c)) by { StrLeTotal(Fold(b), Fold(c)); }
      }
      StrLeTransitive(Fold(a), Fold(b), Fold(c));
      if Fold(a) == Fold(c) {
        StrLeAntisymmetric(Fold(a), Fold(b));
      }
    }
  }

  predicate IsLeast(x: string, s: set<string>) {
    x in s && forall y | y in s :: KeyLe(x, y)
  }

  lemma LeastExists(s: set<string>) returns (x: string)
    requires s != {}
    ensures IsLeast(x, s)
  {
    x :| x in s;
    var rest := s - {x};
    KeyLeTotal(x, x);
    if rest != {} {
      var m := LeastExists(rest);
      KeyLeTotal(x, m);
      if KeyLe(x, m) {
        forall y | y in rest
          ensures KeyLe(x, y)
        {
          KeyLeTransitive(x, m, y);
        }
      } else {
        assert s == rest + {x};
        x := m;
      }
    } else {
      assert s == {x};
    }
  }

  lemma LeastUnique(s: set<string>)
    ensures forall x, y | IsLeast(x, s) && IsLeast(y, s) :: x == y
  {
    forall x, y | IsLeast(x, s) && IsLeast(y, s)
      ensures x == y
    {
      KeyLeAntisymmetric(x, y);
    }
  }

  predicate StrictlySorted(names: seq<string>) {
    forall i, j | 0 <= i < j < |names| :: KeyLe(names[i], names[j]) && names[i] != names[j]
  }

  function Least(s: set<string>): (x: string)
    requires s != {}
    ensures IsLeast(x, s)
  {
    assert exists x :: IsLeast(x, s) by { var x := LeastExists(s); }
    LeastUnique(s);
    var x :| x in s && IsLeast(x, s);
    x
  }

  /** `sorted(names, key=lambda n: (n.casefold(), n))` over distinct names. */
  function SortNames(s: set<string>): (r: seq<string>)
    ensures multiset(r) == multiset(s)
  {
    if s == {} then []
    else
      var x := Least(s);
      assert multiset(s) == multiset{x} + multiset(s - {x});
      [x] + SortNames(s - {x})
  }

  lemma SortNamesElements(s: set<string>)
    ensures forall n :: n in SortNames(s) <==> n in s
    ensures |SortNames(s)| == |s|
  {
    var r := SortNames(s);
    assert |multiset(r)| == |r| && |multiset(s)| == |s|;
    forall n
      ensures n in r <==> n in s
    {
      assert n in r <==> n in multiset(r);
    }
  }

  lemma {:induction false} SortNamesSorted(s: set<string>)
    ensures StrictlySorted(SortNames(s))
  {
    if s != {} {
      var x := Least(s);
      var rest := SortNames(s - {x});
      SortNamesSorted(s - {x});
      SortNamesElements(s - {x});
      assert forall n | n in rest :: n in s && n != x;
      StrictlySortedCons(x, rest, s);
    }
  }

  lemma StrictlySortedCons(x: string, rest: seq<string>, s: set<string>)
    requires IsLeast(x, s) && StrictlySorted(rest) && forall n | n in rest :: n in s && n != x
    ensures StrictlySorted([x] + rest)
  {
    var r := [x] + rest;
    forall i, j | 0 <= i < j < |r|
      ensures KeyLe(r[i], r[j]) && r[i] != r[j]
    {
      assert r[j] == rest[j - 1];
    }
  }

  /** `s.split(sep)` */
  function Split(s: string, sep: char): (r: seq<string>)
    ensures |r| > 0
  {
    if s == "" then [""]
    else
      var r := Split(s[1..], sep);
      if s[0] == sep then [""] + r else [[s[0]] + r[0]] + r[1..]
  }

  /** `sep.join(parts)` */
  function Join(parts: seq<string>, sep: char): string {
    if parts == [] then ""
    else if |parts| == 1 then parts[0]
    else parts[0] + [sep] + Join(parts[1..], sep)
  }

  lemma {:induction false} SplitWord(word: string, rest: string, sep: char)
    requires sep !in word
    ensures Split(word, sep) == [word]
    ensures Split(word + [sep] + rest, sep) == [word] + Split(rest, sep)
  {
    var whole := word + [sep] + rest;
    if word == "" {
      assert whole[1..] == rest;
    } else {
      SplitWord(word[1..], rest, sep);
      assert whole[1..] == word[1..] + [sep] + rest;
      assert [word[0]] + word[1..] == word;
    }
  }

  lemma {:induction false} SplitJoin(parts: seq<string>, sep: char)
    requires parts != [] && forall part | part in parts :: sep !in part
    ensures Split(Join(parts, sep), sep) == parts
  {
    if |parts| == 1 {
      SplitWord(parts[0], "", sep);
    } else {
      var rest := Join(parts[1..], sep);
      SplitJoin(parts[1..], sep);
      SplitWord(parts[0], rest, sep);
      assert Join(parts, sep) == parts[0] + [sep] + rest;
      assert [parts[0]] + parts[1..] == parts;
    }
  }

  lemma {:induction false} JoinSplit(s: string, sep: char)
    ensures Join(Split(s, sep), sep) == s
    ensures forall part | part in Split(s, sep) :: sep !in part
  {
    if s != "" {
      var r := Split(s[1..], sep);
      JoinSplit(s[1..], sep);
      if s[0] != sep {
        var t := [[s[0]] + r[0]] + r[1..];
        if |r| > 1 { assert t[1..] == r[1..]; }
      }
    }
  }

  // ---- stripping -----------------------------------------------------------------------------------------

  const Whitespace: set<char> := {' ', '\t', '\n', '\r'}

  predicate Blank(s: string) { forall c | c in s :: c in Whitespace }

  function LeftStrip(s: string): string { if s != "" && s[0] in Whitespace then LeftStrip(s[1..]) else s }

  function RightStrip(s: string): string {
    if s != "" && s[|s| - 1] in Whitespace then RightStrip(s[..|s| - 1]) else s
  }

  /** `s.strip()` */
  function Strip(s: string): string { RightStrip(LeftStrip(s)) }

  predicate Trimmed(s: string) { s != "" ==> s[0] !in Whitespace && s[|s| - 1] !in Whitespace }

  lemma {:induction false} LeftStripOf(pre: string, rest: string)
    requires Blank(pre) && (rest != "" ==> rest[0] !in Whitespace)
    ensures LeftStrip(pre + rest) == rest
  {
    if pre == "" {
      assert pre + rest == rest;
    } else {
      assert pre[0] in Whitespace && (pre + rest)[1..] == pre[1..] + rest;
      LeftStripOf(pre[1..], rest);
    }
  }

  lemma {:induction false} RightStripOf(rest: string, post: string)
    requires Blank(post) && (rest != "" ==> rest[|rest| - 1] !in Whitespace)
    ensures RightStrip(rest + post) == rest
    decreases |post|
  {
    if post == "" {
      assert rest + post == rest;
    } else {
      var n := |post| - 1;
      assert post[n] in Whitespace && (rest + post)[..|rest| + n] == rest + post[..n];
      RightStripOf(rest, post[..n]);
    }
  }

  /** Stripping is taking blanks off both ends. */
  lemma StripOf(pre: string, core: string, post: string)
    requires Blank(pre) && Blank(post) && Trimmed(core)
    ensures Strip(pre + core + post) == core
  {
    if core == "" {
      assert pre + core + post == (pre + post) + "";
      LeftStripOf(pre + post, "");
    } else {
      assert pre + core + post == pre + (core + post);
      LeftStripOf(pre, core + post);
      RightStripOf(core, post);
    }
  }

  lemma {:induction false} LeftStripParts(s: string) returns (pre: string)
    ensures s == pre + LeftStrip(s) && Blank(pre)
    ensures LeftStrip(s) != "" ==> LeftStrip(s)[0] !in Whitespace
  {
    pre := "";
    if s != "" && s[0] in Whitespace {
      var p := LeftStripParts(s[1..]);
      pre := [s[0]] + p;
      assert s == [s[0]] + s[1..];
    }
  }

  lemma {:induction false} RightStripParts(s: string) returns (post: string)
    ensures s == RightStrip(s) + post && Blank(post)
    ensures RightStrip(s) != "" ==> RightStrip(s)[|RightStrip(s)| - 1] !in Whitespace
    decreases |s|
  {
    post := "";
    if s != "" && s[|s| - 1] in Whitespace {
      var p := RightStripParts(s[..|s| - 1]);
      post := p + [s[|s| - 1]];
      assert s == s[..|s| - 1] + [s[|s| - 1]];
    }
  }

  lemma StripParts(s: string) returns (pre: string, post: string)
    ensures s == pre + Strip(s) + post && Blank(pre) && Blank(post) && Trimmed(Strip(s))
  {
    pre := LeftStripParts(s);
    post := RightStripParts(LeftStrip(s));
    var core := Strip(s);
    assert LeftStrip(s) == core + post;
    if core != "" { assert core[0] == LeftStrip(s)[0]; }
  }

  // ---- finding a character -------------------------------------------------------------------------------

  /** `s.find(c)` */
  function Find(s: string, c: char): int {
    if s == "" then -1 else if s[0] == c then 0 else var i := Find(s[1..], c); if i < 0 then -1 else i + 1
  }

  /** `s.rfind(c)` */
  function FindLast(s: string, c: char): int {
    if s == "" then -1 else if s[|s| - 1] == c then |s| - 1 else FindLast(s[..|s| - 1], c)
  }

  lemma {:induction false} FindAt(s: string, c: char)
    ensures -1 <= Find(s, c) < |s| && (Find(s, c) == -1 <==> c !in s)
    ensures Find(s, c) >= 0 ==> s[Find(s, c)] == c && c !in s[..Find(s, c)]
  {
    if s != "" {
      FindAt(s[1..], c);
      assert s == [s[0]] + s[1..];
      if Find(s, c) > 0 { assert s[..Find(s, c)] == [s[0]] + s[1..][..Find(s, c) - 1]; }
    }
  }

  lemma {:induction false} FindLastAt(s: string, c: char)
    ensures -1 <= FindLast(s, c) < |s| && (FindLast(s, c) == -1 <==> c !in s)
    ensures FindLast(s, c) >= 0 ==> s[FindLast(s, c)] == c && c !in s[FindLast(s, c) + 1..]
    decreases |s|
  {
    if s != "" {
      var init, i := s[..|s| - 1], FindLast(s, c);
      FindLastAt(init, c);
      assert s == init + [s[|s| - 1]];
      if 0 <= i < |s| - 1 { assert s[i + 1..] == init[i + 1..] + [s[|s| - 1]]; }
    }
  }

  lemma StartsAtIff(s: string, i: nat, word: string)
    requires i <= |s|
    ensures StartsAt(s, i, word) <==> exists b :: s == s[..i] + word + b
  {
    if StartsAt(s, i, word) {
      assert s == s[..i] + word + s[i + |word|..];
    }
    if b :| s == s[..i] + word + b {
      assert s[i..] == word + b;
    }
  }

  /** A word is contained where the text splits around it. */
  lemma ContainsIff(s: string, word: string)
    ensures Contains(s, word) <==> exists a, b :: s == a + word + b
  {
    forall i: nat | i <= |s| { StartsAtIff(s, i, word); }
    hide StartsAt;
    if a, b :| s == a + word + b {
      assert s[..|a|] == a && s == s[..|a|] + word + b;
      assert StartsAt(s, |a|, word);
    }
  }

  /** Parts free of the character locate it. */
  lemma Located(a: string, c: char, b: string)
    ensures c !in a ==> Find(a + [c] + b, c) == |a|
    ensures c !in b ==> FindLast(a + [c] + b, c) == |a|
  {
    var s := a + [c] + b;
    FindAt(s, c);
    FindLastAt(s, c);
    assert s[|a|] == c && s[|a| + 1..] == b && s[..|a|] == a;
    var i, j := Find(s, c), FindLast(s, c);
    forall k | 0 <= k < i ensures s[k] != c { assert s[k] == s[..i][k]; }
    forall k | 0 <= j < k < |s| ensures s[k] != c { assert s[k] == s[j + 1..][k - j - 1]; }
    if i < |a| { assert s[i] == a[i]; }
    if j > |a| { assert s[j] == b[j - |a| - 1]; }
  }

  // ---- substrings ----------------------------------------------------------------------------------------

  predicate StartsAt(s: string, i: nat, word: string)
    requires i <= |s|
  {
    word <= s[i..]
  }

  /** `word in s` */
  predicate Contains(s: string, word: string) { exists i | 0 <= i <= |s| :: StartsAt(s, i, word) }

  // ---- text mode ---------------------------------------------------------------------------------------

  /** Reading in text mode: every line end becomes LF. */
  function Universal(s: string): string {
    if s == [] then []
    else if |s| >= 2 && s[0] == '\r' && s[1] == '\n' then ['\n'] + Universal(s[2..])
    else [if s[0] == '\r' then '\n' else s[0]] + Universal(s[1..])
  }

  lemma {:induction false} UniversalFixed(s: string)
    ensures |Universal(s)| <= |s|
    ensures Universal(s) == s <==> '\r' !in s
    decreases |s|
  {
    if s == [] {
    } else if |s| >= 2 && s[0] == '\r' && s[1] == '\n' {
      UniversalFixed(s[2..]);
    } else {
      UniversalFixed(s[1..]);
      assert s == [s[0]] + s[1..] && Universal(s)[1..] == Universal(s[1..]);
    }
  }
}
