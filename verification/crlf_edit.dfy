/** The exact-match edit of `edit_file`, and why editing a CRLF file through LF snippets is sound. */
module CrlfEdit {
  type Text = seq<char>

  /** `text.replace("\n", "\r\n")` */
  function Encode(s: Text): Text {
    if s == [] then [] else (if s[0] == '\n' then ['\r', '\n'] else [s[0]]) + Encode(s[1..])
  }

  /** `text.replace("\r\n", "\n")` */
  function Decode(s: Text): Text {
    if s == [] then []
    else if |s| >= 2 && s[0] == '\r' && s[1] == '\n' then ['\n'] + Decode(s[2..])
    else [s[0]] + Decode(s[1..])
  }

  /** `text.count(pattern)`: matches do not overlap and are found from the left. */
  function Count(s: Text, pattern: Text): nat
    requires pattern != []
  {
    if s == [] then 0
    else if pattern <= s then 1 + Count(s[|pattern|..], pattern)
    else Count(s[1..], pattern)
  }

  /** `text.replace(pattern, by, 1)` */
  function ReplaceFirst(s: Text, pattern: Text, repl: Text): Text
    requires pattern != []
  {
    if s == [] then []
    else if pattern <= s then repl + s[|pattern|..]
    else [s[0]] + ReplaceFirst(s[1..], pattern, repl)
  }

  const Lf: Text := ['\n']
  const Crlf: Text := ['\r', '\n']

  /** The file has line ends, and all of them are CRLF. */
  predicate Consistent(body: Text) { Count(body, Crlf) > 0 && Count(body, Lf) == Count(body, Crlf) }

  datatype Edit = NotFound | Ambiguous | Unchanged | Edited(text: Text)

  function RawEdit(body: Text, old_: Text, new_: Text): Edit
    requires old_ != []
  {
    if Count(body, old_) == 0 then NotFound
    else if Count(body, old_) != 1 then Ambiguous
    else if old_ == new_ then Unchanged
    else Edited(ReplaceFirst(body, old_, new_))
  }

  /** What `edit_file` does with the decoded text of a file. */
  function EditText(body: Text, old_: Text, new_: Text): Edit
    requires old_ != []
  {
    EncodeShape(Decode(old_));
    if Consistent(body) then RawEdit(body, Encode(Decode(old_)), Encode(Decode(new_))) else RawEdit(body, old_, new_)
  }

  function EncodeEdit(e: Edit): Edit { if e.Edited? then Edited(Encode(e.text)) else e }

  predicate EndsWithCr(s: Text) { s != [] && s[|s| - 1] == '\r' }

  // ---- encoding and decoding -----------------------------------------------------------------------------

  lemma EncodeShape(s: Text)
    ensures s != [] <==> Encode(s) != []
    ensures s != [] ==> Encode(s)[0] == (if s[0] == '\n' then '\r' else s[0])
  {
  }

  lemma {:induction false} EncodeAppend(a: Text, b: Text)
    ensures Encode(a + b) == Encode(a) + Encode(b)
  {
    if a == [] {
      assert a + b == b;
    } else {
      assert (a + b)[1..] == a[1..] + b;
      EncodeAppend(a[1..], b);
    }
  }

  lemma {:induction false} DecodeEncode(s: Text)
    ensures Decode(Encode(s)) == s
  {
    if s != [] {
      var e := Encode(s);
      DecodeEncode(s[1..]);
      EncodeShape(s[1..]);
      if s[0] == '\n' { assert e[2..] == Encode(s[1..]); } else { assert e[1..] == Encode(s[1..]); }
    }
  }

  /** The two counts agree exactly when every LF follows a CR, which is when encoding undoes decoding. */
  lemma {:induction false} CountsAgreeIff(b: Text)
    ensures Count(b, Crlf) <= Count(b, Lf)
    ensures Count(b, Crlf) == Count(b, Lf) <==> Encode(Decode(b)) == b
    decreases |b|
  {
    if b == [] {
    } else if Crlf <= b {
      CountsAgreeIff(b[2..]);
      assert b[1..][1..] == b[2..] && Lf <= b[1..];
      assert Decode(b) == Lf + Decode(b[2..]) && Decode(b)[1..] == Decode(b[2..]);
      assert b == Crlf + b[2..];
    } else {
      CountsAgreeIff(b[1..]);
      assert Decode(b) == [b[0]] + Decode(b[1..]) && Decode(b)[1..] == Decode(b[1..]);
      assert b == [b[0]] + b[1..];
      if b[0] == '\n' {
        assert Lf <= b && Encode(Decode(b))[0] == '\r';
      } else {
        assert Encode(Decode(b)) == [b[0]] + Encode(Decode(b[1..]));
      }
    }
  }

  lemma EncodedIsConsistent(s: Text)
    ensures Count(Encode(s), Lf) == Count(Encode(s), Crlf)
  {
    DecodeEncode(s);
    CountsAgreeIff(Encode(s));
  }

  // ---- matching in encoded text --------------------------------------------------------------------------

  function Unit(c: char): Text { if c == '\n' then Crlf else [c] }

  lemma EncodeCons(s: Text)
    requires s != []
    ensures Encode(s) == Unit(s[0]) + Encode(s[1..])
  {
  }

  /** Encodings of texts with different first characters differ within two characters. */
  lemma HeadsDiffer(o: Text, d: Text)
    requires o != [] && d != [] && o[0] != d[0] && !EndsWithCr(o)
    ensures !(Encode(o) <= Encode(d))
  {
    EncodeCons(o);
    EncodeCons(d);
    EncodeShape(o[1..]);
    EncodeShape(d[1..]);
    var eo, ed, to, td := Encode(o), Encode(d), Encode(o[1..]), Encode(d[1..]);
    hide Encode;
    if o[0] == '\n' {
      assert eo[0] == '\r' && eo[1] == '\n';
      assert |ed| > 1 ==> ed[1] == td[0] != '\n';
    } else if d[0] == '\n' && o[0] == '\r' {
      assert o[|o| - 1] != '\r' && eo[1] == to[0] != '\n' && ed[1] == '\n';
    } else {
      assert eo[0] != ed[0];
    }
  }

  /** Encoding neither makes nor breaks a match at the front. */
  lemma {:induction false} EncodePrefix(o: Text, d: Text)
    requires !EndsWithCr(o)
    ensures Encode(o) <= Encode(d) <==> o <= d
  {
    if o == [] || d == [] {
      EncodeShape(o);
    } else {
      EncodeCons(o);
      EncodeCons(d);
      assert o == [o[0]] + o[1..] && d == [d[0]] + d[1..];
      EncodePrefix(o[1..], d[1..]);
      if o[0] == d[0] {
        PrefixCancel(Unit(o[0]), Encode(o[1..]), Encode(d[1..]));
      } else {
        HeadsDiffer(o, d);
      }
    }
  }

  lemma PrefixCancel(head: Text, a: Text, b: Text)
    ensures head + a <= head + b <==> a <= b
  {
    assert (head + a)[|head|..] == a && (head + b)[|head|..] == b;
    if head + a <= head + b {
      assert forall k | 0 <= k < |a| :: a[k] == (head + a)[|head| + k] == (head + b)[|head| + k] == b[k];
    }
  }

  lemma EncodeDrop(o: Text, d: Text)
    requires o <= d
    ensures Encode(o) <= Encode(d) && Encode(d)[|Encode(o)|..] == Encode(d[|o|..])
  {
    assert d == o + d[|o|..];
    EncodeAppend(o, d[|o|..]);
  }

  lemma Skip(s: Text, p: Text, repl: Text)
    requires p != [] && s != [] && !(p <= s)
    ensures Count(s, p) == Count(s[1..], p) && ReplaceFirst(s, p, repl) == [s[0]] + ReplaceFirst(s[1..], p, repl)
  {
  }

  lemma SkipUnit(c: char, tail: Text, p: Text, repl: Text)
    requires p != [] && p[0] != '\n' && !(p <= Unit(c) + tail)
    ensures Count(Unit(c) + tail, p) == Count(tail, p)
    ensures ReplaceFirst(Unit(c) + tail, p, repl) == Unit(c) + ReplaceFirst(tail, p, repl)
  {
    var e := Unit(c) + tail;
    Skip(e, p, repl);
    hide Count;
    hide ReplaceFirst;
    if c == '\n' {
      assert e[1..] == Lf + tail && e[1..][1..] == tail;
      assert e[1..][0] == '\n';
      Skip(e[1..], p, repl);
    } else {
      assert e[1..] == tail;
    }
  }

  /** Without a match at the front, matching resumes after the whole encoding of the first character. */
  lemma Resume(o: Text, d: Text, repl: Text)
    requires o != [] && !EndsWithCr(o) && d != [] && !(o <= d) && Encode(o) != []
    ensures Count(Encode(d), Encode(o)) == Count(Encode(d[1..]), Encode(o))
    ensures ReplaceFirst(Encode(d), Encode(o), repl) ==
            Unit(d[0]) + ReplaceFirst(Encode(d[1..]), Encode(o), repl)
  {
    EncodePrefix(o, d);
    EncodeShape(o);
    EncodeCons(d);
    hide *;
    SkipUnit(d[0], Encode(d[1..]), Encode(o), repl);
  }

  lemma {:induction false} EncodedMatches(d: Text, o: Text, n: Text)
    requires o != [] && !EndsWithCr(o)
    ensures Encode(o) != [] && Count(Encode(d), Encode(o)) == Count(d, o)
    ensures ReplaceFirst(Encode(d), Encode(o), Encode(n)) == Encode(ReplaceFirst(d, o, n))
    decreases |d|
  {
    EncodeShape(o);
    if d == [] {
    } else if o <= d {
      EncodeShape(d);
      EncodeDrop(o, d);
      EncodedMatches(d[|o|..], o, n);
      EncodeAppend(n, d[|o|..]);
    } else {
      Resume(o, d, Encode(n));
      EncodedMatches(d[1..], o, n);
      var rest := ReplaceFirst(d[1..], o, n);
      assert ([d[0]] + rest)[1..] == rest;
      EncodeCons([d[0]] + rest);
    }
  }

  // ---- main results --------------------------------------------------------------------------------------

  /** Editing a CRLF file is editing its LF text and encoding the result, so its line ends stay CRLF. */
  lemma CrlfEditRefinesLfEdit(body: Text, old_: Text, new_: Text)
    requires old_ != [] && Consistent(body) && !EndsWithCr(Decode(old_))
    ensures Decode(old_) != []
    ensures Count(body, Encode(Decode(old_))) == Count(Decode(body), Decode(old_))
    ensures EditText(body, old_, new_) == EncodeEdit(RawEdit(Decode(body), Decode(old_), Decode(new_)))
    ensures var e := EditText(body, old_, new_);
            e.Edited? ==> Count(e.text, Lf) == Count(e.text, Crlf) && Encode(Decode(e.text)) == e.text
  {
    var d, o, n := Decode(body), Decode(old_), Decode(new_);
    CountsAgreeIff(body);
    EncodedMatches(d, o, n);
    DecodeEncode(o);
    DecodeEncode(n);
    EncodedIsConsistent(ReplaceFirst(d, o, n));
    CountsAgreeIff(Encode(ReplaceFirst(d, o, n)));
  }

  /** An LF text that `o`, which ends in CR, does not match although its encoding is matched. */
  lemma HalfALineEnd(o: Text) returns (d: Text)
    requires EndsWithCr(o)
    ensures Consistent(Encode(d)) && Count(d, o) == 0 && Encode(o) != [] && Count(Encode(d), Encode(o)) > 0
  {
    var stem := o[..|o| - 1];
    d := stem + Lf;
    assert o == stem + ['\r'];
    EncodeAppend(stem, ['\r']);
    EncodeAppend(stem, Lf);
    EncodeShape(o);
    assert Encode(Lf) == Crlf && Encode(['\r']) == ['\r'];
    assert Encode(o) == Encode(stem) + ['\r'];
    assert Encode(d) == Encode(stem) + Crlf;
    assert Encode(o) <= Encode(d);
    EncodedIsConsistent(d);
    SuffixCounts(Encode(stem), Crlf);
    assert d[|o| - 1] != o[|o| - 1];
    TooShort(d, o);
  }

  /** Replacing half of a line end leaves the other half. */
  lemma EditLeavesBareLf()
    ensures var body, old_ := ['a', '\r', '\n'], ['a', '\r'];
            && Consistent(body) && EndsWithCr(Decode(old_))
            && EditText(body, old_, []) == Edited(Lf) && Count(Lf, Lf) != Count(Lf, Crlf)
  {
    var body, old_: Text := ['a', '\r', '\n'], ['a', '\r'];
    assert body[1..] == Crlf && old_[1..] == ['\r'] && body[2..] == Lf && Lf[1..] == [];
    assert Decode(['\r']) == ['\r'] && Decode(old_) == ['a'] + ['\r'] == old_;
    assert Encode(['\r']) == ['\r'] && Encode(old_) == ['a'] + ['\r'] == old_;
    assert old_ <= body && Count(body, old_) == 1 + Count(Lf, old_);
    assert Count(body, Crlf) == Count(Crlf, Crlf) == 1 && Count(body, Lf) == Count(Crlf, Lf) == Count(Lf, Lf) == 1;
  }

  lemma {:induction false} SuffixCounts(a: Text, pattern: Text)
    requires pattern == Crlf
    ensures Count(a + pattern, pattern) > 0
    decreases |a|
  {
    var s := a + pattern;
    if a == [] {
      assert s == pattern;
    } else if !(pattern <= s) {
      assert s[1..] == a[1..] + pattern;
      SuffixCounts(a[1..], pattern);
    }
  }

  lemma {:induction false} TooShort(s: Text, pattern: Text)
    requires pattern != [] && |s| <= |pattern| && s != pattern
    ensures Count(s, pattern) == 0
    decreases |s|
  {
    if s != [] { TooShort(s[1..], pattern); }
  }

  /** The refinement holds of every CRLF file and replacement exactly when the decoded snippet does not end in a bare
      CR: such a snippet matches the first half of a line end. */
  lemma RefinementIff(old_: Text)
    requires old_ != []
    ensures Decode(old_) != []
    ensures (forall body, new_ | Consistent(body) ::
               EditText(body, old_, new_) == EncodeEdit(RawEdit(Decode(body), Decode(old_), Decode(new_))))
            <==> !EndsWithCr(Decode(old_))
  {
    var o := Decode(old_);
    if EndsWithCr(o) {
      var d := HalfALineEnd(o);
      DecodeEncode(d);
      var e := EditText(Encode(d), old_, []);
      assert !e.NotFound? && RawEdit(Decode(Encode(d)), o, Decode([])).NotFound?;
    } else {
      forall body, new_ | Consistent(body)
        ensures EditText(body, old_, new_) == EncodeEdit(RawEdit(Decode(body), o, Decode(new_)))
      {
        CrlfEditRefinesLfEdit(body, old_, new_);
      }
    }
  }

  /** No match starts in `a`. */
  ghost predicate NoMatchBefore(a: Text, body: Text, pattern: Text) {
    forall i | 0 <= i < |a| && i <= |body| :: !(pattern <= body[i..])
  }

  /** A single edit replaces the first match and nothing else, and no match is left after it. */
  lemma EditIsLocal(body: Text, old_: Text, new_: Text, t: Text)
    requires old_ != []
    ensures RawEdit(body, old_, new_) == Edited(t) <==>
            old_ != new_ && exists a, b :: && body == a + old_ + b && t == a + new_ + b
                                           && NoMatchBefore(a, body, old_) && Count(b, old_) == 0
  {
    if RawEdit(body, old_, new_) == Edited(t) {
      var a, b := FirstMatch(body, old_, new_);
    }
    if a, b :| body == a + old_ + b && t == a + new_ + b && NoMatchBefore(a, body, old_) && Count(b, old_) == 0 {
      MatchAt(a, b, body, old_, new_);
    }
  }

  /** Every LF follows a CR. */
  ghost predicate NoBareLf(s: Text) { forall i | 0 <= i < |s| && s[i] == '\n' :: i > 0 && s[i - 1] == '\r' }

  lemma NoBareLfSteps(s: Text)
    requires s != []
    ensures if |s| >= 2 && s[0] == '\r' && s[1] == '\n' then NoBareLf(s) <==> NoBareLf(s[2..])
            else NoBareLf(s) <==> s[0] != '\n' && NoBareLf(s[1..])
  {
    if |s| >= 2 && s[0] == '\r' && s[1] == '\n' {
      assert forall i | 0 <= i < |s| - 2 :: s[2..][i] == s[i + 2];
      if NoBareLf(s[2..]) {
        forall i | 0 <= i < |s| && s[i] == '\n' ensures i > 0 && s[i - 1] == '\r' {
          if i >= 2 { assert s[2..][i - 2] == '\n'; }
        }
      }
    } else {
      assert forall i | 0 <= i < |s| - 1 :: s[1..][i] == s[i + 1];
      if NoBareLf(s[1..]) && s[0] != '\n' {
        forall i | 0 <= i < |s| && s[i] == '\n' ensures i > 0 && s[i - 1] == '\r' { assert s[1..][i - 1] == '\n'; }
      }
    }
  }

  lemma CountSteps(s: Text)
    requires s != []
    ensures if |s| >= 2 && s[0] == '\r' && s[1] == '\n'
            then Count(s, Crlf) == 1 + Count(s[2..], Crlf) && Count(s, Lf) == 1 + Count(s[2..], Lf)
            else
              && Count(s, Crlf) == Count(s[1..], Crlf)
              && Count(s, Lf) == Count(s[1..], Lf) + if s[0] == '\n' then 1 else 0
  {
    if |s| >= 2 && s[0] == '\r' && s[1] == '\n' {
      assert s[..2] == Crlf && s[1..][1..] == s[2..] && s[1..][..1] == Lf;
    } else {
      assert s[0] == '\n' ==> s[..1] == Lf;
      assert !(Crlf <= s);
    }
  }

  lemma {:induction false} CountsAgree(s: Text)
    ensures Count(s, Crlf) <= Count(s, Lf)
    ensures Count(s, Lf) == 0 <==> '\n' !in s
    ensures Count(s, Crlf) == Count(s, Lf) <==> NoBareLf(s)
    decreases |s|
  {
    if s != [] {
      NoBareLfSteps(s);
      CountSteps(s);
      hide *;
      if |s| >= 2 && s[0] == '\r' && s[1] == '\n' {
        CountsAgree(s[2..]);
      } else {
        CountsAgree(s[1..]);
        assert s == [s[0]] + s[1..];
      }
    }
  }

  /** The snippets are taken as they are, except in a file that has line ends, all of them CRLF: there each line end of
      the snippets becomes one. */
  lemma EditTextIs(body: Text, old_: Text, new_: Text)
    requires old_ != []
    ensures Encode(Decode(old_)) != []
    ensures EditText(body, old_, new_) ==
            if '\n' in body && NoBareLf(body) then RawEdit(body, Encode(Decode(old_)), Encode(Decode(new_)))
            else RawEdit(body, old_, new_)
  {
    EncodeShape(Decode(old_));
    CountsAgree(body);
  }

  ghost predicate NoMatchIn(s: Text, pattern: Text) { forall i | 0 <= i <= |s| :: !(pattern <= s[i..]) }

  lemma {:induction false} NoneCounted(s: Text, pattern: Text)
    requires pattern != []
    ensures Count(s, pattern) == 0 <==> NoMatchIn(s, pattern)
  {
    if s != [] {
      NoneCounted(s[1..], pattern);
      assert s[0..] == s && forall i | 1 <= i <= |s| :: s[i..] == s[1..][i - 1..];
      if NoMatchIn(s[1..], pattern) && !(pattern <= s) {
        forall i | 0 <= i <= |s| ensures !(pattern <= s[i..]) { }
      }
      if NoMatchIn(s, pattern) {
        forall i | 0 <= i <= |s| - 1 ensures !(pattern <= s[1..][i..]) { assert s[1..][i..] == s[i + 1..]; }
      }
    }
  }

  /** The first match of the snippet, with what is before and after it. */
  ghost predicate MatchesFirst(body: Text, old_: Text, a: Text, b: Text) {
    body == a + old_ + b && NoMatchBefore(a, body, old_)
  }

  /** An edit finds no match, or several, or just one; and then it is a change unless it replaces a text by itself. */
  lemma EditOutcome(body: Text, old_: Text, new_: Text)
    requires old_ != []
    ensures var e := RawEdit(body, old_, new_);
            && (e == NotFound <==> NoMatchIn(body, old_))
            && (e == Ambiguous <==> exists a, b :: MatchesFirst(body, old_, a, b) && !NoMatchIn(b, old_))
            && (e == Unchanged <==> old_ == new_ && exists a, b :: MatchesFirst(body, old_, a, b) && NoMatchIn(b, old_))
            && (e.Edited? <==> old_ != new_ && exists a, b :: MatchesFirst(body, old_, a, b) && NoMatchIn(b, old_))
  {
    NoneCounted(body, old_);
    forall a, b | MatchesFirst(body, old_, a, b)
      ensures Count(body, old_) == 1 + Count(b, old_) && (Count(b, old_) == 0 <==> NoMatchIn(b, old_))
    {
      MatchAt(a, b, body, old_, new_);
      NoneCounted(b, old_);
    }
    if Count(body, old_) > 0 {
      var a, b := FirstMatch(body, old_, new_);
      assert MatchesFirst(body, old_, a, b);
    }
  }

  lemma NoMatchCons(a: Text, body: Text, p: Text)
    requires body != [] && !(p <= body) && NoMatchBefore(a, body[1..], p)
    ensures NoMatchBefore([body[0]] + a, body, p)
  {
    forall i | 0 <= i < |a| + 1 && i <= |body| ensures !(p <= body[i..]) {
      if i == 0 { assert body[0..] == body; } else { assert body[i..] == body[1..][i - 1..]; }
    }
  }

  lemma Cons(body: Text, a: Text, p: Text, b: Text)
    requires body != []
    ensures body == [body[0]] + body[1..] && [body[0]] + a + p + b == [body[0]] + (a + p + b)
  {
    hide *;
  }

  lemma MatchHere(body: Text, p: Text, repl: Text)
    requires p != [] && p <= body
    ensures var b := body[|p|..];
            && body == [] + p + b && ReplaceFirst(body, p, repl) == [] + repl + b
            && NoMatchBefore([], body, p) && Count(body, p) == 1 + Count(b, p)
  {
  }

  lemma {:induction false} FirstMatch(body: Text, p: Text, repl: Text) returns (a: Text, b: Text)
    requires p != [] && Count(body, p) > 0
    ensures body == a + p + b && ReplaceFirst(body, p, repl) == a + repl + b
    ensures NoMatchBefore(a, body, p) && Count(body, p) == 1 + Count(b, p)
    decreases |body|
  {
    assert body != [];
    hide *;
    if p <= body {
      a, b := [], body[|p|..];
      MatchHere(body, p, repl);
    } else {
      Skip(body, p, repl);
      var a', b' := FirstMatch(body[1..], p, repl);
      a, b := [body[0]] + a', b';
      Cons(body, a', p, b');
      Cons(body, a', repl, b');
      NoMatchCons(a', body, p);
    }
  }

  lemma {:induction false} MatchAt(a: Text, b: Text, body: Text, p: Text, repl: Text)
    requires p != [] && body == a + p + b && NoMatchBefore(a, body, p)
    ensures Count(body, p) == 1 + Count(b, p) && ReplaceFirst(body, p, repl) == a + repl + b
    decreases |a|
  {
    if a == [] {
      assert body == p + b && body[|p|..] == b;
    } else {
      assert !(p <= body[0..]) && body[0..] == body;
      assert body[1..] == a[1..] + p + b;
      forall i | 0 <= i < |a[1..]| ensures !(p <= body[1..][i..]) {
        assert body[1..][i..] == body[i + 1..];
      }
      MatchAt(a[1..], b, body[1..], p, repl);
      assert [body[0]] + (a[1..] + repl + b) == a + repl + b;
    }
  }
}
