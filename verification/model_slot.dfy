/** `provider:model@effort` slots: the parser, the printer, and their round trip. */
module ModelSlots {
  import opened Options
  import opened Text

  const CliProviders: set<string> := {"codex", "claude", "copilot", "kimi"}
  const SlotProviders: set<string> := {"openrouter", "stub", "codex_cli", "claude_cli", "copilot_cli", "kimi_cli"}
  const EffortLevels: set<string> := {"low", "medium", "high"}

  /** An empty provider is the active backend, an empty model its default, and no effort is inherited. */
  datatype Slot = Slot(provider: string, model: string, effort: Option<string>) {
    predicate Empty() { provider == "" && model == "" }

    function Base(): string { if provider != "" && model != "" then provider + ":" + model else provider + model }

    function Address(): string { if effort.Some? then Base() + "@" + effort.value else Base() }
  }

  const Blanked := Slot("", "", None)

  /** `_split_effort` */
  function SplitEffort(text: string): (string, Option<string>) {
    FindLastAt(text, '@');
    var i := FindLast(text, '@');
    if i > 0 && Fold(Strip(text[i + 1..])) in EffortLevels
    then (text[..i], Some(Fold(Strip(text[i + 1..]))))
    else (text, None)
  }

  function Underscored(s: string): string { seq(|s|, i requires 0 <= i < |s| => if s[i] == '-' then '_' else s[i]) }

  /** `_normalize_provider`: "" for a name that is no provider. */
  function NormalProvider(raw: string): string {
    var token := Underscored(Fold(Strip(raw)));
    if token in SlotProviders then token else if token in CliProviders then token + "_cli" else ""
  }

  function ParseBase(text: string, effort: Option<string>): Slot {
    FindAt(text, ':');
    var i := Find(text, ':');
    var provider := NormalProvider(if i >= 0 then text[..i] else text);
    if provider == "" then Slot("", text, effort)
    else Slot(provider, if i >= 0 then Strip(text[i + 1..]) else "", effort)
  }

  function ParseSlot(raw: string): Slot {
    var text := Strip(raw);
    if text == "" then Blanked
    else
      var (base, effort) := SplitEffort(text);
      if base == "" then Blanked else ParseBase(base, effort)
  }

  // ---- lists ---------------------------------------------------------------------------------------------

  /** The slots of the tokens that are not blank. */
  function Slots(tokens: seq<string>): seq<Slot> {
    if tokens == [] then []
    else
      var s := ParseSlot(tokens[|tokens| - 1]);
      Slots(tokens[..|tokens| - 1]) + if s.Empty() then [] else [s]
  }

  function Addresses(slots: seq<Slot>): seq<string> { seq(|slots|, i requires 0 <= i < |slots| => slots[i].Address()) }

  method ParseSlots(raw: string) returns (slots: seq<Slot>)
    ensures slots == Slots(Split(raw, ','))
  {
    var tokens := Split(raw, ',');
    slots := [];
    for i := 0 to |tokens|
      invariant slots == Slots(tokens[..i])
    {
      assert tokens[..i + 1][..i] == tokens[..i];
      var slot := ParseSlot(tokens[i]);
      if !slot.Empty() { slots := slots + [slot]; }
    }
    assert tokens[..|tokens|] == tokens;
  }

  // ---- round trip ----------------------------------------------------------------------------------------

  /** Lower-case letters and underscores only. */
  predicate Plain(p: string) { p != "" && forall c | c in p :: 'a' <= c <= 'z' || c == '_' }

  lemma PlainIsFixed(p: string)
    requires Plain(p)
    ensures Trimmed(p) && Strip(p) == p && Fold(p) == p && Underscored(p) == p
    ensures ':' !in p && '@' !in p && ',' !in p
  {
    PlainUnchanged(p);
    assert p[0] in p && p[|p| - 1] in p;
    hide Strip, Fold, Underscored;
    assert Trimmed(p);
    StripTrimmed(p);
  }

  lemma PlainUnchanged(p: string)
    requires Plain(p)
    ensures Fold(p) == p && Underscored(p) == p
  {
    hide Strip;
    forall i | 0 <= i < |p| ensures Fold(p)[i] == p[i] && Underscored(p)[i] == p[i] { assert p[i] in p; }
  }

  lemma KnownArePlain(p: string)
    ensures p in SlotProviders || p in CliProviders || p in EffortLevels ==> Plain(p)
  {
  }

  lemma ProvidersAreFixed(p: string)
    requires p in SlotProviders
    ensures p != "" && Strip(p) == p && Trimmed(p) && NormalProvider(p) == p && ':' !in p && '@' !in p && ',' !in p
  {
    KnownArePlain(p);
    PlainIsFixed(p);
  }

  lemma EffortsAreFixed(e: string)
    requires e in EffortLevels
    ensures e != "" && Strip(e) == e && Fold(e) == e && Trimmed(e) && '@' !in e && ',' !in e
  {
    KnownArePlain(e);
    PlainIsFixed(e);
  }

  lemma NormalIsKnown(raw: string)
    ensures NormalProvider(raw) == "" || NormalProvider(raw) in SlotProviders
  {
    CliNames(Underscored(Fold(Strip(raw))));
    hide SlotProviders, CliProviders;
  }

  lemma CliNames(token: string)
    ensures token in CliProviders ==> token + "_cli" in SlotProviders
  {
    assert "codex" + "_cli" == "codex_cli";
    assert "claude" + "_cli" == "claude_cli";
    assert "copilot" + "_cli" == "copilot_cli";
    assert "kimi" + "_cli" == "kimi_cli";
  }

  /** An effort that was printed is peeled off again. */
  lemma PeelsEffort(base: string, e: string)
    requires base != "" && e in EffortLevels
    ensures SplitEffort(base + "@" + e) == (base, Some(e))
  {
    EffortsAreFixed(e);
    Located(base, '@', e);
    var text := base + "@" + e;
    assert base + ['@'] + e == text && text[|base| + 1..] == e && text[..|base|] == base;
  }

  lemma EffortIff(a: string, z: string)
    requires a != "" && '@' !in z
    ensures SplitEffort(a + "@" + z).1.Some? <==> Fold(Strip(z)) in EffortLevels
  {
    hide EffortLevels, Fold, Strip;
    var text := a + "@" + z;
    Located(a, '@', z);
    assert text == a + ['@'] + z && text[|a| + 1..] == z;
  }

  lemma NothingPeeled(text: string)
    ensures SplitEffort(text).1.None? ==> SplitEffort(text) == (text, None)
    ensures '@' !in text ==> SplitEffort(text) == (text, None)
  {
    hide EffortLevels, Fold, Strip;
    FindLastAt(text, '@');
  }

  /** What follows a provider has no effort to peel, if the text it came from had none. */
  lemma NoEffortAppears(head: string, tail: string, p: string)
    requires head != "" && p != "" && '@' !in p
    requires SplitEffort(head + ":" + tail).1.None?
    ensures SplitEffort(p + ":" + Strip(tail)) == (p + ":" + Strip(tail), None)
  {
    hide SplitEffort, EffortLevels, Fold, Strip;
    var pre, post := StripParts(tail);
    var m := Strip(tail);
    NothingPeeled(p + ":" + m);
    if '@' in m {
      FindLastAt(m, '@');
      var j := FindLast(m, '@');
      var x, y := m[..j], m[j + 1..];
      assert p + ":" + m == (p + ":" + x) + "@" + y;
      assert head + ":" + tail == (head + ":" + pre + x) + "@" + (y + post);
      EffortIff(p + ":" + x, y);
      BlankHasNoAt(post);
      EffortIff(head + ":" + pre + x, y + post);
      SameStrip(y, post);
    }
  }

  lemma BlankHasNoAt(s: string)
    requires Blank(s)
    ensures '@' !in s
  {
  }

  lemma SameStrip(y: string, post: string)
    requires Blank(post)
    ensures Strip(y + post) == Strip(y)
  {
    var a, b := StripParts(y);
    assert y + post == a + Strip(y) + (b + post);
    StripOf(a, Strip(y), b + post);
  }

  /** What can be printed and parsed back. */
  ghost predicate Printable(s: Slot) {
    var base := s.Base();
    && base != "" && base[0] !in Whitespace && (s.effort.None? ==> base[|base| - 1] !in Whitespace)
    && (s.effort.Some? ==> s.effort.value in EffortLevels)
    && (s.effort.None? ==> SplitEffort(base) == (base, None))
    && ParseBase(base, s.effort) == s
  }

  lemma AddressEnds(base: string, e: string)
    requires base != "" && base[0] !in Whitespace && e != "" && Trimmed(e)
    ensures Trimmed(base + "@" + e) && base + "@" + e != ""
  {
    var text := base + "@" + e;
    assert text[0] == base[0] && text[|text| - 1] == e[|e| - 1];
  }

  lemma PrintableRoundTrips(s: Slot)
    requires Printable(s)
    ensures ParseSlot(s.Address()) == s
  {
    var text := s.Address();
    hide EffortLevels, SplitEffort, ParseBase, Strip, Slot.Base;
    if s.effort.Some? {
      EffortsAreFixed(s.effort.value);
      PeelsEffort(s.Base(), s.effort.value);
      AddressEnds(s.Base(), s.effort.value);
    }
    StripTrimmed(text);
  }

  lemma StripTrimmed(text: string)
    requires Trimmed(text)
    ensures Strip(text) == text
  {
    StripOf("", text, "");
    assert "" + text + "" == text;
  }

  lemma BaseOfProvider(p: string, m: string, effort: Option<string>)
    requires p in SlotProviders && Trimmed(m)
    ensures ParseBase(Slot(p, m, effort).Base(), effort) == Slot(p, m, effort)
  {
    ProvidersAreFixed(p);
    hide SlotProviders, NormalProvider, Strip, Find;
    BaseShape(p, m, effort);
    hide Slot.Base;
    if m != "" {
      var base := p + ":" + m;
      assert base == p + [':'] + m;
      Located(p, ':', m);
      assert base[..|p|] == p && base[|p| + 1..] == m;
      StripTrimmed(m);
    } else {
      FindAt(p, ':');
    }
  }

  lemma AtSurvives(raw: string)
    requires '@' in raw
    ensures '@' in Underscored(Fold(Strip(raw)))
  {
    var pre, post := StripParts(raw);
    var token := Strip(raw);
    BlankHasNoAt(pre);
    BlankHasNoAt(post);
    hide *;
    assert '@' in token;
    var i :| 0 <= i < |token| && token[i] == '@';
    FoldedAt(token, i);
  }

  lemma FoldedAt(token: string, i: nat)
    requires i < |token| && token[i] == '@'
    ensures '@' in Underscored(Fold(token))
  {
    assert Underscored(Fold(token))[i] == '@';
  }

  lemma ProviderHasNoAt(raw: string)
    ensures NormalProvider(raw) != "" ==> '@' !in raw
    ensures NormalProvider("") == ""
  {
    var token := Underscored(Fold(Strip(raw)));
    KnownArePlain(token);
    KnownArePlain("");
    if '@' in raw { AtSurvives(raw); }
    hide SlotProviders, CliProviders, Fold;
  }

  lemma ParsedIsPrintable(raw: string)
    requires !ParseSlot(raw).Empty()
    ensures Printable(ParseSlot(raw))
  {
    var text := Strip(raw);
    var pre, post := StripParts(raw);
    var (base, effort) := SplitEffort(text);
    SplitShape(text);
    hide SplitEffort, Strip, NormalProvider, EffortLevels;
    BaseIsPrintable(base, effort);
  }

  lemma SplitShape(text: string)
    requires text != "" && Trimmed(text)
    ensures var (base, effort) := SplitEffort(text);
            && base != "" && base[0] !in Whitespace && (effort.Some? ==> effort.value in EffortLevels)
            && (effort.None? ==> SplitEffort(base) == (base, None) && base[|base| - 1] !in Whitespace)
  {
    hide EffortLevels, Fold, Strip;
    FindLastAt(text, '@');
  }

  lemma BaseIsPrintable(base: string, effort: Option<string>)
    requires base != "" && base[0] !in Whitespace && (effort.Some? ==> effort.value in EffortLevels)
    requires effort.None? ==> SplitEffort(base) == (base, None) && base[|base| - 1] !in Whitespace
    ensures Printable(ParseBase(base, effort))
  {
    FindAt(base, ':');
    var i := Find(base, ':');
    var head := if i >= 0 then base[..i] else base;
    var p := NormalProvider(head);
    NormalIsKnown(head);
    if p == "" {
      PrintableModel(base, effort);
    } else {
      assert ParseBase(base, effort) == Slot(p, if i >= 0 then Strip(base[i + 1..]) else "", effort);
      hide *;
      if i < 0 {
        ProviderAlone(p);
        EmptyIsTrimmed();
        PrintableProvider(p, "", effort);
      } else {
        HeadAndTail(base, i, p, effort);
      }
    }
  }

  lemma PrintableModel(base: string, effort: Option<string>)
    requires base != "" && base[0] !in Whitespace && (effort.Some? ==> effort.value in EffortLevels)
    requires effort.None? ==> SplitEffort(base) == (base, None) && base[|base| - 1] !in Whitespace
    requires ParseBase(base, effort) == Slot("", base, effort)
    ensures Printable(Slot("", base, effort))
  {
    hide SplitEffort, EffortLevels, ParseBase;
    assert Slot("", base, effort).Base() == base;
  }

  lemma EmptyIsTrimmed()
    ensures Trimmed("")
  {
  }

  lemma HeadAndTail(base: string, i: nat, p: string, effort: Option<string>)
    requires i < |base| && base[i] == ':' && p in SlotProviders && p == NormalProvider(base[..i])
    requires effort.Some? ==> effort.value in EffortLevels
    requires effort.None? ==> SplitEffort(base) == (base, None)
    ensures Printable(Slot(p, Strip(base[i + 1..]), effort))
  {
    hide *;
    var head, tail := base[..i], base[i + 1..];
    assert base == head + ":" + tail;
    var _, _ := StripParts(tail);
    if effort.None? { ProviderAndModel(head, tail, p); }
    PrintableProvider(p, Strip(tail), effort);
  }

  lemma ProviderAlone(p: string)
    requires p in SlotProviders
    ensures var b := Slot(p, "", None).Base(); SplitEffort(b) == (b, None)
  {
    ProvidersAreFixed(p);
    NothingPeeled(p);
    BaseShape(p, "", None);
  }

  lemma ProviderAndModel(head: string, tail: string, p: string)
    requires p in SlotProviders && SplitEffort(head + ":" + tail).1.None? && NormalProvider(head) == p
    ensures var b := Slot(p, Strip(tail), None).Base(); SplitEffort(b) == (b, None)
  {
    ProvidersAreFixed(p);
    ProviderHasNoAt(head);
    hide *;
    BaseShape(p, Strip(tail), None);
    if Strip(tail) == "" { NothingPeeled(p); } else { NoEffortAppears(head, tail, p); }
  }

  lemma BaseShape(p: string, m: string, e: Option<string>)
    requires p != ""
    ensures Slot(p, m, e).Base() == (if m != "" then p + ":" + m else p)
  {
    assert p + "" == p;
  }

  lemma BaseEnds(p: string, m: string, e: Option<string>)
    requires p != "" && Trimmed(p) && Trimmed(m)
    ensures var b := Slot(p, m, e).Base(); b != "" && Trimmed(b) && b == Slot(p, m, None).Base()
  {
    BaseShape(p, m, e);
    BaseShape(p, m, None);
    if m != "" {
      var b := p + ":" + m;
      assert b[0] == p[0] && b[|b| - 1] == m[|m| - 1];
    }
  }

  lemma PrintableProvider(p: string, m: string, effort: Option<string>)
    requires p in SlotProviders && Trimmed(m) && (effort.Some? ==> effort.value in EffortLevels)
    requires effort.None? ==> var b := Slot(p, m, None).Base(); SplitEffort(b) == (b, None)
    ensures Printable(Slot(p, m, effort))
  {
    ProvidersAreFixed(p);
    BaseOfProvider(p, m, effort);
    BaseEnds(p, m, effort);
    hide SplitEffort, EffortLevels, SlotProviders, ParseBase, Slot.Base;
  }

  /** Printing what was parsed and parsing it again gives the same slot. */
  lemma SlotRoundTrip(raw: string)
    ensures ParseSlot(ParseSlot(raw).Address()) == ParseSlot(raw)
  {
    if ParseSlot(raw).Empty() {
      EmptyIsBlanked(raw);
    } else {
      ParsedIsPrintable(raw);
      PrintableRoundTrips(ParseSlot(raw));
    }
  }

  lemma EmptyIsBlanked(raw: string)
    requires ParseSlot(raw).Empty()
    ensures ParseSlot(raw) == Blanked
  {
  }

  // ---- round trip of lists -------------------------------------------------------------------------------

  lemma PartsHaveNoComma(raw: string)
    requires ',' !in raw
    ensures ',' !in ParseSlot(raw).Address()
  {
    var pre, post := StripParts(raw);
    var text := Strip(raw);
    if text != "" {
      SplitShape(text);
      var (base, effort) := SplitEffort(text);
      assert ',' !in text;
      NoCommaInBase(text);
      hide SplitEffort, Strip, EffortLevels;
      NoCommaInSlot(base, effort);
      if effort.Some? { EffortsAreFixed(effort.value); }
    }
  }

  lemma NoCommaInBase(text: string)
    requires ',' !in text
    ensures ',' !in SplitEffort(text).0
  {
    hide EffortLevels, Fold, Strip;
    FindLastAt(text, '@');
  }

  lemma NoCommaInSlot(base: string, effort: Option<string>)
    requires ',' !in base
    ensures ',' !in ParseBase(base, effort).Base()
  {
    var p, m := BaseParts(base, effort);
    hide *;
    if p != "" { ProvidersAreFixed(p); }
    NoCommaJoined(p, m, effort);
  }

  lemma BaseParts(base: string, effort: Option<string>) returns (p: string, m: string)
    requires ',' !in base
    ensures ParseBase(base, effort) == Slot(p, m, effort)
    ensures (p != "" ==> p in SlotProviders) && ',' !in m
  {
    FindAt(base, ':');
    var i := Find(base, ':');
    p := NormalProvider(if i >= 0 then base[..i] else base);
    m := if p == "" then base else if i >= 0 then Strip(base[i + 1..]) else "";
    NormalIsKnown(if i >= 0 then base[..i] else base);
    assert ParseBase(base, effort) == Slot(p, m, effort);
    hide *;
    if i >= 0 { NoCommaStripped(base[i + 1..]); }
  }

  lemma NoCommaStripped(s: string)
    requires ',' !in s
    ensures ',' !in Strip(s)
  {
    var pre, post := StripParts(s);
    hide *;
    assert s == pre + Strip(s) + post;
  }

  lemma NoCommaJoined(p: string, m: string, e: Option<string>)
    requires ',' !in p && ',' !in m
    ensures ',' !in Slot(p, m, e).Base()
  {
  }

  lemma SlotsSnoc(tokens: seq<string>, last: string)
    ensures Slots(tokens + [last]) == Slots(tokens) + if ParseSlot(last).Empty() then [] else [ParseSlot(last)]
  {
    assert (tokens + [last])[..|tokens|] == tokens;
  }

  lemma AddressesSnoc(slots: seq<Slot>, s: Slot)
    ensures Addresses(slots + [s]) == Addresses(slots) + [s.Address()]
  {
  }

  predicate CommaFree(tokens: seq<string>) { forall t | t in tokens :: ',' !in t }

  lemma CommaFreeSnoc(tokens: seq<string>, t: string)
    ensures CommaFree(tokens + [t]) <==> CommaFree(tokens) && ',' !in t
  {
    assert t in tokens + [t] && forall x | x in tokens :: x in tokens + [t];
  }

  lemma SlotsStep(init: seq<string>, last: string)
    requires Slots(Addresses(Slots(init))) == Slots(init) && ',' !in last && CommaFree(Addresses(Slots(init)))
    ensures Slots(Addresses(Slots(init + [last]))) == Slots(init + [last]) && CommaFree(Addresses(Slots(init + [last])))
  {
    hide *;
    SlotRoundTrip(last);
    PartsHaveNoComma(last);
    SlotsSnoc(init, last);
    var s := ParseSlot(last);
    if s.Empty() {
      assert Slots(init) + [] == Slots(init);
    } else {
      AddressesSnoc(Slots(init), s);
      SlotsSnoc(Addresses(Slots(init)), s.Address());
      CommaFreeSnoc(Addresses(Slots(init)), s.Address());
    }
  }

  lemma {:induction false} SlotsRoundTrip(tokens: seq<string>)
    requires CommaFree(tokens)
    ensures Slots(Addresses(Slots(tokens))) == Slots(tokens) && CommaFree(Addresses(Slots(tokens)))
  {
    if tokens != [] {
      hide *;
      var init, last := tokens[..|tokens| - 1], tokens[|tokens| - 1];
      assert tokens == init + [last];
      CommaFreeSnoc(init, last);
      SlotsRoundTrip(init);
      SlotsStep(init, last);
    }
  }

  /** Joining the addresses of a parsed list with commas and parsing them again gives the same list. */
  lemma ListRoundTrip(raw: string)
    ensures var slots := Slots(Split(raw, ','));
            Slots(Split(Join(Addresses(slots), ','), ',')) == slots
  {
    JoinSplit(raw, ',');
    var slots := Slots(Split(raw, ','));
    SlotsRoundTrip(Split(raw, ','));
    if slots == [] {
      assert Addresses(slots) == [] && Split("", ',') == [""];
      assert Strip("") == "";
      assert [""][..0] == [];
    } else {
      SplitJoin(Addresses(slots), ',');
    }
  }

  // ---- what is read --------------------------------------------------------------------------------------

  /** A text that reads as the word: in any case, and with hyphens for underscores. */
  predicate Spelt(text: string, word: string) {
    |text| == |word| && forall i | 0 <= i < |word| :: SameLetter(text[i], word[i]) || (text[i] == '-' && word[i] == '_')
  }

  lemma SpeltAt(c: char, d: char)
    requires 'a' <= d <= 'z' || d == '_'
    ensures (if LowerChar(c) == '-' then '_' else LowerChar(c)) == d <==> SameLetter(c, d) || (c == '-' && d == '_')
  {
    LowerCharIff(c, d);
    LowerCharIff(c, '-');
  }

  lemma SpeltIff(text: string, word: string)
    requires Plain(word)
    ensures Underscored(Fold(text)) == word <==> Spelt(text, word)
  {
    forall i | 0 <= i < |word| && i < |text|
      ensures Underscored(Fold(text))[i] == word[i] <==>
                SameLetter(text[i], word[i]) || (text[i] == '-' && word[i] == '_')
    {
      assert word[i] in word;
      SpeltAt(text[i], word[i]);
    }
    hide SameLetter, LowerChar;
    if Spelt(text, word) { assert Underscored(Fold(text)) == word; }
  }

  lemma NoLetter()
    ensures forall c :: (SameLetter(c, '_') <==> c == '_') && (SameLetter(c, '-') <==> c == '-')
  {
    forall k | 0 <= k < 26
      ensures '_' !in {SmallLetters[k], CapitalLetters[k]} && '-' !in {SmallLetters[k], CapitalLetters[k]}
    {
      Alphabet(k);
    }
    hide SmallLetters, CapitalLetters;
  }

  lemma SpeltCli(text: string, cli: string)
    requires '_' !in cli
    ensures Spelt(text, cli) <==> SameButCase(text, cli)
    ensures Spelt(text, cli + "_cli") <==> SameButCase(text, cli + "_cli") || SameButCase(text, cli + "-cli")
  {
    NoLetter();
    hide SameLetter;
    var n, u, h := |cli|, cli + "_cli", cli + "-cli";
    assert u[n] == '_' && h[n] == '-' && forall i | 0 <= i < |u| && i != n :: u[i] == h[i] != '_';
    if |text| == |u| {
      assert SameButCase(text, u) <==> text[n] == '_' && forall i | 0 <= i < |u| && i != n :: SameLetter(text[i], u[i]);
      assert SameButCase(text, h) <==> text[n] == '-' && forall i | 0 <= i < |u| && i != n :: SameLetter(text[i], u[i]);
    }
  }

  /** The provider that a name stands for: a CLI may be named with or without its suffix. */
  ghost predicate Called(name: string, provider: string) {
    || (provider in {"openrouter", "stub"} && SameButCase(name, provider))
    || exists cli | cli in {"codex", "claude", "copilot", "kimi"} ::
         && provider == cli + "_cli"
         && (SameButCase(name, cli) || SameButCase(name, cli + "_cli") || SameButCase(name, cli + "-cli"))
  }

  lemma Spellings(token: string)
    ensures token in SlotProviders <==>
            token in {"openrouter", "stub"} || exists cli | cli in CliProviders :: token == cli + "_cli"
    ensures forall cli | cli in CliProviders :: Plain(cli) && Plain(cli + "_cli") && '_' !in cli
    ensures Plain("openrouter") && Plain("stub")
  {
    CliNames("codex");
    CliNames("claude");
    CliNames("copilot");
    CliNames("kimi");
    KnownArePlain(token);
    assert "codex" + "_cli" == "codex_cli";
    assert "claude" + "_cli" == "claude_cli";
    assert "copilot" + "_cli" == "copilot_cli";
    assert "kimi" + "_cli" == "kimi_cli";
    forall p ensures p in SlotProviders || p in CliProviders ==> Plain(p) { KnownArePlain(p); }
  }

  lemma CliCalledIff(name: string, cli: string)
    requires Plain(cli) && Plain(cli + "_cli") && '_' !in cli
    ensures Underscored(Fold(name)) in {cli, cli + "_cli"} <==>
            SameButCase(name, cli) || SameButCase(name, cli + "_cli") || SameButCase(name, cli + "-cli")
  {
    hide *;
    SpeltIff(name, cli);
    SpeltIff(name, cli + "_cli");
    SpeltCli(name, cli);
  }

  lemma OtherCalledIff(name: string, provider: string)
    requires provider in {"openrouter", "stub"}
    ensures Underscored(Fold(name)) == provider <==> SameButCase(name, provider)
  {
    Spellings(provider);
    assert '_' !in "openrouter" && '_' !in "stub";
    hide *;
    SpeltIff(name, provider);
    SpeltCli(name, provider);
  }

  lemma CalledIff(name: string, provider: string)
    ensures var token := Underscored(Fold(name));
            Called(name, provider) <==>
            || (provider in {"openrouter", "stub"} && token == provider)
            || exists cli | cli in CliProviders :: provider == cli + "_cli" && token in {cli, cli + "_cli"}
  {
    hide SlotProviders, Underscored, Fold, SameButCase, Plain;
    Spellings(provider);
    forall cli | cli in CliProviders { CliCalledIff(name, cli); }
    if provider in {"openrouter", "stub"} { OtherCalledIff(name, provider); }
  }

  lemma TokenIff(token: string, provider: string)
    requires provider != ""
    ensures (if token in SlotProviders then token else if token in CliProviders then token + "_cli" else "") == provider
            <==>
            || (provider in {"openrouter", "stub"} && token == provider)
            || exists cli | cli in CliProviders :: provider == cli + "_cli" && token in {cli, cli + "_cli"}
  {
    Spellings(token);
    Spellings(provider);
    hide SlotProviders, Plain;
    assert forall cli | cli in CliProviders :: token == cli + "_cli" ==> token !in CliProviders;
  }

  /** A name is taken for the provider that it stands for. */
  lemma NormalProviderIff(raw: string, provider: string)
    requires provider != ""
    ensures NormalProvider(raw) == provider <==> Called(Strip(raw), provider)
  {
    CalledIff(Strip(raw), provider);
    TokenIff(Underscored(Fold(Strip(raw))), provider);
    hide SlotProviders, CliProviders, Underscored, Fold, Strip, Called;
  }

  /** The two parts of a text around its last '@'. */
  predicate AroundAt(text: string, head: string, tail: string) { text == head + "@" + tail && '@' !in tail }

  ghost predicate NamesLevel(tail: string, level: string) {
    level in {"low", "medium", "high"} && SameButCase(Strip(tail), level)
  }

  /** The text ends in no effort. */
  ghost predicate NoEffort(text: string) {
    forall head, tail, level :: AroundAt(text, head, tail) && head != "" ==> !NamesLevel(tail, level)
  }

  /** What is left of a text when the effort at its end, if it names one, is taken off. */
  ghost predicate EffortOf(text: string, base: string, effort: Option<string>) {
    match effort
    case Some(level) => base != "" && exists tail :: AroundAt(text, base, tail) && NamesLevel(tail, level)
    case None => base == text && NoEffort(text)
  }

  /** The two parts of a text around its first colon. */
  predicate AroundColon(text: string, head: string, tail: string) { text == head + ":" + tail && ':' !in head }

  /** `head` decides: if it names a provider, the route is that provider with the model, and otherwise the whole text is
      a model of the active backend. */
  ghost predicate RouteBy(head: string, model: string, text: string, s: Slot) {
    if s.provider != "" then Called(Strip(head), s.provider) && s.model == model
    else s.model == text && forall provider :: !Called(Strip(head), provider)
  }

  ghost predicate RouteOf(text: string, s: Slot) {
    if ':' in text then exists head, tail :: AroundColon(text, head, tail) && RouteBy(head, Strip(tail), text, s)
    else RouteBy(text, "", text, s)
  }

  lemma OnlyLevels(tail: string, level: string)
    ensures NamesLevel(tail, level) ==> level in {"low", "medium", "high"}
  {
  }

  lemma LevelIff(tail: string, level: string)
    requires level in {"low", "medium", "high"}
    ensures Fold(Strip(tail)) == level <==> NamesLevel(tail, level)
  {
    assert Fold("low") == "low" && Fold("medium") == "medium" && Fold("high") == "high";
    hide Fold, Strip, SameButCase;
    FoldIff(Strip(tail), level);
  }

  lemma AroundLastAt(text: string, head: string, tail: string)
    requires AroundAt(text, head, tail)
    ensures FindLast(text, '@') == |head| && text[..|head|] == head && text[|head| + 1..] == tail
  {
    Located(head, '@', tail);
    assert text == head + ['@'] + tail;
  }

  ghost predicate NoLevel(tail: string) { forall level :: !NamesLevel(tail, level) }

  lemma NoEffortAround(text: string)
    requires var i := FindLast(text, '@');
             i <= 0 || (i < |text| && NoLevel(text[i + 1..]))
    ensures NoEffort(text)
  {
    hide FindLast, NamesLevel;
    forall head, tail, level | AroundAt(text, head, tail) && head != "" ensures !NamesLevel(tail, level) {
      AroundLastAt(text, head, tail);
    }
  }

  lemma LevelsAt(tail: string)
    ensures Fold(Strip(tail)) in EffortLevels ==> NamesLevel(tail, Fold(Strip(tail)))
    ensures Fold(Strip(tail)) !in EffortLevels ==> NoLevel(tail)
  {
    forall level { OnlyLevels(tail, level); }
    LevelIff(tail, "low");
    LevelIff(tail, "medium");
    LevelIff(tail, "high");
    hide Fold, Strip, NamesLevel;
  }

  lemma SplitEffortReads(text: string)
    ensures EffortOf(text, SplitEffort(text).0, SplitEffort(text).1)
  {
    var i := FindLast(text, '@');
    FindLastAt(text, '@');
    if i >= 0 { LevelsAt(text[i + 1..]); }
    if SplitEffort(text).1.Some? {
      hide FindLast, Fold, Strip, NamesLevel, EffortLevels;
      assert AroundAt(text, text[..i], text[i + 1..]);
    } else {
      hide FindLast, Fold, Strip, NamesLevel, EffortLevels;
      NoEffortAround(text);
    }
  }

  lemma NormalIsCalled(head: string, model: string, text: string, effort: Option<string>)
    ensures var p := NormalProvider(head);
            RouteBy(head, model, text, if p != "" then Slot(p, model, effort) else Slot("", text, effort))
  {
    hide NormalProvider, Strip;
    forall p | p != "" { NormalProviderIff(head, p); }
    assert !Called(Strip(head), "");
    hide Called;
  }

  lemma RouteAt(text: string, i: nat, s: Slot)
    requires i < |text| && text[i] == ':' && ':' !in text[..i] && RouteBy(text[..i], Strip(text[i + 1..]), text, s)
    ensures RouteOf(text, s)
  {
    hide RouteBy, Strip;
    assert AroundColon(text, text[..i], text[i + 1..]);
  }

  lemma ParseBaseReads(text: string, effort: Option<string>)
    ensures RouteOf(text, ParseBase(text, effort)) && ParseBase(text, effort).effort == effort
  {
    FindAt(text, ':');
    var i := Find(text, ':');
    hide NormalProvider, Strip, RouteBy, Find;
    if i >= 0 {
      NormalIsCalled(text[..i], Strip(text[i + 1..]), text, effort);
      RouteAt(text, i, ParseBase(text, effort));
    } else {
      NormalIsCalled(text, "", text, effort);
    }
  }

  /** What a text that is not blank is parsed to. */
  lemma ParseSlotReads(raw: string)
    requires Strip(raw) != ""
    ensures exists base :: EffortOf(Strip(raw), base, ParseSlot(raw).effort) && RouteOf(base, ParseSlot(raw))
  {
    var text := Strip(raw);
    var (base, effort) := SplitEffort(text);
    SplitEffortReads(text);
    hide SplitEffort, Strip, EffortOf, RouteOf;
    EffortLeaves(text, base, effort);
    ParseBaseReads(base, effort);
    assert ParseSlot(raw) == ParseBase(base, effort);
  }

  lemma EffortLeaves(text: string, base: string, effort: Option<string>)
    requires text != "" && EffortOf(text, base, effort)
    ensures base != ""
  {
    hide NamesLevel, AroundAt, NoEffort;
  }

  /** Only a blank text is parsed to the empty slot: an effort without a route is taken for a model. */
  lemma EmptyIffBlank(raw: string)
    ensures ParseSlot(raw).Empty() <==> Strip(raw) == ""
    ensures ParseSlot("@high") == Slot("", "@high", None)
  {
    if Strip(raw) != "" {
      ParseSlotReads(raw);
      var base :| EffortOf(Strip(raw), base, ParseSlot(raw).effort) && RouteOf(base, ParseSlot(raw));
      EffortLeaves(Strip(raw), base, ParseSlot(raw).effort);
      hide Called, Strip, EffortOf;
      assert !ParseSlot(raw).Empty();
    }
    BareEffort();
  }

  lemma BareEffort()
    ensures ParseSlot("@high") == Slot("", "@high", None)
  {
    assert Trimmed("@high");
    StripTrimmed("@high");
    BareSplit();
    BareBase();
    hide Strip, SplitEffort, ParseBase;
  }

  lemma BareSplit()
    ensures SplitEffort("@high") == ("@high", None)
  {
    Located("", '@', "high");
    assert "" + ['@'] + "high" == "@high";
    hide Strip, Fold, FindLast, EffortLevels;
  }

  lemma BareBase()
    ensures ParseBase("@high", None) == Slot("", "@high", None)
  {
    FindAt("@high", ':');
    ProviderHasNoAt("@high");
    hide Find, NormalProvider, Strip;
  }
}
