/** The conversation of an agentic session: its well-formedness, and `_edit_context`, which shrinks a copy of it. */
module Conversation {
  import opened ToolCalls

  datatype Msg =
    | System(text: string)
    | User(text: string)
    | Assistant(text: string, calls: seq<Call>)
    | Tool(id: string, content: string)

  type History = seq<Msg>

  // ---- well-formedness -----------------------------------------------------------------------------------

  predicate DistinctCalls(calls: seq<Call>) { forall i, j | 0 <= i < j < |calls| :: calls[i].id != calls[j].id }

  /** The messages start with the results of the calls, in order. */
  predicate Answers(ms: History, calls: seq<Call>) {
    |calls| <= |ms| && forall k | 0 <= k < |calls| :: ms[k].Tool? && ms[k].id == calls[k].id
  }

  function Calls(m: Msg): seq<Call> { if m.Assistant? then m.calls else [] }

  /** Every message with calls is followed by exactly their results, and there are no other results. */
  predicate WellFormed(ms: History) {
    ms == [] ||
    (&& !ms[0].Tool? && DistinctCalls(Calls(ms[0])) && Answers(ms[1..], Calls(ms[0]))
     && WellFormed(ms[1 + |Calls(ms[0])|..]))
  }

  lemma WellFormedCons(ms: History)
    requires ms != []
    ensures WellFormed(ms) <==>
            && !ms[0].Tool? && DistinctCalls(Calls(ms[0])) && Answers(ms[1..], Calls(ms[0]))
            && WellFormed(ms[1 + |Calls(ms[0])|..])
    ensures WellFormed(ms) ==> 1 + |Calls(ms[0])| <= |ms|
  {
  }

  lemma AnswersAppend(a: History, b: History, calls: seq<Call>)
    requires Answers(a, calls)
    ensures Answers(a + b, calls) && |calls| <= |a|
  {
  }

  lemma DropAppend(a: History, b: History, n: nat)
    requires n <= |a|
    ensures (a + b)[n..] == a[n..] + b
  {
  }

  lemma {:induction false} WellFormedAppend(a: History, b: History)
    requires WellFormed(a)
    ensures WellFormed(b) <==> WellFormed(a + b)
    decreases |a|
  {
    hide *;
    if a == [] {
      assert a + b == b;
    } else {
      WellFormedCons(a);
      WellFormedCons(a + b);
      assert (a + b)[0] == a[0];
      AnswersAppend(a[1..], b, Calls(a[0]));
      DropAppend(a, b, 1);
      DropAppend(a, b, 1 + |Calls(a[0])|);
      WellFormedAppend(a[1 + |Calls(a[0])|..], b);
    }
  }

  lemma PlainMessage(ms: History, m: Msg)
    requires WellFormed(ms) && !m.Tool? && Calls(m) == []
    ensures WellFormed(ms + [m])
  {
    WellFormedAppend(ms, [m]);
  }

  lemma AnsweredBatch(ms: History, m: Msg, results: History)
    requires WellFormed(ms) && m.Assistant? && DistinctCalls(m.calls)
    requires Answers(results, m.calls) && |results| == |m.calls|
    ensures WellFormed(ms + [m] + results)
  {
    hide *;
    var tail := [m] + results;
    BatchWellFormed(m, results);
    WellFormedAppend(ms, tail);
    assert ms + [m] + results == ms + tail;
  }

  lemma BatchWellFormed(m: Msg, results: History)
    requires m.Assistant? && DistinctCalls(m.calls) && Answers(results, m.calls) && |results| == |m.calls|
    ensures WellFormed([m] + results)
  {
    var tail := [m] + results;
    assert tail[0] == m && Calls(m) == m.calls && tail[1..] == results && tail[1 + |m.calls|..] == [];
    assert WellFormed([]);
    hide WellFormed, DistinctCalls, Answers;
    WellFormedCons(tail);
  }

  /** The messages differ at most in a result's content or in the arguments of calls. */
  predicate SameMsg(a: Msg, b: Msg) {
    match a
    case Tool(id, _) => b.Tool? && b.id == id
    case Assistant(text, calls) =>
      b.Assistant? && b.text == text && |b.calls| == |calls|
      && forall k | 0 <= k < |calls| :: b.calls[k].id == calls[k].id && b.calls[k].name == calls[k].name
    case _ => a == b
  }

  predicate SameShape(a: History, b: History) { |a| == |b| && forall k | 0 <= k < |a| :: SameMsg(a[k], b[k]) }

  lemma SameShapeAnswers(a: History, b: History, calls: seq<Call>, calls': seq<Call>)
    requires SameShape(a, b) && Answers(a, calls)
    requires |calls| == |calls'| && forall k | 0 <= k < |calls| :: calls[k].id == calls'[k].id
    ensures Answers(b, calls')
  {
    forall k | 0 <= k < |calls| ensures b[k].Tool? && b[k].id == calls'[k].id { assert SameMsg(a[k], b[k]); }
  }

  lemma SameShapeDrop(a: History, b: History, n: nat)
    requires SameShape(a, b) && n <= |a|
    ensures SameShape(a[n..], b[n..])
  {
  }

  lemma {:induction false} SameShapeWellFormed(a: History, b: History)
    requires SameShape(a, b) && WellFormed(a)
    ensures WellFormed(b)
    decreases |a|
  {
    if a != [] {
      var n := 1 + |Calls(a[0])|;
      assert SameMsg(a[0], b[0]);
      WellFormedCons(a);
      WellFormedCons(b);
      hide WellFormed;
      hide Answers;
      SameShapeDrop(a, b, 1);
      SameShapeDrop(a, b, n);
      hide SameShape;
      SameShapeAnswers(a[1..], b[1..], Calls(a[0]), Calls(b[0]));
      SameShapeWellFormed(a[n..], b[n..]);
    }
  }

  // ---- context editing -----------------------------------------------------------------------------------

  /** `size` is the serialized size of a message, `bytes` the UTF-8 length of a text and `notice` what replaces a text
      of that length. */
  datatype Editing = Editing(
    enabled: bool, budget: int, keepLast: int,
    size: Msg -> nat, bytes: string -> nat, notice: nat -> string)

  const ElideMinBytes := 200

  function Total(ms: History, ed: Editing): nat {
    if ms == [] then 0 else Total(ms[..|ms| - 1], ed) + ed.size(ms[|ms| - 1])
  }

  function Results(ms: History): nat {
    if ms == [] then 0 else Results(ms[..|ms| - 1]) + if ms[|ms| - 1].Tool? then 1 else 0
  }

  /** A long tool result that is not among the last `keepLast` ones. */
  predicate Eligible(ms: History, ed: Editing, i: nat) {
    && i < |ms| && ms[i].Tool? && ed.bytes(ms[i].content) > ElideMinBytes
    && Results(ms[..i]) + (if ed.keepLast > 0 then ed.keepLast else 0) < Results(ms)
  }

  /** The results after message `i`. */
  ghost function Later(ms: History, i: nat): set<nat> { set k | i < k < |ms| && ms[k].Tool? }

  lemma LaterInit(ms: History, i: nat)
    requires i < |ms| - 1
    ensures |Later(ms, i)| == |Later(ms[..|ms| - 1], i)| + if ms[|ms| - 1].Tool? then 1 else 0
  {
    var n := |ms| - 1;
    var before := Later(ms[..n], i);
    assert n !in before && Later(ms, i) == if ms[n].Tool? then before + {n} else before;
  }

  lemma {:induction false} ResultsAfter(ms: History, i: nat)
    requires i < |ms|
    ensures Results(ms) == Results(ms[..i + 1]) + |Later(ms, i)|
    decreases |ms|
  {
    var n := |ms| - 1;
    if i == n {
      assert ms[..i + 1] == ms && Later(ms, i) == {};
    } else {
      hide Later;
      ResultsAfter(ms[..n], i);
      LaterInit(ms, i);
      assert ms[..n][..i + 1] == ms[..i + 1];
    }
  }

  /** A result of more than 200 bytes that is followed by at least as many results as are to be kept. */
  lemma EligibleIff(ms: History, ed: Editing, i: nat)
    ensures Eligible(ms, ed, i) <==>
            i < |ms| && ms[i].Tool? && ed.bytes(ms[i].content) > 200 && |Later(ms, i)| >= ed.keepLast
  {
    if i < |ms| {
      ResultsAfter(ms, i);
      assert ms[..i + 1][..i] == ms[..i];
    }
  }

  /** Only long results that are not among the last change, and only into a notice of their length. */
  ghost predicate OnlyNotices(ms: History, ed: Editing, out: History) {
    |out| == |ms| && forall k | 0 <= k < |ms| && out[k] != ms[k] ::
      && ms[k].Tool? && ed.bytes(ms[k].content) > 200 && |Later(ms, k)| >= ed.keepLast
      && out[k] == Tool(ms[k].id, ed.notice(ed.bytes(ms[k].content)))
  }

  function Elided(ms: History, ed: Editing, i: nat): Msg
    requires i < |ms| && ms[i].Tool?
  {
    ms[i].(content := ed.notice(ed.bytes(ms[i].content)))
  }

  /** The history with the eligible results below `cut` elided. */
  function ElideBelow(ms: History, ed: Editing, cut: nat): (r: History)
    ensures |r| == |ms|
  {
    seq(|ms|, i requires 0 <= i < |ms| => if i < cut && Eligible(ms, ed, i) then Elided(ms, ed, i) else ms[i])
  }

  ghost predicate SomeEligible(ms: History, ed: Editing, lo: nat, hi: nat) {
    exists k :: lo <= k < hi && Eligible(ms, ed, k)
  }

  /** Eliding a shorter oldest-first prefix of the eligible results would not have met the budget. */
  ghost predicate NoShorterPrefix(ms: History, ed: Editing, cut: nat) {
    forall c | 0 <= c < cut && SomeEligible(ms, ed, c, cut) :: Total(ElideBelow(ms, ed, c), ed) > ed.budget
  }

  lemma ElideBelowSame(ms: History, ed: Editing, lo: nat, hi: nat)
    requires lo <= hi && !SomeEligible(ms, ed, lo, hi)
    ensures ElideBelow(ms, ed, lo) == ElideBelow(ms, ed, hi)
  {
  }

  lemma {:induction false} TotalUpdate(ms: History, ed: Editing, i: nat, m: Msg)
    requires i < |ms|
    ensures Total(ms[i := m], ed) == Total(ms, ed) - ed.size(ms[i]) + ed.size(m)
    decreases |ms|
  {
    var n := |ms| - 1;
    if i == n {
      assert ms[i := m][..n] == ms[..n];
    } else {
      assert ms[i := m][..n] == ms[..n][i := m];
      TotalUpdate(ms[..n], ed, i, m);
    }
  }

  /** One more elision. */
  lemma ElideNext(ms: History, ed: Editing, cut: nat, i: nat)
    requires cut <= i < |ms| && Eligible(ms, ed, i) && !SomeEligible(ms, ed, cut, i)
    requires NoShorterPrefix(ms, ed, cut) && Total(ElideBelow(ms, ed, cut), ed) > ed.budget
    ensures NoShorterPrefix(ms, ed, i + 1)
    ensures ElideBelow(ms, ed, i + 1) == ElideBelow(ms, ed, cut)[i := Elided(ms, ed, i)]
    ensures Total(ElideBelow(ms, ed, i + 1), ed) ==
            Total(ElideBelow(ms, ed, cut), ed) - ed.size(ms[i]) + ed.size(Elided(ms, ed, i))
  {
    forall c | 0 <= c < i + 1 && SomeEligible(ms, ed, c, i + 1)
      ensures Total(ElideBelow(ms, ed, c), ed) > ed.budget
    {
      if c >= cut {
        ElideBelowSame(ms, ed, cut, c);
      } else if !SomeEligible(ms, ed, c, cut) {
        ElideBelowSame(ms, ed, c, cut);
      }
    }
    TotalUpdate(ElideBelow(ms, ed, cut), ed, i, Elided(ms, ed, i));
    assert ElideBelow(ms, ed, i + 1) == ElideBelow(ms, ed, cut)[i := Elided(ms, ed, i)];
  }

  lemma ElidingKeepsShape(ms: History, ed: Editing, cut: nat)
    ensures SameShape(ms, ElideBelow(ms, ed, cut))
  {
  }

  lemma ElidingNotes(ms: History, ed: Editing, cut: nat)
    ensures OnlyNotices(ms, ed, ElideBelow(ms, ed, cut))
  {
    forall k: nat { EligibleIff(ms, ed, k); }
    hide Eligible;
  }

  /** How many results come before message `k`. */
  ghost function Rank(ms: History, k: nat): nat
    requires k <= |ms|
  {
    Results(ms[..k])
  }

  /** `idx` lists the tool results, in order. */
  ghost predicate Indices(ms: History, upto: nat, idx: seq<nat>)
    requires upto <= |ms|
  {
    && |idx| == Rank(ms, upto)
    && (forall j | 0 <= j < |idx| :: IsResult(ms, upto, idx, j))
    && (forall i | 0 <= i < upto && ms[i].Tool? :: HasIndex(ms, idx, i))
    && (forall j, k | 0 <= j < k < |idx| :: idx[j] < idx[k])
  }

  ghost predicate IsResult(ms: History, upto: nat, idx: seq<nat>, j: nat)
    requires upto <= |ms| && j < |idx|
  {
    idx[j] < upto && ms[idx[j]].Tool? && Rank(ms, idx[j]) == j
  }

  ghost predicate HasIndex(ms: History, idx: seq<nat>, i: nat)
    requires i < |ms|
  {
    Rank(ms, i) < |idx| && idx[Rank(ms, i)] == i
  }

  method ResultIndices(ms: History) returns (idx: seq<nat>)
    ensures Indices(ms, |ms|, idx)
  {
    idx := [];
    for i := 0 to |ms|
      invariant Indices(ms, i, idx)
    {
      IndicesNext(ms, i, idx);
      hide *;
      if ms[i].Tool? { idx := idx + [i]; }
    }
  }

  lemma IndicesNext(ms: History, i: nat, idx: seq<nat>)
    requires i < |ms| && Indices(ms, i, idx)
    ensures Indices(ms, i + 1, if ms[i].Tool? then idx + [i] else idx)
  {
    RankNext(ms, i);
    var next, out := i + 1, if ms[i].Tool? then idx + [i] else idx;
    hide Rank;
    forall j | 0 <= j < |out| ensures IsResult(ms, next, out, j) {
      if j < |idx| { assert IsResult(ms, i, idx, j); }
    }
    forall k | 0 <= k < i + 1 && ms[k].Tool? ensures HasIndex(ms, out, k) {
      if k < i { assert HasIndex(ms, idx, k); }
    }
    hide HasIndex;
    forall j, k | 0 <= j < k < |out| ensures out[j] < out[k] {
      if k == |idx| { assert IsResult(ms, i, idx, j); }
    }
  }

  lemma RankNext(ms: History, i: nat)
    requires i < |ms|
    ensures Rank(ms, i + 1) == Rank(ms, i) + if ms[i].Tool? then 1 else 0
  {
    assert ms[..i + 1][..i] == ms[..i];
  }

  function NextIndex(ms: History, idx: seq<nat>, j: nat): nat { if j < |idx| then idx[j] else |ms| }

  /** From one result to the next there is nothing to elide. */
  lemma NothingBetween(ms: History, ed: Editing, idx: seq<nat>, j: nat)
    requires Indices(ms, |ms|, idx) && j <= |idx|
    ensures var lo := if j == 0 then 0 else idx[j - 1] + 1;
            lo <= NextIndex(ms, idx, j) && !SomeEligible(ms, ed, lo, NextIndex(ms, idx, j))
  {
    assert ms[..|ms|] == ms;
    var lo := if j == 0 then 0 else idx[j - 1] + 1;
    if j > 0 { assert IsResult(ms, |ms|, idx, j - 1); }
    if j < |idx| { assert IsResult(ms, |ms|, idx, j); }
    forall k | 0 <= k < |ms| && ms[k].Tool? ensures k < lo || k >= NextIndex(ms, idx, j) {
      assert HasIndex(ms, idx, k);
    }
  }

  lemma EligibleAt(ms: History, ed: Editing, idx: seq<nat>, j: nat)
    requires Indices(ms, |ms|, idx) && j < |idx|
    ensures idx[j] < |ms| && ms[idx[j]].Tool?
    ensures Eligible(ms, ed, idx[j]) <==>
            ed.bytes(ms[idx[j]].content) > ElideMinBytes && j < |idx| - (if ed.keepLast > 0 then ed.keepLast else 0)
  {
    assert ms[..|ms|] == ms && IsResult(ms, |ms|, idx, j);
  }

  /** The elisions below `at` are the ones the budget asks for. */
  ghost predicate Settled(ms: History, ed: Editing, cut: nat, at: nat, edited: History, total: nat) {
    && cut <= at && edited == ElideBelow(ms, ed, cut) && total == Total(edited, ed) && NoShorterPrefix(ms, ed, cut)
    && (total <= ed.budget || !SomeEligible(ms, ed, cut, at))
  }

  lemma SettledSkips(ms: History, ed: Editing, cut: nat, at: nat, next: nat, edited: History, total: nat)
    requires Settled(ms, ed, cut, at, edited, total) && at < next
    requires total <= ed.budget || !Eligible(ms, ed, at)
    requires !SomeEligible(ms, ed, at + 1, next)
    ensures Settled(ms, ed, cut, next, edited, total)
  {
    hide Eligible;
    hide NoShorterPrefix;
    hide Total;
    if SomeEligible(ms, ed, cut, next) {
      var k :| cut <= k < next && Eligible(ms, ed, k);
      assert k < at || k == at || k >= at + 1;
    }
  }

  lemma SettledElides(ms: History, ed: Editing, cut: nat, at: nat, next: nat, edited: History, total: nat)
    requires Settled(ms, ed, cut, at, edited, total) && at < next
    requires total > ed.budget && Eligible(ms, ed, at) && !SomeEligible(ms, ed, at + 1, next)
    ensures at < |edited| && edited[at] == ms[at]
    ensures total - ed.size(ms[at]) + ed.size(Elided(ms, ed, at)) >= 0
    ensures Settled(ms, ed, at + 1, next, edited[at := Elided(ms, ed, at)],
                    total - ed.size(ms[at]) + ed.size(Elided(ms, ed, at)))
  {
    ElideNext(ms, ed, cut, at);
  }

  method TotalSize(ms: History, ed: Editing) returns (total: nat)
    ensures total == Total(ms, ed)
  {
    total := 0;
    for i := 0 to |ms|
      invariant total == Total(ms[..i], ed)
    {
      assert ms[..i + 1][..i] == ms[..i];
      total := total + ed.size(ms[i]);
    }
    assert ms[..|ms|] == ms;
  }

  /** The loop of `_edit_context`, with its running total. */
  method ElideOldest(ms: History, ed: Editing, total0: nat) returns (edited: History, ghost cut: nat, ghost left: nat)
    requires Settled(ms, ed, 0, 0, ms, total0)
    ensures Settled(ms, ed, cut, |ms|, edited, left)
  {
    hide *;
    var idx := ResultIndices(ms);
    var keep := if ed.keepLast > 0 then ed.keepLast else 0;
    edited, cut, left := ms, 0, total0;
    var total: nat := total0;
    SettledStart(ms, ed, idx, total0);
    for j := 0 to |idx|
      invariant Settled(ms, ed, cut, NextIndex(ms, idx, j), edited, total)
    {
      IndexAt(ms, idx, j);
      EligibleAt(ms, ed, idx, j);
      NothingBetween(ms, ed, idx, j + 1);
      var i := idx[j];
      var protect := j >= |idx| - keep;
      if !protect && total > ed.budget && ed.bytes(ms[i].content) > ElideMinBytes {
        SettledElides(ms, ed, cut, i, NextIndex(ms, idx, j + 1), edited, total);
        total := total - ed.size(edited[i]) + ed.size(Elided(ms, ed, i));
        edited := edited[i := Elided(ms, ed, i)];
        cut := i + 1;
      } else {
        SettledSkips(ms, ed, cut, i, NextIndex(ms, idx, j + 1), edited, total);
      }
    }
    IndexAt(ms, idx, |idx|);
    left := total;
  }

  lemma IndexAt(ms: History, idx: seq<nat>, j: nat)
    ensures NextIndex(ms, idx, j) == if j < |idx| then idx[j] else |ms|
  {
  }

  lemma SettledStart(ms: History, ed: Editing, idx: seq<nat>, total: nat)
    requires Indices(ms, |ms|, idx) && Settled(ms, ed, 0, 0, ms, total)
    ensures Settled(ms, ed, 0, NextIndex(ms, idx, 0), ms, total)
  {
    NothingBetween(ms, ed, idx, 0);
  }

  /** The copy to send: over budget, the shortest oldest-first prefix of the eligible results that meets the budget is
      elided, or all of them when none does. */
  ghost predicate EditsTo(ms: History, ed: Editing, cut: nat, out: History) {
    && out == ElideBelow(ms, ed, cut)
    && (!ed.enabled || ed.budget <= 0 || Total(ms, ed) <= ed.budget ==> out == ms)
    && (ed.enabled && ed.budget > 0 ==>
          NoShorterPrefix(ms, ed, cut) && (Total(out, ed) <= ed.budget || !SomeEligible(ms, ed, cut, |ms|)))
  }

  ghost predicate EditedCopy(ms: History, ed: Editing, out: History) { exists cut: nat :: EditsTo(ms, ed, cut, out) }

  method EditContext(ms: History, ed: Editing) returns (out: History, ghost cut: nat)
    ensures EditsTo(ms, ed, cut, out) && SameShape(ms, out) && OnlyNotices(ms, ed, out)
  {
    out, cut := ms, 0;
    assert ElideBelow(ms, ed, 0) == ms;
    ElidingKeepsShape(ms, ed, 0);
    if !ed.enabled || ed.budget <= 0 { return; }
    var total: nat := TotalSize(ms, ed);
    if total <= ed.budget { return; }
    ghost var left: nat;
    out, cut, left := ElideOldest(ms, ed, total);
    ElidingKeepsShape(ms, ed, cut);
    ElidingNotes(ms, ed, cut);
  }

  /** What is sent is determined by the history and the settings. */
  lemma EditedOneWay(ms: History, ed: Editing, a: History, b: History)
    requires EditedCopy(ms, ed, a) && EditedCopy(ms, ed, b)
    ensures a == b
  {
    hide Eligible, Total;
    var i: nat :| EditsTo(ms, ed, i, a);
    var j: nat :| EditsTo(ms, ed, j, b);
    if ed.enabled && ed.budget > 0 {
      if i <= j { SameElision(ms, ed, i, j); } else { SameElision(ms, ed, j, i); }
    }
  }

  /** Of two cuts that both settle the budget, the later one elides no more. */
  lemma SameElision(ms: History, ed: Editing, i: nat, j: nat)
    requires i <= j && NoShorterPrefix(ms, ed, j)
    requires Total(ElideBelow(ms, ed, i), ed) <= ed.budget || !SomeEligible(ms, ed, i, |ms|)
    ensures ElideBelow(ms, ed, i) == ElideBelow(ms, ed, j)
  {
    hide Total, SomeEligible;
    EligibleWithin(ms, ed, i, j);
    if !SomeEligible(ms, ed, i, j) { ElideBelowSame(ms, ed, i, j); }
  }

  lemma EligibleWithin(ms: History, ed: Editing, lo: nat, hi: nat)
    ensures SomeEligible(ms, ed, lo, hi) ==> SomeEligible(ms, ed, lo, |ms|)
  {
  }
}
