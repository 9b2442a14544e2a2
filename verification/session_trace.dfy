/** The observable course of an agentic session and what is to be kept true of it. */
module SessionTrace {
  import opened Conversation

  type Model = string

  /** A request for a completion, a completion that arrived (`changed` when its turn changed a file), or a switch away
      from a model that made no progress. */
  datatype Tick =
    | Request(model: Model, sent: History)
    | Reply(changed: bool)
    | Switched(from: Model, to: Model)

  type Trace = seq<Tick>

  // ---- requests ------------------------------------------------------------------------------------------

  /** The later history only adds messages, apart from call arguments and result contents. */
  ghost predicate Grows(a: History, b: History) { |a| <= |b| && SameShape(a, b[..|a|]) }

  lemma GrowsTransitive(a: History, b: History, c: History)
    requires Grows(a, b) && Grows(b, c)
    ensures Grows(a, c)
  {
    forall k | 0 <= k < |a| ensures SameMsg(a[k], c[..|a|][k]) {
      assert SameMsg(a[k], b[..|a|][k]) && SameMsg(b[k], c[..|b|][k]);
    }
  }

  lemma GrowsByAppending(a: History, tail: History)
    ensures Grows(a, a + tail)
  {
    assert (a + tail)[..|a|] == a;
  }

  /** A well-formed conversation, which is the edited copy of an earlier history. */
  ghost predicate CopyOfEarlier(sent: History, messages: History, ed: Editing) {
    && WellFormed(sent) && Grows(sent, messages)
    && exists earlier :: Grows(earlier, messages) && EditedCopy(earlier, ed, sent)
  }

  /** Every request sent a well-formed conversation, the edited copy of what the history was then. */
  ghost predicate RequestsOk(trace: Trace, messages: History, ed: Editing) {
    forall t | t in trace && t.Request? :: CopyOfEarlier(t.sent, messages, ed)
  }

  lemma CopyGrows(sent: History, a: History, b: History, ed: Editing)
    requires CopyOfEarlier(sent, a, ed) && Grows(a, b)
    ensures CopyOfEarlier(sent, b, ed)
  {
    hide WellFormed, Grows, EditedCopy;
    var earlier :| Grows(earlier, a) && EditedCopy(earlier, ed, sent);
    GrowsTransitive(sent, a, b);
    GrowsTransitive(earlier, a, b);
  }

  lemma RequestsGrow(trace: Trace, a: History, b: History, ed: Editing)
    requires RequestsOk(trace, a, ed) && Grows(a, b)
    ensures RequestsOk(trace, b, ed)
  {
    hide CopyOfEarlier, Grows;
    forall t | t in trace && t.Request? ensures CopyOfEarlier(t.sent, b, ed) { CopyGrows(t.sent, a, b, ed); }
  }

  lemma CopyNow(messages: History, sent: History, ed: Editing)
    requires WellFormed(messages) && SameShape(messages, sent) && EditedCopy(messages, ed, sent)
    ensures CopyOfEarlier(sent, messages, ed)
  {
    hide EditedCopy, WellFormed;
    SameShapeWellFormed(messages, sent);
    assert messages[..|sent|] == messages;
    forall k | 0 <= k < |sent| ensures SameMsg(sent[k], messages[k]) { assert SameMsg(messages[k], sent[k]); }
    GrowsByAppending(messages, []);
    assert messages + [] == messages;
  }

  lemma RequestSent(trace: Trace, messages: History, ed: Editing, sent: History, model: Model)
    requires RequestsOk(trace, messages, ed) && WellFormed(messages)
    requires SameShape(messages, sent) && EditedCopy(messages, ed, sent)
    ensures RequestsOk(trace + [Request(model, sent)], messages, ed)
  {
    hide CopyOfEarlier;
    CopyNow(messages, sent, ed);
  }

  // ---- switches ------------------------------------------------------------------------------------------

  function Abandoned(trace: Trace): set<Model> {
    if trace == [] then {}
    else
      var before, t := Abandoned(trace[..|trace| - 1]), trace[|trace| - 1];
      if t.Switched? then before + {t.from} else before
  }

  function Switches(trace: Trace): nat {
    if trace == [] then 0 else Switches(trace[..|trace| - 1]) + if trace[|trace| - 1].Switched? then 1 else 0
  }

  /** A model once abandoned is neither asked nor abandoned again. */
  ghost predicate NeverAgain(trace: Trace) {
    forall i, j | 0 <= i < j < |trace| && trace[i].Switched? ::
      && (trace[j].Request? ==> trace[j].model != trace[i].from)
      && (trace[j].Switched? ==> trace[j].from != trace[i].from)
  }

  lemma {:induction false} AbandonedIff(trace: Trace, m: Model)
    ensures m in Abandoned(trace) <==> exists i :: 0 <= i < |trace| && trace[i].Switched? && trace[i].from == m
  {
    if trace != [] {
      var init := trace[..|trace| - 1];
      AbandonedIff(init, m);
      assert trace == init + [trace[|trace| - 1]];
      assert forall i | 0 <= i < |init| :: trace[i] == init[i];
    }
  }

  lemma NeverAgainSnoc(trace: Trace, t: Tick)
    requires NeverAgain(trace)
    requires t.Request? ==> t.model !in Abandoned(trace)
    requires t.Switched? ==> t.from !in Abandoned(trace)
    ensures NeverAgain(trace + [t])
    ensures Abandoned(trace + [t]) == Abandoned(trace) + if t.Switched? then {t.from} else {}
    ensures Switches(trace + [t]) == Switches(trace) + if t.Switched? then 1 else 0
  {
    assert (trace + [t])[..|trace|] == trace;
    var m := if t.Request? then t.model else if t.Switched? then t.from else "";
    AbandonedIff(trace, m);
  }

  // ---- unproductive stretches ----------------------------------------------------------------------------

  /** Replies since the last turn that changed a file. */
  function Stretch(trace: Trace): nat {
    if trace == [] then 0
    else
      match trace[|trace| - 1]
      case Reply(changed) => if changed then 0 else Stretch(trace[..|trace| - 1]) + 1
      case _ => Stretch(trace[..|trace| - 1])
  }

  /** Switches since the last turn that changed a file. */
  function SwitchesSince(trace: Trace): nat {
    if trace == [] then 0
    else
      match trace[|trace| - 1]
      case Reply(changed) => if changed then 0 else SwitchesSince(trace[..|trace| - 1])
      case Switched(_, _) => SwitchesSince(trace[..|trace| - 1]) + 1
      case Request(_, _) => SwitchesSince(trace[..|trace| - 1])
  }

  /** Four replies may be spent on recoveries, and `limit` on each model. */
  ghost predicate Within(trace: Trace, limit: nat) {
    Stretch(trace) <= 4 + SwitchesSince(trace) * limit + limit
  }

  ghost predicate Bounded(trace: Trace, limit: nat) { forall k | 0 <= k <= |trace| :: Within(trace[..k], limit) }

  /** Replies since the last switch and the last turn that changed a file. */
  function Fruitless(trace: Trace): nat {
    if trace == [] then 0
    else
      match trace[|trace| - 1]
      case Reply(changed) => if changed then 0 else Fruitless(trace[..|trace| - 1]) + 1
      case Switched(_, _) => 0
      case Request(_, _) => Fruitless(trace[..|trace| - 1])
  }

  /** What is left of the bound: `recoveries` and `idle` turns of the current model have been used. */
  ghost predicate Ahead(trace: Trace, limit: nat, recoveries: nat, idle: nat) {
    Stretch(trace) <= recoveries + SwitchesSince(trace) * limit + idle && idle <= Fruitless(trace)
  }

  lemma BoundedSnoc(trace: Trace, t: Tick, limit: nat)
    requires Bounded(trace, limit) && Within(trace + [t], limit)
    ensures Bounded(trace + [t], limit)
  {
    var l := trace + [t];
    forall k | 0 <= k <= |l| ensures Within(l[..k], limit) {
      if k <= |trace| { assert l[..k] == trace[..k]; } else { assert l[..k] == l; }
    }
  }

  lemma TickCounts(trace: Trace, t: Tick)
    ensures Stretch(trace + [t]) ==
            if t == Reply(true) then 0 else if t.Reply? then Stretch(trace) + 1 else Stretch(trace)
    ensures SwitchesSince(trace + [t]) ==
            if t == Reply(true) then 0 else if t.Switched? then SwitchesSince(trace) + 1 else SwitchesSince(trace)
    ensures Fruitless(trace + [t]) ==
            if t == Reply(true) || t.Switched? then 0 else if t.Reply? then Fruitless(trace) + 1 else Fruitless(trace)
  {
    assert (trace + [t])[..|trace|] == trace;
  }

  lemma ReplyTick(trace: Trace, limit: nat, recoveries: nat, idle: nat, changed: bool)
    requires Bounded(trace, limit) && Ahead(trace, limit, recoveries, idle) && recoveries <= 4 && idle < limit
    ensures Bounded(trace + [Reply(changed)], limit)
    ensures changed ==> Ahead(trace + [Reply(changed)], limit, recoveries, 0)
    ensures !changed ==> Ahead(trace + [Reply(changed)], limit, recoveries, idle + 1)
    ensures !changed ==> Ahead(trace + [Reply(changed)], limit, recoveries + 1, idle)
  {
    TickCounts(trace, Reply(changed));
    BoundedSnoc(trace, Reply(changed), limit);
  }

  lemma SwitchTick(trace: Trace, limit: nat, recoveries: nat, idle: nat, t: Tick)
    requires Bounded(trace, limit) && Ahead(trace, limit, recoveries, idle) && idle <= limit && t.Switched?
    requires recoveries <= 4
    ensures Bounded(trace + [t], limit) && Ahead(trace + [t], limit, recoveries, 0)
  {
    TickCounts(trace, t);
    assert (SwitchesSince(trace) + 1) * limit == SwitchesSince(trace) * limit + limit;
    BoundedSnoc(trace, t, limit);
  }

  lemma RequestTick(trace: Trace, limit: nat, recoveries: nat, idle: nat, t: Tick)
    requires Bounded(trace, limit) && Ahead(trace, limit, recoveries, idle) && t.Request?
    ensures Bounded(trace + [t], limit) && Ahead(trace + [t], limit, recoveries, idle)
  {
    TickCounts(trace, t);
    assert trace[..|trace|] == trace;
    BoundedSnoc(trace, t, limit);
  }

  lemma {:induction false} SwitchesSinceAtMost(trace: Trace)
    ensures SwitchesSince(trace) <= Switches(trace)
  {
    if trace != [] { SwitchesSinceAtMost(trace[..|trace| - 1]); }
  }

  // ---- replies -------------------------------------------------------------------------------------------

  /** The replies, in order: whether each came in a turn that changed a file. */
  function Replies(trace: Trace): seq<bool> {
    if trace == [] then []
    else
      var t := trace[|trace| - 1];
      Replies(trace[..|trace| - 1]) + if t.Reply? then [t.changed] else []
  }

  predicate AllIdle(replies: seq<bool>, i: nat, j: nat)
    requires j <= |replies|
  {
    forall k | i <= k < j :: !replies[k]
  }

  /** Every run of replies that change nothing stays within four recoveries and the turns of `switches + 1` models. */
  ghost predicate IdleBounded(replies: seq<bool>, switches: nat, limit: nat) {
    forall i, j | 0 <= i <= j <= |replies| && AllIdle(replies, i, j) :: j - i <= 4 + (switches + 1) * limit
  }

  /** Between two replies that change a file there are at most four recoveries and the turns of the models used
      there. */
  ghost predicate StretchesBounded(trace: Trace, limit: nat) {
    forall k | 0 <= k <= |trace| :: Stretch(trace[..k]) <= 4 + (SwitchesSince(trace[..k]) + 1) * limit
  }

  lemma BoundedMeans(trace: Trace, limit: nat)
    requires Bounded(trace, limit)
    ensures StretchesBounded(trace, limit) && IdleBounded(Replies(trace), Switches(trace), limit)
  {
    forall k | 0 <= k <= |trace| ensures Stretch(trace[..k]) <= 4 + (SwitchesSince(trace[..k]) + 1) * limit {
      assert Within(trace[..k], limit);
      assert (SwitchesSince(trace[..k]) + 1) * limit == SwitchesSince(trace[..k]) * limit + limit;
    }
    hide Bounded, Stretch, Switches, SwitchesSince, Replies;
    forall i, j | 0 <= i <= j <= |Replies(trace)| && AllIdle(Replies(trace), i, j)
      ensures j - i <= 4 + (Switches(trace) + 1) * limit
    {
      IdleRunBounded(trace, limit, i, j);
    }
  }

  /** How many replies at the end changed nothing. */
  function Idle(replies: seq<bool>): nat {
    if replies == [] || replies[|replies| - 1] then 0 else Idle(replies[..|replies| - 1]) + 1
  }

  lemma {:induction false} RepliesAppend(a: Trace, b: Trace)
    ensures Replies(a + b) == Replies(a) + Replies(b)
    decreases |b|
  {
    if b == [] {
      assert a + b == a;
    } else {
      var init := b[..|b| - 1];
      RepliesAppend(a, init);
      assert (a + b)[..|a + b| - 1] == a + init && (a + b)[|a + b| - 1] == b[|b| - 1];
    }
  }

  lemma {:induction false} StretchIsIdle(trace: Trace)
    ensures Stretch(trace) == Idle(Replies(trace))
  {
    if trace != [] {
      var init, t := trace[..|trace| - 1], trace[|trace| - 1];
      StretchIsIdle(init);
      if t.Reply? {
        var r := Replies(init);
        assert Replies(trace) == r + [t.changed] && (r + [t.changed])[..|r|] == r;
      } else {
        assert Replies(trace) == Replies(init) && Stretch(trace) == Stretch(init);
      }
    }
  }

  lemma {:induction false} IdleRun(replies: seq<bool>, i: nat)
    requires i <= |replies| && forall k | i <= k < |replies| :: !replies[k]
    ensures |replies| - i <= Idle(replies)
    decreases |replies|
  {
    if i < |replies| { IdleRun(replies[..|replies| - 1], i); }
  }

  /** Every beginning of the replies is what some beginning of the trace had. */
  lemma {:induction false} RepliesPrefix(trace: Trace, j: nat) returns (k: nat)
    requires j <= |Replies(trace)|
    ensures k <= |trace| && Replies(trace[..k]) == Replies(trace)[..j]
    decreases |trace|
  {
    k := |trace|;
    assert trace[..k] == trace;
    if j < |Replies(trace)| {
      var init := trace[..|trace| - 1];
      assert trace == init + [trace[|trace| - 1]];
      k := RepliesPrefix(init, j);
      assert init[..k] == trace[..k];
    }
  }

  lemma {:induction false} SwitchesPrefix(trace: Trace, k: nat)
    requires k <= |trace|
    ensures Switches(trace[..k]) <= Switches(trace)
    decreases |trace|
  {
    if k < |trace| {
      SwitchesPrefix(trace[..|trace| - 1], k);
      assert trace[..|trace| - 1][..k] == trace[..k];
    } else {
      assert trace[..k] == trace;
    }
  }

  /** A run of replies that change nothing is bounded by four recoveries and the turns of the models of the session. */
  lemma IdleRunBounded(trace: Trace, limit: nat, i: nat, j: nat)
    requires Bounded(trace, limit) && i <= j <= |Replies(trace)| && AllIdle(Replies(trace), i, j)
    ensures j - i <= 4 + (Switches(trace) + 1) * limit
  {
    hide *;
    var k := RepliesPrefix(trace, j);
    IdleToTheEnd(Replies(trace), i, j);
    IdleRun(Replies(trace)[..j], i);
    StretchIsIdle(trace[..k]);
    SwitchesSinceAtMost(trace[..k]);
    SwitchesPrefix(trace, k);
    StretchWithin(trace, limit, k, Switches(trace));
  }

  lemma IdleToTheEnd(replies: seq<bool>, i: nat, j: nat)
    requires i <= j <= |replies| && AllIdle(replies, i, j)
    ensures forall k | i <= k < |replies[..j]| :: !replies[..j][k]
  {
  }

  lemma StretchWithin(trace: Trace, limit: nat, k: nat, switches: nat)
    requires Bounded(trace, limit) && k <= |trace| && SwitchesSince(trace[..k]) <= switches
    ensures Stretch(trace[..k]) <= 4 + (switches + 1) * limit
  {
    assert Within(trace[..k], limit);
    hide Stretch, SwitchesSince, Bounded;
    Scale(SwitchesSince(trace[..k]), switches, limit);
    assert (switches + 1) * limit == switches * limit + limit;
  }

  lemma Scale(a: nat, b: nat, m: nat)
    requires a <= b
    ensures a * m <= b * m
  {
  }
}
