/** What happens during one resilient call, and the rules its course has to keep. */
module CallTrace {
  import opened Options

  type Model = string

  datatype Kind = Fatal | Transient | ModelError

  /** A failure; `serverMin` is the wait the server asked for, 0 when it asked for none. */
  datatype Failure = Failure(id: nat, kind: Kind, serverMin: real)

  datatype Outcome = Answer | Fails(failure: Failure)

  /** What happens, in order: the clock is read, a request runs, the call sleeps, a model is quarantined, or the call is
      given up early because of a wait of `delay` (0 when the deadline has passed). */
  datatype Event =
    | Read(at: real)
    | Attempt(model: Model, start: real, end: real, out: Outcome)
    | Sleep(start: real, delay: real, end: real)
    | Quarantine(model: Model, at: real, until: real)
    | Stopped(at: real, delay: real)

  datatype Result = Returned | Raised(failure: Failure) | InvalidBounds

  datatype Settings = Settings(
    retryEnabled: bool, maxRetries: int, retryBase: real, maxRetryDelay: real, callDeadline: real,
    fallbackEnabled: bool, operatorFallbacks: seq<Model>, maxFallbacks: int, unhealthyTtl: real)

  function Begin(e: Event): real {
    match e
    case Attempt(_, start, _, _) => start
    case Sleep(start, _, _) => start
    case Read(at) => at
    case Quarantine(_, at, _) => at
    case Stopped(at, _) => at
  }

  function End(e: Event): real {
    match e
    case Attempt(_, _, end, _) => end
    case Sleep(_, _, end) => end
    case _ => Begin(e)
  }

  // ---- reading a trace -----------------------------------------------------------------------------------

  function Attempts(t: seq<Event>): nat {
    if t == [] then 0 else Attempts(t[..|t| - 1]) + if t[|t| - 1].Attempt? then 1 else 0
  }

  function FirstFailure(t: seq<Event>): Option<Failure> {
    if t == [] then None
    else
      var before, e := FirstFailure(t[..|t| - 1]), t[|t| - 1];
      if before.None? && e.Attempt? && e.out.Fails? then Some(e.out.failure) else before
  }

  /** The wait that a failed attempt imposes on the rest of the call. */
  function Demand(e: Event): real {
    if e.Attempt? && e.out.Fails? && e.out.failure.kind == Transient && e.out.failure.serverMin > 0.0
    then e.out.failure.serverMin else 0.0
  }

  /** What the last attempt demands. */
  function LastDemand(t: seq<Event>): real {
    if t == [] then 0.0 else if t[|t| - 1].Attempt? then Demand(t[|t| - 1]) else LastDemand(t[..|t| - 1])
  }

  // ---- waits ---------------------------------------------------------------------------------------------

  /** `_retry_budget` */
  function RetryBudget(s: Settings): nat { if !s.retryEnabled || s.maxRetries < 0 then 0 else s.maxRetries }

  function Pow2(n: nat): real { if n == 0 then 1.0 else 2.0 * Pow2(n - 1) }

  lemma Pow2Positive(n: nat)
    ensures Pow2(n) > 0.0
  {
  }

  function Backoff(s: Settings, attempt: nat): real {
    var d := Pow2(attempt) * s.retryBase;
    if d < s.maxRetryDelay then d else s.maxRetryDelay
  }

  /** The backoff starts at the base delay and doubles, up to the cap. */
  lemma BackoffDoubles(s: Settings, n: nat)
    requires s.maxRetryDelay >= 0.0
    ensures Backoff(s, 0) == if s.retryBase < s.maxRetryDelay then s.retryBase else s.maxRetryDelay
    ensures var twice := Backoff(s, n) + Backoff(s, n);
            Backoff(s, n + 1) == if twice < s.maxRetryDelay then twice else s.maxRetryDelay
  {
    var d := Pow2(n) * s.retryBase;
    assert Pow2(n + 1) * s.retryBase == d + d;
  }

  /** The backoff before the retry after attempt `n`, with up to half of it added. */
  predicate BacksOff(s: Settings, n: nat, delay: real) {
    var d := Backoff(s, n); if d >= 0.0 then d <= delay <= d * 1.5 else d * 1.5 <= delay <= d
  }

  lemma BacksOffLong(s: Settings, n: nat, delay: real)
    requires BacksOff(s, n, delay)
    ensures 0.0 <= delay ==> delay >= Backoff(s, n)
  {
  }

  ghost predicate IsBackoff(s: Settings, delay: real) { exists n: nat :: n < RetryBudget(s) && BacksOff(s, n, delay) }

  lemma NegativeBackoff(s: Settings, delay: real)
    requires IsBackoff(s, delay) && delay < 0.0 && s.maxRetryDelay >= 0.0
    ensures s.retryBase < 0.0
  {
    var n: nat :| n < RetryBudget(s) && BacksOff(s, n, delay);
    BackoffSign(s, n);
  }

  lemma BackoffSign(s: Settings, n: nat)
    ensures s.retryBase >= 0.0 && s.maxRetryDelay >= 0.0 ==> Backoff(s, n) >= 0.0
  {
    Pow2Positive(n);
    if s.retryBase >= 0.0 { assert Pow2(n) * s.retryBase >= 0.0; }
  }

  function AttemptsOn(t: seq<Event>, m: Model): nat {
    if t == [] then 0
    else
      var e := t[|t| - 1];
      AttemptsOn(t[..|t| - 1], m) + if e.Attempt? && e.model == m then 1 else 0
  }

  /** Only a transient failure is tried again on the same model. */
  predicate Retryable(e: Event) { e.Attempt? && e.out.Fails? && e.out.failure.kind == Transient }

  /** Attempt `i` failed in passing, and between it and `j` the call slept at least for its backoff on its model. */
  ghost predicate SleptAfter(s: Settings, t: seq<Event>, i: nat, j: nat)
    requires i < j <= |t| && t[i].Attempt?
  {
    Retryable(t[i]) && exists k :: i < k < j && t[k].Sleep? && t[k].delay >= Backoff(s, AttemptsOn(t[..i], t[i].model))
  }

  /** The call has slept for the backoff of every attempt on the model. */
  ghost predicate Rested(s: Settings, t: seq<Event>, m: Model) {
    forall i | 0 <= i < |t| && t[i].Attempt? && t[i].model == m :: SleptAfter(s, t, i, |t|)
  }

  /** A wait is what the last attempt demands or a backoff. */
  ghost predicate Waits(s: Settings, t: seq<Event>, delay: real) { delay == LastDemand(t) || IsBackoff(s, delay) }

  // ---- the rules -----------------------------------------------------------------------------------------

  /** Nothing begins before what came before it has ended. */
  ghost predicate InOrder(t: seq<Event>) {
    && (forall i | 0 <= i < |t| :: Begin(t[i]) <= End(t[i]))
    && (forall i, j | 0 <= i < j < |t| :: End(t[i]) <= Begin(t[j]))
  }

  /** An attempt that was followed by anything but the end of the call failed, but not fatally. */
  predicate GoesOn(e: Event) { !e.Stopped? && (e.Attempt? ==> e.out.Fails? && e.out.failure.kind != Fatal) }

  ghost predicate Continues(t: seq<Event>) { forall i | 0 <= i < |t| - 1 :: t[i].Stopped? || GoesOn(t[i]) }

  /** No attempt starts earlier than any failed one before it allows. */
  ghost predicate DemandsKept(t: seq<Event>) {
    forall i, j | 0 <= i < j < |t| && t[i].Attempt? && t[j].Attempt? :: t[i].end + Demand(t[i]) <= t[j].start
  }

  ghost predicate CheckedBetween(t: seq<Event>, i: nat, j: nat, deadline: real)
    requires i < j < |t|
  {
    exists k | i < k < j :: t[k].Read? && End(t[i]) <= t[k].at < deadline
  }

  /** Between an attempt or a sleep and a later attempt the clock was read, and it was before the deadline. */
  ghost predicate ChecksKept(t: seq<Event>, deadline: real) {
    deadline > 0.0 ==>
      forall i, j | 0 <= i < j < |t| && (t[i].Attempt? || t[i].Sleep?) && t[j].Attempt? ::
        CheckedBetween(t, i, j, deadline)
  }

  /** Between two attempts on a model the call sleeps at least for the backoff of the first, which failed in passing. */
  ghost predicate BackoffsKept(s: Settings, t: seq<Event>) {
    forall i, j | 0 <= i < j < |t| && t[i].Attempt? && t[j].Attempt? && t[i].model == t[j].model ::
      SleptAfter(s, t, i, j)
  }

  /** A sleep lasts as long as was asked, and follows at once on a reading by which it will not reach the deadline. */
  ghost predicate SleepsKept(s: Settings, t: seq<Event>, deadline: real) {
    forall k | 0 <= k < |t| && t[k].Sleep? :: SleepOk(s, t[..k], deadline, t[k])
  }

  ghost predicate SleepOk(s: Settings, before: seq<Event>, deadline: real, e: Event)
    requires e.Sleep?
  {
    && 0.0 <= e.delay && Waits(s, before, e.delay) && e.start + e.delay <= e.end
    && (deadline > 0.0 ==>
          before != [] && before[|before| - 1].Read? && before[|before| - 1].at + e.delay < deadline)
  }

  /** What there is to give up for: a reading by which the deadline has passed, or would be reached by the wait; a
      server that has just asked for too long a wait; or a negative backoff. */
  ghost predicate Justified(s: Settings, deadline: real, t: seq<Event>, delay: real)
    requires t != []
  {
    var before := t[|t| - 1];
    || (deadline > 0.0 && before.Read? && delay >= 0.0 && (delay == 0.0 || Waits(s, t, delay))
        && before.at + delay >= deadline)
    || Demand(before) == delay > s.maxRetryDelay
    || (delay < 0.0 && IsBackoff(s, delay))
  }

  /** Giving up ends the trace, after some failure, and for a reason. */
  ghost predicate StopsKept(s: Settings, t: seq<Event>, deadline: real) {
    forall k | 0 <= k < |t| && t[k].Stopped? ::
      k == |t| - 1 && k > 0 && FirstFailure(t).Some? && Justified(s, deadline, t[..k], t[k].delay)
  }

  ghost predicate TraceOk(s: Settings, deadline: real, t: seq<Event>) {
    && InOrder(t) && Continues(t) && DemandsKept(t) && ChecksKept(t, deadline)
    && SleepsKept(s, t, deadline) && StopsKept(s, t, deadline) && BackoffsKept(s, t)
  }

  predicate EndsFatally(t: seq<Event>, f: Failure) {
    t != [] && t[|t| - 1].Attempt? && t[|t| - 1].out == Fails(f) && f.kind == Fatal
  }

  /** How a call may end: with an answer; with its own fatal error; or with the first error it met, once it has been
      given up or the candidates are exhausted. */
  ghost predicate Explains(t: seq<Event>, r: Result, exhausted: bool) {
    match r
    case Returned => !exhausted && t != [] && t[|t| - 1].Attempt? && t[|t| - 1].out == Answer
    case Raised(f) =>
      if exhausted then AllGoOn(t) && FirstFailure(t) == Some(f)
      else EndsFatally(t, f) || (t != [] && t[|t| - 1].Stopped? && FirstFailure(t) == Some(f))
    case InvalidBounds => !exhausted && t == []
  }

  ghost predicate AllGoOn(t: seq<Event>) { forall e | e in t :: GoesOn(e) }

  ghost predicate Over(s: Settings, deadline: real, t: seq<Event>, r: Result, exhausted: bool) {
    TraceOk(s, deadline, t) && Explains(t, r, exhausted)
  }

  // ---- a call that may still make attempts ---------------------------------------------------------------

  /** At `clock` all is past, and waiting `pending` more satisfies every demand. */
  ghost predicate Owed(t: seq<Event>, clock: real, pending: real) {
    pending >= 0.0 && forall e | e in t :: End(e) <= clock && (e.Attempt? ==> e.end + Demand(e) <= clock + pending)
  }

  ghost predicate Going(s: Settings, deadline: real, t: seq<Event>, clock: real, first: Option<Failure>,
                        pending: real) {
    && TraceOk(s, deadline, t) && AllGoOn(t) && Owed(t, clock, pending)
    && first == FirstFailure(t) && (pending > 0.0 ==> first.Some?)
    && (forall e | e in t && e.Sleep? :: first.Some?) && (pending > 0.0 ==> pending == LastDemand(t))
  }

  /** The wait is the one that is pending or a backoff. */
  ghost predicate Due(s: Settings, pending: real, delay: real) {
    (delay == pending && pending > 0.0) || IsBackoff(s, delay)
  }

  /** As `Justified`, with the wait that is pending. */
  ghost predicate Reason(s: Settings, deadline: real, before: Event, pending: real, delay: real) {
    || (&& deadline > 0.0 && before.Read? && delay >= 0.0 && (delay == 0.0 || Due(s, pending, delay))
        && before.at + delay >= deadline)
    || Demand(before) == delay > s.maxRetryDelay
    || (delay < 0.0 && IsBackoff(s, delay))
  }

  /** The last thing the call did was to see that the deadline is still ahead, if it has to. */
  predicate Ready(deadline: real, t: seq<Event>, first: Option<Failure>) {
    deadline > 0.0 && first.Some? ==> t != [] && t[|t| - 1].Read? && t[|t| - 1].at < deadline
  }

  lemma Snoc(t: seq<Event>, e: Event)
    ensures Attempts(t + [e]) == Attempts(t) + if e.Attempt? then 1 else 0
    ensures FirstFailure(t + [e]) ==
            if FirstFailure(t).None? && e.Attempt? && e.out.Fails? then Some(e.out.failure) else FirstFailure(t)
    ensures LastDemand(t + [e]) == if e.Attempt? then Demand(e) else LastDemand(t)
    ensures forall x :: x in t + [e] <==> x in t || x == e
  {
    assert (t + [e])[..|t|] == t;
  }

  lemma {:induction false} NoFailureNoAttempt(t: seq<Event>)
    requires AllGoOn(t)
    ensures FirstFailure(t).None? <==> forall e | e in t :: !e.Attempt?
  {
    if t != [] {
      var init, e := t[..|t| - 1], t[|t| - 1];
      assert t == init + [e];
      Snoc(init, e);
      NoFailureNoAttempt(init);
      assert GoesOn(e);
    }
  }

  lemma Start(s: Settings, deadline: real, clock: real)
    ensures Going(s, deadline, [], clock, None, 0.0)
    ensures Over(s, deadline, [], InvalidBounds, false)
  {
  }

  lemma GoingMeans(s: Settings, deadline: real, t: seq<Event>, clock: real, first: Option<Failure>, pending: real)
    requires Going(s, deadline, t, clock, first, pending)
    ensures pending >= 0.0 && (pending > 0.0 ==> first.Some?) && first == FirstFailure(t)
    ensures first.Some? ==> t != [] && Over(s, deadline, t, Raised(first.value), true)
  {
  }

  lemma OverMeans(s: Settings, deadline: real, t: seq<Event>, r: Result, exhausted: bool)
    requires Over(s, deadline, t, r, exhausted)
    ensures TraceOk(s, deadline, t) && Explains(t, r, exhausted)
  {
  }

  /** The parts of the rules that concern one more event at a time. */
  lemma OrderSnoc(t: seq<Event>, clock: real, pending: real, e: Event)
    requires InOrder(t) && AllGoOn(t) && Owed(t, clock, pending) && clock <= Begin(e) <= End(e)
    ensures InOrder(t + [e]) && Continues(t + [e])
  {
    forall i | 0 <= i < |t| ensures End(t[i]) <= clock && GoesOn(t[i]) { assert t[i] in t; }
  }

  lemma ChecksSnoc(t: seq<Event>, deadline: real, clock: real, pending: real, e: Event)
    requires ChecksKept(t, deadline) && InOrder(t)
    requires e.Attempt? && deadline > 0.0 && (exists i | 0 <= i < |t| :: t[i].Attempt? || t[i].Sleep?) ==>
               t[|t| - 1].Read? && t[|t| - 1].at < deadline
    ensures ChecksKept(t + [e], deadline)
  {
    var u := t + [e];
    if deadline > 0.0 {
      forall i, j | 0 <= i < j < |u| && (u[i].Attempt? || u[i].Sleep?) && u[j].Attempt?
        ensures CheckedBetween(u, i, j, deadline)
      {
        if j < |t| {
          assert CheckedBetween(t, i, j, deadline);
          var k :| i < k < j && t[k].Read? && End(t[i]) <= t[k].at < deadline;
          assert u[k] == t[k];
        } else {
          assert u[|t| - 1] == t[|t| - 1] && u[i] == t[i] && i != |t| - 1;
        }
      }
    }
  }

  lemma SleepsSnoc(s: Settings, t: seq<Event>, deadline: real, e: Event)
    requires SleepsKept(s, t, deadline) && (e.Sleep? ==> SleepOk(s, t, deadline, e))
    ensures SleepsKept(s, t + [e], deadline)
  {
    var u := t + [e];
    forall k | 0 <= k < |u| && u[k].Sleep? ensures SleepOk(s, u[..k], deadline, u[k]) {
      assert u[..k] == if k < |t| then t[..k] else t;
    }
  }

  lemma StopsSnoc(s: Settings, t: seq<Event>, deadline: real, e: Event)
    requires AllGoOn(t)
    requires e.Stopped? ==> t != [] && FirstFailure(t).Some? && Justified(s, deadline, t, e.delay)
    ensures StopsKept(s, t + [e], deadline)
  {
    Snoc(t, e);
    forall k | 0 <= k < |t| ensures !(t + [e])[k].Stopped? { assert t[k] in t && GoesOn(t[k]); }
    assert (t + [e])[..|t|] == t;
  }

  lemma SleptLater(s: Settings, t: seq<Event>, u: seq<Event>, i: nat, j: nat)
    requires t <= u && i < j <= |t| && t[i].Attempt? && SleptAfter(s, t, i, j)
    ensures SleptAfter(s, u, i, j)
  {
    assert u[..i] == t[..i];
    var k :| i < k < j && t[k].Sleep? && t[k].delay >= Backoff(s, AttemptsOn(t[..i], t[i].model));
    assert u[k] == t[k];
  }

  lemma BackoffsSnoc(s: Settings, t: seq<Event>, e: Event)
    requires BackoffsKept(s, t) && (e.Attempt? ==> Rested(s, t, e.model))
    ensures BackoffsKept(s, t + [e])
  {
    var u := t + [e];
    forall i, j | 0 <= i < j < |u| && u[i].Attempt? && u[j].Attempt? && u[i].model == u[j].model
      ensures SleptAfter(s, u, i, j)
    {
      assert u[i] == t[i];
      if j < |t| { assert u[j] == t[j]; }
      hide SleptAfter;
      assert SleptAfter(s, t, i, j);
      SleptLater(s, t, u, i, j);
    }
  }

  lemma DemandsSnoc(t: seq<Event>, clock: real, e: Event)
    requires DemandsKept(t)
    requires e.Attempt? ==> Owed(t, clock, 0.0) && clock <= e.start
    ensures DemandsKept(t + [e])
  {
    var u := t + [e];
    forall i, j | 0 <= i < j < |u| && u[i].Attempt? && u[j].Attempt? ensures u[i].end + Demand(u[i]) <= u[j].start {
      assert u[i] == t[i] && t[i] in t;
    }
  }

  /** One more event keeps the rules. */
  lemma EventKeeps(s: Settings, deadline: real, t: seq<Event>, clock: real, first: Option<Failure>, pending: real,
                   e: Event)
    requires Going(s, deadline, t, clock, first, pending) && clock <= Begin(e) <= End(e)
    requires e.Attempt? ==> pending == 0.0 && Ready(deadline, t, first) && Rested(s, t, e.model)
    requires e.Sleep? ==> first.Some? && SleepOk(s, t, deadline, e)
    requires e.Stopped? ==> t != [] && first.Some? && Justified(s, deadline, t, e.delay)
    ensures TraceOk(s, deadline, t + [e])
  {
    OrderSnoc(t, clock, pending, e);
    NoFailureNoAttempt(t);
    forall i | 0 <= i < |t| && (t[i].Attempt? || t[i].Sleep?) ensures first.Some? { assert t[i] in t; }
    ChecksSnoc(t, deadline, clock, pending, e);
    SleepsSnoc(s, t, deadline, e);
    StopsSnoc(s, t, deadline, e);
    DemandsSnoc(t, clock, e);
    BackoffsSnoc(s, t, e);
  }

  /** Reading the clock, quarantining and sleeping leave the call going. */
  lemma ReadStep(s: Settings, deadline: real, t: seq<Event>, clock: real, first: Option<Failure>, pending: real,
                 e: Event)
    requires Going(s, deadline, t, clock, first, pending) && (e.Read? || e.Quarantine?) && clock <= Begin(e)
    ensures Going(s, deadline, t + [e], Begin(e), first, pending)
  {
    EventKeeps(s, deadline, t, clock, first, pending, e);
    Snoc(t, e);
    hide TraceOk, FirstFailure, LastDemand;
  }

  lemma SleepStep(s: Settings, deadline: real, t: seq<Event>, clock: real, first: Option<Failure>, pending: real,
                  e: Event)
    requires Going(s, deadline, t, clock, first, pending) && e.Sleep? && clock <= e.start
    requires first.Some? && 0.0 <= e.delay && pending <= e.delay && Due(s, pending, e.delay)
    requires e.start + e.delay <= e.end
    requires deadline > 0.0 ==> t != [] && t[|t| - 1].Read? && t[|t| - 1].at + e.delay < deadline
    ensures Going(s, deadline, t + [e], e.end, first, 0.0)
  {
    EventKeeps(s, deadline, t, clock, first, pending, e);
    Snoc(t, e);
    hide TraceOk, FirstFailure, LastDemand;
  }

  lemma StopStep(s: Settings, deadline: real, t: seq<Event>, clock: real, first: Option<Failure>, pending: real,
                 e: Event)
    requires Going(s, deadline, t, clock, first, pending) && e.Stopped? && clock <= e.at
    requires t != [] && first.Some? && Reason(s, deadline, t[|t| - 1], pending, e.delay)
    ensures Over(s, deadline, t + [e], Raised(first.value), false)
  {
    EventKeeps(s, deadline, t, clock, first, pending, e);
    Snoc(t, e);
    hide TraceOk, FirstFailure, LastDemand;
  }

  lemma AttemptStep(s: Settings, deadline: real, t: seq<Event>, clock: real, first: Option<Failure>, e: Event)
    requires Going(s, deadline, t, clock, first, 0.0) && e.Attempt? && clock <= e.start <= e.end
    requires Ready(deadline, t, first)
    requires Rested(s, t, e.model)
    ensures e.out.Answer? ==> Over(s, deadline, t + [e], Returned, false)
    ensures e.out.Fails? && e.out.failure.kind == Fatal ==> Over(s, deadline, t + [e], Raised(e.out.failure), false)
    ensures e.out.Fails? && e.out.failure.kind != Fatal ==>
              Going(s, deadline, t + [e], e.end, if first.None? then Some(e.out.failure) else first, Demand(e))
  {
    EventKeeps(s, deadline, t, clock, first, 0.0, e);
    Snoc(t, e);
    hide TraceOk, FirstFailure, LastDemand;
  }

  /** Only readings of the clock were added. */
  ghost predicate OnlyReads(a: seq<Event>, clock: real, b: seq<Event>, clock': real) {
    || (b == a && clock <= clock')
    || (|b| > |a| && b[|b| - 1].Read? && b[|b| - 1].at <= clock' && OnlyReads(a, clock, b[..|b| - 1], b[|b| - 1].at))
  }

  lemma OnlyReadsSnoc(a: seq<Event>, clock: real, b: seq<Event>, at: real, at': real)
    requires OnlyReads(a, clock, b, at) && at <= at'
    ensures OnlyReads(a, clock, b + [Read(at')], at') && OnlyReads(a, clock, b, at')
  {
    OnlyReadsPrefix(a, clock, b, at);
    OnlyReadsLater(a, clock, b, at, at');
    assert (b + [Read(at')])[..|b|] == b;
  }

  lemma {:induction false} OnlyReadsLater(a: seq<Event>, clock: real, b: seq<Event>, at: real, at': real)
    requires OnlyReads(a, clock, b, at) && at <= at'
    ensures OnlyReads(a, clock, b, at')
  {
  }

  lemma {:induction false} OnlyReadsPrefix(a: seq<Event>, clock: real, b: seq<Event>, clock': real)
    requires OnlyReads(a, clock, b, clock')
    ensures a <= b && clock <= clock'
    decreases |b|
  {
    if !(b == a && clock <= clock') { OnlyReadsPrefix(a, clock, b[..|b| - 1], b[|b| - 1].at); }
  }

  lemma {:induction false} OnlyReadsTransitive(a: seq<Event>, x: real, b: seq<Event>, y: real, c: seq<Event>, z: real)
    requires OnlyReads(a, x, b, y) && OnlyReads(b, y, c, z)
    ensures OnlyReads(a, x, c, z)
    decreases |c|
  {
    OnlyReadsPrefix(a, x, b, y);
    if c == b && y <= z {
      OnlyReadsLater(a, x, b, y, z);
    } else {
      OnlyReadsTransitive(a, x, b, y, c[..|c| - 1], c[|c| - 1].at);
    }
  }

  /** Readings leave a call going and add no attempts. */
  lemma {:induction false} ReadsStep(s: Settings, deadline: real, a: seq<Event>, clock: real, b: seq<Event>,
                                     clock': real, begin: nat, first: Option<Failure>, pending: real)
    requires begin <= |a| && OnlyReads(a, clock, b, clock') && Going(s, deadline, a[begin..], clock, first, pending)
    ensures a <= b && clock <= clock' && Going(s, deadline, b[begin..], clock', first, pending)
    ensures Quiet(a[begin..], b[begin..])
    decreases |b|
  {
    hide Going, Quiet;
    if b == a && clock <= clock' {
      Later(s, deadline, a[begin..], clock, clock', first, pending);
      QuietTransitive(a[begin..], a[begin..], a[begin..]);
    } else {
      var init, e := b[..|b| - 1], b[|b| - 1];
      ReadsStep(s, deadline, a, clock, init, e.at, begin, first, pending);
      hide *;
      assert b == init + [e];
      Slice(init, begin, e);
      ReadStep(s, deadline, init[begin..], e.at, first, pending, e);
      Later(s, deadline, b[begin..], e.at, clock', first, pending);
      QuietSnoc(a[begin..], init[begin..], e);
    }
  }

  lemma Later(s: Settings, deadline: real, t: seq<Event>, clock: real, clock': real, first: Option<Failure>,
              pending: real)
    requires Going(s, deadline, t, clock, first, pending) && clock <= clock'
    ensures Going(s, deadline, t, clock', first, pending)
  {
    hide TraceOk;
  }

  lemma Slice(t: seq<Event>, begin: nat, e: Event)
    requires begin <= |t|
    ensures (t + [e])[begin..] == t[begin..] + [e]
  {
  }

  // ---- which attempts were added -------------------------------------------------------------------------

  ghost predicate Quiet(a: seq<Event>, b: seq<Event>) { a <= b && forall i | |a| <= i < |b| :: !b[i].Attempt? }

  /** The attempts added are all on `model`. */
  ghost predicate Adds(model: Model, a: seq<Event>, b: seq<Event>) {
    a <= b && forall i | |a| <= i < |b| && b[i].Attempt? :: b[i].model == model
  }

  lemma AddsRefl(model: Model, a: seq<Event>)
    ensures Adds(model, a, a)
  {
  }

  lemma QuietTransitive(a: seq<Event>, b: seq<Event>, c: seq<Event>)
    ensures Quiet(a, b) && Quiet(b, c) ==> Quiet(a, c)
    ensures Quiet(a, a)
  {
    if Quiet(a, b) && Quiet(b, c) {
      forall i | |a| <= i < |c| ensures !c[i].Attempt? { if i < |b| { assert c[i] == b[i]; } }
    }
  }

  lemma QuietSnoc(a: seq<Event>, b: seq<Event>, e: Event)
    requires Quiet(a, b) && !e.Attempt?
    ensures Quiet(a, b + [e])
  {
  }

  lemma {:induction false} QuietAttempts(a: seq<Event>, b: seq<Event>)
    requires Quiet(a, b)
    ensures Attempts(b) == Attempts(a)
    decreases |b|
  {
    if |b| > |a| {
      assert !b[|b| - 1].Attempt?;
      QuietAttempts(a, b[..|b| - 1]);
    } else {
      assert a == b;
    }
  }

  // ---- turns on one model --------------------------------------------------------------------------------

  predicate Untried(t: seq<Event>, m: Model) { forall e | e in t && e.Attempt? :: e.model != m }

  /** The next attempt on the model is number `n`, counting from 0, and may start as far as backoff is concerned. */
  ghost predicate Turn(s: Settings, t: seq<Event>, m: Model, n: nat) { Rested(s, t, m) && AttemptsOn(t, m) == n }

  /** The call has slept for that long since `a`. */
  ghost predicate SleptFor(a: seq<Event>, b: seq<Event>, delay: real) {
    a <= b && exists k :: |a| <= k < |b| && b[k].Sleep? && b[k].delay == delay
  }

  lemma {:induction false} UntriedTurn(s: Settings, t: seq<Event>, m: Model)
    requires Untried(t, m)
    ensures Turn(s, t, m, 0)
  {
    if t != [] {
      assert t[|t| - 1] in t && forall e | e in t[..|t| - 1] :: e in t;
      UntriedTurn(s, t[..|t| - 1], m);
      forall i | 0 <= i < |t| ensures !(t[i].Attempt? && t[i].model == m) { assert t[i] in t; }
    }
  }

  lemma {:induction false} QuietAttemptsOn(a: seq<Event>, b: seq<Event>, m: Model)
    requires Quiet(a, b)
    ensures AttemptsOn(b, m) == AttemptsOn(a, m)
    decreases |b|
  {
    if |b| > |a| {
      assert !b[|b| - 1].Attempt?;
      QuietAttemptsOn(a, b[..|b| - 1], m);
    } else {
      assert a == b;
    }
  }

  lemma TurnQuiet(s: Settings, a: seq<Event>, b: seq<Event>, m: Model, n: nat)
    requires Turn(s, a, m, n) && Quiet(a, b)
    ensures Turn(s, b, m, n)
  {
    QuietAttemptsOn(a, b, m);
    hide AttemptsOn;
    forall i | 0 <= i < |b| && b[i].Attempt? && b[i].model == m ensures SleptAfter(s, b, i, |b|) {
      assert i < |a| && b[i] == a[i];
      assert SleptAfter(s, a, i, |a|);
      SleptLater(s, a, b, i, |a|);
    }
  }

  lemma SleptEarlier(a: seq<Event>, b: seq<Event>, c: seq<Event>, delay: real)
    requires a <= b && SleptFor(b, c, delay)
    ensures SleptFor(a, c, delay)
  {
  }

  lemma SleptNow(a: seq<Event>, e: Event)
    requires e.Sleep?
    ensures SleptFor(a, a + [e], e.delay)
  {
    assert (a + [e])[|a|] == e;
  }

  lemma TurnLater(s: Settings, begin: nat, a: seq<Event>, b: seq<Event>, m: Model, n: nat)
    requires begin <= |a| && Turn(s, a[begin..], m, n) && Quiet(a, b)
    ensures Turn(s, b[begin..], m, n)
  {
    hide Turn;
    TurnQuiet(s, a[begin..], b[begin..], m, n);
  }

  lemma NextTurn(s: Settings, begin: nat, t: seq<Event>, e: Event, b: seq<Event>, n: nat, delay: real)
    requires begin <= |t| && Retryable(e) && Turn(s, t[begin..], e.model, n) && Quiet(t + [e], b)
    requires SleptFor(t + [e], b, delay) && delay >= Backoff(s, n)
    ensures Turn(s, b[begin..], e.model, n + 1)
  {
    hide Turn, Backoff;
    Slice(t, begin, e);
    assert SleptFor(t[begin..] + [e], b[begin..], delay) by {
      var k :| |t| + 1 <= k < |b| && b[k].Sleep? && b[k].delay == delay;
      assert b[begin..][k - begin] == b[k];
    }
    TurnNext(s, t[begin..], e, b[begin..], n, delay);
  }

  /** A transient failure and a sleep of at least its backoff lead to the next attempt on the model. */
  lemma TurnNext(s: Settings, t: seq<Event>, e: Event, b: seq<Event>, n: nat, delay: real)
    requires Retryable(e) && Turn(s, t, e.model, n) && Quiet(t + [e], b)
    requires SleptFor(t + [e], b, delay) && delay >= Backoff(s, n)
    ensures Turn(s, b, e.model, n + 1)
  {
    var u, m := t + [e], e.model;
    assert u[..|t|] == t;
    assert AttemptsOn(u, m) == n + 1;
    QuietAttemptsOn(u, b, m);
    hide AttemptsOn, Backoff;
    forall i | 0 <= i < |b| && b[i].Attempt? && b[i].model == m ensures SleptAfter(s, b, i, |b|) {
      assert i < |u| && b[i] == u[i];
      if i < |t| {
        assert u[i] == t[i] && SleptAfter(s, t, i, |t|);
        SleptLater(s, t, b, i, |t|);
      } else {
        assert b[..i] == t;
        var k :| |u| <= k < |b| && b[k].Sleep? && b[k].delay == delay;
      }
    }
  }

  lemma AddsQuiet(model: Model, a: seq<Event>, b: seq<Event>, c: seq<Event>)
    requires Adds(model, a, b) && Quiet(b, c)
    ensures Adds(model, a, c) && Attempts(c) == Attempts(b)
  {
    QuietAttempts(b, c);
    hide Attempts;
    forall i | |a| <= i < |c| && c[i].Attempt? ensures c[i].model == model { if i < |b| { assert c[i] == b[i]; } }
  }

  lemma AddsAttempt(a: seq<Event>, b: seq<Event>, e: Event)
    requires e.Attempt? && Adds(e.model, a, b)
    ensures Adds(e.model, a, b + [e]) && Attempts(b + [e]) == Attempts(b) + 1
  {
    Snoc(b, e);
  }

  /** A quarantine with the reading it is based on leaves a call going. */
  lemma MarkStep(s: Settings, deadline: real, t: seq<Event>, clock: real, begin: nat, first: Option<Failure>,
                 pending: real, e: Event)
    requires begin <= |t| && Going(s, deadline, t[begin..], clock, first, pending) && e.Quarantine? && clock <= e.at
    ensures Going(s, deadline, (t + [Read(e.at)] + [e])[begin..], e.at, first, pending)
    ensures Quiet(t, t + [Read(e.at)] + [e])
  {
    Slice(t, begin, Read(e.at));
    Slice(t + [Read(e.at)], begin, e);
    hide *;
    ReadStep(s, deadline, t[begin..], clock, first, pending, Read(e.at));
    ReadStep(s, deadline, t[begin..] + [Read(e.at)], e.at, first, pending, e);
    QuietTransitive(t, t, t);
    QuietSnoc(t, t, Read(e.at));
    QuietSnoc(t, t + [Read(e.at)], e);
  }
}
