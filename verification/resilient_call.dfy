/** `_resilient_call`: bounded retry of one call over a list of candidate models, against a world that answers, fails
    and lets time pass as it likes. */
module ResilientCall {
  import opened Options
  import opened CallTrace
  import opened CallCandidates

  // ---- the world -----------------------------------------------------------------------------------------

  /** Time, the provider, and a record of all that happens. */
  class World {
    var clock: real
    ghost var trace: seq<Event>

    constructor (clock: real)
      ensures this.clock == clock && trace == []
    {
      this.clock, trace := clock, [];
    }

    /** Some time may pass. */
    method Idle()
      modifies this`clock
      ensures clock >= old(clock)
    {
      var d: real := *;
      if d > 0.0 { clock := clock + d; }
    }

    /** `time.monotonic()` */
    method Now() returns (t: real)
      modifies this
      ensures t == clock >= old(clock) && trace == old(trace) + [Read(t)]
    {
      Idle();
      t := clock;
      trace := trace + [Read(t)];
    }

    /** `asyncio.sleep`, which never returns early. */
    method Pause(delay: real) returns (ghost e: Event)
      requires delay >= 0.0
      modifies this
      ensures e.Sleep? && e.delay == delay && old(clock) <= e.start && e.start + delay <= e.end == clock
      ensures trace == old(trace) + [e]
    {
      Idle();
      ghost var start := clock;
      clock := clock + delay;
      Idle();
      e := Sleep(start, delay, clock);
      trace := trace + [e];
    }

    /** A request: any outcome, after any time. */
    method Request(model: Model) returns (out: Outcome, ghost e: Event)
      modifies this
      ensures e.Attempt? && e.model == model && e.out == out && old(clock) <= e.start <= e.end == clock
      ensures trace == old(trace) + [e]
    {
      Idle();
      ghost var start := clock;
      out := *;
      Idle();
      e := Attempt(model, start, clock, out);
      trace := trace + [e];
    }

    /** What the client itself does to the call. */
    ghost method Note(e: Event)
      requires (e.Quarantine? || e.Stopped?) && Begin(e) == clock
      modifies this`trace
      ensures trace == old(trace) + [e]
    {
      trace := trace + [e];
    }
  }

  // ---- the client ----------------------------------------------------------------------------------------

  class Client {
    const settings: Settings
    const world: World
    /** `_unhealthy_models`: quarantined models and when they are released. */
    var unhealthy: map<Model, real>
    /** When the candidates of the call were chosen. */
    ghost var began: real

    constructor (settings: Settings, world: World)
      ensures this.settings == settings && this.world == world && unhealthy == map[]
    {
      this.settings, this.world, unhealthy, began := settings, world, map[], world.clock;
    }

    /** A call, begun when the trace had length `begin`, may still make attempts. */
    ghost predicate InCall(begin: nat, deadline: real, first: Option<Failure>, pending: real)
      reads world, this`began
    {
      && began <= world.clock
      && begin <= |world.trace| && (first.Some? ==> begin < |world.trace|) && pending >= 0.0
      && Going(settings, deadline, world.trace[begin..], world.clock, first, pending)
    }

    /** The call ends with its first error. */
    ghost predicate GaveUp(begin: nat, deadline: real, first: Option<Failure>)
      reads world, this`began
    {
      first.Some? && Ended(begin, deadline, Raised(first.value))
    }

    /** The call is over. */
    ghost predicate Ended(begin: nat, deadline: real, r: Result)
      reads world, this`began
    {
      began <= world.clock && begin <= |world.trace| && Over(settings, deadline, world.trace[begin..], r, false)
    }

    ghost predicate ReadyIn(begin: nat, deadline: real, first: Option<Failure>)
      reads world
    {
      begin <= |world.trace| && Ready(deadline, world.trace[begin..], first)
    }

    /** The next attempt on the model is number `n`, and the call has slept for the backoff of those before it. */
    ghost predicate InTurn(begin: nat, model: Model, n: nat)
      reads world
    {
      begin <= |world.trace| && Turn(settings, world.trace[begin..], model, n)
    }

    lemma InTurnMeans(begin: nat, model: Model, n: nat)
      requires InTurn(begin, model, n)
      ensures begin <= |world.trace| && Turn(settings, world.trace[begin..], model, n)
      ensures Rested(settings, world.trace[begin..], model)
    {
    }

    method ModelUnhealthy(model: Model) returns (sick: bool)
      modifies world, this`unhealthy
      ensures OnlyReads(old(world.trace), old(world.clock), world.trace, world.clock)
      ensures sick <==> Quarantined(old(unhealthy), model, world.clock)
      ensures Forgets(old(unhealthy), unhealthy)
      ensures unhealthy == if MustRead(old(unhealthy), model) && !sick then old(unhealthy) - {model} else old(unhealthy)
      ensures world.trace == old(world.trace) + if MustRead(old(unhealthy), model) then [Read(world.clock)] else []
      ensures forall m | Quarantined(old(unhealthy), m, world.clock) :: m in unhealthy
    {
      OnlyReadsRefl(world.trace, world.clock);
      if model == "" || model !in unhealthy || unhealthy[model] == 0.0 { return false; }
      var t := world.Now();
      OnlyReadsSnoc(old(world.trace), old(world.clock), old(world.trace), old(world.clock), t);
      sick := unhealthy[model] > t;
      if !sick { unhealthy := unhealthy - {model}; }
    }

    /** `_healthy_fallback_models` over the operator's list and whatever the router proposes. */
    method HealthyFallbacks(primary: Model) returns (out: seq<Model>, ghost names: seq<Model>, ghost router: seq<Model>)
      modifies world, this`unhealthy
      ensures OnlyReads(old(world.trace), old(world.clock), world.trace, world.clock)
      ensures Distinct(out) && Forgets(old(unhealthy), unhealthy)
      ensures names == FallbacksOf(settings, router, primary)
      ensures Healthy(out, names, old(unhealthy), old(world.clock), world.clock)
    {
      OnlyReadsRefl(world.trace, world.clock);
      if !settings.fallbackEnabled { return [], [], []; }
      var proposed: seq<Model> := *;
      var all := AppendFallbacks([], [], settings.operatorFallbacks, primary);
      assert [] + settings.operatorFallbacks == settings.operatorFallbacks;
      all := AppendFallbacks(all, settings.operatorFallbacks, proposed, primary);
      names, router := all, proposed;
      out := SelectHealthy(all);
    }

    method SelectHealthy(all: seq<Model>) returns (out: seq<Model>)
      requires Distinct(all)
      modifies world, this`unhealthy
      ensures OnlyReads(old(world.trace), old(world.clock), world.trace, world.clock)
      ensures Distinct(out) && Forgets(old(unhealthy), unhealthy)
      ensures Healthy(out, all, old(unhealthy), old(world.clock), world.clock)
    {
      hide *;
      OnlyReadsRefl(world.trace, world.clock);
      out := [];
      assert all[..0] == [];
      SelectNone(unhealthy, world.clock);
      for i := 0 to |all|
        invariant OnlyReads(old(world.trace), old(world.clock), world.trace, world.clock)
        invariant old(world.clock) <= world.clock
        invariant Distinct(out) && (forall m | m in out :: m in all[..i])
        invariant Remembers(old(unhealthy), unhealthy, world.clock)
        invariant Healthy(out, all[..i], old(unhealthy), old(world.clock), world.clock)
      {
        NextName(all, i);
        ghost var t0, c0, known := world.trace, world.clock, unhealthy;
        var sick := ModelUnhealthy(all[i]);
        OnlyReadsTransitive(old(world.trace), old(world.clock), t0, c0, world.trace, world.clock);
        OnlyReadsPrefix(t0, c0, world.trace, world.clock);
        HealthyNext(out, all[..i], all[i], old(unhealthy), known, old(world.clock), c0, world.clock, sick);
        RemembersMore(old(unhealthy), known, unhealthy, c0, world.clock);
        if !sick {
          DistinctSnoc(out, all[i]);
          out := out + [all[i]];
        }
      }
      assert all[..|all|] == all;
      RemembersMeans(old(unhealthy), unhealthy, world.clock);
    }

    method MarkUnhealthy(model: Model) returns (ghost e: Option<Event>)
      modifies world, this`unhealthy
      ensures e.Some? <==> model != "" && settings.unhealthyTtl > 0.0
      ensures e.None? ==>
                unhealthy == old(unhealthy) && world.trace == old(world.trace) && world.clock == old(world.clock)
      ensures e.Some? ==>
                && e.value.Quarantine? && e.value.model == model && e.value.at == world.clock >= old(world.clock)
                && world.trace == old(world.trace) + [Read(world.clock)] + [e.value]
                && unhealthy == old(unhealthy)[model := e.value.until]
                && e.value.until == Max(world.clock + settings.unhealthyTtl,
                                        if model in old(unhealthy) then old(unhealthy)[model] else 0.0)
    {
      if model == "" || settings.unhealthyTtl <= 0.0 { return None; }
      var t := world.Now();
      var previous := if model in unhealthy then unhealthy[model] else 0.0;
      var until := Max(t + settings.unhealthyTtl, previous);
      unhealthy := unhealthy[model := until];
      e := Some(Quarantine(model, t, until));
      world.Note(e.value);
    }

    // ---- waiting and giving up ---------------------------------------------------------------------------

    lemma InCallMeans(begin: nat, deadline: real, first: Option<Failure>, pending: real)
      requires InCall(begin, deadline, first, pending)
      ensures begin <= |world.trace| && (first.Some? ==> begin < |world.trace|) && pending >= 0.0
    {
    }

    /** `stop_retry`, right after the event that is the reason. */
    ghost method StopRetry(begin: nat, deadline: real, first: Option<Failure>, pending: real, delay: real)
      requires InCall(begin, deadline, first, pending) && first.Some?
      requires Reason(settings, deadline, world.trace[|world.trace| - 1], pending, delay)
      modifies world`trace
      ensures GaveUp(begin, deadline, first)
      ensures Quiet(old(world.trace), world.trace)
    {
      hide Going, Over, Reason;
      ghost var e := Stopped(world.clock, delay);
      Slice(world.trace, begin, e);
      StopStep(settings, deadline, world.trace[begin..], world.clock, first, pending, e);
      world.Note(e);
    }

    /** Reads the clock within a call. */
    method Reading(ghost begin: nat, ghost deadline: real, ghost first: Option<Failure>, ghost pending: real)
      returns (t: real)
      requires InCall(begin, deadline, first, pending)
      modifies world
      ensures InCall(begin, deadline, first, pending) && t == world.clock
      ensures world.trace == old(world.trace) + [Read(t)]
      ensures world.trace[begin..] == old(world.trace[begin..]) + [Read(t)]
    {
      hide Going;
      ghost var t0, c0 := world.trace, world.clock;
      t := world.Now();
      Slice(t0, begin, Read(t));
      ReadStep(settings, deadline, t0[begin..], c0, first, pending, Read(t));
    }

    /** The deadline test made before every attempt but the first. */
    method Check(ghost begin: nat, deadline: real, first: Option<Failure>, ghost pending: real) returns (ok: bool)
      requires InCall(begin, deadline, first, pending)
      modifies world
      ensures Quiet(old(world.trace), world.trace)
      ensures ok ==> InCall(begin, deadline, first, pending) && ReadyIn(begin, deadline, first)
      ensures !ok ==> GaveUp(begin, deadline, first)
    {
      hide Going, Over;
      ok := true;
      if deadline > 0.0 && first.Some? {
        var t := Reading(begin, deadline, first, pending);
        ok := t < deadline;
        if !ok { StopRetry(begin, deadline, first, pending, 0.0); }
      }
    }

    /** `wait_retry` */
    method WaitRetry(ghost begin: nat, deadline: real, first: Option<Failure>, ghost pending: real, delay: real)
      returns (ok: bool)
      requires InCall(begin, deadline, first, pending) && first.Some?
      requires Due(settings, pending, delay) && (pending <= delay || delay < 0.0)
      modifies world
      ensures Quiet(old(world.trace), world.trace)
      ensures ok ==>
                InCall(begin, deadline, first, 0.0) && 0.0 <= delay && SleptFor(old(world.trace), world.trace, delay)
      ensures !ok ==> GaveUp(begin, deadline, first)
    {
      InCallMeans(begin, deadline, first, pending);
      hide *;
      if delay < 0.0 {
        NegativeStops(settings, deadline, world.trace[|world.trace| - 1], pending, delay);
        StopRetry(begin, deadline, first, pending, delay);
        ok := false;
      } else {
        ok := TestAndSleep(begin, deadline, first, pending, delay);
      }
    }

    /** The deadline is tested before and after the wait is reported. */
    method TestAndSleep(ghost begin: nat, deadline: real, first: Option<Failure>, ghost pending: real, delay: real)
      returns (ok: bool)
      requires InCall(begin, deadline, first, pending) && first.Some? && 0.0 <= delay && Due(settings, pending, delay)
      requires pending <= delay
      modifies world
      ensures Quiet(old(world.trace), world.trace)
      ensures ok ==> InCall(begin, deadline, first, 0.0) && SleptFor(old(world.trace), world.trace, delay)
      ensures !ok ==> GaveUp(begin, deadline, first)
    {
      hide *;
      ghost var t0 := world.trace;
      ok := TestWait(begin, deadline, first, pending, delay);
      ghost var t1 := world.trace;
      QuietMeans(t0, t1);
      if ok { ok := TestWaitAndSleep(begin, deadline, first, pending, delay); } else { QuietRefl(t1); }
      QuietTransitive(t0, t1, world.trace);
      if ok { SleptEarlier(t0, t1, world.trace, delay); }
    }

    method TestWaitAndSleep(ghost begin: nat, deadline: real, first: Option<Failure>, ghost pending: real, delay: real)
      returns (ok: bool)
      requires InCall(begin, deadline, first, pending) && first.Some? && 0.0 <= delay && Due(settings, pending, delay)
      requires pending <= delay
      modifies world
      ensures Quiet(old(world.trace), world.trace)
      ensures ok ==> InCall(begin, deadline, first, 0.0) && SleptFor(old(world.trace), world.trace, delay)
      ensures !ok ==> GaveUp(begin, deadline, first)
    {
      hide *;
      ghost var t0 := world.trace;
      ok := TestWait(begin, deadline, first, pending, delay);
      ghost var t1 := world.trace;
      QuietMeans(t0, t1);
      if ok { Sleeping(begin, deadline, first, pending, delay); } else { QuietRefl(t1); }
      QuietTransitive(t0, t1, world.trace);
      if ok { SleptEarlier(t0, t1, world.trace, delay); }
    }

    /** Gives up when the wait would reach the deadline. */
    method TestWait(ghost begin: nat, deadline: real, first: Option<Failure>, ghost pending: real, delay: real)
      returns (ok: bool)
      requires InCall(begin, deadline, first, pending) && first.Some?
      requires 0.0 <= delay && Due(settings, pending, delay)
      modifies world
      ensures Quiet(old(world.trace), world.trace)
      ensures ok ==> InCall(begin, deadline, first, pending)
      ensures ok && deadline > 0.0 ==>
                var last := world.trace[|world.trace| - 1]; last.Read? && last.at + delay < deadline
      ensures !ok ==> GaveUp(begin, deadline, first)
    {
      hide Going, Over;
      ok := true;
      if deadline > 0.0 {
        var t := Reading(begin, deadline, first, pending);
        ok := t + delay < deadline;
        if !ok { StopRetry(begin, deadline, first, pending, delay); }
      }
    }

    /** `_retry_delay`: exponential backoff with jitter. */
    method RetryDelay(attempt: nat) returns (delay: real)
      ensures BacksOff(settings, attempt, delay)
      ensures settings.maxRetryDelay >= 0.0 && delay < 0.0 ==> settings.retryBase < 0.0
    {
      Pow2Positive(attempt);
      var d := Backoff(settings, attempt);
      var jitter: real := *;
      if (if d >= 0.0 then 0.0 <= jitter <= d * 0.5 else d * 0.5 <= jitter <= 0.0) {
        delay := d + jitter;
      } else {
        delay := d;
      }
    }

    /** One request within a call. */
    method Attempting(ghost begin: nat, ghost deadline: real, ghost first: Option<Failure>, model: Model, ghost n: nat)
      returns (out: Outcome, ghost e: Event)
      requires InCall(begin, deadline, first, 0.0) && ReadyIn(begin, deadline, first) && InTurn(begin, model, n)
      modifies world
      ensures e.Attempt? && e.model == model && e.out == out && world.trace == old(world.trace) + [e]
      ensures begin <= |world.trace| && world.trace[begin..] == old(world.trace[begin..]) + [e]
      ensures out.Answer? ==> Ended(begin, deadline, Returned)
      ensures out.Fails? && out.failure.kind == Fatal ==>
                Ended(begin, deadline, Raised(out.failure))
      ensures out.Fails? && out.failure.kind != Fatal ==>
                InCall(begin, deadline, if first.None? then Some(out.failure) else first, Demand(e))
    {
      InTurnMeans(begin, model, n);
      hide Going, Over, Ready, InTurn, Rested;
      ghost var t0, c0 := world.trace, world.clock;
      out, e := world.Request(model);
      Slice(t0, begin, e);
      AttemptStep(settings, deadline, t0[begin..], c0, first, e);
    }

    /** The attempts on one candidate; `done` is the call's result unless the next candidate is to be tried. */
    method TryModel(ghost begin: nat, model: Model, budget: nat, deadline: real, first0: Option<Failure>,
                    pending0: real)
      returns (done: Option<Result>, first: Option<Failure>, pending: real)
      requires InCall(begin, deadline, first0, pending0) && 0.0 <= settings.maxRetryDelay
      requires pending0 <= settings.maxRetryDelay
      requires budget <= RetryBudget(settings) && InTurn(begin, model, 0)
      modifies world
      ensures Adds(model, old(world.trace), world.trace)
      ensures Attempts(world.trace) <= Attempts(old(world.trace)) + budget + 1
      ensures done.None? ==> InCall(begin, deadline, first, pending) && first.Some? && pending <= settings.maxRetryDelay
      ensures done.None? ==>
                Spent(world.trace, model, Attempts(world.trace) - Attempts(old(world.trace)), budget)
      ensures done.Some? ==> done.value != InvalidBounds && Ended(begin, deadline, done.value)
    {
      hide *;
      ghost var t0 := world.trace;
      ghost var attempt: nat;
      done, first, pending, attempt := TryLoop(begin, model, budget, deadline, first0, pending0);
      TryMeans(t0, begin, model, budget, attempt, deadline, done, first, pending, false);
    }

    method TryLoop(ghost begin: nat, model: Model, budget: nat, deadline: real, first0: Option<Failure>, pending0: real)
      returns (done: Option<Result>, first: Option<Failure>, pending: real, ghost made: nat)
      requires InCall(begin, deadline, first0, pending0) && 0.0 <= settings.maxRetryDelay
      requires pending0 <= settings.maxRetryDelay
      requires budget <= RetryBudget(settings) && InTurn(begin, model, 0)
      modifies world
      ensures TryState(old(world.trace), begin, model, budget, made, deadline, done, first, pending, false)
    {
      hide *;
      ghost var t0 := world.trace;
      var attempt, again := 0, true;
      done, first, pending := None, first0, pending0;
      TryStart(t0, begin, model, budget, deadline, first, pending);
      while again
        invariant 0 <= attempt <= budget + 1
        invariant TryState(t0, begin, model, budget, attempt, deadline, done, first, pending, again)
        decreases budget + 1 - attempt, again
      {
        ghost var t1 := world.trace;
        TryMeans(t0, begin, model, budget, attempt, deadline, done, first, pending, again);
        done, first, pending, again := Round(begin, model, budget, attempt, deadline, first, pending);
        TryNext(t0, t1, begin, model, budget, attempt, deadline, done, first, pending, again);
        attempt := attempt + 1;
      }
      made := attempt;
    }

    /** Where the loop over the attempts on one model stands; `t0` is the trace at its start. */
    ghost predicate TryState(t0: seq<Event>, begin: nat, model: Model, budget: nat, attempt: int, deadline: real,
                             done: Option<Result>, first: Option<Failure>, pending: real, again: bool)
      reads world, this`began
    {
      && Adds(model, t0, world.trace) && Attempts(world.trace) <= Attempts(t0) + budget + 1
      && (done.None? ==> InCall(begin, deadline, first, pending) && pending <= settings.maxRetryDelay)
      && (again ==> done.None? && 0 <= attempt <= budget && Attempts(world.trace) == Attempts(t0) + attempt)
      && (again ==> InTurn(begin, model, attempt))
      && (!again && done.None? ==>
            first.Some? && Spent(world.trace, model, Attempts(world.trace) - Attempts(t0), budget))
      && (done.Some? ==> done.value != InvalidBounds && Ended(begin, deadline, done.value))
    }

    lemma TryStart(t0: seq<Event>, begin: nat, model: Model, budget: nat, deadline: real, first: Option<Failure>,
                   pending: real)
      requires t0 == world.trace && InCall(begin, deadline, first, pending) && pending <= settings.maxRetryDelay
      requires InTurn(begin, model, 0)
      ensures TryState(t0, begin, model, budget, 0, deadline, None, first, pending, true)
    {
    }

    lemma TryMeans(t0: seq<Event>, begin: nat, model: Model, budget: nat, attempt: int, deadline: real,
                   done: Option<Result>, first: Option<Failure>, pending: real, again: bool)
      requires TryState(t0, begin, model, budget, attempt, deadline, done, first, pending, again)
      ensures Adds(model, t0, world.trace) && Attempts(world.trace) <= Attempts(t0) + budget + 1
      ensures done.None? ==> InCall(begin, deadline, first, pending) && pending <= settings.maxRetryDelay
      ensures again ==> done.None? && 0 <= attempt <= budget && Attempts(world.trace) == Attempts(t0) + attempt
      ensures again ==> InTurn(begin, model, attempt)
      ensures !again && done.None? ==>
                first.Some? && Spent(world.trace, model, Attempts(world.trace) - Attempts(t0), budget)
      ensures done.Some? ==> done.value != InvalidBounds && Ended(begin, deadline, done.value)
    {
    }

    lemma TryNext(t0: seq<Event>, t1: seq<Event>, begin: nat, model: Model, budget: nat, attempt: nat, deadline: real,
                  done: Option<Result>, first: Option<Failure>, pending: real, again: bool)
      requires Adds(model, t0, t1) && Attempts(t1) == Attempts(t0) + attempt && attempt <= budget
      requires Adds(model, t1, world.trace)
      requires var made := Attempts(world.trace) - Attempts(t1); if done.None? then made == 1 else made <= 1
      requires done.None? ==>
                 InCall(begin, deadline, first, pending) && first.Some? && pending <= settings.maxRetryDelay
      requires again ==> done.None? && attempt < budget && InTurn(begin, model, attempt + 1)
      requires done.None? && !again ==> Spent(world.trace, model, attempt + 1, budget)
      requires done.Some? ==> done.value != InvalidBounds && Ended(begin, deadline, done.value)
      ensures TryState(t0, begin, model, budget, attempt + 1, deadline, done, first, pending, again)
    {
      hide InCall, Ended, Adds, Attempts, Spent, InTurn;
      AddsMore(model, t0, t1, world.trace);
    }

    /** One attempt and what follows from it: the end of the call, another attempt after a wait, or the next
        candidate. */
    method Round(ghost begin: nat, model: Model, budget: nat, attempt: nat, deadline: real,
                 first0: Option<Failure>, pending0: real)
      returns (done: Option<Result>, first: Option<Failure>, pending: real, again: bool)
      requires InCall(begin, deadline, first0, pending0) && 0.0 <= settings.maxRetryDelay
      requires pending0 <= settings.maxRetryDelay
      requires budget <= RetryBudget(settings)
      requires attempt <= budget && InTurn(begin, model, attempt)
      modifies world
      ensures Adds(model, old(world.trace), world.trace)
      ensures var made := Attempts(world.trace) - Attempts(old(world.trace));
              if done.None? then made == 1 else made <= 1
      ensures done.None? ==> InCall(begin, deadline, first, pending) && first.Some? && pending <= settings.maxRetryDelay
      ensures again ==> done.None? && attempt < budget && InTurn(begin, model, attempt + 1)
      ensures done.None? && !again ==> Spent(world.trace, model, attempt + 1, budget)
      ensures done.Some? ==> done.value != InvalidBounds && Ended(begin, deadline, done.value)
    {
      done, first, pending, again := None, first0, pending0, false;
      ghost var t0 := world.trace;
      hide *;
      var out, e, before := TryOnce(begin, model, deadline, first, pending, attempt);
      if out.None? { return Some(Raised(first.value)), first, pending, false; }
      if out.value.Answer? { return Some(Returned), first, pending, false; }
      var failure := out.value.failure;
      if failure.kind == Fatal { return Some(Raised(failure)), first, pending, false; }
      if first.None? { first := Some(failure); }
      ghost var t1 := world.trace;
      done, pending, again := AfterFailure(begin, model, budget, attempt, deadline, first, failure, e, before);
      AddsQuiet(model, t0, t1, world.trace);
    }

    /** What follows from a failed attempt: a transient failure leads to another attempt on the model, while its budget
        lasts, and any other passes the model over. */
    method AfterFailure(ghost begin: nat, ghost model: Model, budget: nat, attempt: nat, deadline: real,
                        first: Option<Failure>, failure: Failure, ghost e: Event, ghost before: seq<Event>)
      returns (done: Option<Result>, pending: real, again: bool)
      requires InCall(begin, deadline, first, ServerWait(failure)) && first.Some? && 0.0 <= settings.maxRetryDelay
      requires e.Attempt? && e.model == model && e.out == Fails(failure) && failure.kind != Fatal
      requires world.trace == before + [e] && begin <= |before| && EndsWith(world.trace, e)
      requires Turn(settings, before[begin..], model, attempt) && attempt <= budget <= RetryBudget(settings)
      modifies world
      ensures Quiet(old(world.trace), world.trace)
      ensures done.None? ==> InCall(begin, deadline, first, pending) && pending <= settings.maxRetryDelay
      ensures again ==> done.None? && attempt < budget && InTurn(begin, model, attempt + 1)
      ensures done.None? ==> (again <==> failure.kind == Transient && attempt < budget)
      ensures done.None? && !again ==> Spent(world.trace, model, attempt + 1, budget)
      ensures done.Some? ==> done.value == Raised(first.value) && Ended(begin, deadline, done.value)
    {
      hide *;
      done, pending, again := None, ServerWait(failure), false;
      ghost var t1 := world.trace;
      QuietRefl(t1);
      SpentBy(t1, e, attempt + 1, budget);
      var stop := StopOversized(begin, deadline, first, pending, e);
      if stop { return Some(Raised(first.value)), pending, false; }
      if failure.kind == ModelError || attempt >= budget { return; }
      ghost var delay: real;
      again, delay := Backing(begin, deadline, first, pending, attempt);
      if again { RestedNow(begin, before, e, attempt, delay); } else { done := Some(Raised(first.value)); }
      pending := 0.0;
    }

    lemma StillInTurn(begin: nat, model: Model, n: nat)
      requires begin <= |world.trace| && Turn(settings, world.trace[begin..], model, n)
      ensures InTurn(begin, model, n)
    {
    }

    lemma RestedNow(begin: nat, before: seq<Event>, e: Event, n: nat, delay: real)
      requires begin <= |before| && e.Attempt? && Turn(settings, before[begin..], e.model, n)
      requires e.out.Fails? && e.out.failure.kind == Transient
      requires Quiet(before + [e], world.trace) && SleptFor(before + [e], world.trace, delay)
      requires delay >= Backoff(settings, n)
      ensures InTurn(begin, e.model, n + 1)
    {
      NextTurn(settings, begin, before, e, world.trace, n, delay);
      hide Turn;
    }

    /** One attempt with all that comes before it; None when the call was given up instead. */
    method TryOnce(ghost begin: nat, model: Model, deadline: real, first: Option<Failure>, pending: real, ghost n: nat)
      returns (out: Option<Outcome>, ghost e: Event, ghost before: seq<Event>)
      requires InCall(begin, deadline, first, pending) && 0.0 <= settings.maxRetryDelay
      requires pending <= settings.maxRetryDelay
      requires InTurn(begin, model, n)
      modifies world
      ensures Adds(model, old(world.trace), world.trace)
      ensures Attempts(world.trace) == Attempts(old(world.trace)) + if out.Some? then 1 else 0
      ensures out.None? ==> first.Some? && Ended(begin, deadline, Raised(first.value))
      ensures out.Some? ==> EndsWith(world.trace, e) && e.Attempt? && e.model == model && e.out == out.value
      ensures out.Some? ==>
                world.trace == before + [e] && begin <= |before| && Turn(settings, before[begin..], model, n)
      ensures out == Some(Answer) ==> Ended(begin, deadline, Returned)
      ensures out.Some? && out.value.Fails? && out.value.failure.kind == Fatal ==>
                Ended(begin, deadline, Raised(out.value.failure))
      ensures out.Some? && out.value.Fails? && out.value.failure.kind != Fatal ==>
                InCall(begin, deadline, if first.None? then Some(out.value.failure) else first,
                       ServerWait(out.value.failure))
    {
      InTurnMeans(begin, model, n);
      hide *;
      e := Read(0.0);
      ghost var t0 := world.trace;
      before := t0;
      AddsRefl(model, t0);
      var ok := Prepare(begin, deadline, first, pending);
      AddsQuiet(model, t0, t0, world.trace);
      if !ok {
        GaveUpEnds(begin, deadline, first);
        return None, e, t0;
      }
      before := world.trace;
      TurnLater(settings, begin, t0, before, model, n);
      StillInTurn(begin, model, n);
      var o: Outcome;
      o, e := Attempting(begin, deadline, first, model, n);
      AddsAttempt(t0, before, e);
      AttemptMeans(before, e);
      out := Some(o);
    }

    /** A server that asks for too long a wait ends the call. */
    method StopOversized(ghost begin: nat, ghost deadline: real, first: Option<Failure>, pending: real, ghost e: Event)
      returns (stop: bool)
      requires InCall(begin, deadline, first, pending) && first.Some? && begin <= |world.trace|
      requires EndsWith(world.trace, e) && e.Attempt? && e.out.Fails? && e.out.failure.kind != Fatal
      requires pending == ServerWait(e.out.failure)
      modifies world`trace
      ensures stop <==> pending > settings.maxRetryDelay
      ensures Quiet(old(world.trace), world.trace)
      ensures stop ==> Ended(begin, deadline, Raised(first.value))
      ensures !stop ==> world.trace == old(world.trace)
    {
      GoingMeans(settings, deadline, world.trace[begin..], world.clock, first, pending);
      hide Going, Over;
      stop := pending > settings.maxRetryDelay;
      if stop {
        assert world.trace[|world.trace| - 1] == e;
        StopRetry(begin, deadline, first, pending, pending);
      }
    }

    /** The wait before a retry on the same model. */
    method Backing(ghost begin: nat, deadline: real, first: Option<Failure>, pending: real, attempt: nat)
      returns (ok: bool, ghost delay: real)
      requires InCall(begin, deadline, first, pending) && first.Some?
      requires 0.0 <= settings.maxRetryDelay && pending <= settings.maxRetryDelay && attempt < RetryBudget(settings)
      modifies world
      ensures Quiet(old(world.trace), world.trace)
      ensures ok ==> InCall(begin, deadline, first, 0.0)
      ensures ok ==>
                && SleptFor(old(world.trace), world.trace, delay) && pending <= delay
                && delay >= Backoff(settings, attempt)
      ensures !ok ==> Ended(begin, deadline, Raised(first.value))
    {
      hide Going, Over, Quiet, SleptFor, Backoff;
      var local := RetryDelay(attempt);
      assert IsBackoff(settings, local);
      BacksOffLong(settings, attempt, local);
      var wait := if pending > local && pending > 0.0 then pending else local;
      ok := WaitRetry(begin, deadline, first, pending, wait);
      delay := wait;
    }

    /** What comes before an attempt: the deadline test, the wait still owed to a server, and the test again. */
    method Prepare(ghost begin: nat, deadline: real, first: Option<Failure>, pending: real) returns (ok: bool)
      requires InCall(begin, deadline, first, pending) && 0.0 <= settings.maxRetryDelay
      requires pending <= settings.maxRetryDelay
      modifies world
      ensures Quiet(old(world.trace), world.trace)
      ensures ok ==> InCall(begin, deadline, first, 0.0) && ReadyIn(begin, deadline, first)
      ensures !ok ==> GaveUp(begin, deadline, first)
    {
      GoingMeans(settings, deadline, world.trace[begin..], world.clock, first, pending);
      hide Going, Over, Quiet;
      ghost var t0 := world.trace;
      ok := Check(begin, deadline, first, pending);
      ghost var t1 := world.trace;
      if ok && pending > 0.0 { ok := WaitRetry(begin, deadline, first, pending, pending); }
      ghost var t2 := world.trace;
      QuietTransitive(t0, t1, t2);
      if ok { ok := Check(begin, deadline, first, 0.0); }
      QuietTransitive(t0, t2, world.trace);
    }

    // ---- the candidates ----------------------------------------------------------------------------------

    /** The lazy extension of the candidate list. */
    method Extend(primary: Model, candidates: seq<Model>)
      returns (more: seq<Model>, ghost healthy: seq<Model>, ghost names: seq<Model>, ghost router: seq<Model>)
      requires Distinct(candidates)
      modifies world, this`unhealthy
      ensures OnlyReads(old(world.trace), old(world.clock), world.trace, world.clock)
      ensures Distinct(candidates + more) && Forgets(old(unhealthy), unhealthy)
      ensures names == FallbacksOf(settings, router, primary)
      ensures Healthy(healthy, names, old(unhealthy), old(world.clock), world.clock) && Subsequence(more, healthy)
      ensures settings.maxFallbacks > 0 ==> |more| <= settings.maxFallbacks
      ensures forall m | m in healthy ::
                m in candidates + more || (settings.maxFallbacks > 0 && |more| == settings.maxFallbacks)
      ensures primary !in more
    {
      var found: seq<Model>;
      found, names, router := HealthyFallbacks(primary);
      healthy := found;
      SubsequenceIn(found, names);
      assert primary !in found;
      more := NewOnes(candidates, found);
      SubsequenceIn(more, found);
      hide *;
      if settings.maxFallbacks > 0 && |more| > settings.maxFallbacks {
        PickedPrefix(candidates, found, more, settings.maxFallbacks);
        more := more[..settings.maxFallbacks];
      }
    }

    /** Readings of the clock and of the quarantines do not disturb a call. */
    lemma StillInCall(t0: seq<Event>, c0: real, begin: nat, deadline: real, first: Option<Failure>, pending: real)
      requires begin <= |t0| && (first.Some? ==> begin < |t0|) && pending >= 0.0
      requires Going(settings, deadline, t0[begin..], c0, first, pending) && (began <= c0 || began <= world.clock)
      requires OnlyReads(t0, c0, world.trace, world.clock)
      ensures InCall(begin, deadline, first, pending) && Quiet(t0, world.trace) && c0 <= world.clock
    {
      ReadsStep(settings, deadline, t0, c0, world.trace, world.clock, begin, first, pending);
      OnlyReadsQuiet(t0, c0, world.trace, world.clock);
    }

    /** Quarantines the model a call gives up on. */
    method GiveUpOn(ghost begin: nat, ghost deadline: real, ghost first: Option<Failure>, ghost pending: real,
                    model: Model)
      requires InCall(begin, deadline, first, pending)
      modifies world, this`unhealthy
      ensures InCall(begin, deadline, first, pending) && Quiet(old(world.trace), world.trace)
      ensures model != "" && settings.unhealthyTtl > 0.0 ==> InQuarantine(world.trace, begin, model)
      ensures forall m | m != model :: m in unhealthy <==> m in old(unhealthy)
      ensures forall m | m in unhealthy && m != model :: m in old(unhealthy) && unhealthy[m] == old(unhealthy)[m]
    {
      ghost var t0, c0 := world.trace, world.clock;
      ghost var e := MarkUnhealthy(model);
      if e.Some? {
        MarkStep(settings, deadline, t0, c0, begin, first, pending, e.value);
        EndsQuarantined(t0 + [Read(e.value.at)], begin, e.value);
        hide *;
      } else {
        QuietRefl(t0);
        hide *;
      }
    }

    /** The whole call.  `events` is what happens during it, `at` the time of the quarantine test of the primary,
        `healthy` the healthy models among `names0` then, and `names` the models that the list was extended from. */
    method ResilientCall(primary: Model)
      returns (r: Result, candidates: seq<Model>, skippedPrimary: bool, exhausted: bool, deadline: real,
               ghost events: seq<Event>, ghost at: real, ghost healthy: seq<Model>, ghost names0: seq<Model>,
               ghost names: seq<Model>)
      modifies world, this`unhealthy, this`began
      ensures world.trace == old(world.trace) + events
      ensures r == InvalidBounds <==> settings.maxRetryDelay < 0.0 || settings.callDeadline < 0.0
      ensures TraceOk(settings, deadline, events) && Explains(events, r, exhausted)
      ensures r != InvalidBounds ==>
                if settings.callDeadline > 0.0
                then events != [] && events[0].Read? && deadline == events[0].at + settings.callDeadline
                else deadline == 0.0
      ensures Distinct(candidates) && Within(settings, events, 0, candidates, |candidates|)
      ensures r != InvalidBounds ==>
                && (skippedPrimary <==> Quarantined(old(unhealthy), primary, at) && healthy != [])
                && old(world.clock) <= at <= world.clock
                && (MustRead(old(unhealthy), primary) ==> Read(at) in events)
                && (Quarantined(old(unhealthy), primary, at) ==>
                      && AreFallbacks(settings, names0, primary)
                      && Healthy(healthy, names0, old(unhealthy), at, world.clock))
      ensures r != InvalidBounds ==>
                if skippedPrimary then healthy <= candidates && primary !in candidates
                else candidates != [] && candidates[0] == primary
      ensures var initial := if skippedPrimary then |healthy| else 1;
              && (r != InvalidBounds && settings.maxFallbacks > 0 ==> |candidates| <= initial + settings.maxFallbacks)
              && (exhausted ==> Exhaustive(settings, names, old(unhealthy), at, candidates, initial))
      ensures exhausted ==>
                AreFallbacks(settings, names, primary) && GaveUpAll(settings, events, 0, candidates, |candidates|)
      ensures exhausted ==> TurnsTaken(settings, events, candidates)
      ensures forall e | e in events && e.Attempt? :: e.model in candidates
      ensures candidates != [] ==>
                var retries := if settings.retryEnabled && settings.maxRetries > 0 then settings.maxRetries else 0;
                Attempts(events) <= 1 + retries + (|candidates| - 1) * (if retries > 0 then 2 else 1)
    {
      hide *;
      ghost var base, known := world.trace, unhealthy;
      r, candidates, skippedPrimary, exhausted, deadline := InvalidBounds, [], false, false, 0.0;
      events, at, healthy, names0, names := [], world.clock, [], [], [];
      NoEvents(settings);
      AttemptsBounded(settings, [], []);
      assert base + [] == base;
      if settings.maxRetryDelay < 0.0 || settings.callDeadline < 0.0 { return; }
      deadline := Deadline();
      ghost var t1 := world.trace;
      candidates, skippedPrimary, at, healthy, names0 := ChooseFirst(|base|, primary, deadline);
      ghost var t2, initial := world.trace, candidates;
      QuietAcross(base, t1, t2);
      ghost var router: seq<Model>;
      r, candidates, exhausted, names, router := Walk(|base|, primary, candidates, deadline, known);
      events := world.trace[|base|..];
      WholeCall(settings, base, t1, t2, world.trace, events, deadline - settings.callDeadline, at, candidates,
                exhausted);
      OverMeans(settings, deadline, events, r, exhausted);
      AttemptsBounded(settings, events, candidates);
      if Quarantined(known, primary, at) { HealthyLater(healthy, names0, known, at, began, world.clock); }
      if exhausted {
        TurnsOver(settings, events, candidates);
        FallbackNames(settings, names, router, primary);
        ExhaustiveSince(settings, names, known, at, began, candidates, |initial|);
      }
      StartOfList(initial, candidates, primary);
    }

    /** The first reading of a call with a deadline. */
    method Deadline() returns (deadline: real)
      requires settings.callDeadline >= 0.0
      modifies world
      ensures old(world.trace) <= world.trace && old(world.clock) <= world.clock && Quiet(old(world.trace), world.trace)
      ensures Going(settings, deadline, world.trace[|old(world.trace)|..], world.clock, None, 0.0)
      ensures if settings.callDeadline > 0.0
              then && |world.trace| > |old(world.trace)|
                   && StartsWith(world.trace[|old(world.trace)|..], deadline - settings.callDeadline)
              else deadline == 0.0
    {
      ghost var t0, c0 := world.trace, world.clock;
      deadline := 0.0;
      assert t0[|t0|..] == [];
      QuietRefl(t0);
      if settings.callDeadline > 0.0 {
        var now := world.Now();
        deadline := now + settings.callDeadline;
        Slice(t0, |t0|, Read(now));
        QuietSnoc(t0, t0, Read(now));
        Start(settings, deadline, c0);
        ReadStep(settings, deadline, [], c0, None, 0.0, Read(now));
        assert [] + [Read(now)] == [Read(now)];
      } else {
        Start(settings, deadline, c0);
      }
      hide Going;
    }

    /** The initial candidates: the primary, or the healthy fallbacks when it is in quarantine and there are any. */
    method ChooseFirst(ghost begin: nat, primary: Model, ghost deadline: real)
      returns (candidates: seq<Model>, skipped: bool, ghost at: real, ghost healthy: seq<Model>,
               ghost names: seq<Model>)
      requires begin <= |world.trace| && Going(settings, deadline, world.trace[begin..], world.clock, None, 0.0)
      modifies world, this`unhealthy, this`began
      ensures InCall(begin, deadline, None, 0.0) && Quiet(old(world.trace), world.trace)
      ensures Forgets(old(unhealthy), unhealthy) && old(world.clock) <= at <= began == world.clock
      ensures skipped <==> Quarantined(old(unhealthy), primary, at) && healthy != []
      ensures MustRead(old(unhealthy), primary) ==> WasRead(old(world.trace), world.trace, at)
      ensures Quarantined(old(unhealthy), primary, at) ==>
                AreFallbacks(settings, names, primary) && Healthy(healthy, names, old(unhealthy), at, began)
      ensures candidates == (if skipped then healthy else [primary]) && candidates != [] && Distinct(candidates)
      ensures skipped ==> primary !in candidates
    {
      hide *;
      ghost var t0, c0, known := world.trace, world.clock, unhealthy;
      var sick := ModelUnhealthy(primary);
      at := world.clock;
      ghost var t1 := world.trace;
      OnlyReadsPrefix(t0, c0, t1, at);
      candidates, skipped, healthy, names := [primary], false, [], [];
      DistinctOne(primary);
      if sick {
        var found: seq<Model>;
        ghost var router, left := [], unhealthy;
        found, names, router := HealthyFallbacks(primary);
        ForgetsMore(known, left, unhealthy);
        FallbackNames(settings, names, router, primary);
        HealthyOthers(found, names, settings, router, primary, left, at, world.clock);
        healthy := found;
        OnlyReadsTransitive(t0, c0, t1, at, world.trace, world.clock);
        OnlyReadsPrefix(t1, at, world.trace, world.clock);
        if found != [] { candidates, skipped := found, true; }
      }
      began := world.clock;
      StillInCall(t0, c0, begin, deadline, None, 0.0);
      ReadBefore(t0, t1, world.trace, at);
    }

    /** The loop over candidates.  `exhausted` says that the last one was given up.  `known` are
        the quarantines when the call began. */
    method Walk(ghost begin: nat, primary: Model, candidates0: seq<Model>, deadline: real,
                ghost known: map<Model, real>)
      returns (r: Result, candidates: seq<Model>, exhausted: bool, ghost names: seq<Model>, ghost router: seq<Model>)
      requires InCall(begin, deadline, None, 0.0) && Quiet(world.trace[..begin], world.trace)
      requires candidates0 != [] && Distinct(candidates0) && settings.maxRetryDelay >= 0.0
      requires Forgets(known, unhealthy)
      modifies world, this`unhealthy
      ensures begin <= |world.trace| && old(world.trace) <= world.trace && began <= world.clock
      ensures Over(settings, deadline, world.trace[begin..], r, exhausted) && r != InvalidBounds
      ensures Distinct(candidates) && candidates0 <= candidates && primary !in candidates[|candidates0|..]
      ensures settings.maxFallbacks > 0 ==> |candidates| <= |candidates0| + settings.maxFallbacks
      ensures Within(settings, world.trace, begin, candidates, |candidates|)
      ensures exhausted ==> GaveUpAll(settings, world.trace, begin, candidates, |candidates|)
      ensures exhausted ==> Exhaustive(settings, names, known, began, candidates, |candidates0|)
      ensures exhausted ==>
                names == FallbacksOf(settings, router, primary)
    {
      hide *;
      ghost var base := world.trace;
      r, candidates, exhausted, names, router := Returned, candidates0, false, [], [];
      var first: Option<Failure> := None;
      var pending, extended, ci := 0.0, false, 0;
      var done: Option<Result> := None;
      AtStart(base, begin, deadline, primary, candidates0, known);
      while ci < |candidates| && done.None?
        invariant 0 <= ci
        invariant done.None? ==>
                    AtCandidate(base, begin, deadline, primary, candidates0, candidates, ci, first, pending, extended,
                                known, names, router)
        invariant done.Some? ==> CutShort(base, begin, deadline, primary, candidates0, candidates, done.value)
        decreases !extended, |candidates| - ci, done.None?
      {
        done, first, pending := TakeTurn(base, begin, deadline, primary, candidates0, candidates, ci, first, pending,
                                         extended, known, names, router);
        if done.None? {
          candidates, extended, names, router := PassOn(base, begin, deadline, primary, candidates0, candidates, ci,
                                                        first, pending, extended, known, names, router);
          ci := ci + 1;
        }
      }
      if done.Some? {
        CutShortMeans(base, begin, deadline, primary, candidates0, candidates, done.value);
        r := done.value;
      } else {
        AtEnd(base, begin, deadline, primary, candidates0, candidates, ci, first, pending, extended, known, names,
              router);
        r, exhausted := Raised(first.value), true;
      }
    }

    /** Candidate `ci` is next; `base` is the trace before the loop. */
    ghost predicate AtCandidate(base: seq<Event>, begin: nat, deadline: real, primary: Model, candidates0: seq<Model>,
                                candidates: seq<Model>, ci: nat, first: Option<Failure>, pending: real, extended: bool,
                                known: map<Model, real>, names: seq<Model>, router: seq<Model>)
      reads world, this`began, this`unhealthy
    {
      && ci <= |candidates| && (ci == |candidates| ==> extended) && (ci > 0 ==> first.Some?)
      && InCall(begin, deadline, first, pending) && pending <= settings.maxRetryDelay && 0.0 <= settings.maxRetryDelay
      && Walked(settings, base, world.trace, begin, candidates, ci)
      && Lists(primary, candidates0, candidates, extended, known, names, router)
    }

    /** Candidate `ci` has been tried in vain. */
    ghost predicate AfterCandidate(base: seq<Event>, begin: nat, deadline: real, primary: Model,
                                   candidates0: seq<Model>, candidates: seq<Model>, ci: nat,
                                   first: Option<Failure>, pending: real, extended: bool,
                                   known: map<Model, real>, names: seq<Model>, router: seq<Model>)
      reads world, this`began, this`unhealthy
    {
      && ci < |candidates| && first.Some?
      && InCall(begin, deadline, first, pending) && pending <= settings.maxRetryDelay && 0.0 <= settings.maxRetryDelay
      && HadTurn(settings, base, world.trace, begin, candidates, ci) && Tried(begin, candidates, ci)
      && Lists(primary, candidates0, candidates, extended, known, names, router)
    }

    ghost predicate Tried(begin: nat, candidates: seq<Model>, ci: nat)
      requires ci < |candidates|
      reads world
    {
      TriedOn(world.trace, begin, candidates[ci], BudgetFor(RetryBudget(settings), ci))
    }

    /** What is known of the list of candidates and of the quarantines. */
    ghost predicate Lists(primary: Model, candidates0: seq<Model>, candidates: seq<Model>, extended: bool,
                          known: map<Model, real>, names: seq<Model>, router: seq<Model>)
      reads this`began, this`unhealthy
    {
      && ListOk(settings, primary, candidates0, candidates, extended) && MarksOnly(known, unhealthy, candidates)
      && (extended ==>
            && Exhaustive(settings, names, known, began, candidates, |candidates0|)
            && names == FallbacksOf(settings, router, primary))
    }

    /** The call ended before its candidates were exhausted. */
    ghost predicate CutShort(base: seq<Event>, begin: nat, deadline: real, primary: Model, candidates0: seq<Model>,
                             candidates: seq<Model>, r: Result)
      reads world, this`began
    {
      && r != InvalidBounds && Ended(begin, deadline, r) && begin <= |base| && base <= world.trace
      && Distinct(candidates) && candidates0 <= candidates && primary !in candidates[|candidates0|..]
      && (settings.maxFallbacks > 0 ==> |candidates| <= |candidates0| + settings.maxFallbacks)
      && Within(settings, world.trace, begin, candidates, |candidates|)
    }

    lemma AtStart(base: seq<Event>, begin: nat, deadline: real, primary: Model, candidates0: seq<Model>,
                  known: map<Model, real>)
      requires base == world.trace && InCall(begin, deadline, None, 0.0) && Quiet(base[..begin], base)
      requires candidates0 != [] && Distinct(candidates0) && 0.0 <= settings.maxRetryDelay && Forgets(known, unhealthy)
      ensures AtCandidate(base, begin, deadline, primary, candidates0, candidates0, 0, None, 0.0, false, known, [], [])
    {
      WalkStart(settings, base, begin, primary, candidates0, known, unhealthy);
      hide Going, Walked, ListOk, MarksOnly, Quiet;
    }

    lemma CutShortMeans(base: seq<Event>, begin: nat, deadline: real, primary: Model, candidates0: seq<Model>,
                        candidates: seq<Model>, r: Result)
      requires CutShort(base, begin, deadline, primary, candidates0, candidates, r)
      ensures begin <= |world.trace| && base <= world.trace && began <= world.clock
      ensures Over(settings, deadline, world.trace[begin..], r, false) && r != InvalidBounds
      ensures Distinct(candidates) && candidates0 <= candidates && primary !in candidates[|candidates0|..]
      ensures settings.maxFallbacks > 0 ==> |candidates| <= |candidates0| + settings.maxFallbacks
      ensures Within(settings, world.trace, begin, candidates, |candidates|)
    {
    }

    lemma AtEnd(base: seq<Event>, begin: nat, deadline: real, primary: Model, candidates0: seq<Model>,
                candidates: seq<Model>, ci: nat, first: Option<Failure>, pending: real, extended: bool,
                known: map<Model, real>, names: seq<Model>, router: seq<Model>)
      requires AtCandidate(base, begin, deadline, primary, candidates0, candidates, ci, first, pending, extended,
                           known, names, router)
      requires candidates0 != [] && ci >= |candidates|
      ensures begin <= |world.trace| && base <= world.trace && first.Some? && began <= world.clock
      ensures Over(settings, deadline, world.trace[begin..], Raised(first.value), true)
      ensures Distinct(candidates) && candidates0 <= candidates && primary !in candidates[|candidates0|..]
      ensures settings.maxFallbacks > 0 ==> |candidates| <= |candidates0| + settings.maxFallbacks
      ensures Within(settings, world.trace, begin, candidates, |candidates|)
      ensures GaveUpAll(settings, world.trace, begin, candidates, |candidates|)
      ensures Exhaustive(settings, names, known, began, candidates, |candidates0|)
      ensures names == FallbacksOf(settings, router, primary)
    {
      InCallEnds(begin, deadline, first, pending);
    }

    /** The deadline test before a candidate's turn, and the turn. */
    method TakeTurn(ghost base: seq<Event>, ghost begin: nat, deadline: real, ghost primary: Model,
                    ghost candidates0: seq<Model>, candidates: seq<Model>, ci: nat,
                    first0: Option<Failure>, pending0: real, ghost extended: bool,
                    ghost known: map<Model, real>, ghost names: seq<Model>, ghost router: seq<Model>)
      returns (done: Option<Result>, first: Option<Failure>, pending: real)
      requires ci < |candidates|
      requires AtCandidate(base, begin, deadline, primary, candidates0, candidates, ci, first0, pending0, extended,
                           known, names, router)
      modifies world
      ensures done.Some? ==> CutShort(base, begin, deadline, primary, candidates0, candidates, done.value)
      ensures done.None? ==> AfterCandidate(base, begin, deadline, primary, candidates0, candidates, ci, first, pending,
                                            extended, known, names, router)
    {
      hide InCall, GaveUp, Walked, ListOk, MarksOnly, Exhaustive, Going, Quiet, Spent, Adds, Attempts, Ended;
      hide HadTurn, TriedOn;
      hide Within, Over, Fallbacks, ReadyIn;
      done, first, pending := None, first0, pending0;
      ghost var t0 := world.trace;
      var ok := Check(begin, deadline, first, pending);
      WalkedQuiet(settings, base, t0, world.trace, begin, candidates, ci);
      if !ok {
        GaveUpEnds(begin, deadline, first);
        WalkEnds(settings, base, world.trace, begin, primary, candidates0, candidates, extended, ci);
        done := Some(Raised(first.value));
        return;
      }
      ghost var t1 := world.trace;
      var budget := BudgetFor(RetryBudget(settings), ci);
      assert budget <= RetryBudget(settings);
      TurnOfCandidate(base, begin, primary, candidates0, candidates, extended, ci);
      done, first, pending := TryModel(begin, candidates[ci], budget, deadline, first, pending);
      WalkedTried(settings, base, t1, world.trace, begin, candidates, ci);
      if done.Some? {
        TurnEnds(settings, base, world.trace, begin, primary, candidates0, candidates, extended, ci);
      } else {
        InCallMeans(begin, deadline, first, pending);
        SpentMeans(t1, world.trace, begin, candidates[ci], budget);
      }
    }

    lemma TurnOfCandidate(base: seq<Event>, begin: nat, primary: Model, candidates0: seq<Model>, candidates: seq<Model>,
                          extended: bool, ci: nat)
      requires Walked(settings, base, world.trace, begin, candidates, ci) && ci < |candidates|
      requires ListOk(settings, primary, candidates0, candidates, extended)
      ensures InTurn(begin, candidates[ci], 0) && begin <= |world.trace|
      ensures AttemptsOn(world.trace[begin..], candidates[ci]) == 0 && Distinct(candidates)
    {
      hide Turn;
      FirstTurn(settings, world.trace, begin, candidates, ci);
    }

    /** Passing on to the next candidate: the list is extended once it runs out, and the model is quarantined. */
    method PassOn(ghost base: seq<Event>, ghost begin: nat, ghost deadline: real, primary: Model,
                  ghost candidates0: seq<Model>, candidates: seq<Model>, ci: nat,
                  ghost first: Option<Failure>, ghost pending: real, extended: bool,
                  ghost known: map<Model, real>, ghost names0: seq<Model>, ghost router0: seq<Model>)
      returns (all: seq<Model>, extended': bool, ghost names: seq<Model>, ghost router: seq<Model>)
      requires AfterCandidate(base, begin, deadline, primary, candidates0, candidates, ci, first, pending, extended,
                              known, names0, router0)
      modifies world, this`unhealthy
      ensures AtCandidate(base, begin, deadline, primary, candidates0, all, ci + 1, first, pending, extended',
                          known, names, router)
      ensures extended ==> extended' && all == candidates
      ensures !extended && !extended' ==> all == candidates
    {
      hide InCall, Walked, ListOk, MarksOnly, Exhaustive, Going, Quiet, HadTurn, TriedOn, Within, Fallbacks;
      hide InQuarantine;
      all, extended', names, router := candidates, extended, names0, router0;
      ghost var model := candidates[ci];
      if ci + 1 >= |candidates| && !extended {
        ghost var t2 := world.trace;
        ListNotExtended(settings, primary, candidates0, candidates, extended);
        all, names, router := ExtendInCall(begin, deadline, first, pending, primary, candidates0, candidates, known);
        TurnMore(settings, base, t2, world.trace, begin, candidates, all, ci);
        extended' := true;
      }
      ghost var t3, sick := world.trace, unhealthy;
      GiveUpOn(begin, deadline, first, pending, candidates[ci]);
      TurnDone(settings, base, t3, world.trace, begin, all, ci);
      MarksMore(known, sick, unhealthy, all, model);
    }

    lemma GaveUpEnds(begin: nat, deadline: real, first: Option<Failure>)
      requires GaveUp(begin, deadline, first)
      ensures first.Some? && Ended(begin, deadline, Raised(first.value))
    {
    }

    lemma InCallEnds(begin: nat, deadline: real, first: Option<Failure>, pending: real)
      requires InCall(begin, deadline, first, pending) && first.Some?
      ensures begin <= |world.trace| && Over(settings, deadline, world.trace[begin..], Raised(first.value), true)
    {
      GoingMeans(settings, deadline, world.trace[begin..], world.clock, first, pending);
    }

    /** The extension, within a call. */
    method ExtendInCall(ghost begin: nat, ghost deadline: real, ghost first: Option<Failure>, ghost pending: real,
                        primary: Model, ghost candidates0: seq<Model>, candidates: seq<Model>,
                          ghost known: map<Model, real>)
      returns (all: seq<Model>, ghost names: seq<Model>, ghost router: seq<Model>)
      requires InCall(begin, deadline, first, pending)
      requires ListOk(settings, primary, candidates0, candidates, false) && MarksOnly(known, unhealthy, candidates)
      modifies world, this`unhealthy
      ensures InCall(begin, deadline, first, pending) && Quiet(old(world.trace), world.trace)
      ensures candidates <= all && ListOk(settings, primary, candidates0, all, true) && MarksOnly(known, unhealthy, all)
      ensures Exhaustive(settings, names, known, began, all, |candidates0|)
      ensures names == FallbacksOf(settings, router, primary)
    {
      ghost var t0, c0, sick := world.trace, world.clock, unhealthy;
      ghost var healthy: seq<Model>;
      var more: seq<Model>;
      more, healthy, names, router := Extend(primary, candidates);
      StillInCall(t0, c0, begin, deadline, first, pending);
      all := candidates + more;
      NowExhaustive(settings, names, known, sick, began, c0, world.clock, candidates, more, healthy);
      hide Going, OnlyReads, Healthy, Subsequence, Exhaustive;
      assert all[|candidates0|..] == more;
    }

    /** The models found that are not yet candidates. */
    method NewOnes(candidates: seq<Model>, found: seq<Model>) returns (more: seq<Model>)
      requires Distinct(candidates) && Distinct(found)
      ensures Distinct(candidates + more) && Subsequence(more, found)
      ensures forall m | m in found :: m in candidates + more
    {
      hide *;
      more := [];
      PickedNone(candidates, found);
      for i := 0 to |found|
        invariant Picked(candidates, found[..i], more)
      {
        PickedNext(candidates, found, i, more);
        if found[i] !in candidates { more := more + [found[i]]; }
      }
      assert found[..|found|] == found;
      PickedMeans(candidates, found, more);
    }

    /** Sleeps, right after the reading that allows it. */
    method Sleeping(ghost begin: nat, ghost deadline: real, ghost first: Option<Failure>, ghost pending: real,
                    delay: real)
      requires InCall(begin, deadline, first, pending) && first.Some?
      requires 0.0 <= delay && Due(settings, pending, delay) && pending <= delay
      requires deadline > 0.0 ==>
                 var last := world.trace[|world.trace| - 1]; last.Read? && last.at + delay < deadline
      modifies world
      ensures InCall(begin, deadline, first, 0.0) && SleptFor(old(world.trace), world.trace, delay)
      ensures Quiet(old(world.trace), world.trace)
    {
      hide Going;
      ghost var t0, c0 := world.trace, world.clock;
      ghost var e := world.Pause(delay);
      Slice(t0, begin, e);
      SleptNow(t0, e);
      SleepStep(settings, deadline, t0[begin..], c0, first, pending, e);
    }
  }
}
