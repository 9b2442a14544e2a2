/** Many trackers sharing one ledger file: interleaved steps of locked transactions, with days passing. */
module LedgerProtocol {
  import opened Options
  import opened BudgetTracker

  /** A result as it entered the ledger. */
  datatype Charge = Charge(day: int, r: LlmResult)

  /** Where a worker is.  Everything but `Idle` and `InFlight` happens while it holds the lock. */
  datatype Phase =
    | Idle
    | CheckRolling | CheckRollSaving | CheckLoading | CheckDeciding
    | InFlight
    | Rolling | RollSaving | Loading | Adding | Saving | Deciding

  /** `r` is the result being recorded; `last` says the call ends with it. */
  datatype Worker = Worker(phase: Phase, m: Counters, r: LlmResult, last: bool)

  datatype State = State(today: int, file: LedgerFile, lock: Option<nat>, workers: seq<Worker>, log: seq<Charge>)

  /** `Create` makes a new tracker, which loads the ledger under the lock. */
  datatype Step =
    | NewDay(day: int)
    | Create
    | BeginCheck(i: nat)
    | BeginRecord(i: nat, r: LlmResult, last: bool)
    | Advance(i: nat, buildSpend: real)

  predicate Locked(p: Phase) { p != Idle && p != InFlight }

  /** Between passing a check and having the call's last result saved. */
  predicate Flying(w: Worker) {
    || w.phase == InFlight || (w.phase in {Rolling, RollSaving, Loading, Adding, Saving})
    || (w.phase == Deciding && !w.last)
  }

  /** Results are non-negative, cost at most `c`, and only the call's last one is charged. */
  predicate Allowed(c: real, step: Step) {
    step.BeginRecord? ==> ChargeOk(c, step.r, step.last)
  }

  predicate Enabled(s: State, step: Step) {
    match step
    case NewDay(day) => s.lock.None? && day > s.today
    case Create => s.lock.None?
    case BeginCheck(i) => s.lock.None? && i < |s.workers| && s.workers[i].phase == Idle
    case BeginRecord(i, _, _) => s.lock.None? && i < |s.workers| && s.workers[i].phase == InFlight
    case Advance(i, _) => s.lock == Some(i) && i < |s.workers| && Locked(s.workers[i].phase)
  }

  function Set(s: State, i: nat, w: Worker): State
    requires i < |s.workers|
  {
    s.(workers := s.workers[i := w])
  }

  function Apply(caps: Caps, s: State, step: Step): State
    requires Enabled(s, step)
  {
    match step
    case NewDay(day) => s.(today := day)
    case Create => s.(workers := s.workers + [NewWorker(s)])
    case BeginCheck(i) => Set(s, i, s.workers[i].(phase := CheckRolling)).(lock := Some(i))
    case BeginRecord(i, r, last) => Set(s, i, s.workers[i].(phase := Rolling, r := r, last := last)).(lock := Some(i))
    case Advance(i, buildSpend) => Advanced(caps, s, i, buildSpend)
  }

  function NewWorker(s: State): Worker {
    Worker(Idle, Load(Counters(0.0, 0, s.today), s.file, s.today, false), LlmResult(0.0, 0, 0), true)
  }

  function Roll(s: State, w: Worker, saving: Phase, loading: Phase): Worker {
    if w.m.ledgerDay == s.today then w.(phase := loading)
    else
      var m := Load(w.m, s.file, s.today, false);
      w.(m := m, phase := if m.ledgerDay == s.today then loading else saving)
  }

  /** One step of the transaction of worker `i`, which holds the lock. */
  function Advanced(caps: Caps, s: State, i: nat, buildSpend: real): State
    requires i < |s.workers| && Locked(s.workers[i].phase)
  {
    var w := s.workers[i];
    var zero := Counters(0.0, 0, s.today);
    match w.phase
    case CheckRolling => Set(s, i, Roll(s, w, CheckRollSaving, CheckLoading))
    case CheckRollSaving => Set(s, i, w.(m := zero, phase := CheckLoading)).(file := Saved(zero))
    case CheckLoading => Set(s, i, w.(m := Load(w.m, s.file, s.today, true), phase := CheckDeciding))
    case CheckDeciding =>
      Set(s, i, w.(phase := if Crossed(caps, buildSpend, w.m).None? then InFlight else Idle)).(lock := None)
    case Rolling => Set(s, i, Roll(s, w, RollSaving, Loading))
    case RollSaving => Set(s, i, w.(m := zero, phase := Loading)).(file := Saved(zero))
    case Loading => Set(s, i, w.(m := Load(w.m, s.file, s.today, false), phase := Adding))
    case Adding => Set(s, i, w.(m := Add(w.m, w.r), phase := Saving))
    case Saving =>
      Set(s, i, w.(phase := Deciding)).(file := Saved(w.m), log := s.log + [Charge(w.m.ledgerDay, w.r)])
    case Deciding => Set(s, i, w.(phase := if w.last then Idle else InFlight)).(lock := None)
  }

  // ---- what was recorded ---------------------------------------------------------------------------------

  function SpentOn(log: seq<Charge>, day: int): real {
    if log == [] then 0.0
    else SpentOn(log[..|log| - 1], day) + if log[|log| - 1].day == day then log[|log| - 1].r.cost else 0.0
  }

  function TokensOn(log: seq<Charge>, day: int): int {
    if log == [] then 0
    else
      var c := log[|log| - 1];
      TokensOn(log[..|log| - 1], day) + if c.day == day then c.r.promptTokens + c.r.completionTokens else 0
  }

  function FlyingCount(ws: seq<Worker>): nat {
    if ws == [] then 0 else FlyingCount(ws[..|ws| - 1]) + if Flying(ws[|ws| - 1]) then 1 else 0
  }

  lemma {:induction false} NothingYet(log: seq<Charge>, day: int)
    requires forall c | c in log :: c.day < day
    ensures SpentOn(log, day) == 0.0 && TokensOn(log, day) == 0
  {
    if log != [] {
      assert log[|log| - 1] in log && forall c | c in log[..|log| - 1] :: c in log;
      NothingYet(log[..|log| - 1], day);
    }
  }

  lemma OneMore(log: seq<Charge>, c: Charge, day: int)
    ensures SpentOn(log + [c], day) == SpentOn(log, day) + if c.day == day then c.r.cost else 0.0
    ensures TokensOn(log + [c], day) ==
            TokensOn(log, day) + if c.day == day then c.r.promptTokens + c.r.completionTokens else 0
  {
    assert (log + [c])[..|log|] == log;
  }

  lemma {:induction false} FlyingBound(ws: seq<Worker>)
    ensures FlyingCount(ws) <= |ws|
    ensures (exists k | 0 <= k < |ws| :: !Flying(ws[k])) ==> FlyingCount(ws) < |ws|
  {
    if ws != [] {
      FlyingBound(ws[..|ws| - 1]);
    }
  }

  lemma {:induction false} FlyingUpdate(ws: seq<Worker>, i: nat, w: Worker)
    requires i < |ws|
    ensures FlyingCount(ws[i := w]) ==
            FlyingCount(ws) - (if Flying(ws[i]) then 1 else 0) + if Flying(w) then 1 else 0
  {
    var n := |ws| - 1;
    if i == n {
      assert ws[i := w][..n] == ws[..n];
    } else {
      assert ws[i := w][..n] == ws[..n][i := w];
      FlyingUpdate(ws[..n], i, w);
    }
  }

  // ---- the invariant -------------------------------------------------------------------------------------

  /** The file holds the exact totals of the day it names; when that is not today, nothing was recorded today. */
  ghost predicate FileTrue(s: State) {
    && (s.file.Ledger? ==>
          && s.file.day <= s.today
          && s.file.spent == SpentOn(s.log, s.file.day) && s.file.tokens == TokensOn(s.log, s.file.day))
    && (s.file == Unreadable || s.file.day < s.today ==>
          SpentOn(s.log, s.today) == 0.0 && TokensOn(s.log, s.today) == 0)
  }

  /** A tracker's memory never runs ahead of the totals. */
  ghost predicate Behind(s: State, m: Counters) {
    && m.ledgerDay <= s.today
    && (m.ledgerDay == s.today ==>
          0.0 <= m.spentDay <= SpentOn(s.log, s.today) && 0 <= m.tokensDay <= TokensOn(s.log, s.today))
  }

  ghost predicate UpToDate(s: State, m: Counters) {
    m == Counters(SpentOn(s.log, s.today), TokensOn(s.log, s.today), s.today)
  }

  ghost predicate WorkerTrue(s: State, w: Worker) {
    match w.phase
    case Idle => Behind(s, w.m)
    case InFlight => Behind(s, w.m)
    case CheckRolling => Behind(s, w.m)
    case Rolling => Behind(s, w.m)
    case CheckRollSaving => s.file == Unreadable || s.file.day < s.today
    case RollSaving => s.file == Unreadable || s.file.day < s.today
    case CheckLoading => Behind(s, w.m) && w.m.ledgerDay == s.today
    case Loading => Behind(s, w.m) && w.m.ledgerDay == s.today
    case CheckDeciding => UpToDate(s, w.m)
    case Adding => UpToDate(s, w.m)
    case Saving => UpToDate(s, Counters(w.m.spentDay - w.r.cost,
                                        w.m.tokensDay - w.r.promptTokens - w.r.completionTokens, w.m.ledgerDay))
    case Deciding => UpToDate(s, w.m)
  }

  predicate ChargeOk(c: real, r: LlmResult, last: bool) {
    0.0 <= r.cost <= c && r.promptTokens >= 0 && r.completionTokens >= 0 && (!last ==> r.cost == 0.0)
  }

  predicate WorkerAllowed(c: real, w: Worker) {
    w.phase in {Rolling, RollSaving, Loading, Adding, Saving, Deciding} ==> ChargeOk(c, w.r, w.last)
  }

  ghost predicate TotalsOk(s: State) {
    && FileTrue(s)
    && (forall x | x in s.log :: x.day <= s.today)
    && SpentOn(s.log, s.today) >= 0.0 && TokensOn(s.log, s.today) >= 0
  }

  ghost predicate WorkerOk(c: real, s: State, k: nat)
    requires k < |s.workers|
  {
    var w := s.workers[k];
    WorkerTrue(s, w) && WorkerAllowed(c, w) && (Locked(w.phase) ==> s.lock == Some(k))
  }

  ghost predicate Inv(c: real, s: State) {
    TotalsOk(s) && forall k | 0 <= k < |s.workers| :: WorkerOk(c, s, k)
  }

  /** The log tells what was recorded so far, today included; the ledger is true of it, and every worker is idle. */
  ghost predicate Init(s: State) {
    && s.lock.None? && TotalsOk(s) && forall w | w in s.workers :: w.phase == Idle && Behind(s, w.m)
  }

  lemma InitInv(c: real, s: State)
    requires Init(s)
    ensures Inv(c, s)
  {
  }

  /** What earlier runs left in the ledger, as one charge of the day it names. */
  function Inherited(file: LedgerFile): seq<Charge> {
    if file.Ledger? then [Charge(file.day, LlmResult(file.spent, file.tokens, 0))] else []
  }

  /** A run may start from any ledger, today's totals included, and from none. */
  lemma AnyLedgerStarts(s: State)
    requires s.lock.None? && s.workers == [] && s.log == Inherited(s.file)
    requires s.file.Ledger? ==> s.file.day <= s.today && s.file.spent >= 0.0 && s.file.tokens >= 0
    ensures Init(s)
    ensures s.file.Ledger? && s.file.day == s.today ==>
              SpentOn(s.log, s.today) == s.file.spent && TokensOn(s.log, s.today) == s.file.tokens
  {
    if s.file.Ledger? {
      OneMore([], s.log[0], s.file.day);
      OneMore([], s.log[0], s.today);
      assert s.log == [] + [s.log[0]];
    }
  }

  /** What a step of the lock holder does to the totals and to its own worker. */
  lemma AdvanceOwn(caps: Caps, c: real, s: State, i: nat, buildSpend: real)
    requires Inv(c, s) && Enabled(s, Advance(i, buildSpend))
    ensures var s' := Advanced(caps, s, i, buildSpend);
            && TotalsOk(s') && WorkerOk(c, s', i)
            && SpentOn(s.log, s.today) <= SpentOn(s'.log, s.today)
            && TokensOn(s.log, s.today) <= TokensOn(s'.log, s.today)
  {
    hide SpentOn;
    hide TokensOn;
    var w := s.workers[i];
    assert WorkerOk(c, s, i);
    match w.phase {
      case Saving =>
        assert UpToDate(s, Counters(w.m.spentDay - w.r.cost, w.m.tokensDay - w.r.promptTokens - w.r.completionTokens,
                                    w.m.ledgerDay));
        OneMore(s.log, Charge(w.m.ledgerDay, w.r), s.today);
      case CheckRolling =>
      case CheckRollSaving =>
      case CheckLoading =>
      case CheckDeciding =>
      case Rolling =>
      case RollSaving =>
      case Loading =>
      case Adding =>
      case Deciding =>
    }
  }

  /** A worker outside the lock stays behind totals that only grow. */
  lemma OthersStay(c: real, s: State, s': State, k: nat)
    requires k < |s.workers| == |s'.workers| && s'.workers[k] == s.workers[k] && !Locked(s.workers[k].phase)
    requires WorkerOk(c, s, k) && TotalsOk(s') && s'.today >= s.today
    requires s'.today == s.today ==>
      SpentOn(s.log, s.today) <= SpentOn(s'.log, s.today) && TokensOn(s.log, s.today) <= TokensOn(s'.log, s.today)
    ensures WorkerOk(c, s', k)
  {
    hide SpentOn;
    hide TokensOn;
  }

  lemma StepInv(caps: Caps, c: real, s: State, step: Step)
    requires Inv(c, s) && Enabled(s, step) && Allowed(c, step)
    ensures Inv(c, Apply(caps, s, step))
  {
    hide WorkerTrue, WorkerAllowed, FileTrue, SpentOn, TokensOn, ChargeOk, Roll, Load;
    var s' := Apply(caps, s, step);
    StepTotals(caps, c, s, step);
    forall k | 0 <= k < |s'.workers|
      ensures WorkerOk(c, s', k)
    {
      StepWorker(caps, c, s, step, k);
    }
  }

  lemma StepTotals(caps: Caps, c: real, s: State, step: Step)
    requires Inv(c, s) && Enabled(s, step) && Allowed(c, step)
    ensures TotalsOk(Apply(caps, s, step))
  {
    hide WorkerTrue, SpentOn, TokensOn, Roll, Load;
    match step {
      case NewDay(day) => NothingYet(s.log, day);
      case Create =>
      case BeginCheck(i) =>
      case BeginRecord(i, _, _) =>
      case Advance(i, b) => AdvanceOwn(caps, c, s, i, b);
    }
  }

  lemma StepWorker(caps: Caps, c: real, s: State, step: Step, k: nat)
    requires Inv(c, s) && Enabled(s, step) && Allowed(c, step)
    requires TotalsOk(Apply(caps, s, step)) && k < |Apply(caps, s, step).workers|
    ensures WorkerOk(c, Apply(caps, s, step), k)
  {
    hide WorkerTrue, FileTrue, SpentOn, TokensOn, Roll, Load;
    var s' := Apply(caps, s, step);
    if k < |s.workers| { assert WorkerOk(c, s, k); }
    match step {
      case NewDay(_) => OthersStay(c, s, s', k);
      case Create => if k < |s.workers| { CreatedOthers(c, s, s', k); } else { CreatedOwn(c, s); }
      case BeginCheck(i) => if k == i { BeginOwn(c, s, i, s'); } else { OthersStay(c, s, s', k); }
      case BeginRecord(i, _, _) => if k == i { BeginOwn(c, s, i, s'); } else { OthersStay(c, s, s', k); }
      case Advance(i, b) =>
        AdvanceOwn(caps, c, s, i, b);
        if k != i { OthersStay(c, s, s', k); }
    }
  }

  /** A new tracker is what the constructor of the class makes. */
  lemma CreatedAsConstructed(s: State)
    ensures Books(NewWorker(s).m, Some(s.file)) ==
            LoadFrom(Books(Counters(0.0, 0, s.today), Some(s.file)), s.today, false)
  {
  }

  lemma CreatedOwn(c: real, s: State)
    requires TotalsOk(s)
    ensures WorkerOk(c, s.(workers := s.workers + [NewWorker(s)]), |s.workers|)
  {
    hide SpentOn, TokensOn;
  }

  lemma CreatedOthers(c: real, s: State, s': State, k: nat)
    requires k < |s.workers| && WorkerOk(c, s, k) && s' == s.(workers := s.workers + [NewWorker(s)])
    ensures WorkerOk(c, s', k)
  {
    hide SpentOn, TokensOn;
  }

  lemma BeginOwn(c: real, s: State, i: nat, s': State)
    requires Inv(c, s) && i < |s.workers| && !Locked(s.workers[i].phase) && TotalsOk(s')
    requires s' == s.(workers := s'.workers, lock := Some(i)) && |s'.workers| == |s.workers|
    requires s'.workers[i].m == s.workers[i].m && s'.workers[i].phase in {CheckRolling, Rolling}
    requires WorkerAllowed(c, s'.workers[i])
    ensures WorkerOk(c, s', i)
  {
    assert WorkerOk(c, s, i);
  }

  // ---- whole runs ----------------------------------------------------------------------------------------

  predicate Runs(caps: Caps, c: real, s: State, steps: seq<Step>)
    decreases |steps|
  {
    steps == [] || (Enabled(s, steps[0]) && Allowed(c, steps[0]) && Runs(caps, c, Apply(caps, s, steps[0]), steps[1..]))
  }

  function After(caps: Caps, c: real, s: State, steps: seq<Step>): State
    requires Runs(caps, c, s, steps)
    decreases |steps|
  {
    if steps == [] then s else After(caps, c, Apply(caps, s, steps[0]), steps[1..])
  }

  lemma {:induction false} RunInv(caps: Caps, c: real, s: State, steps: seq<Step>)
    requires Inv(c, s) && Runs(caps, c, s, steps)
    ensures Inv(c, After(caps, c, s, steps))
    decreases |steps|
  {
    if steps != [] {
      StepInv(caps, c, s, steps[0]);
      RunInv(caps, c, Apply(caps, s, steps[0]), steps[1..]);
    }
  }

  /** In every run the file carries the exact totals of the day it names, and when that is not today nothing has
      been recorded today: no update is lost, whatever the interleaving. */
  lemma NoLostUpdates(caps: Caps, c: real, s0: State, steps: seq<Step>)
    requires Init(s0) && Runs(caps, c, s0, steps)
    ensures var s := After(caps, c, s0, steps);
            && (s.file.Ledger? ==>
                  s.file.spent == SpentOn(s.log, s.file.day) && s.file.tokens == TokensOn(s.log, s.file.day))
            && ((s.file.Ledger? && s.file.day == s.today)
                || (SpentOn(s.log, s.today) == 0.0 && TokensOn(s.log, s.today) == 0))
  {
    InitInv(c, s0);
    RunInv(caps, c, s0, steps);
  }

  // ---- the overshoot bound -------------------------------------------------------------------------------

  /** What the total of a day may reach: the cap and one call for each of `n` workers, or what it was at the start. */
  function Ceiling(caps: Caps, c: real, initial: real, n: nat): real { MaxReal(caps.daily + c * (n as real), initial) }

  ghost predicate Bounded(caps: Caps, c: real, initial: real, s: State) {
    SpentOn(s.log, s.today) + c * (FlyingCount(s.workers) as real) <= Ceiling(caps, c, initial, |s.workers|)
  }

  lemma ScaleLe(c: real, a: int, b: int)
    requires c >= 0.0 && a <= b
    ensures c * (a as real) <= c * (b as real)
  {
  }

  /** A worker's step spends nothing, or spends at most `c` while one call lands, or lets one more call fly while
      the total is within the cap. */
  ghost predicate Pays(caps: Caps, c: real, s: State, s': State) {
    var spent, spent' := SpentOn(s.log, s.today), SpentOn(s'.log, s'.today);
    var n, n' := FlyingCount(s.workers), FlyingCount(s'.workers);
    || (spent' <= spent && n' <= n)
    || (spent' <= spent + c && n' == n - 1)
    || (spent' == spent <= caps.daily && n' == n + 1)
  }

  lemma StepPays(caps: Caps, c: real, s: State, step: Step)
    requires caps.daily > 0.0 && Inv(c, s) && !step.NewDay? && !step.Create? && Enabled(s, step) && Allowed(c, step)
    ensures Pays(caps, c, s, Apply(caps, s, step))
  {
    hide SpentOn;
    hide TokensOn;
    hide FlyingCount;
    var s' := Apply(caps, s, step);
    var i := step.i;
    var w := s.workers[i];
    FlyingUpdate(s.workers, i, s'.workers[i]);
    assert WorkerOk(c, s, i);
    if step.Advance? && w.phase == Saving {
      OneMore(s.log, Charge(w.m.ledgerDay, w.r), s.today);
    }
  }

  /** The arithmetic of the bound, for `n` of `total` calls flying before the step and `n'` after it. */
  lemma BoundKept(c: real, cap: real, top: real, spent: real, spent': real, n: int, n': int, total: int)
    requires c >= 0.0 && n' <= total && spent + c * (n as real) <= top && cap + c * (total as real) <= top
    requires (spent' <= spent && n' <= n) || (spent' <= spent + c && n' == n - 1)
             || (spent' == spent <= cap && n' == n + 1)
    ensures spent' + c * (n' as real) <= top
  {
    if spent' <= spent && n' <= n {
      ScaleLe(c, n', n);
    } else if n' == n - 1 {
      assert n' as real == n as real - 1.0;
      assert c * (n' as real) == c * (n as real) - c;
    } else {
      ScaleLe(c, n', total);
    }
  }

  lemma PayingStaysBounded(caps: Caps, c: real, initial: real, s: State, s': State)
    requires c >= 0.0 && |s'.workers| == |s.workers| && Bounded(caps, c, initial, s) && Pays(caps, c, s, s')
    ensures Bounded(caps, c, initial, s')
  {
    hide SpentOn;
    hide FlyingCount;
    FlyingBound(s'.workers);
    BoundKept(c, caps.daily, Ceiling(caps, c, initial, |s.workers|), SpentOn(s.log, s.today), SpentOn(s'.log, s'.today),
              FlyingCount(s.workers), FlyingCount(s'.workers), |s.workers|);
  }

  /** A new worker is not flying, and raises the ceiling. */
  lemma CreateBounded(caps: Caps, c: real, initial: real, s: State)
    requires c >= 0.0 && Bounded(caps, c, initial, s)
    ensures Bounded(caps, c, initial, s.(workers := s.workers + [NewWorker(s)]))
  {
    var ws := s.workers + [NewWorker(s)];
    assert ws[..|ws| - 1] == s.workers && FlyingCount(ws) == FlyingCount(s.workers);
    hide FlyingCount, SpentOn;
    ScaleLe(c, |s.workers|, |ws|);
  }

  /** A new day starts with nothing spent. */
  lemma NewDayBounded(caps: Caps, c: real, initial: real, s: State, day: int)
    requires caps.daily > 0.0 && c >= 0.0 && TotalsOk(s) && day > s.today
    ensures Bounded(caps, c, initial, s.(today := day))
  {
    hide FlyingCount, SpentOn, TokensOn, FileTrue, Flying, Ceiling;
    NothingYet(s.log, day);
    FlyingBound(s.workers);
    UnderCeiling(caps, c, initial, FlyingCount(s.workers), |s.workers|);
  }

  lemma UnderCeiling(caps: Caps, c: real, initial: real, n: nat, total: nat)
    requires caps.daily > 0.0 && c >= 0.0 && n <= total
    ensures 0.0 + c * (n as real) <= Ceiling(caps, c, initial, total)
  {
    ScaleLe(c, n, total);
  }

  lemma StepBounded(caps: Caps, c: real, initial: real, s: State, step: Step)
    requires caps.daily > 0.0 && c >= 0.0
    requires Inv(c, s) && Bounded(caps, c, initial, s) && Enabled(s, step) && Allowed(c, step)
    ensures Bounded(caps, c, initial, Apply(caps, s, step))
  {
    hide Inv, TotalsOk, WorkerOk, Bounded, Allowed, Pays, Advanced, NewWorker;
    if step.NewDay? {
      InvMeans(c, s);
      NewDayBounded(caps, c, initial, s, step.day);
    } else if step.Create? {
      CreateBounded(caps, c, initial, s);
    } else {
      StepPays(caps, c, s, step);
      SameWorkers(caps, s, step);
      PayingStaysBounded(caps, c, initial, s, Apply(caps, s, step));
    }
  }

  lemma InvMeans(c: real, s: State)
    requires Inv(c, s)
    ensures TotalsOk(s)
  {
  }

  lemma SameWorkers(caps: Caps, s: State, step: Step)
    requires Enabled(s, step) && !step.Create?
    ensures |Apply(caps, s, step).workers| == |s.workers|
  {
  }

  lemma {:induction false} RunBounded(caps: Caps, c: real, initial: real, s: State, steps: seq<Step>)
    requires caps.daily > 0.0 && c >= 0.0 && Inv(c, s) && Bounded(caps, c, initial, s) && Runs(caps, c, s, steps)
    ensures Bounded(caps, c, initial, After(caps, c, s, steps))
    decreases |steps|
  {
    if steps != [] {
      StepInv(caps, c, s, steps[0]);
      StepBounded(caps, c, initial, s, steps[0]);
      RunBounded(caps, c, initial, Apply(caps, s, steps[0]), steps[1..]);
    }
  }

  /** With calls that cost at most `c` each and N workers so far, the total of a day never passes the cap by more than
      N * c, unless it started higher; and then it does not rise. */
  lemma OvershootBound(caps: Caps, c: real, s0: State, steps: seq<Step>)
    requires caps.daily > 0.0 && c >= 0.0 && Init(s0) && Runs(caps, c, s0, steps)
    ensures var s := After(caps, c, s0, steps);
            SpentOn(s.log, s.today) <= MaxReal(caps.daily + c * (|s.workers| as real), SpentOn(s0.log, s0.today))
  {
    hide *;
    InitInv(c, s0);
    InitBounded(caps, c, s0);
    BoundAfter(caps, c, SpentOn(s0.log, s0.today), s0, steps, After(caps, c, s0, steps));
  }

  lemma BoundAfter(caps: Caps, c: real, initial: real, s0: State, steps: seq<Step>, s: State)
    requires caps.daily > 0.0 && c >= 0.0 && Inv(c, s0) && Bounded(caps, c, initial, s0) && Runs(caps, c, s0, steps)
    requires s == After(caps, c, s0, steps)
    ensures SpentOn(s.log, s.today) <= MaxReal(caps.daily + c * (|s.workers| as real), initial)
  {
    hide *;
    RunBounded(caps, c, initial, s0, steps);
    BoundedWithin(caps, c, initial, s);
  }

  lemma {:induction false} NoneFlying(ws: seq<Worker>)
    requires forall w | w in ws :: w.phase == Idle
    ensures FlyingCount(ws) == 0
  {
    if ws != [] {
      assert ws[|ws| - 1] in ws && forall w | w in ws[..|ws| - 1] :: w in ws;
      NoneFlying(ws[..|ws| - 1]);
    }
  }

  lemma InitBounded(caps: Caps, c: real, s: State)
    requires caps.daily > 0.0 && c >= 0.0 && Init(s)
    ensures Bounded(caps, c, SpentOn(s.log, s.today), s)
  {
    NoneFlying(s.workers);
    assert c * (0 as real) == 0.0;
  }

  lemma BoundedWithin(caps: Caps, c: real, initial: real, s: State)
    requires c >= 0.0 && Bounded(caps, c, initial, s)
    ensures SpentOn(s.log, s.today) <= MaxReal(caps.daily + c * (|s.workers| as real), initial)
  {
    hide SpentOn;
    hide FlyingCount;
    ScaleLe(c, 0, FlyingCount(s.workers));
    assert c * (0 as real) == 0.0;
  }

  // ---- the other caps --------------------------------------------------------------------------------------

  /** A worker takes flight only by a check that found every configured cap respected: the spend of its build, and the
      exact totals of the day. */
  lemma FlightNeedsRoom(caps: Caps, c: real, s: State, step: Step, i: nat)
    requires Inv(c, s) && Enabled(s, step) && Allowed(c, step) && i < |s.workers| && !Flying(s.workers[i])
    ensures i < |Apply(caps, s, step).workers|
    ensures Flying(Apply(caps, s, step).workers[i]) <==>
            && step.Advance? && step.i == i && s.workers[i].phase == CheckDeciding
            && (caps.perBuild > 0.0 ==> step.buildSpend <= caps.perBuild)
            && (caps.daily > 0.0 ==> SpentOn(s.log, s.today) <= caps.daily)
            && (caps.tokens > 0 ==> TokensOn(s.log, s.today) <= caps.tokens)
  {
    hide SpentOn, TokensOn;
    assert WorkerOk(c, s, i);
  }

  predicate TokensOk(d: nat, r: LlmResult, last: bool) {
    r.promptTokens + r.completionTokens <= d && (!last ==> r.promptTokens + r.completionTokens == 0)
  }

  /** Calls use at most `d` tokens, which their last result reports. */
  predicate TokensAllowed(d: nat, step: Step) { step.BeginRecord? ==> TokensOk(d, step.r, step.last) }

  ghost predicate TokenInv(d: nat, s: State) {
    forall w | w in s.workers && w.phase in {Rolling, RollSaving, Loading, Adding, Saving, Deciding} ::
      TokensOk(d, w.r, w.last)
  }

  lemma TokenInvKept(caps: Caps, d: nat, s: State, step: Step)
    requires TokenInv(d, s) && Enabled(s, step) && TokensAllowed(d, step)
    ensures TokenInv(d, Apply(caps, s, step))
  {
    hide Roll, Load, TokensOk;
    var s' := Apply(caps, s, step);
    forall k | 0 <= k < |s'.workers| && s'.workers[k].phase in {Rolling, RollSaving, Loading, Adding, Saving, Deciding}
      ensures TokensOk(d, s'.workers[k].r, s'.workers[k].last)
    {
      TokensCarried(caps, d, s, step, k);
    }
  }

  lemma TokensCarried(caps: Caps, d: nat, s: State, step: Step, k: nat)
    requires TokenInv(d, s) && Enabled(s, step) && TokensAllowed(d, step) && k < |Apply(caps, s, step).workers|
    requires Apply(caps, s, step).workers[k].phase in {Rolling, RollSaving, Loading, Adding, Saving, Deciding}
    ensures TokensOk(d, Apply(caps, s, step).workers[k].r, Apply(caps, s, step).workers[k].last)
  {
    hide Load, TokensOk;
    if k < |s.workers| { assert s.workers[k] in s.workers; }
  }

  function TokenCeiling(caps: Caps, d: nat, initial: int, n: nat): int { Max(caps.tokens + d * n, initial) }

  ghost predicate TokenBounded(caps: Caps, d: nat, initial: int, s: State) {
    TokensOn(s.log, s.today) + d * FlyingCount(s.workers) <= TokenCeiling(caps, d, initial, |s.workers|)
  }

  ghost predicate TokenPays(caps: Caps, d: nat, s: State, s': State) {
    var used, used' := TokensOn(s.log, s.today), TokensOn(s'.log, s'.today);
    var n, n' := FlyingCount(s.workers), FlyingCount(s'.workers);
    || (used' <= used && n' <= n)
    || (used' <= used + d && n' == n - 1)
    || (used' == used <= caps.tokens && n' == n + 1)
  }

  lemma StepPaysTokens(caps: Caps, c: real, d: nat, s: State, step: Step)
    requires caps.tokens > 0 && Inv(c, s) && TokenInv(d, s) && !step.NewDay? && !step.Create?
    requires Enabled(s, step) && Allowed(c, step)
    ensures TokenPays(caps, d, s, Apply(caps, s, step))
  {
    hide SpentOn, TokensOn, FlyingCount;
    var s' := Apply(caps, s, step);
    var i := step.i;
    var w := s.workers[i];
    FlyingUpdate(s.workers, i, s'.workers[i]);
    assert WorkerOk(c, s, i);
    if step.Advance? && w.phase == Saving {
      assert TokensOk(d, w.r, w.last);
      OneMore(s.log, Charge(w.m.ledgerDay, w.r), s.today);
    }
  }

  lemma TokenArithmetic(d: nat, cap: int, top: int, used: int, used': int, n: nat, n': nat, total: nat)
    requires n' <= total && used + d * n <= top && cap + d * total <= top
    requires (used' <= used && n' <= n) || (used' <= used + d && n' == n - 1) || (used' == used <= cap && n' == n + 1)
    ensures used' + d * n' <= top
  {
    if used' <= used && n' <= n {
      Times(d, n', n);
    } else if n' == n - 1 {
      assert d * n == d * n' + d;
    } else {
      Times(d, n', total);
    }
  }

  lemma Times(d: nat, a: nat, b: nat)
    requires a <= b
    ensures d * a <= d * b
  {
  }

  lemma StepTokenBounded(caps: Caps, c: real, d: nat, initial: int, s: State, step: Step)
    requires caps.tokens > 0 && Inv(c, s) && TokenInv(d, s) && TokenBounded(caps, d, initial, s)
    requires Enabled(s, step) && Allowed(c, step)
    ensures TokenBounded(caps, d, initial, Apply(caps, s, step))
  {
    hide Inv, TotalsOk, WorkerOk, TokenBounded, Allowed, TokenPays, TokenInv, Advanced, NewWorker;
    if step.NewDay? {
      InvMeans(c, s);
      NewDayTokens(caps, d, initial, s, step.day);
    } else if step.Create? {
      CreateTokens(caps, d, initial, s);
    } else {
      StepPaysTokens(caps, c, d, s, step);
      SameWorkers(caps, s, step);
      PayingTokens(caps, d, initial, s, Apply(caps, s, step));
    }
  }

  lemma NewDayTokens(caps: Caps, d: nat, initial: int, s: State, day: int)
    requires caps.tokens > 0 && TotalsOk(s) && day > s.today
    ensures TokenBounded(caps, d, initial, s.(today := day))
  {
    hide FlyingCount, SpentOn, TokensOn, FileTrue, Flying;
    NothingYet(s.log, day);
    FlyingBound(s.workers);
    Times(d, FlyingCount(s.workers), |s.workers|);
  }

  lemma CreateTokens(caps: Caps, d: nat, initial: int, s: State)
    requires TokenBounded(caps, d, initial, s)
    ensures TokenBounded(caps, d, initial, s.(workers := s.workers + [NewWorker(s)]))
  {
    var ws := s.workers + [NewWorker(s)];
    assert ws[..|ws| - 1] == s.workers && FlyingCount(ws) == FlyingCount(s.workers);
    hide FlyingCount, TokensOn;
    Times(d, |s.workers|, |ws|);
  }

  lemma PayingTokens(caps: Caps, d: nat, initial: int, s: State, s': State)
    requires |s'.workers| == |s.workers| && TokenBounded(caps, d, initial, s) && TokenPays(caps, d, s, s')
    ensures TokenBounded(caps, d, initial, s')
  {
    hide TokensOn, FlyingCount;
    FlyingBound(s'.workers);
    TokenArithmetic(d, caps.tokens, TokenCeiling(caps, d, initial, |s.workers|), TokensOn(s.log, s.today),
                    TokensOn(s'.log, s'.today), FlyingCount(s.workers), FlyingCount(s'.workers), |s.workers|);
  }

  lemma {:induction false} RunTokenBounded(caps: Caps, c: real, d: nat, initial: int, s: State, steps: seq<Step>)
    requires caps.tokens > 0 && Inv(c, s) && TokenInv(d, s) && TokenBounded(caps, d, initial, s)
    requires Runs(caps, c, s, steps) && forall step | step in steps :: TokensAllowed(d, step)
    ensures TokenBounded(caps, d, initial, After(caps, c, s, steps))
    decreases |steps|
  {
    if steps != [] {
      hide Inv, TokenInv, TokenBounded, Apply, Allowed, Enabled, TokensAllowed;
      assert steps[0] in steps && forall step | step in steps[1..] :: step in steps;
      StepInv(caps, c, s, steps[0]);
      TokenInvKept(caps, d, s, steps[0]);
      StepTokenBounded(caps, c, d, initial, s, steps[0]);
      RunTokenBounded(caps, c, d, initial, Apply(caps, s, steps[0]), steps[1..]);
    }
  }

  /** With calls of at most `d` tokens each and N workers so far, the tokens of a day never pass the cap by more than
      N * d, unless they started higher; and then they do not rise. */
  lemma TokenOvershootBound(caps: Caps, c: real, d: nat, s0: State, steps: seq<Step>)
    requires caps.tokens > 0 && Init(s0) && Runs(caps, c, s0, steps)
    requires forall step | step in steps :: TokensAllowed(d, step)
    ensures var s := After(caps, c, s0, steps);
            TokensOn(s.log, s.today) <= Max(caps.tokens + d * |s.workers|, TokensOn(s0.log, s0.today))
  {
    hide *;
    InitInv(c, s0);
    InitTokens(caps, d, s0);
    var s := After(caps, c, s0, steps);
    RunTokenBounded(caps, c, d, TokensOn(s0.log, s0.today), s0, steps);
    TokensWithin(caps, d, TokensOn(s0.log, s0.today), s);
  }

  lemma InitTokens(caps: Caps, d: nat, s: State)
    requires Init(s)
    ensures TokenInv(d, s) && TokenBounded(caps, d, TokensOn(s.log, s.today), s)
  {
    NoneFlying(s.workers);
    assert d * 0 == 0;
  }

  lemma TokensWithin(caps: Caps, d: nat, initial: int, s: State)
    requires TokenBounded(caps, d, initial, s)
    ensures TokensOn(s.log, s.today) <= Max(caps.tokens + d * |s.workers|, initial)
  {
    hide TokensOn, FlyingCount;
    Times(d, 0, FlyingCount(s.workers));
  }

  // ---- the steps are the transactions of the class -------------------------------------------------------

  ghost function BooksOf(s: State, i: nat): Books
    requires i < |s.workers|
  {
    Books(s.workers[i].m, Some(s.file))
  }

  /** The one or two rollover steps of the lock holder. */
  function AfterRollover(caps: Caps, s: State, i: nat): State
    requires i < |s.workers| && s.workers[i].phase in {Rolling, CheckRolling}
  {
    var s1 := Advanced(caps, s, i, 0.0);
    if s1.workers[i].phase in {RollSaving, CheckRollSaving} then Advanced(caps, s1, i, 0.0) else s1
  }

  lemma RolloverSteps(caps: Caps, s: State, i: nat)
    requires i < |s.workers| && s.workers[i].phase in {Rolling, CheckRolling}
    ensures var s' := AfterRollover(caps, s, i);
            && |s'.workers| == |s.workers| && s'.log == s.log && s'.today == s.today
            && BooksOf(s', i) == RolledOver(BooksOf(s, i), s.today)
            && s'.workers[i].phase == (if s.workers[i].phase == Rolling then Loading else CheckLoading)
            && s'.workers[i].r == s.workers[i].r
            && s'.workers[i].m.ledgerDay == s.today
  {
  }

  /** Taken one after another, the steps of a recording worker compute the tracker's `record` on the shared file. */
  lemma RecordStepsAreRecord(caps: Caps, s: State, i: nat)
    requires i < |s.workers| && s.workers[i].phase == Rolling
    ensures var s2 := AfterRollover(caps, s, i);
            && |s2.workers| == |s.workers| && s2.workers[i].phase == Loading
            && var s3 := Advanced(caps, s2, i, 0.0);
            && |s3.workers| == |s.workers| && s3.workers[i].phase == Adding
            && var s4 := Advanced(caps, s3, i, 0.0);
            && |s4.workers| == |s.workers| && s4.workers[i].phase == Saving
            && var s5 := Advanced(caps, s4, i, 0.0);
            && |s5.workers| == |s.workers| && s5.workers[i].phase == Deciding
            && BooksOf(s5, i) == Recorded(BooksOf(s, i), s.today, s.workers[i].r)
            && s5.log == s.log + [Charge(s.today, s.workers[i].r)]
            && var s6 := Advanced(caps, s5, i, 0.0);
            && |s6.workers| == |s.workers| && s6.lock.None? && BooksOf(s6, i) == BooksOf(s5, i)
            && s6.workers[i].phase == if s.workers[i].last then Idle else InFlight
  {
    RolloverSteps(caps, s, i);
    hide AfterRollover;
    hide RolledOver;
  }

  /** Likewise for a checking worker and `check`. */
  lemma CheckStepsAreCheck(caps: Caps, s: State, i: nat)
    requires i < |s.workers| && s.workers[i].phase == CheckRolling
    ensures var s2 := AfterRollover(caps, s, i);
            && |s2.workers| == |s.workers| && s2.workers[i].phase == CheckLoading
            && var s3 := Advanced(caps, s2, i, 0.0);
            && |s3.workers| == |s.workers| && s3.workers[i].phase == CheckDeciding
            && BooksOf(s3, i) == Checked(BooksOf(s, i), s.today) && s3.log == s.log
            && forall buildSpend ::
                 var s4 := Advanced(caps, s3, i, buildSpend);
                 && |s4.workers| == |s.workers| && s4.lock.None? && BooksOf(s4, i) == BooksOf(s3, i)
                 && (exists raised ::
                       && Verdict(caps, buildSpend, s3.workers[i].m.spentDay, s3.workers[i].m.tokensDay, raised)
                       && s4.workers[i].phase == if raised.None? then InFlight else Idle)
  {
    RolloverSteps(caps, s, i);
    hide AfterRollover;
    hide RolledOver;
  }

  // ---- nobody waits for ever -----------------------------------------------------------------------------

  /** Whoever has the lock is in the middle of a transaction. */
  ghost predicate LockOk(s: State) {
    s.lock.Some? ==> s.lock.value < |s.workers| && Locked(s.workers[s.lock.value].phase)
  }

  lemma LockStep(caps: Caps, s: State, step: Step)
    requires LockOk(s) && Enabled(s, step)
    ensures LockOk(Apply(caps, s, step))
  {
  }

  lemma {:induction false} LockRun(caps: Caps, c: real, s: State, steps: seq<Step>)
    requires LockOk(s) && Runs(caps, c, s, steps)
    ensures LockOk(After(caps, c, s, steps))
    decreases |steps|
  {
    if steps != [] {
      LockStep(caps, s, steps[0]);
      hide Apply, Enabled, LockOk;
      LockRun(caps, c, Apply(caps, s, steps[0]), steps[1..]);
    }
  }

  /** How many steps a worker has to its release of the lock, at most. */
  ghost function StepsLeft(p: Phase): nat {
    match p
    case Idle => 0
    case InFlight => 0
    case CheckRolling => 4
    case CheckRollSaving => 3
    case CheckLoading => 2
    case CheckDeciding => 1
    case Rolling => 6
    case RollSaving => 5
    case Loading => 4
    case Adding => 3
    case Saving => 2
    case Deciding => 1
  }

  /** In every reachable state either someone holds the lock, can go on, and gets nearer to its release by every step;
      or every idle worker may check and every worker in flight may record whatever it has. */
  lemma NobodyIsStuck(caps: Caps, c: real, s0: State, steps: seq<Step>)
    requires Init(s0) && Runs(caps, c, s0, steps)
    ensures var s := After(caps, c, s0, steps);
            if s.lock.Some? then
              s.lock.value < |s.workers| &&
              forall buildSpend ::
                var i, step := s.lock.value, Advance(s.lock.value, buildSpend);
                && Enabled(s, step) && |Apply(caps, s, step).workers| == |s.workers|
                && StepsLeft(Apply(caps, s, step).workers[i].phase) < StepsLeft(s.workers[i].phase)
                && (Apply(caps, s, step).lock.None? <==> StepsLeft(Apply(caps, s, step).workers[i].phase) == 0)
            else
              forall i | 0 <= i < |s.workers| ::
                && (s.workers[i].phase == Idle ==> Enabled(s, BeginCheck(i)))
                && (s.workers[i].phase == InFlight ==> forall r, last :: Enabled(s, BeginRecord(i, r, last)))
  {
    LockRun(caps, c, s0, steps);
    var s := After(caps, c, s0, steps);
    if s.lock.Some? {
      forall buildSpend { HolderGoesOn(caps, s, s.lock.value, buildSpend); }
    }
  }

  lemma HolderGoesOn(caps: Caps, s: State, i: nat, buildSpend: real)
    requires LockOk(s) && s.lock == Some(i)
    ensures i < |s.workers| && Enabled(s, Advance(i, buildSpend))
    ensures var s' := Apply(caps, s, Advance(i, buildSpend));
            && |s'.workers| == |s.workers| && StepsLeft(s'.workers[i].phase) < StepsLeft(s.workers[i].phase)
            && (s'.lock.None? <==> StepsLeft(s'.workers[i].phase) == 0)
  {
  }
}
