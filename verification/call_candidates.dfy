/** The candidates of a resilient call: fallback lists, quarantines, and what the trace says of the candidates tried. */
module CallCandidates {
  import opened CallTrace

  function Min(a: int, b: int): int { if a < b then a else b }

  predicate Distinct(ms: seq<Model>) { forall i, j | 0 <= i < j < |ms| :: ms[i] != ms[j] }

  // ---- fallback lists ------------------------------------------------------------------------------------

  /** Order-preserving duplicates-out, without the empty name and `primary`. */
  function Fallbacks(names: seq<Model>, primary: Model): (r: seq<Model>)
    ensures forall m :: m in r <==> m in names && m != "" && m != primary
    ensures Distinct(r)
  {
    if names == [] then []
    else
      var before, m := Fallbacks(names[..|names| - 1], primary), names[|names| - 1];
      assert forall x :: x in names <==> x in names[..|names| - 1] || x == m;
      if m != "" && m != primary && m !in before then before + [m] else before
  }

  lemma FallbacksSnoc(names: seq<Model>, m: Model, primary: Model)
    ensures var before := Fallbacks(names, primary);
            Fallbacks(names + [m], primary) == if m != "" && m != primary && m !in before then before + [m] else before
  {
    assert (names + [m])[..|names|] == names;
  }

  method AppendFallbacks(out0: seq<Model>, seen: seq<Model>, more: seq<Model>, primary: Model) returns (out: seq<Model>)
    requires out0 == Fallbacks(seen, primary)
    ensures out == Fallbacks(seen + more, primary)
  {
    hide *;
    out := out0;
    assert seen + more[..0] == seen;
    for i := 0 to |more|
      invariant out == Fallbacks(seen + more[..i], primary)
    {
      var m := more[i];
      assert seen + more[..i + 1] == seen + more[..i] + [m];
      FallbacksSnoc(seen + more[..i], m, primary);
      if m != "" && m != primary && m !in out { out := out + [m]; }
    }
    assert more[..|more|] == more;
  }

  /** Total number of attempts allowed before candidate `ci` has its turn. */
  function Allowance(retries: nat, ci: nat): nat {
    if ci == 0 then 0 else (retries + 1) + (ci - 1) * (Min(retries, 1) + 1)
  }

  function BudgetFor(retries: nat, ci: nat): nat { if ci == 0 then retries else Min(retries, 1) }

  lemma AllowanceStep(retries: nat, ci: nat)
    ensures Allowance(retries, ci + 1) == Allowance(retries, ci) + BudgetFor(retries, ci) + 1
  {
  }

  /** `a` is `b` with some elements left out. */
  ghost predicate Subsequence(a: seq<Model>, b: seq<Model>) {
    a == [] || (b != [] && ((a[|a| - 1] == b[|b| - 1] && Subsequence(a[..|a| - 1], b[..|b| - 1]))
                            || Subsequence(a, b[..|b| - 1])))
  }

  lemma SubsequenceNext(a: seq<Model>, b: seq<Model>, m: Model)
    requires Subsequence(a, b)
    ensures Subsequence(a, b + [m]) && Subsequence(a + [m], b + [m])
  {
    assert (b + [m])[..|b|] == b && (a + [m])[..|a|] == a;
  }

  lemma {:induction false} SubsequenceInit(a: seq<Model>, b: seq<Model>)
    requires Subsequence(a, b) && a != []
    ensures Subsequence(a[..|a| - 1], b)
    decreases |b|
  {
    if !(a[|a| - 1] == b[|b| - 1] && Subsequence(a[..|a| - 1], b[..|b| - 1])) { SubsequenceInit(a, b[..|b| - 1]); }
  }

  lemma {:induction false} SubsequencePrefix(a: seq<Model>, b: seq<Model>, k: nat)
    requires Subsequence(a, b) && k <= |a|
    ensures Subsequence(a[..k], b)
    decreases |a|
  {
    if k == |a| {
      assert a[..k] == a;
    } else {
      SubsequenceInit(a, b);
      SubsequencePrefix(a[..|a| - 1], b, k);
      assert a[..|a| - 1][..k] == a[..k];
    }
  }

  // ---- quarantines --------------------------------------------------------------------------------------------

  /** The model is in quarantine at the given time; a release time of 0 is none. */
  predicate Quarantined(unhealthy: map<Model, real>, model: Model, at: real) {
    model != "" && model in unhealthy && unhealthy[model] != 0.0 && unhealthy[model] > at
  }

  /** `out` has the healthy ones among `names`, in order: all that were healthy before the selection, and none that was
      still in quarantine after it. */
  ghost predicate Healthy(out: seq<Model>, names: seq<Model>, unhealthy: map<Model, real>, before: real, after: real) {
    && Subsequence(out, names)
    && forall m | m in names ::
         && (!Quarantined(unhealthy, m, before) ==> m in out)
         && (Quarantined(unhealthy, m, after) ==> m !in out)
  }

  /** Every model that was healthy at the given time is among the candidates, unless the cap cut the list. */
  ghost predicate Exhaustive(s: Settings, names: seq<Model>, unhealthy: map<Model, real>, at: real,
                             candidates: seq<Model>, initial: nat) {
    forall m | m in names && !Quarantined(unhealthy, m, at) ::
      m in candidates || (s.maxFallbacks > 0 && |candidates| == initial + s.maxFallbacks)
  }

  /** Quarantines are forgotten, never made up. */
  ghost predicate Forgets(a: map<Model, real>, b: map<Model, real>) { forall m | m in b :: m in a && b[m] == a[m] }

  /** The quarantines of `b` are those of `a` or of candidates. */
  ghost predicate MarksOnly(a: map<Model, real>, b: map<Model, real>, candidates: seq<Model>) {
    forall m | m in b && m !in candidates :: m in a && b[m] == a[m]
  }

  function Max(a: real, b: real): real { if a < b then b else a }

  // ---- one candidate ------------------------------------------------------------------------------------------

  /** The last attempt was on `model`, which it left to its successors: broken, or with all `budget + 1` attempts
      made. */
  ghost predicate Spent(t: seq<Event>, model: Model, made: int, budget: nat) {
    && t != [] && t[|t| - 1].Attempt? && t[|t| - 1].model == model && t[|t| - 1].out.Fails?
    && (t[|t| - 1].out.failure.kind == ModelError || made == budget + 1)
  }

  predicate EndsWith(t: seq<Event>, e: Event) { t != [] && t[|t| - 1] == e }

  /** The wait the server asked for, 0 when it asked for none. */
  function ServerWait(f: Failure): real { if f.kind == Transient && f.serverMin > 0.0 then f.serverMin else 0.0 }

  lemma AttemptMeans(before: seq<Event>, e: Event)
    ensures EndsWith(before + [e], e)
    ensures e.Attempt? && e.out.Fails? ==> Demand(e) == ServerWait(e.out.failure)
  {
  }

  lemma AddsMore(model: Model, a: seq<Event>, b: seq<Event>, c: seq<Event>)
    requires Adds(model, a, b) && Adds(model, b, c)
    ensures Adds(model, a, c)
  {
    forall i | |a| <= i < |c| && c[i].Attempt? ensures c[i].model == model { if i < |b| { assert c[i] == b[i]; } }
  }

  lemma SpentBy(t: seq<Event>, e: Event, made: int, budget: nat)
    requires EndsWith(t, e) && e.Attempt? && e.out.Fails?
    ensures t != [] && (e.out.failure.kind == ModelError || made == budget + 1 ==> Spent(t, e.model, made, budget))
  {
  }

  // ---- the candidates tried -----------------------------------------------------------------------------------

  predicate Among(candidates: seq<Model>, ci: nat, m: Model) {
    exists k :: 0 <= k < ci && k < |candidates| && candidates[k] == m
  }

  /** After `begin` only the first `ci` candidates were tried, within what they are allowed. */
  ghost predicate Within(s: Settings, t: seq<Event>, begin: nat, candidates: seq<Model>, ci: nat)
    requires begin <= |t|
  {
    && (forall i | begin <= i < |t| && t[i].Attempt? :: Among(candidates, ci, t[i].model))
    && Attempts(t) <= Attempts(t[..begin]) + Allowance(RetryBudget(s), ci)
  }

  /** Attempt `i` is the last one on the model. */
  ghost predicate LastOn(t: seq<Event>, m: Model, i: int) {
    && 0 <= i < |t| && t[i].Attempt? && t[i].model == m
    && forall j | i < j < |t| && t[j].Attempt? :: t[j].model != m
  }

  /** The model had its turn in a call: it failed to the last, because it is broken or with `budget + 1` attempts
      made. */
  ghost predicate UsedUp(t: seq<Event>, m: Model, budget: nat) {
    && AttemptsOn(t, m) <= budget + 1
    && exists i ::
         && LastOn(t, m, i) && t[i].out.Fails?
         && (t[i].out.failure.kind == ModelError || AttemptsOn(t, m) == budget + 1)
  }

  ghost predicate TriedOn(t: seq<Event>, begin: nat, m: Model, budget: nat) {
    begin <= |t| && UsedUp(t[begin..], m, budget)
  }

  /** Between `a` and `b` the model was not tried. */
  ghost predicate Spared(m: Model, a: seq<Event>, b: seq<Event>) {
    a <= b && forall i | |a| <= i < |b| && b[i].Attempt? :: b[i].model != m
  }

  lemma {:induction false} SparedAttempts(m: Model, a: seq<Event>, b: seq<Event>)
    requires Spared(m, a, b)
    ensures AttemptsOn(b, m) == AttemptsOn(a, m)
    decreases |b|
  {
    if |b| > |a| {
      assert b[|b| - 1].Attempt? ==> b[|b| - 1].model != m;
      SparedAttempts(m, a, b[..|b| - 1]);
    } else {
      assert a == b;
    }
  }

  lemma UsedUpStays(a: seq<Event>, b: seq<Event>, m: Model, budget: nat)
    requires UsedUp(a, m, budget) && Spared(m, a, b)
    ensures UsedUp(b, m, budget)
  {
    SparedAttempts(m, a, b);
    hide AttemptsOn;
    var i :| && LastOn(a, m, i) && a[i].out.Fails?
             && (a[i].out.failure.kind == ModelError || AttemptsOn(a, m) == budget + 1);
    assert b[i] == a[i];
    forall j | i < j < |b| && b[j].Attempt? ensures b[j].model != m { if j < |a| { assert b[j] == a[j]; } }
    assert LastOn(b, m, i);
  }

  lemma TriedStays(t: seq<Event>, t': seq<Event>, begin: nat, m: Model, budget: nat)
    requires TriedOn(t, begin, m, budget) && Spared(m, t, t')
    ensures TriedOn(t', begin, m, budget)
  {
    hide UsedUp;
    UsedUpStays(t[begin..], t'[begin..], m, budget);
  }

  lemma {:induction false} AddsCount(m: Model, a: seq<Event>, b: seq<Event>)
    requires Adds(m, a, b)
    ensures AttemptsOn(b, m) == AttemptsOn(a, m) + Attempts(b) - Attempts(a)
    decreases |b|
  {
    if |b| > |a| {
      assert b[|b| - 1].Attempt? ==> b[|b| - 1].model == m;
      AddsCount(m, a, b[..|b| - 1]);
    } else {
      assert a == b;
    }
  }

  ghost predicate InQuarantine(t: seq<Event>, begin: nat, m: Model) {
    exists i :: begin <= i < |t| && t[i].Quarantine? && t[i].model == m
  }

  /** The candidate in place `k` had its turn and, when quarantine is on, was quarantined. */
  ghost predicate GivenUp(s: Settings, t: seq<Event>, begin: nat, m: Model, k: nat) {
    && TriedOn(t, begin, m, BudgetFor(RetryBudget(s), k))
    && (m != "" && s.unhealthyTtl > 0.0 ==> InQuarantine(t, begin, m))
  }

  ghost predicate GaveUpAll(s: Settings, t: seq<Event>, begin: nat, candidates: seq<Model>, ci: nat) {
    forall k | 0 <= k < ci && k < |candidates| :: GivenUp(s, t, begin, candidates[k], k)
  }

  /** The turns of a call that has run out of candidates: the first one has all its configured retries and every other
      at most one, and a turn ends short of them only with a broken model. */
  ghost predicate TurnsTaken(s: Settings, t: seq<Event>, candidates: seq<Model>) {
    forall k | 0 <= k < |candidates| ::
      TookTurn(t, candidates[k], 1 + if s.retryEnabled && s.maxRetries > 0 then if k == 0 then s.maxRetries else 1
               else 0)
  }

  /** The last attempt on the model failed, and `most` attempts were made on it, or fewer when it is broken. */
  ghost predicate TookTurn(t: seq<Event>, m: Model, most: nat) {
    exists i ::
      && LastOn(t, m, i) && t[i].out.Fails? && AttemptsOn(t, m) <= most
      && (t[i].out.failure.kind != ModelError ==> AttemptsOn(t, m) == most)
  }

  lemma TurnsOver(s: Settings, t: seq<Event>, candidates: seq<Model>)
    requires GaveUpAll(s, t, 0, candidates, |candidates|)
    ensures TurnsTaken(s, t, candidates)
  {
    hide AttemptsOn, LastOn;
    assert t[0..] == t;
    forall k | 0 <= k < |candidates|
      ensures TookTurn(t, candidates[k], BudgetFor(RetryBudget(s), k) + 1)
    {
      assert GivenUp(s, t, 0, candidates[k], k);
    }
  }

  /** The attempts of a call, in terms of the settings. */
  lemma AttemptsBounded(s: Settings, t: seq<Event>, candidates: seq<Model>)
    requires Within(s, t, 0, candidates, |candidates|)
    ensures forall e | e in t && e.Attempt? :: e.model in candidates
    ensures candidates != [] ==>
              var retries := if s.retryEnabled && s.maxRetries > 0 then s.maxRetries else 0;
              Attempts(t) <= 1 + retries + (|candidates| - 1) * (if retries > 0 then 2 else 1)
  {
    assert t[..0] == [] && Attempts([]) == 0;
    hide Attempts;
    forall e | e in t && e.Attempt? ensures e.model in candidates {
      var i :| 0 <= i < |t| && t[i] == e;
      assert Among(candidates, |candidates|, t[i].model);
    }
  }

  lemma EndsQuarantined(t: seq<Event>, begin: nat, e: Event)
    requires begin <= |t| && e.Quarantine?
    ensures InQuarantine(t + [e], begin, e.model)
  {
    assert (t + [e])[|t|] == e;
  }

  /** Where the loop over candidates stands: the first `ci` account for all attempts since `begin`, and are given up. */
  ghost predicate Walked(s: Settings, base: seq<Event>, t: seq<Event>, begin: nat, candidates: seq<Model>, ci: nat) {
    begin <= |base| && base <= t && Within(s, t, begin, candidates, ci) && GaveUpAll(s, t, begin, candidates, ci)
  }

  ghost predicate ListOk(s: Settings, primary: Model, candidates0: seq<Model>, candidates: seq<Model>, extended: bool) {
    && Distinct(candidates) && candidates0 <= candidates && primary !in candidates[|candidates0|..]
    && (!extended ==> candidates == candidates0)
    && (s.maxFallbacks > 0 ==> |candidates| <= |candidates0| + s.maxFallbacks)
  }

  lemma WalkStart(s: Settings, base: seq<Event>, begin: nat, primary: Model, candidates: seq<Model>,
                  known: map<Model, real>, unhealthy: map<Model, real>)
    requires begin <= |base| && Quiet(base[..begin], base) && Distinct(candidates) && Forgets(known, unhealthy)
    ensures Walked(s, base, base, begin, candidates, 0) && ListOk(s, primary, candidates, candidates, false)
    ensures MarksOnly(known, unhealthy, candidates)
  {
    QuietAttempts(base[..begin], base);
    assert candidates[|candidates|..] == [];
  }

  lemma WalkedQuiet(s: Settings, base: seq<Event>, t: seq<Event>, t': seq<Event>, begin: nat, candidates: seq<Model>,
                    ci: nat)
    requires Walked(s, base, t, begin, candidates, ci) && Quiet(t, t')
    ensures Walked(s, base, t', begin, candidates, ci)
  {
    QuietAttempts(t, t');
    QuietSpares(t, t');
    GivenUpStays(s, t, t', begin, candidates, ci);
    hide GaveUpAll, Attempts;
    assert t[..begin] == t'[..begin];
    forall i | begin <= i < |t'| && t'[i].Attempt? ensures t'[i].model in candidates { assert t'[i] == t[i]; }
  }

  lemma GivenUpStays(s: Settings, t: seq<Event>, t': seq<Event>, begin: nat, candidates: seq<Model>, ci: nat)
    requires t <= t' && GaveUpAll(s, t, begin, candidates, ci)
    requires forall k | 0 <= k < ci && k < |candidates| :: Spared(candidates[k], t, t')
    ensures GaveUpAll(s, t', begin, candidates, ci)
  {
    hide TriedOn, BudgetFor, RetryBudget;
    forall k | 0 <= k < ci && k < |candidates| ensures GivenUp(s, t', begin, candidates[k], k) {
      var m := candidates[k];
      assert GivenUp(s, t, begin, m, k);
      TriedStays(t, t', begin, m, BudgetFor(RetryBudget(s), k));
      if m != "" && s.unhealthyTtl > 0.0 {
        var j :| begin <= j < |t| && t[j].Quarantine? && t[j].model == m;
        assert t'[j] == t[j];
      }
    }
  }

  lemma QuietSpares(t: seq<Event>, t': seq<Event>)
    requires Quiet(t, t')
    ensures forall m :: Spared(m, t, t')
  {
  }

  /** Candidate `ci` has had its turn. */
  ghost predicate HadTurn(s: Settings, base: seq<Event>, t: seq<Event>, begin: nat, candidates: seq<Model>, ci: nat) {
    begin <= |base| && base <= t && Within(s, t, begin, candidates, ci + 1) && GaveUpAll(s, t, begin, candidates, ci)
  }

  lemma WalkedTried(s: Settings, base: seq<Event>, t: seq<Event>, t': seq<Event>, begin: nat, candidates: seq<Model>,
                    ci: nat)
    requires Walked(s, base, t, begin, candidates, ci) && ci < |candidates| && Adds(candidates[ci], t, t')
    requires Distinct(candidates)
    requires Attempts(t') <= Attempts(t) + BudgetFor(RetryBudget(s), ci) + 1
    ensures HadTurn(s, base, t', begin, candidates, ci)
  {
    AllowanceStep(RetryBudget(s), ci);
    assert forall k | 0 <= k < ci :: Spared(candidates[k], t, t');
    GivenUpStays(s, t, t', begin, candidates, ci);
    hide GaveUpAll, Attempts;
    assert t[..begin] == t'[..begin];
    forall i | begin <= i < |t'| && t'[i].Attempt? ensures t'[i].model in candidates {
      if i < |t| { assert t'[i] == t[i]; }
    }
  }

  /** A candidate has not been tried before its turn. */
  lemma FirstTurn(s: Settings, t: seq<Event>, begin: nat, candidates: seq<Model>, ci: nat)
    requires begin <= |t| && ci < |candidates| && Distinct(candidates) && Within(s, t, begin, candidates, ci)
    ensures Turn(s, t[begin..], candidates[ci], 0) && AttemptsOn(t[begin..], candidates[ci]) == 0
  {
    forall e | e in t[begin..] && e.Attempt? ensures e.model != candidates[ci] {
      var i :| begin <= i < |t| && t[i] == e;
      assert Among(candidates, ci, t[i].model);
    }
    UntriedTurn(s, t[begin..], candidates[ci]);
  }

  lemma SpentMeans(t0: seq<Event>, t: seq<Event>, begin: nat, model: Model, budget: nat)
    requires begin <= |t0| && Adds(model, t0, t) && AttemptsOn(t0[begin..], model) == 0
    requires Spent(t, model, Attempts(t) - Attempts(t0), budget) && begin < |t|
    requires Attempts(t) <= Attempts(t0) + budget + 1
    ensures TriedOn(t, begin, model, budget)
  {
    AttemptsSlice(t0, begin);
    AttemptsSlice(t, begin);
    AddsCount(model, t0[begin..], t[begin..]);
    assert t[..begin] == t0[..begin];
    hide AttemptsOn, Attempts;
    assert LastOn(t[begin..], model, |t| - begin - 1);
  }

  lemma TurnEnds(s: Settings, base: seq<Event>, t: seq<Event>, begin: nat, primary: Model, candidates0: seq<Model>,
                 candidates: seq<Model>, extended: bool, ci: nat)
    requires HadTurn(s, base, t, begin, candidates, ci) && ci < |candidates|
    requires ListOk(s, primary, candidates0, candidates, extended)
    ensures begin <= |base| && base <= t && Within(s, t, begin, candidates, |candidates|)
    ensures Distinct(candidates) && candidates0 <= candidates && primary !in candidates[|candidates0|..]
    ensures s.maxFallbacks > 0 ==> |candidates| <= |candidates0| + s.maxFallbacks
  {
    AllowanceGrows(RetryBudget(s), ci + 1, |candidates|);
  }

  lemma TurnMore(s: Settings, base: seq<Event>, t: seq<Event>, t': seq<Event>, begin: nat, candidates: seq<Model>,
                 all: seq<Model>, ci: nat)
    requires HadTurn(s, base, t, begin, candidates, ci) && ci < |candidates| && candidates <= all && Quiet(t, t')
    ensures HadTurn(s, base, t', begin, all, ci)
    ensures forall budget | TriedOn(t, begin, candidates[ci], budget) :: TriedOn(t', begin, candidates[ci], budget)
  {
    QuietAttempts(t, t');
    QuietSpares(t, t');
    GivenUpStays(s, t, t', begin, candidates, ci);
    hide Attempts;
    assert t[..begin] == t'[..begin];
    forall i | begin <= i < |t'| && t'[i].Attempt? ensures t'[i].model in all { assert t'[i] == t[i]; }
    forall budget | TriedOn(t, begin, candidates[ci], budget) ensures TriedOn(t', begin, candidates[ci], budget) {
      TriedStays(t, t', begin, candidates[ci], budget);
    }
  }

  lemma TurnDone(s: Settings, base: seq<Event>, t: seq<Event>, t': seq<Event>, begin: nat, candidates: seq<Model>,
                 ci: nat)
    requires HadTurn(s, base, t, begin, candidates, ci) && ci < |candidates| && Quiet(t, t')
    requires TriedOn(t, begin, candidates[ci], BudgetFor(RetryBudget(s), ci))
    requires candidates[ci] != "" && s.unhealthyTtl > 0.0 ==> InQuarantine(t', begin, candidates[ci])
    ensures Walked(s, base, t', begin, candidates, ci + 1)
  {
    TurnMore(s, base, t, t', begin, candidates, candidates, ci);
    hide Within, TriedOn, InQuarantine;
  }

  /** The quarantine of the model has to be looked up with the clock. */
  predicate MustRead(unhealthy: map<Model, real>, model: Model) {
    model != "" && model in unhealthy && unhealthy[model] != 0.0
  }

  ghost predicate WasRead(a: seq<Event>, b: seq<Event>, at: real) { exists i :: |a| <= i < |b| && b[i] == Read(at) }

  lemma ReadBefore(a: seq<Event>, b: seq<Event>, c: seq<Event>, at: real)
    requires b <= c
    ensures b == a + [Read(at)] ==> WasRead(a, c, at)
  {
    if b == a + [Read(at)] { assert c[|a|] == Read(at); }
  }

  predicate StartsWith(t: seq<Event>, at: real) { t != [] && t[0] == Read(at) }

  /** The operator's list and then some list of the router, without repeats and without the primary. */
  ghost predicate AreFallbacks(s: Settings, names: seq<Model>, primary: Model) {
    exists router :: names == FallbacksOf(s, router, primary)
  }

  function FallbacksOf(s: Settings, router: seq<Model>, primary: Model): seq<Model> {
    if s.fallbackEnabled then Fallbacks(s.operatorFallbacks + router, primary) else []
  }

  lemma FallbackNames(s: Settings, names: seq<Model>, router: seq<Model>, primary: Model)
    requires names == FallbacksOf(s, router, primary)
    ensures AreFallbacks(s, names, primary)
  {
  }

  lemma HealthyLater(out: seq<Model>, names: seq<Model>, unhealthy: map<Model, real>, before: real, after: real,
                     later: real)
    requires Healthy(out, names, unhealthy, before, after) && after <= later
    ensures Healthy(out, names, unhealthy, before, later)
  {
    hide Subsequence;
  }

  lemma ExhaustiveSince(s: Settings, names: seq<Model>, unhealthy: map<Model, real>, at: real, began: real,
                        candidates: seq<Model>, initial: nat)
    requires Exhaustive(s, names, unhealthy, began, candidates, initial) && at <= began
    ensures Exhaustive(s, names, unhealthy, at, candidates, initial)
  {
  }

  lemma NoEvents(s: Settings)
    ensures TraceOk(s, 0.0, []) && Explains([], InvalidBounds, false)
    ensures Distinct([]) && Within(s, [], 0, [], 0)
  {
  }

  lemma QuietAcross(a: seq<Event>, b: seq<Event>, c: seq<Event>)
    requires Quiet(a, b) && Quiet(b, c)
    ensures a <= b <= c && Quiet(c[..|a|], c)
  {
    QuietTransitive(a, b, c);
    assert c[..|a|] == a;
  }

  lemma StartOfList(initial: seq<Model>, candidates: seq<Model>, primary: Model)
    requires initial != [] && initial <= candidates && primary !in candidates[|initial|..]
    ensures candidates != [] && candidates[0] == initial[0] && (primary !in initial ==> primary !in candidates)
  {
    assert candidates == initial + candidates[|initial|..];
  }

  lemma {:induction false} AttemptsSlice(t: seq<Event>, begin: nat)
    requires begin <= |t|
    ensures Attempts(t) == Attempts(t[..begin]) + Attempts(t[begin..])
    decreases |t|
  {
    if begin == |t| {
      assert t[..begin] == t;
    } else {
      var init := t[..|t| - 1];
      AttemptsSlice(init, begin);
      assert init[..begin] == t[..begin] && init[begin..] == t[begin..][..|t| - 1 - begin];
      assert t[begin..][|t| - 1 - begin] == t[|t| - 1];
    }
  }

  /** What was found about the trace since `base` is about the events of the call. */
  lemma WholeCall(s: Settings, base: seq<Event>, t1: seq<Event>, t2: seq<Event>, t: seq<Event>, events: seq<Event>,
                  first: real, at: real, candidates: seq<Model>, exhausted: bool)
    requires base <= t1 <= t2 <= t && events == t[|base|..] && Within(s, t, |base|, candidates, |candidates|)
    requires exhausted ==> GaveUpAll(s, t, |base|, candidates, |candidates|)
    ensures t == base + events && Within(s, events, 0, candidates, |candidates|)
    ensures exhausted ==> GaveUpAll(s, events, 0, candidates, |candidates|)
    ensures StartsWith(t1[|base|..], first) ==> events != [] && events[0] == Read(first)
    ensures WasRead(t1, t2, at) ==> Read(at) in events
  {
    WithinEvents(s, t, |base|, candidates);
    hide Within;
    if exhausted { GaveUpInEvents(s, t, |base|, candidates); }
    hide GaveUpAll;
    if WasRead(t1, t2, at) {
      var i :| |t1| <= i < |t2| && t2[i] == Read(at);
      assert t[i] == t2[i] && events[i - |base|] == t[i];
    }
  }

  lemma WithinEvents(s: Settings, t: seq<Event>, begin: nat, candidates: seq<Model>)
    requires begin <= |t| && Within(s, t, begin, candidates, |candidates|)
    ensures Within(s, t[begin..], 0, candidates, |candidates|)
  {
    AttemptsSlice(t, begin);
    assert t[begin..][..0] == [];
    assert Attempts([]) == 0;
    hide Attempts, Among, Allowance;
    forall i | 0 <= i < |t| - begin ensures t[begin..][i] == t[begin + i] { }
  }

  lemma GaveUpInEvents(s: Settings, t: seq<Event>, begin: nat, candidates: seq<Model>)
    requires begin <= |t| && GaveUpAll(s, t, begin, candidates, |candidates|)
    ensures GaveUpAll(s, t[begin..], 0, candidates, |candidates|)
  {
    hide GivenUp;
    forall k | 0 <= k < |candidates| ensures GivenUp(s, t[begin..], 0, candidates[k], k) {
      GivenUpInEvents(s, t, begin, t[begin..], candidates[k], k);
    }
  }

  lemma GivenUpInEvents(s: Settings, t: seq<Event>, begin: nat, events: seq<Event>, m: Model, k: nat)
    requires begin <= |t| && events == t[begin..] && GivenUp(s, t, begin, m, k)
    ensures GivenUp(s, events, 0, m, k)
  {
    assert events[0..] == events;
    if m != "" && s.unhealthyTtl > 0.0 {
      var j :| begin <= j < |t| && t[j].Quarantine? && t[j].model == m;
      assert events[j - begin] == t[j];
    }
  }

  lemma ListNotExtended(s: Settings, primary: Model, candidates0: seq<Model>, candidates: seq<Model>, extended: bool)
    requires ListOk(s, primary, candidates0, candidates, extended) && !extended
    ensures candidates == candidates0 && ListOk(s, primary, candidates0, candidates, false)
  {
  }

  lemma MarksMore(known: map<Model, real>, a: map<Model, real>, b: map<Model, real>, candidates: seq<Model>,
                  model: Model)
    requires MarksOnly(known, a, candidates) && model in candidates
    requires forall m | m in b && m != model :: m in a && b[m] == a[m]
    ensures MarksOnly(known, b, candidates)
  {
  }

  lemma NowExhaustive(s: Settings, names: seq<Model>, known: map<Model, real>, sick: map<Model, real>, began: real,
                      before: real, after: real, candidates: seq<Model>, more: seq<Model>, healthy: seq<Model>)
    requires MarksOnly(known, sick, candidates) && began <= before && Healthy(healthy, names, sick, before, after)
    requires forall m | m in healthy ::
               m in candidates + more || (s.maxFallbacks > 0 && |more| == s.maxFallbacks)
    ensures Exhaustive(s, names, known, began, candidates + more, |candidates|)
  {
    forall m | m in names && !Quarantined(known, m, began)
      ensures m in candidates + more || (s.maxFallbacks > 0 && |candidates + more| == |candidates| + s.maxFallbacks)
    {
      if m !in candidates { assert !Quarantined(sick, m, before) && m in healthy; }
    }
  }

  lemma WalkEnds(s: Settings, base: seq<Event>, t: seq<Event>, begin: nat, primary: Model, candidates0: seq<Model>,
                 candidates: seq<Model>, extended: bool, ci: nat)
    requires Walked(s, base, t, begin, candidates, ci) && ci <= |candidates|
    requires ListOk(s, primary, candidates0, candidates, extended)
    ensures begin <= |base| && base <= t && Within(s, t, begin, candidates, |candidates|)
    ensures Distinct(candidates) && candidates0 <= candidates && primary !in candidates[|candidates0|..]
    ensures s.maxFallbacks > 0 ==> |candidates| <= |candidates0| + s.maxFallbacks
  {
    AllowanceGrows(RetryBudget(s), ci, |candidates|);
  }

  lemma AllowanceGrows(retries: nat, a: nat, b: nat)
    ensures a <= b ==> Allowance(retries, a) <= Allowance(retries, b)
  {
    if 0 < a <= b { assert (a - 1) * (Min(retries, 1) + 1) <= (b - 1) * (Min(retries, 1) + 1); }
  }

  lemma {:induction false} OnlyReadsQuiet(a: seq<Event>, clock: real, b: seq<Event>, clock': real)
    requires OnlyReads(a, clock, b, clock')
    ensures Quiet(a, b)
    decreases |b|
  {
    if !(b == a && clock <= clock') {
      OnlyReadsQuiet(a, clock, b[..|b| - 1], b[|b| - 1].at);
      assert b == b[..|b| - 1] + [b[|b| - 1]];
      QuietSnoc(a, b[..|b| - 1], b[|b| - 1]);
    }
  }

  ghost predicate Picked(candidates: seq<Model>, found: seq<Model>, more: seq<Model>) {
    && Distinct(candidates + more) && Subsequence(more, found)
    && (forall m | m in more :: m in found) && forall m | m in found :: m in candidates || m in more
  }

  lemma PickedMeans(candidates: seq<Model>, found: seq<Model>, more: seq<Model>)
    requires Picked(candidates, found, more)
    ensures Distinct(candidates + more) && Subsequence(more, found) && forall m | m in found :: m in candidates + more
  {
    hide Distinct, Subsequence;
  }

  lemma PickedNone(candidates: seq<Model>, found: seq<Model>)
    requires Distinct(candidates)
    ensures Picked(candidates, found[..0], [])
  {
    assert found[..0] == [] && candidates + [] == candidates;
  }

  lemma PickedNext(candidates: seq<Model>, found: seq<Model>, i: nat, more: seq<Model>)
    requires i < |found| && Distinct(found) && Picked(candidates, found[..i], more)
    ensures Picked(candidates, found[..i + 1], if found[i] in candidates then more else more + [found[i]])
  {
    var m := found[i];
    assert found[..i + 1] == found[..i] + [m] && m !in found[..i];
    hide Picked, Distinct;
    if m in candidates {
      PickedSkips(candidates, found[..i], m, more);
    } else {
      PickedTakes(candidates, found[..i], m, more);
    }
  }

  lemma PickedSkips(candidates: seq<Model>, seen: seq<Model>, m: Model, more: seq<Model>)
    requires Picked(candidates, seen, more) && m in candidates
    ensures Picked(candidates, seen + [m], more)
  {
    hide Subsequence, Distinct;
    SubsequenceNext(more, seen, m);
  }

  lemma PickedTakes(candidates: seq<Model>, seen: seq<Model>, m: Model, more: seq<Model>)
    requires Picked(candidates, seen, more) && m !in candidates && m !in seen
    ensures Picked(candidates, seen + [m], more + [m])
  {
    hide Subsequence, Distinct;
    SubsequenceNext(more, seen, m);
    DistinctSnoc(candidates + more, m);
    assert candidates + (more + [m]) == candidates + more + [m];
  }

  /** Cutting the new models to `k` keeps them distinct and in order. */
  lemma PickedPrefix(candidates: seq<Model>, found: seq<Model>, more: seq<Model>, k: nat)
    requires Distinct(candidates + more) && Subsequence(more, found) && k <= |more|
    ensures Distinct(candidates + more[..k]) && Subsequence(more[..k], found)
    ensures forall m | m in more[..k] :: m in more
  {
    SubsequencePrefix(more, found, k);
    DistinctPrefix(candidates + more, |candidates| + k);
    assert candidates + more[..k] == (candidates + more)[..|candidates| + k];
  }

  lemma {:induction false} SubsequenceIn(a: seq<Model>, b: seq<Model>)
    requires Subsequence(a, b)
    ensures forall m | m in a :: m in b
    decreases |b|
  {
    if a != [] {
      assert a == a[..|a| - 1] + [a[|a| - 1]] && b == b[..|b| - 1] + [b[|b| - 1]];
      if a[|a| - 1] == b[|b| - 1] && Subsequence(a[..|a| - 1], b[..|b| - 1]) {
        SubsequenceIn(a[..|a| - 1], b[..|b| - 1]);
      } else {
        SubsequenceIn(a, b[..|b| - 1]);
      }
    }
  }

  lemma DistinctOne(m: Model)
    ensures Distinct([m])
  {
  }

  lemma ForgetsMore(a: map<Model, real>, b: map<Model, real>, c: map<Model, real>)
    ensures Forgets(a, b) && Forgets(b, c) ==> Forgets(a, c)
  {
  }

  /** The primary is not among the healthy fallbacks. */
  lemma HealthyOthers(out: seq<Model>, names: seq<Model>, s: Settings, router: seq<Model>, primary: Model,
                      unhealthy: map<Model, real>, before: real, after: real)
    requires Healthy(out, names, unhealthy, before, after) && names == FallbacksOf(s, router, primary)
    ensures primary !in out
  {
    SubsequenceIn(out, names);
  }

  lemma DistinctSnoc(ms: seq<Model>, m: Model)
    requires Distinct(ms) && m !in ms
    ensures Distinct(ms + [m])
  {
  }

  lemma DistinctPrefix(ms: seq<Model>, k: nat)
    requires Distinct(ms) && k <= |ms|
    ensures Distinct(ms[..k])
  {
  }

  lemma NegativeStops(s: Settings, deadline: real, before: Event, pending: real, delay: real)
    requires delay < 0.0 && pending >= 0.0 && Due(s, pending, delay)
    ensures Reason(s, deadline, before, pending, delay)
  {
  }

  lemma QuietMeans(a: seq<Event>, b: seq<Event>)
    requires Quiet(a, b)
    ensures a <= b
  {
  }

  lemma QuietRefl(t: seq<Event>)
    ensures Quiet(t, t)
  {
  }

  lemma OnlyReadsRefl(t: seq<Event>, clock: real)
    ensures OnlyReads(t, clock, t, clock)
  {
  }

  /** Quarantines may be forgotten, but none that lasts. */
  ghost predicate Remembers(a: map<Model, real>, b: map<Model, real>, at: real) {
    Forgets(a, b) && forall m | Quarantined(a, m, at) :: m in b
  }

  lemma RemembersMeans(a: map<Model, real>, b: map<Model, real>, at: real)
    requires Remembers(a, b, at)
    ensures Forgets(a, b)
  {
  }

  lemma RemembersMore(a: map<Model, real>, b: map<Model, real>, c: map<Model, real>, at: real, later: real)
    requires Remembers(a, b, at) && at <= later && Forgets(b, c) && forall m | Quarantined(b, m, later) :: m in c
    ensures Remembers(a, c, later)
  {
  }

  lemma SelectNone(unhealthy: map<Model, real>, at: real)
    ensures Remembers(unhealthy, unhealthy, at) && Distinct([]) && Healthy([], [], unhealthy, at, at)
  {
  }

  lemma NextName(all: seq<Model>, i: nat)
    requires i < |all| && Distinct(all)
    ensures all[..i + 1] == all[..i] + [all[i]] && all[i] !in all[..i]
  {
  }

  lemma HealthyNext(out: seq<Model>, names: seq<Model>, m: Model, unhealthy: map<Model, real>, known: map<Model, real>,
                    before: real, between: real, after: real, sick: bool)
    requires Healthy(out, names, unhealthy, before, between) && m !in names && before <= between <= after
    requires Remembers(unhealthy, known, between)
    requires (sick <==> Quarantined(known, m, after)) && forall x | x in out :: x in names
    ensures Healthy(if sick then out else out + [m], names + [m], unhealthy, before, after)
  {
    SubsequenceNext(out, names, m);
    hide Subsequence;
    var next := if sick then out else out + [m];
    assert Quarantined(known, m, after) ==> Quarantined(unhealthy, m, after);
    forall x | x in names + [m]
      ensures !Quarantined(unhealthy, x, before) ==> x in next
      ensures Quarantined(unhealthy, x, after) ==> x !in next
    {
      if Quarantined(unhealthy, x, after) { assert x in known && Quarantined(unhealthy, x, between); }
    }
  }
}
