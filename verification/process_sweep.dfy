/** `_kill_posix_cli_tree`: freeze each process before listing its children, while unfrozen processes go on forking
    and exiting between any two steps. */
module ProcessSweep {
  /** A process identity (pid and creation time), which is never used twice. */
  type Id = nat

  datatype Proc = Proc(parent: Id, suspended: bool)

  datatype Phase =
    | Popping                 // about to take the next pending process
    | Suspending(p: Id)       // recorded as seen, about to be suspended
    | Listing(p: Id)          // suspended and owned, about to have its children listed
    | Killing(left: nat)      // the loop has ended; `owned[..left]` are still to be killed

  /** `used` are all identities so far, `scanned` those whose children were listed. */
  datatype State = State(
    root: Id, alive: map<Id, Proc>, used: set<Id>,
    phase: Phase, pending: seq<Id>, seen: set<Id>, owned: seq<Id>, scanned: set<Id>, aborted: bool)

  datatype Step =
    | Fork(p: Id, c: Id)
    | Exit(p: Id, heir: Id)
    | Pop
    | Suspend(denied: bool)
    | ListChildren(order: seq<Id>)
    | Kill(heir: Id)

  predicate IsChild(s: State, p: Id, c: Id) { c in s.alive && s.alive[c].parent == p }

  /** `p` is gone and its children belong to `heir`. */
  function Without(alive: map<Id, Proc>, p: Id, heir: Id): map<Id, Proc> {
    map x | x in alive && x != p :: if alive[x].parent == p then alive[x].(parent := heir) else alive[x]
  }

  predicate Enabled(s: State, step: Step) {
    match step
    case Fork(p, c) => p in s.alive && !s.alive[p].suspended && c !in s.used
    case Exit(p, heir) => p in s.alive && heir != p
    case Pop => s.phase == Popping
    case Suspend(_) => s.phase.Suspending?
    case ListChildren(order) =>
      && s.phase.Listing?
      && (forall c | c in order :: IsChild(s, s.phase.p, c))
      && forall c | c in s.alive && IsChild(s, s.phase.p, c) :: c in order
    case Kill(heir) => s.phase.Killing? && 0 < s.phase.left <= |s.owned| && heir != s.owned[s.phase.left - 1]
  }

  function Apply(s: State, step: Step): State
    requires Enabled(s, step)
  {
    match step
    case Fork(p, c) => s.(alive := s.alive[c := Proc(p, false)], used := s.used + {c})
    case Exit(p, heir) => s.(alive := Without(s.alive, p, heir))
    case Pop =>
      if s.pending == [] then s.(phase := Killing(|s.owned|))
      else
        var p, rest := s.pending[|s.pending| - 1], s.pending[..|s.pending| - 1];
        if p !in s.alive || p in s.seen then s.(pending := rest)
        else s.(pending := rest, seen := s.seen + {p}, phase := Suspending(p))
    case Suspend(denied) =>
      var p := s.phase.p;
      if p !in s.alive then s.(phase := Popping)
      else if denied then s.(phase := Killing(|s.owned|), aborted := true)
      else s.(alive := s.alive[p := s.alive[p].(suspended := true)], owned := s.owned + [p], phase := Listing(p))
    case ListChildren(order) =>
      if s.phase.p !in s.alive then s.(phase := Popping)
      else s.(pending := s.pending + order, scanned := s.scanned + {s.phase.p}, phase := Popping)
    case Kill(heir) =>
      var p := s.owned[s.phase.left - 1];
      s.(phase := Killing(s.phase.left - 1), alive := Without(s.alive, p, heir))
  }

  // ---- reaching the root ---------------------------------------------------------------------------------

  /** `chain` leads from the root to its last process through live parents. */
  ghost predicate IsChain(s: State, chain: seq<Id>) {
    && chain != [] && chain[0] == s.root
    && (forall x | x in chain :: x in s.alive)
    && forall k | 0 < k < |chain| :: s.alive[chain[k]].parent == chain[k - 1]
  }

  ghost predicate Descends(s: State, p: Id) {
    exists chain :: IsChain(s, chain) && chain[|chain| - 1] == p
  }

  // ---- the invariant -------------------------------------------------------------------------------------

  predicate InHand(s: State, p: Id) {
    p in s.pending || ((s.phase.Suspending? || s.phase.Listing?) && s.phase.p == p)
  }

  /** The loop has not missed `p`: its children were listed, or it is still to be handled. */
  predicate Covered(s: State, p: Id) { p in s.scanned || (!s.phase.Killing? && InHand(s, p)) }

  /** The process that a step takes away. */
  function Taken(s: State, step: Step): Id
    requires Enabled(s, step) && (step.Exit? || step.Kill?)
  {
    if step.Exit? then step.p else s.owned[s.phase.left - 1]
  }

  /** When a process whose children were already listed adopts orphans, the loop has not missed any of them. */
  predicate OrphansCovered(s: State, step: Step)
    requires Enabled(s, step)
  {
    !s.aborted && (step.Exit? || step.Kill?) && step.heir in s.scanned ==>
      forall c | c in s.alive && c != Taken(s, step) && s.alive[c].parent == Taken(s, step) :: Covered(s, c)
  }

  ghost predicate Inv(s: State) {
    && (forall x | x in s.alive || x in s.seen || x in s.scanned || x in s.pending || x in s.owned :: x in s.used)
    && s.root in s.used
    && (forall q | q in s.scanned :: q in s.owned && (q in s.alive ==> s.alive[q].suspended))
    && (s.phase.Suspending? || s.phase.Listing? ==> s.phase.p in s.seen)
    && (s.phase.Listing? ==> s.phase.p in s.owned && (s.phase.p in s.alive ==> s.alive[s.phase.p].suspended))
    && (forall x | x in s.seen && x in s.alive && !s.aborted ::
          x in s.scanned || ((s.phase.Suspending? || s.phase.Listing?) && s.phase.p == x))
    && (!s.aborted && s.root in s.alive ==> Covered(s, s.root))
    && (!s.aborted ==> forall c | c in s.alive && s.alive[c].parent in s.scanned :: Covered(s, c))
    && (s.phase.Killing? ==>
          s.phase.left <= |s.owned| && forall k | s.phase.left <= k < |s.owned| :: s.owned[k] !in s.alive)
  }

  /** Only the root is pending and nothing is frozen. */
  ghost predicate Init(s: State) {
    && s.phase == Popping && s.pending == [s.root] && s.seen == {} && s.owned == [] && s.scanned == {} && !s.aborted
    && s.root in s.used && forall x | x in s.alive :: x in s.used
  }

  lemma ForkInv(s: State, step: Step)
    requires Inv(s) && Enabled(s, step) && step.Fork?
    ensures Inv(Apply(s, step))
  {
  }

  lemma SweeperInv(s: State, step: Step)
    requires Inv(s) && Enabled(s, step) && !step.Fork? && !step.Exit? && !step.Kill?
    ensures Inv(Apply(s, step))
  {
  }

  lemma TakingKeeps(s: State, step: Step)
    requires Inv(s) && Enabled(s, step) && (step.Exit? || step.Kill?) && OrphansCovered(s, step)
    ensures Inv(Apply(s, step))
  {
  }

  lemma TakingNeeds(s: State, step: Step)
    requires Enabled(s, step) && (step.Exit? || step.Kill?) && Inv(Apply(s, step))
    ensures OrphansCovered(s, step)
  {
    var s' := Apply(s, step);
    forall c | && c in s.alive && c != Taken(s, step) && s.alive[c].parent == Taken(s, step)
               && step.heir in s.scanned && !s.aborted
      ensures Covered(s, c)
    {
      assert c in s'.alive && s'.alive[c].parent == step.heir;
      assert Covered(s', c);
    }
  }

  /** A step keeps the invariant exactly when it lets no orphan slip to a process whose children were already listed. */
  lemma StepInv(s: State, step: Step)
    requires Inv(s) && Enabled(s, step)
    ensures Inv(Apply(s, step)) <==> OrphansCovered(s, step)
  {
    hide Inv, Apply, Covered;
    if step.Exit? || step.Kill? {
      if OrphansCovered(s, step) { TakingKeeps(s, step); }
      if Inv(Apply(s, step)) { TakingNeeds(s, step); }
    } else if step.Fork? {
      ForkInv(s, step);
    } else {
      SweeperInv(s, step);
    }
  }

  // ---- whole runs ----------------------------------------------------------------------------------------

  /** A run; in a `strict` one a process that was listed adopts no orphan that the loop has missed. */
  predicate Runs(strict: bool, s: State, steps: seq<Step>)
    decreases |steps|
  {
    steps == [] ||
    (Enabled(s, steps[0]) && (strict ==> OrphansCovered(s, steps[0])) && Runs(strict, Apply(s, steps[0]), steps[1..]))
  }

  function After(s: State, steps: seq<Step>): State
    requires Runs(false, s, steps)
    decreases |steps|
  {
    if steps == [] then s else After(Apply(s, steps[0]), steps[1..])
  }

  lemma {:induction false} StrictRuns(s: State, steps: seq<Step>)
    requires Runs(true, s, steps)
    ensures Runs(false, s, steps)
    decreases |steps|
  {
    if steps != [] { StrictRuns(Apply(s, steps[0]), steps[1..]); }
  }

  lemma {:induction false} RunInv(s: State, steps: seq<Step>)
    requires Inv(s) && Runs(true, s, steps)
    ensures Runs(false, s, steps) && Inv(After(s, steps))
    decreases |steps|
  {
    if steps != [] {
      StepInv(s, steps[0]);
      RunInv(Apply(s, steps[0]), steps[1..]);
    }
  }

  /** The loop over `pending` has ended by itself. */
  predicate LoopEnded(s: State) { s.phase.Killing? && !s.aborted }

  lemma {:induction false} ChainIsScanned(s: State, chain: seq<Id>, k: nat)
    requires Inv(s) && LoopEnded(s) && IsChain(s, chain) && k < |chain|
    ensures chain[k] in s.scanned
  {
    if k > 0 {
      ChainIsScanned(s, chain, k - 1);
      assert s.alive[chain[k]].parent in s.scanned;
    }
  }

  /** Once the loop has ended, every live process whose parent chain reaches the root is suspended and owned. */
  lemma SweepComplete(s0: State, steps: seq<Step>, p: Id)
    requires Init(s0) && Runs(true, s0, steps)
    ensures Runs(false, s0, steps)
    ensures var s := After(s0, steps);
            LoopEnded(s) && Descends(s, p) ==> p in s.alive && s.alive[p].suspended && p in s.owned
  {
    RunInv(s0, steps);
    var s := After(s0, steps);
    if LoopEnded(s) && Descends(s, p) {
      var chain :| IsChain(s, chain) && chain[|chain| - 1] == p;
      ChainIsScanned(s, chain, |chain| - 1);
      assert p in chain;
    }
  }

  /** When the last owned process has been killed, nothing reaches the root, and no survivor even has a parent
      among the processes the sweep had listed. */
  lemma KillLeavesNoDescendant(s0: State, steps: seq<Step>)
    requires Init(s0) && Runs(true, s0, steps)
    ensures Runs(false, s0, steps)
    ensures var s := After(s0, steps);
            LoopEnded(s) && s.phase.left == 0 ==>
              && (forall p :: !Descends(s, p))
              && (forall p | p in s.alive :: p !in s.scanned && s.alive[p].parent !in s.scanned)
  {
    RunInv(s0, steps);
    var s := After(s0, steps);
    if LoopEnded(s) && s.phase.left == 0 {
      forall q | q in s.scanned
        ensures q !in s.alive
      {
        var k :| 0 <= k < |s.owned| && s.owned[k] == q;
      }
      assert s.root !in s.alive;
      forall chain
        ensures !IsChain(s, chain)
      {
        if chain != [] && chain[0] == s.root { assert s.root in chain; }
      }
    }
  }

  /** Processes that reached the root when the loop ended are dead after the kills, whatever happens in between. */
  lemma DoomedDie(s0: State, before: seq<Step>, s1: State, after: seq<Step>, p: Id)
    requires Init(s0) && Runs(true, s0, before) && Runs(false, s0, before) && s1 == After(s0, before)
    requires LoopEnded(s1) && Descends(s1, p) && Runs(true, s1, after)
    ensures Runs(false, s1, after)
    ensures LoopEnded(After(s1, after)) && After(s1, after).phase.left == 0 ==> p !in After(s1, after).alive
  {
    RunInv(s0, before);
    RunInv(s1, after);
    SweepComplete(s0, before, p);
    OwnedStays(s1, after, p);
    var s := After(s1, after);
    if LoopEnded(s) && s.phase.left == 0 {
      var k :| 0 <= k < |s.owned| && s.owned[k] == p;
    }
  }

  lemma {:induction false} OwnedStays(s: State, steps: seq<Step>, p: Id)
    requires Runs(false, s, steps) && p in s.owned
    ensures p in After(s, steps).owned
    decreases |steps|
  {
    if steps != [] {
      OwnedStays(Apply(s, steps[0]), steps[1..], p);
    }
  }

  // ---- what the sweep leaves alone -----------------------------------------------------------------------

  /** The states of a run. */
  function States(s: State, steps: seq<Step>): seq<State>
    requires Runs(false, s, steps)
    decreases |steps|
  {
    [s] + if steps == [] then [] else States(Apply(s, steps[0]), steps[1..])
  }

  /** In some of the states, `x` was a child of a process that was owned then. */
  ghost predicate WasOwnedChild(states: seq<State>, x: Id) {
    exists k, q :: 0 <= k < |states| && q in states[k].owned && IsChild(states[k], q, x)
  }

  /** What is owned or in hand is the root, or was the child of an owned process. */
  ghost predicate Traced(states: seq<State>, s: State) {
    && (s.phase.Listing? ==> s.phase.p in s.owned)
    && forall x | x in s.owned || InHand(s, x) :: x == s.root || WasOwnedChild(states, x)
  }

  lemma TracedStep(states: seq<State>, s: State, step: Step)
    requires states != [] && states[|states| - 1] == s && Enabled(s, step) && Traced(states, s)
    ensures Traced(states + [Apply(s, step)], Apply(s, step))
  {
    var s', more := Apply(s, step), states + [Apply(s, step)];
    forall x | x in s'.owned || InHand(s', x) ensures x == s'.root || WasOwnedChild(more, x) {
      if x in s.owned || InHand(s, x) {
        if WasOwnedChild(states, x) { OwnedChildStays(states, Apply(s, step), x); }
      } else {
        assert step.ListChildren? && s.phase.p in s.owned && IsChild(s, s.phase.p, x);
        assert more[|states| - 1] == s;
      }
    }
  }

  lemma OwnedChildStays(states: seq<State>, s: State, x: Id)
    requires WasOwnedChild(states, x)
    ensures WasOwnedChild(states + [s], x)
  {
    var k, q :| 0 <= k < |states| && q in states[k].owned && IsChild(states[k], q, x);
    assert (states + [s])[k] == states[k];
  }

  lemma {:induction false} TracedRun(past: seq<State>, s: State, steps: seq<Step>)
    requires Runs(false, s, steps) && Traced(past + [s], s)
    ensures Traced(past + States(s, steps), After(s, steps))
    decreases |steps|
  {
    if steps != [] {
      var next := Apply(s, steps[0]);
      TracedStep(past + [s], s, steps[0]);
      TracedRun(past + [s], next, steps[1..]);
      assert past + States(s, steps) == past + [s] + States(next, steps[1..]);
    } else {
      assert past + States(s, steps) == past + [s];
    }
  }

  /** Everything the sweep owns is the root, or was in some state of the run a child of a process it owned by then. */
  lemma OwnedFromTheRoot(s0: State, steps: seq<Step>, x: Id)
    requires Init(s0) && Runs(false, s0, steps) && x in After(s0, steps).owned
    ensures x == s0.root || WasOwnedChild(States(s0, steps), x)
  {
    TracedRun([], s0, steps);
    assert [] + States(s0, steps) == States(s0, steps) && [] + [s0] == [s0];
    RootStays(s0, steps);
  }

  lemma {:induction false} RootStays(s: State, steps: seq<Step>)
    requires Runs(false, s, steps)
    ensures After(s, steps).root == s.root
    decreases |steps|
  {
    if steps != [] { RootStays(Apply(s, steps[0]), steps[1..]); }
  }

  /** The family has the root and, in each state of the run, the children of its members. */
  ghost predicate Family(kin: set<Id>, root: Id, states: seq<State>) {
    root in kin && forall k, q, x | 0 <= k < |states| && q in kin && IsChild(states[k], q, x) :: x in kin
  }

  /** Nothing outside the family is in hand or owned; it is suspended only if it was so before, and gone only by its own
      exit. */
  ghost predicate Untouched(s0: State, steps: seq<Step>, s: State, x: Id) {
    && !InHand(s, x) && x !in s.owned
    && (x in s.alive && s.alive[x].suspended ==> x in s0.alive && s0.alive[x].suspended)
    && (x in s0.alive && x !in s.alive ==> exists heir :: Exit(x, heir) in steps)
  }

  lemma SparedStep(kin: set<Id>, s: State, step: Step, x: Id)
    requires Enabled(s, step) && s.root in kin && x !in kin && (forall y | InHand(s, y) || y in s.owned :: y in kin)
    requires forall q, y | q in kin && IsChild(s, q, y) :: y in kin
    requires s.phase.Listing? ==> s.phase.p in s.owned
    ensures forall y | InHand(Apply(s, step), y) || y in Apply(s, step).owned :: y in kin
    ensures Apply(s, step).phase.Listing? ==> Apply(s, step).phase.p in Apply(s, step).owned
    ensures Untouched(s, [step], Apply(s, step), x)
  {
    var s' := Apply(s, step);
    forall y | InHand(s', y) || y in s'.owned ensures y in kin {
      if !InHand(s, y) && y !in s.owned { assert step.ListChildren? && IsChild(s, s.phase.p, y); }
    }
    if x in s.alive && x !in s'.alive {
      assert step.Kill? ==> x in s.owned;
      assert step == Exit(x, step.heir);
    }
  }

  lemma UntouchedThen(s: State, step: Step, next: State, rest: seq<Step>, last: State, x: Id)
    requires Untouched(s, [step], next, x) && Untouched(next, rest, last, x)
    ensures Untouched(s, [step] + rest, last, x)
  {
    hide InHand;
    if x in s.alive && x !in last.alive {
      if x in next.alive {
        var heir :| Exit(x, heir) in rest;
        assert Exit(x, heir) in [step] + rest;
      } else {
        var heir :| Exit(x, heir) in [step];
        assert Exit(x, heir) in [step] + rest;
      }
    }
  }

  lemma FamilyLater(kin: set<Id>, s: State, step: Step, rest: seq<Step>)
    requires Runs(false, s, [step] + rest) && Enabled(s, step) && Runs(false, Apply(s, step), rest)
    requires Family(kin, s.root, States(s, [step] + rest))
    ensures Family(kin, s.root, States(Apply(s, step), rest))
    ensures s.root in kin && forall q, y | q in kin && IsChild(s, q, y) :: y in kin
  {
    var all, later := States(s, [step] + rest), States(Apply(s, step), rest);
    assert ([step] + rest)[1..] == rest && all == [s] + later;
    hide States, Apply;
    assert all[0] == s;
    assert forall k | 0 <= k < |later| :: later[k] == all[k + 1];
  }

  lemma {:induction false} SparedRun(kin: set<Id>, s: State, steps: seq<Step>, x: Id)
    requires Runs(false, s, steps) && Family(kin, s.root, States(s, steps)) && x !in kin
    requires (forall y | InHand(s, y) || y in s.owned :: y in kin) && (s.phase.Listing? ==> s.phase.p in s.owned)
    ensures Untouched(s, steps, After(s, steps), x)
    decreases |steps|
  {
    if steps != [] {
      var next, rest := Apply(s, steps[0]), steps[1..];
      assert steps == [steps[0]] + rest;
      assert next.root == s.root;
      hide Apply, InHand, Untouched, Enabled;
      FamilyLater(kin, s, steps[0], rest);
      hide Family, States;
      SparedStep(kin, s, steps[0], x);
      SparedRun(kin, next, rest, x);
      UntouchedThen(s, steps[0], next, rest, After(s, steps), x);
    }
  }

  /** A process outside the family of the root is never owned, suspended or killed by the sweep. */
  lemma StrangersSpared(s0: State, steps: seq<Step>, kin: set<Id>, x: Id)
    requires Init(s0) && Runs(false, s0, steps) && Family(kin, s0.root, States(s0, steps)) && x !in kin
    ensures Untouched(s0, steps, After(s0, steps), x)
  {
    SparedRun(kin, s0, steps, x);
  }

  /** A process dies only by its own exit or because the sweep owned it. */
  lemma {:induction false} DeathHasACause(s: State, steps: seq<Step>, x: Id)
    requires Runs(false, s, steps) && x in s.alive && x !in After(s, steps).alive
    ensures x in After(s, steps).owned || exists heir :: Exit(x, heir) in steps
    decreases |steps|
  {
    var next, rest := Apply(s, steps[0]), steps[1..];
    assert steps == [steps[0]] + rest;
    if x in next.alive {
      DeathHasACause(next, rest, x);
      if heir :| Exit(x, heir) in rest { assert Exit(x, heir) in steps; }
    } else if steps[0].Exit? {
      assert Exit(x, steps[0].heir) in steps;
    } else {
      assert x in s.owned;
      OwnedStays(s, steps, x);
    }
  }

  // ---- the sweep gets done -------------------------------------------------------------------------------

  predicate IsSweeping(step: Step) { !step.Fork? && !step.Exit? }

  /** What the kills are about, orphans or not: identities are not used twice, and what was killed is dead. */
  ghost predicate KillsOk(s: State) {
    && (forall x | x in s.alive || x in s.owned :: x in s.used)
    && (s.phase.Killing? ==>
          s.phase.left <= |s.owned| && forall k | s.phase.left <= k < |s.owned| :: s.owned[k] !in s.alive)
  }

  lemma KillsStep(s: State, step: Step)
    requires KillsOk(s) && Enabled(s, step)
    ensures KillsOk(Apply(s, step))
  {
  }

  lemma {:induction false} KillsRun(s: State, steps: seq<Step>)
    requires KillsOk(s) && Runs(false, s, steps)
    ensures KillsOk(After(s, steps))
    decreases |steps|
  {
    if steps != [] {
      KillsStep(s, steps[0]);
      hide Apply, Enabled;
      KillsRun(Apply(s, steps[0]), steps[1..]);
    }
  }

  /** When the kills are over everything the sweep owned is dead, even when it was cut short or an orphan escaped. */
  lemma OwnedAreKilled(s0: State, steps: seq<Step>)
    requires Init(s0) && Runs(false, s0, steps) && After(s0, steps).phase == Killing(0)
    ensures forall x | x in After(s0, steps).owned :: x !in After(s0, steps).alive
  {
    KillsRun(s0, steps);
  }

  lemma SomeOrder(ids: set<Id>) returns (order: seq<Id>)
    ensures forall x :: x in order <==> x in ids
  {
    order := [];
    if ids != {} {
      var x :| x in ids;
      var rest := SomeOrder(ids - {x});
      order := [x] + rest;
    }
  }

  /** Until the last kill the sweep has a step to take. */
  lemma SweepGoesOn(s0: State, steps: seq<Step>) returns (step: Step)
    requires Init(s0) && Runs(false, s0, steps)
    ensures var s := After(s0, steps); s.phase != Killing(0) ==> IsSweeping(step) && Enabled(s, step)
  {
    KillsRun(s0, steps);
    hide KillsOk;
    var s := After(s0, steps);
    step := Pop;
    match s.phase {
      case Popping =>
      case Suspending(_) => step := Suspend(false);
      case Listing(p) =>
        var order := SomeOrder(set c | c in s.alive && s.alive[c].parent == p);
        step := ListChildren(order);
      case Killing(left) =>
        if left > 0 {
          LeftIsOwned(s);
          step := Kill(s.owned[left - 1] + 1);
        }
    }
  }

  lemma LeftIsOwned(s: State)
    requires KillsOk(s) && s.phase.Killing?
    ensures s.phase.left <= |s.owned|
  {
  }

  /** How far the sweep is from its end: live processes not seen yet, the phase, what is pending, and the kills left. */
  ghost function Distance(s: State): (nat, nat, nat, nat) {
    var rank := match s.phase case Suspending(_) => 3 case Listing(_) => 2 case Popping => 1 case Killing(_) => 0;
    (|s.alive.Keys - s.seen|, rank, |s.pending|, if s.phase.Killing? then s.phase.left else 0)
  }

  ghost predicate Nearer(a: (nat, nat, nat, nat), b: (nat, nat, nat, nat)) {
    || a.0 < b.0
    || (a.0 == b.0 && (a.1 < b.1 || (a.1 == b.1 && (a.2 < b.2 || (a.2 == b.2 && a.3 < b.3)))))
  }

  lemma Smaller(a: set<Id>, b: set<Id>)
    requires a <= b
    ensures |a| <= |b| && (a != b ==> |a| < |b|)
  {
    assert b == a + (b - a);
    if a != b { var x :| x in b - a; assert |b - a| > 0; }
  }

  lemma FewerUnseen(s: State, step: Step)
    requires Enabled(s, step) && !step.Fork?
    ensures Distance(Apply(s, step)).0 <= Distance(s).0
    ensures step == Pop && Apply(s, step).phase.Suspending? ==> Distance(Apply(s, step)).0 < Distance(s).0
  {
    var s' := Apply(s, step);
    var a, b := s'.alive.Keys - s'.seen, s.alive.Keys - s.seen;
    assert a <= b;
    if step == Pop && s'.phase.Suspending? { assert s'.phase.p in b && s'.phase.p !in a; }
    Smaller(a, b);
  }

  lemma SweepDown(s: State, step: Step)
    requires Enabled(s, step) && IsSweeping(step) && Distance(Apply(s, step)).0 <= Distance(s).0
    requires step == Pop && Apply(s, step).phase.Suspending? ==> Distance(Apply(s, step)).0 < Distance(s).0
    ensures Nearer(Distance(Apply(s, step)), Distance(s))
  {
    var s' := Apply(s, step);
    var d, d' := Distance(s), Distance(s');
    match step {
      case Pop => assert s'.phase.Suspending? || d'.1 < d.1 || (d'.1 == d.1 && d'.2 < d.2);
      case Suspend(_) => assert d'.1 < d.1;
      case ListChildren(_) => assert d'.1 < d.1;
      case Kill(_) => assert d'.1 == d.1 && d'.2 == d.2 && d'.3 < d.3;
    }
  }

  /** Every step of the sweep brings it nearer to its end, and only a fork can set it back: it takes finitely many steps
      between two forks. */
  lemma SweepStepsDown(s: State, step: Step)
    requires Enabled(s, step)
    ensures IsSweeping(step) ==> Nearer(Distance(Apply(s, step)), Distance(s))
    ensures step.Exit? ==> Nearer(Distance(Apply(s, step)), Distance(s)) || Distance(Apply(s, step)) == Distance(s)
  {
    if !step.Fork? { FewerUnseen(s, step); }
    if IsSweeping(step) {
      hide *;
      SweepDown(s, step);
    }
  }

  // ---- owning only descendants ---------------------------------------------------------------------------

  /** No process exits by itself while the loop owns it. */
  predicate OwnersStay(s: State, steps: seq<Step>)
    requires Runs(false, s, steps)
    decreases |steps|
  {
    steps == [] ||
    (&& (steps[0].Exit? && !s.phase.Killing? ==> steps[0].p !in s.owned)
     && OwnersStay(Apply(s, steps[0]), steps[1..]))
  }

  /** While the loop runs, what is owned is alive and hangs on what was owned before it, and so does what is in hand. */
  ghost predicate Linked(s: State) {
    KnownIds(s) && (s.phase.Listing? ==> s.phase.p in s.owned) && OwnedLinked(s) && HandLinked(s)
  }

  ghost predicate KnownIds(s: State) { forall x | x in s.alive || InHand(s, x) || x in s.owned :: x in s.used }

  ghost predicate OwnedLinked(s: State) { forall i | 0 <= i < |s.owned| :: s.owned[i] in s.alive && LinkedAt(s, i) }

  ghost predicate HandLinked(s: State) {
    forall x | InHand(s, x) && x in s.alive && x != s.root :: s.alive[x].parent in s.owned
  }

  ghost predicate LinkedAt(s: State, i: nat)
    requires i < |s.owned| && s.owned[i] in s.alive
  {
    s.owned[i] == s.root || exists j :: 0 <= j < i && s.alive[s.owned[i]].parent == s.owned[j]
  }

  /** Where parents and owned processes stay, links stay. */
  lemma LinksStay(s: State, s': State)
    requires OwnedLinked(s) && s'.root == s.root && s.owned <= s'.owned
    requires forall x | x in s.owned :: x in s'.alive && (x != s.root ==> s'.alive[x].parent == s.alive[x].parent)
    requires |s'.owned| <= |s.owned| + 1
    requires |s'.owned| > |s.owned| ==> s'.owned[|s.owned|] in s'.alive && LinkedAt(s', |s.owned|)
    ensures OwnedLinked(s')
  {
    forall i | 0 <= i < |s'.owned| ensures s'.owned[i] in s'.alive && LinkedAt(s', i) {
      if i < |s.owned| {
        assert s.owned[i] in s.alive && LinkedAt(s, i) && s'.owned[i] == s.owned[i] && s.owned[i] in s.owned;
        if s.owned[i] != s.root {
          var j :| 0 <= j < i && s.alive[s.owned[i]].parent == s.owned[j];
          assert s'.owned[j] == s.owned[j];
        }
      }
    }
  }

  lemma LinkedStep(s: State, step: Step)
    requires Enabled(s, step) && Linked(s) && !s.phase.Killing? && (step.Exit? ==> step.p !in s.owned)
    ensures Linked(Apply(s, step))
  {
    hide LinkedAt, Apply, InHand, Enabled, KnownIds, OwnedLinked, HandLinked;
    OwnedKeepParents(s, step);
    OwnedNext(s, step);
    LinksStay(s, Apply(s, step));
    UsedStays(s, step);
    HandKeepsParents(s, step);
  }

  lemma UsedStays(s: State, step: Step)
    requires Enabled(s, step) && KnownIds(s)
    ensures KnownIds(Apply(s, step))
  {
  }

  lemma HandKeepsParents(s: State, step: Step)
    requires Enabled(s, step) && (s.phase.Listing? ==> s.phase.p in s.owned) && KnownIds(s) && HandLinked(s)
    requires (step.Exit? ==> step.p !in s.owned) && !s.phase.Killing?
    ensures HandLinked(Apply(s, step))
  {
  }

  lemma OwnedNext(s: State, step: Step)
    requires Enabled(s, step) && Linked(s) && !s.phase.Killing?
    ensures var s' := Apply(s, step);
            && s'.root == s.root && (s'.phase.Listing? ==> s'.phase.p in s'.owned) && |s'.owned| <= |s.owned| + 1
            && (|s'.owned| > |s.owned| ==> s'.owned[|s.owned|] in s'.alive && LinkedAt(s', |s.owned|))
  {
    if step.Suspend? && !step.denied && s.phase.p in s.alive {
      assert InHand(s, s.phase.p);
      NewlyOwned(s, Apply(s, step));
    }
    hide LinkedAt;
  }

  lemma OwnedKeepParents(s: State, step: Step)
    requires Enabled(s, step) && Linked(s) && !s.phase.Killing? && (step.Exit? ==> step.p !in s.owned)
    ensures s.owned <= Apply(s, step).owned
    ensures var s' := Apply(s, step);
            forall x | x in s.owned :: x in s'.alive && (x != s.root ==> s'.alive[x].parent == s.alive[x].parent)
  {
    forall x | x in s.owned
      ensures x in s.alive && (step.Exit? && x != s.root ==> s.alive[x].parent != step.p)
    {
      var i :| 0 <= i < |s.owned| && s.owned[i] == x;
      assert LinkedAt(s, i);
    }
  }

  lemma NewlyOwned(s: State, s': State)
    requires s.phase.Suspending? && s.phase.p in s.alive && s'.owned == s.owned + [s.phase.p] && s'.root == s.root
    requires s.phase.p == s.root || s.alive[s.phase.p].parent in s.owned
    requires s.phase.p in s'.alive && s'.alive[s.phase.p].parent == s.alive[s.phase.p].parent
    ensures LinkedAt(s', |s.owned|)
  {
    if s.phase.p != s.root {
      var j :| 0 <= j < |s.owned| && s.owned[j] == s.alive[s.phase.p].parent;
      assert s'.owned[j] == s.owned[j];
    }
  }

  lemma {:induction false} LinkedDescends(s: State, i: nat)
    requires Linked(s) && i < |s.owned|
    ensures Descends(s, s.owned[i])
    decreases i
  {
    assert s.owned[i] in s.alive && LinkedAt(s, i);
    if s.owned[i] == s.root {
      assert IsChain(s, [s.root]);
    } else {
      var j :| 0 <= j < i && s.alive[s.owned[i]].parent == s.owned[j];
      LinkedDescends(s, j);
      var chain :| IsChain(s, chain) && chain[|chain| - 1] == s.owned[j];
      assert IsChain(s, chain + [s.owned[i]]);
    }
  }

  lemma {:induction false} LinkedRun(s: State, steps: seq<Step>)
    requires Runs(false, s, steps) && OwnersStay(s, steps) && (s.phase.Killing? || Linked(s))
    ensures After(s, steps).phase.Killing? || Linked(After(s, steps))
    decreases |steps|
  {
    if steps != [] {
      if !s.phase.Killing? { LinkedStep(s, steps[0]); }
      hide Linked;
      LinkedRun(Apply(s, steps[0]), steps[1..]);
    }
  }

  /** As long as no owned process exits by itself, everything the loop owns reaches the root at that time. */
  lemma OwnsDescendants(s0: State, steps: seq<Step>, x: Id)
    requires Init(s0) && Runs(false, s0, steps) && OwnersStay(s0, steps)
    requires !After(s0, steps).phase.Killing? && x in After(s0, steps).owned
    ensures Descends(After(s0, steps), x)
  {
    LinkedRun(s0, steps);
    var i :| 0 <= i < |After(s0, steps).owned| && After(s0, steps).owned[i] == x;
    LinkedDescends(After(s0, steps), i);
  }

  /** The run, with a process `x` that never reaches the root `r` because one of them is gone. */
  ghost predicate Apart(r: Id, x: Id, s: State, steps: seq<Step>) {
    Runs(false, s, steps) && forall st | st in States(s, steps) :: st.root == r && (r !in st.alive || x !in st.alive)
  }

  lemma ApartNext(r: Id, x: Id, s: State, step: Step, next: State, steps: seq<Step>)
    requires Enabled(s, step) && Apply(s, step) == next && Apart(r, x, next, steps)
    requires s.root == r && (r !in s.alive || x !in s.alive)
    ensures Apart(r, x, s, [step] + steps) && After(s, [step] + steps) == After(next, steps)
  {
    hide Apply, Enabled;
    assert ([step] + steps)[1..] == steps;
    assert States(s, [step] + steps) == [s] + States(next, steps);
  }

  lemma ApartNeverDescends(r: Id, x: Id, s: State, steps: seq<Step>)
    requires Apart(r, x, s, steps)
    ensures forall st | st in States(s, steps) :: !Descends(st, x)
  {
    forall st | st in States(s, steps) ensures !Descends(st, x) {
      forall chain ensures !(IsChain(st, chain) && chain[|chain| - 1] == x) {
        if chain != [] { assert chain[0] in chain && chain[|chain| - 1] in chain; }
      }
    }
  }

  /** The condition is needed: the root 0 is listed and exits; its child 1, still in hand, forks 2, which never reaches
      the root, and the loop goes on to own 2. */
  lemma LostRootsGrandchild() returns (s0: State, steps: seq<Step>)
    ensures Init(s0) && Runs(false, s0, steps) && 2 in After(s0, steps).owned
    ensures forall st | st in States(s0, steps) :: !Descends(st, 2)
  {
    hide Runs, After, States, IsChain;
    var used: set<Id> := {0, 1, 9};
    s0 := State(0, map[0 := Proc(9, false), 1 := Proc(0, false)], used, Popping, [0], {}, [], {}, false);
    var s4 := State(0, map[1 := Proc(9, false)], used, Popping, [1], {0}, [0], {0}, false);
    var last := LostRootEnds(s4);
    steps := LostRootBegins(s0, s4, last);
    ApartNeverDescends(0, 2, s0, steps);
  }

  lemma LostRootBegins(s0: State, s4: State, last: seq<Step>) returns (steps: seq<Step>)
    requires s0 == State(0, map[0 := Proc(9, false), 1 := Proc(0, false)], s0.used, Popping, [0], {}, [], {}, false)
    requires s4 == State(0, map[1 := Proc(9, false)], s0.used, Popping, [1], {0}, [0], {0}, false)
    requires Apart(0, 2, s4, last)
    ensures Apart(0, 2, s0, steps) && After(s0, steps) == After(s4, last)
  {
    hide Runs, After, States, Apart;
    var s1 := s0.(pending := [], seen := {0}, phase := Suspending(0));
    var s2 := s1.(alive := map[0 := Proc(9, true), 1 := Proc(0, false)], owned := [0], phase := Listing(0));
    var s3 := s2.(pending := [1], scanned := {0}, phase := Popping);
    assert Apply(s0, Pop) == s1;
    assert Apply(s1, Suspend(false)) == s2;
    assert Apply(s2, ListChildren([1])) == s3;
    assert Apply(s3, Exit(0, 9)) == s4;
    hide Apply;
    ApartNext(0, 2, s3, Exit(0, 9), s4, last);
    ApartNext(0, 2, s2, ListChildren([1]), s3, [Exit(0, 9)] + last);
    ApartNext(0, 2, s1, Suspend(false), s2, [ListChildren([1])] + ([Exit(0, 9)] + last));
    steps := [Suspend(false)] + ([ListChildren([1])] + ([Exit(0, 9)] + last));
    ApartNext(0, 2, s0, Pop, s1, steps);
    steps := [Pop] + steps;
  }

  lemma LostRootEnds(s4: State) returns (steps: seq<Step>)
    requires s4 == State(0, map[1 := Proc(9, false)], s4.used, Popping, [1], {0}, [0], {0}, false) && 2 !in s4.used
    ensures Apart(0, 2, s4, steps) && 2 in After(s4, steps).owned
  {
    hide Runs, After, States, Apart;
    var s5 := s4.(pending := [], seen := {0, 1}, phase := Suspending(1));
    var s6 := s5.(alive := map[1 := Proc(9, false), 2 := Proc(1, false)], used := s4.used + {2});
    var s7 := s6.(alive := map[1 := Proc(9, true), 2 := Proc(1, false)], owned := [0, 1], phase := Listing(1));
    var s8 := s7.(pending := [2], scanned := {0, 1}, phase := Popping);
    var s9 := s8.(pending := [], seen := {0, 1, 2}, phase := Suspending(2));
    assert Apply(s4, Pop) == s5;
    assert Apply(s5, Fork(1, 2)) == s6;
    assert Apply(s6, Suspend(false)) == s7;
    assert Apply(s7, ListChildren([2])) == s8;
    assert Apply(s8, Pop) == s9;
    steps := [];
    LostRootLast(s9);
    hide Apply;
    steps := [Suspend(false)];
    ApartNext(0, 2, s8, Pop, s9, steps);
    steps := [Pop] + steps;
    ApartNext(0, 2, s7, ListChildren([2]), s8, steps);
    steps := [ListChildren([2])] + steps;
    ApartNext(0, 2, s6, Suspend(false), s7, steps);
    steps := [Suspend(false)] + steps;
    ApartNext(0, 2, s5, Fork(1, 2), s6, steps);
    steps := [Fork(1, 2)] + steps;
    ApartNext(0, 2, s4, Pop, s5, steps);
    steps := [Pop] + steps;
  }

  lemma LostRootLast(s: State)
    requires s.root == 0 && 0 !in s.alive && 2 in s.alive && s.phase == Suspending(2)
    ensures Apart(0, 2, s, [Suspend(false)]) && 2 in After(s, [Suspend(false)]).owned
  {
    var s' := Apply(s, Suspend(false));
    assert Apart(0, 2, s', []);
    ApartNext(0, 2, s, Suspend(false), s', []);
  }

  lemma {:induction false} RunOne(s: State, step: Step, steps: seq<Step>)
    requires Enabled(s, step) && Runs(false, Apply(s, step), steps)
    ensures Runs(false, s, [step] + steps) && After(s, [step] + steps) == After(Apply(s, step), steps)
  {
    assert ([step] + steps)[1..] == steps;
  }

  /** The assumption on orphans is needed: 0 has child 1, which has child 2; 1 exits after 0 was listed, the frozen 0
      adopts 2, and the loop ends without having met 2. */
  lemma AdoptionByListedProcessEscapes() returns (s0: State, steps: seq<Step>, p: Id)
    ensures Init(s0) && Runs(false, s0, steps)
    ensures var s := After(s0, steps);
            LoopEnded(s) && Descends(s, p) && !s.alive[p].suspended && p !in s.owned
  {
    hide Runs;
    hide After;
    hide IsChain;
    var all: set<Id> := {0, 1, 2, 9};
    s0 := State(0, map[0 := Proc(9, false), 1 := Proc(0, false), 2 := Proc(1, false)], all,
                Popping, [0], {}, [], {}, false);
    p := 2;
    var frozen := map[0 := Proc(9, true), 1 := Proc(0, false), 2 := Proc(1, false)];
    var s3 := State(0, frozen, all, Popping, [1], {0}, [0], {0}, false);
    var last := [Exit(1, 0), Pop, Pop];
    AdoptedIsMissed(s3, last);
    RootIsListed(s0, frozen, s3, last);
    steps := [Pop] + ([Suspend(false)] + ([ListChildren([1])] + last));
  }

  /** The root is frozen, and the listing of its children finds 1. */
  lemma RootIsListed(s0: State, frozen: map<Id, Proc>, s3: State, last: seq<Step>)
    requires s0 == State(0, map[0 := Proc(9, false), 1 := Proc(0, false), 2 := Proc(1, false)], s0.used,
                         Popping, [0], {}, [], {}, false)
    requires frozen == map[0 := Proc(9, true), 1 := Proc(0, false), 2 := Proc(1, false)]
    requires s3 == State(0, frozen, s0.used, Popping, [1], {0}, [0], {0}, false) && Runs(false, s3, last)
    ensures var steps := [Pop] + ([Suspend(false)] + ([ListChildren([1])] + last));
            Runs(false, s0, steps) && After(s0, steps) == After(s3, last)
  {
    hide Runs, After;
    var s1 := s0.(pending := [], seen := {0}, phase := Suspending(0));
    var s2 := s1.(alive := frozen, owned := [0], phase := Listing(0));
    assert Apply(s0, Pop) == s1;
    assert Apply(s1, Suspend(false)) == s2;
    assert Apply(s2, ListChildren([1])) == s3;
    hide Apply;
    RunOne(s2, ListChildren([1]), last);
    RunOne(s1, Suspend(false), [ListChildren([1])] + last);
    RunOne(s0, Pop, [Suspend(false)] + ([ListChildren([1])] + last));
  }

  lemma AdoptedIsMissed(s3: State, last: seq<Step>)
    requires s3.alive == map[0 := Proc(9, true), 1 := Proc(0, false), 2 := Proc(1, false)] && s3.root == 0
    requires s3.phase == Popping && s3.pending == [1] && s3.owned == [0] && !s3.aborted
    requires last == [Exit(1, 0), Pop, Pop]
    ensures Runs(false, s3, last)
    ensures var s := After(s3, last);
            LoopEnded(s) && Descends(s, 2) && !s.alive[2].suspended && 2 !in s.owned
  {
    var s4 := Apply(s3, Exit(1, 0));
    assert s4.alive == map[0 := Proc(9, true), 2 := Proc(0, false)];
    var s5 := Apply(s4, Pop);
    assert s5.pending == [];
    var s6 := Apply(s5, Pop);
    RunOne(s5, Pop, []);
    RunOne(s4, Pop, [Pop]);
    RunOne(s3, Exit(1, 0), [Pop, Pop]);
    assert last == [Exit(1, 0)] + ([Pop] + ([Pop] + []));
    assert IsChain(s6, [0, 2]);
  }
}
