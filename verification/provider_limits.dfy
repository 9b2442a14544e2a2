/** `provider_slot`: the reference-counted admission gate of a provider, under every interleaving of the users that
    use it. */
module ProviderLimits {
  import Text

  type Task = nat

  /** An event loop and a normalised provider name. */
  datatype Key = Key(loop: nat, name: string)

  /** A gate: `free` permits of the `limit` it was created with, and how many tasks refer to it. */
  datatype Admission = Admission(key: Key, limit: nat, free: nat, users: nat)

  /** Where a task stands with its gate, given by its place in `made`. */
  datatype Stage = Waiting(gate: nat) | Holding(gate: nat)

  /** `entries` is `_ADMISSIONS`; `made` has every gate ever made, since tasks keep theirs. */
  datatype State = State(entries: map<Key, nat>, made: seq<Admission>, tasks: map<Task, Stage>)

  datatype Step =
    | Enter(task: Task, loop: nat, provider: string, limit: int)
    | Acquire(task: Task)
    | Cancel(task: Task)
    | Exit(task: Task)

  const Start := State(map[], [], map[])

  function NameOf(provider: string): string { Text.Fold(Text.Strip(provider)) }

  predicate Enabled(s: State, step: Step) {
    match step
    case Enter(t, _, _, _) => t !in s.tasks
    case Acquire(t) =>
      t in s.tasks && s.tasks[t].Waiting? && s.tasks[t].gate < |s.made| && s.made[s.tasks[t].gate].free > 0
    case Cancel(t) => t in s.tasks && s.tasks[t].Waiting? && s.tasks[t].gate < |s.made|
    case Exit(t) => t in s.tasks && s.tasks[t].Holding? && s.tasks[t].gate < |s.made|
  }

  /** The gate of the key, made if there is none. */
  function WithGate(s: State, key: Key, limit: nat): State {
    if key in s.entries then s
    else s.(entries := s.entries[key := |s.made|], made := s.made + [Admission(key, limit, limit, 0)])
  }

  function Join(s: State, t: Task, g: nat): State
    requires g < |s.made|
  {
    State(s.entries, s.made[g := s.made[g].(users := s.made[g].users + 1)], s.tasks[t := Waiting(g)])
  }

  /** A task lets go of its gate, which goes away with its last user. */
  function Leave(s: State, t: Task, released: nat): State
    requires t in s.tasks && s.tasks[t].gate < |s.made|
  {
    var g := s.tasks[t].gate;
    var a := s.made[g];
    var left := a.(free := a.free + released, users := if a.users > 0 then a.users - 1 else 0);
    State(
      if left.users == 0 && a.key in s.entries && s.entries[a.key] == g then s.entries - {a.key} else s.entries,
      s.made[g := left],
      s.tasks - {t})
  }

  function Apply(s: State, step: Step): State
    requires Enabled(s, step)
  {
    match step
    case Enter(t, loop, provider, limit) =>
      if NameOf(provider) == "" || limit <= 0 then s
      else
        var key := Key(loop, NameOf(provider));
        var w := WithGate(s, key, limit);
        var g := w.entries[key];
        if g < |w.made| then Join(w, t, g) else w
    case Acquire(t) =>
      var g := s.tasks[t].gate;
      s.(made := s.made[g := s.made[g].(free := s.made[g].free - 1)], tasks := s.tasks[t := Holding(g)])
    case Cancel(t) => Leave(s, t, 0)
    case Exit(t) => Leave(s, t, 1)
  }

  // ---- the invariant -------------------------------------------------------------------------------------

  function Users(s: State, g: nat): set<Task> { set t | t in s.tasks && s.tasks[t].gate == g }

  function Holders(s: State, g: nat): set<Task> { set t | t in s.tasks && s.tasks[t] == Holding(g) }

  /** A gate counts its users and its permits. */
  ghost predicate Counted(s: State, g: nat)
    requires g < |s.made|
  {
    s.made[g].users == |Users(s, g)| && s.made[g].free + |Holders(s, g)| == s.made[g].limit
  }

  ghost predicate Inv(s: State) {
    && (forall t | t in s.tasks :: s.tasks[t].gate < |s.made|)
    && (forall g | 0 <= g < |s.made| :: Counted(s, g))
    && (forall k | k in s.entries ::
          s.entries[k] < |s.made| && s.made[s.entries[k]].key == k && s.made[s.entries[k]].users > 0)
    && (forall g | 0 <= g < |s.made| && s.made[g].users > 0 ::
          s.made[g].key in s.entries && s.entries[s.made[g].key] == g)
  }

  lemma SetPlus(a: set<Task>, t: Task)
    ensures t !in a ==> |a + {t}| == |a| + 1
    ensures t in a ==> |a - {t}| == |a| - 1
  {
  }

  lemma WithGateInv(s: State, key: Key, limit: nat)
    requires Inv(s)
    ensures var w := WithGate(s, key, limit);
            && key in w.entries && w.entries[key] < |w.made| && w.made[w.entries[key]].key == key && w.tasks == s.tasks
            && (forall g | 0 <= g < |w.made| :: Counted(w, g))
            && (forall k | k in w.entries :: w.entries[k] < |w.made| && w.made[w.entries[k]].key == k)
            && (forall k | k in w.entries && k != key :: w.made[w.entries[k]].users > 0)
            && (forall g | 0 <= g < |w.made| && w.made[g].users > 0 ::
                  w.made[g].key in w.entries && w.entries[w.made[g].key] == g)
  {
    var w := WithGate(s, key, limit);
    forall g | 0 <= g < |w.made| ensures Counted(w, g) {
      assert Users(w, g) == Users(s, g) && Holders(w, g) == Holders(s, g);
      if g < |s.made| { assert Counted(s, g); } else { assert Users(s, g) == {} && Holders(s, g) == {}; }
    }
  }

  lemma JoinSets(w: State, j: State, t: Task, g: nat, h: nat)
    requires t !in w.tasks && j.tasks == w.tasks[t := Waiting(g)]
    ensures Holders(j, h) == Holders(w, h)
    ensures Users(j, h) == if h == g then Users(w, h) + {t} else Users(w, h)
  {
  }

  lemma JoinCounted(w: State, t: Task, g: nat, h: nat)
    requires g < |w.made| && h < |w.made| && t !in w.tasks && Counted(w, h)
    ensures Counted(Join(w, t, g), h)
  {
    var j := Join(w, t, g);
    JoinSets(w, j, t, g, h);
    assert t !in Users(w, h);
    hide Users, Holders;
    SetPlus(Users(w, h), t);
    assert j.made[h] == if h == g then w.made[h].(users := w.made[h].users + 1) else w.made[h];
  }

  lemma EnterInv(s: State, step: Step)
    requires Inv(s) && Enabled(s, step) && step.Enter?
    ensures Inv(Apply(s, step))
  {
    if NameOf(step.provider) != "" && step.limit > 0 {
      var key := Key(step.loop, NameOf(step.provider));
      var w := WithGate(s, key, step.limit);
      WithGateInv(s, key, step.limit);
      forall h | 0 <= h < |w.made| ensures Counted(Apply(s, step), h) {
        JoinCounted(w, step.task, w.entries[key], h);
      }
      hide Counted;
    }
  }

  lemma AcquireInv(s: State, step: Step)
    requires Inv(s) && Enabled(s, step) && step.Acquire?
    ensures Inv(Apply(s, step))
  {
    var s', t := Apply(s, step), step.task;
    var g := s.tasks[t].gate;
    forall h | 0 <= h < |s'.made| ensures Counted(s', h) {
      assert Counted(s, h);
      assert Users(s', h) == Users(s, h);
      assert Holders(s', h) == if h == g then Holders(s, h) + {t} else Holders(s, h);
      SetPlus(Holders(s, h), t);
    }
  }

  lemma LeaveInv(s: State, t: Task)
    requires Inv(s) && t in s.tasks
    ensures Inv(Leave(s, t, if s.tasks[t].Holding? then 1 else 0))
  {
    var s' := Leave(s, t, if s.tasks[t].Holding? then 1 else 0);
    var g := s.tasks[t].gate;
    forall h | 0 <= h < |s'.made| ensures Counted(s', h) { LeaveCounted(s, t, h); }
    assert t in Users(s, g) && Counted(s, g);
    hide Holders;
  }

  lemma LeaveCounted(s: State, t: Task, h: nat)
    requires Inv(s) && t in s.tasks && h < |s.made|
    ensures Counted(Leave(s, t, if s.tasks[t].Holding? then 1 else 0), h)
  {
    var s' := Leave(s, t, if s.tasks[t].Holding? then 1 else 0);
    var g := s.tasks[t].gate;
    assert Counted(s, h);
    LeaveSets(s, s', t, h);
    assert h == g <==> t in Users(s, h);
    assert s.tasks[t] == Holding(h) <==> t in Holders(s, h);
    hide Users, Holders;
    SetPlus(Users(s, h), t);
    SetPlus(Holders(s, h), t);
  }

  lemma LeaveSets(s: State, s': State, t: Task, h: nat)
    requires s'.tasks == s.tasks - {t}
    ensures Users(s', h) == Users(s, h) - {t} && Holders(s', h) == Holders(s, h) - {t}
  {
  }

  lemma StepInv(s: State, step: Step)
    requires Inv(s) && Enabled(s, step)
    ensures Inv(Apply(s, step))
  {
    match step
    case Enter(_, _, _, _) => EnterInv(s, step);
    case Acquire(_) => AcquireInv(s, step);
    case Cancel(t) => LeaveInv(s, t);
    case Exit(t) => LeaveInv(s, t);
  }

  // ---- what the steps are for ----------------------------------------------------------------------------

  predicate Bounded(provider: string, limit: int) { Text.Strip(provider) != "" && limit > 0 }

  /** A named provider with a positive limit makes the task wait on the gate of its key, which is made if need be and
      counts the task; without a name or a limit nothing happens. */
  lemma EnterWaits(s: State, t: Task, loop: nat, provider: string, limit: int)
    requires Inv(s) && t !in s.tasks
    ensures Enabled(s, Enter(t, loop, provider, limit))
    ensures var s' := Apply(s, Enter(t, loop, provider, limit));
            && (!Bounded(provider, limit) ==> s' == s)
            && (Bounded(provider, limit) ==>
                  && t in s'.tasks && s'.tasks[t].Waiting? && s'.tasks - {t} == s.tasks
                  && var g, key := s'.tasks[t].gate, Key(loop, Text.Fold(Text.Strip(provider)));
                  && g < |s'.made| && s'.made[g].key == key && key in s'.entries && s'.entries[key] == g
                  && s'.made[g].users == |Users(s, g)| + 1
                  && (forall h | 0 <= h < |s.made| && h != g :: s'.made[h] == s.made[h])
                  && (if key in s.entries
                      then s'.made[g] == s.made[g].(users := s'.made[g].users) && |s'.made| == |s.made|
                      else g == |s.made| && s'.made[g] == Admission(key, limit, limit, 1)))
  {
    var key := Key(loop, NameOf(provider));
    if key in s.entries {
      assert Counted(s, s.entries[key]);
    } else {
      assert Users(s, |s.made|) == {};
    }
  }

  /** Two users share a gate exactly when they name one provider on one event loop, in any case. */
  lemma SharesGate(s: State, t: Task, u: Task, at: nat, at': nat, p: string, p': string, limit: int, limit': int)
    requires Inv(s) && t !in s.tasks && u !in s.tasks && t != u && Bounded(p, limit) && Bounded(p', limit')
    ensures var s' := Apply(Apply(s, Enter(t, at, p, limit)), Enter(u, at', p', limit'));
            && t in s'.tasks && u in s'.tasks
            && (s'.tasks[t].gate == s'.tasks[u].gate <==>
                at == at' && Text.SameButCase(Text.Strip(p), Text.Strip(p')))
  {
    EnterWaits(s, t, at, p, limit);
    EnterInv(s, Enter(t, at, p, limit));
    var s1 := Apply(s, Enter(t, at, p, limit));
    EnterWaits(s1, u, at', p', limit');
    Text.FoldIff(Text.Strip(p), Text.Strip(p'));
    hide *;
  }

  /** A waiting task is let in exactly while the gate has fewer holders than its limit. */
  lemma AdmittedIff(s: State, t: Task)
    requires Inv(s)
    ensures Enabled(s, Acquire(t)) <==>
            && t in s.tasks && s.tasks[t].Waiting?
            && s.tasks[t].gate < |s.made| && |Holders(s, s.tasks[t].gate)| < s.made[s.tasks[t].gate].limit
    ensures Enabled(s, Acquire(t)) ==> Apply(s, Acquire(t)).tasks == s.tasks[t := Holding(s.tasks[t].gate)]
  {
    if t in s.tasks { assert Counted(s, s.tasks[t].gate); }
  }

  /** A task can leave at any time, and nothing but its own place in the gate goes with it. */
  lemma LeavesAlone(s: State, t: Task)
    requires Inv(s) && t in s.tasks
    ensures var step := if s.tasks[t].Holding? then Exit(t) else Cancel(t);
            && Enabled(s, step)
            && var s' := Apply(s, step);
            && s'.tasks == s.tasks - {t} && |s'.made| == |s.made|
            && forall h | 0 <= h < |s.made| && h != s.tasks[t].gate :: s'.made[h] == s.made[h]
  {
  }

  // ---- runs ----------------------------------------------------------------------------------------------

  ghost predicate Run(states: seq<State>, steps: seq<Step>) {
    && |states| == |steps| + 1 && states[0] == Start
    && forall i | 0 <= i < |steps| :: Enabled(states[i], steps[i]) && states[i + 1] == Apply(states[i], steps[i])
  }

  lemma {:induction false} RunInv(states: seq<State>, steps: seq<Step>, i: nat)
    requires Run(states, steps) && i < |states|
    ensures Inv(states[i])
  {
    if i > 0 {
      RunInv(states, steps, i - 1);
      assert states[i] == Apply(states[i - 1], steps[i - 1]);
      StepInv(states[i - 1], steps[i - 1]);
    }
  }

  /** At every moment of every run: the tasks of a key share one gate, which counts them and admits no more of them than
      its limit; and the map has an entry for the key exactly while some task uses it. */
  lemma AdmissionInvariant(states: seq<State>, steps: seq<Step>, i: nat, key: Key)
    requires Run(states, steps) && i < |states|
    ensures var s := states[i];
            && (forall t | t in s.tasks :: s.tasks[t].gate < |s.made|)
            && (key in s.entries <==> exists t :: t in s.tasks && s.made[s.tasks[t].gate].key == key)
            && (key in s.entries ==>
                  var g := s.entries[key];
                  && g < |s.made|
                  && (forall t | t in s.tasks && s.made[s.tasks[t].gate].key == key :: s.tasks[t].gate == g)
                  && s.made[g].users == |Users(s, g)| > 0 && |Holders(s, g)| <= s.made[g].limit)
  {
    RunInv(states, steps, i);
    var s := states[i];
    forall t | t in s.tasks
      ensures s.made[s.tasks[t].gate].key in s.entries && s.entries[s.made[s.tasks[t].gate].key] == s.tasks[t].gate
    {
      var g := s.tasks[t].gate;
      assert t in Users(s, g) && Counted(s, g);
    }
    if key in s.entries {
      var g := s.entries[key];
      assert Counted(s, g);
      var t :| t in Users(s, g);
    }
  }

  /** Nothing is left behind: when no task is inside, the map is empty and every permit is free. */
  lemma NothingLeaks(states: seq<State>, steps: seq<Step>, i: nat)
    requires Run(states, steps) && i < |states| && states[i].tasks == map[]
    ensures states[i].entries == map[]
    ensures forall g | 0 <= g < |states[i].made| :: states[i].made[g].free == states[i].made[g].limit
  {
    RunInv(states, steps, i);
    var s := states[i];
    forall g | 0 <= g < |s.made| ensures s.made[g].users == 0 && s.made[g].free == s.made[g].limit {
      assert Counted(s, g) && Users(s, g) == {} && Holders(s, g) == {};
    }
  }

  /** A gate has the limit its first user brought, whatever limits later users bring. */
  lemma {:induction false} LimitIsTheMakers(states: seq<State>, steps: seq<Step>, i: nat, g: nat)
    requires Run(states, steps) && i < |states| && g < |states[i].made|
    ensures exists j :: && 0 <= j < i && steps[j].Enter? && g == |states[j].made|
                        && states[i].made[g].key == Key(steps[j].loop, NameOf(steps[j].provider))
                        && states[i].made[g].limit == steps[j].limit
  {
    if i > 0 {
      assert states[i] == Apply(states[i - 1], steps[i - 1]);
      if g < |states[i - 1].made| {
        LimitIsTheMakers(states, steps, i - 1, g);
      } else {
        RunInv(states, steps, i - 1);
        assert steps[i - 1].Enter?;
      }
    }
  }
}
