/** `_openrouter_agentic`: one agentic session, against a provider that answers anything. */
module AgenticLoop {
  import opened Options
  import opened Json
  import opened ToolCalls
  import opened WorkspaceTools
  import opened Conversation
  import opened SessionTrace
  import Text

  /** Settings of a session.  `problems` says that verification finds defects, `looksStub` that the project is a stub,
      `normal` normalises a path a model names and `auxiliary` recognises build helpers. */
  datatype Config = Config(
    rules: Rules, codec: Codec, editing: Editing, render: Result -> string,
    planned: set<Path>, normal: string -> string, auxiliary: string -> bool,
    maxTurnsSetting: int, noWriteTurns: int, fallbackEnabled: bool, maxFallbacks: int,
    stubNudges: bool, looksStub: Files -> bool, verifyOnStop: bool, problems: Files -> bool)
  {
    /** At least four turns, and as many as the setting asks for. */
    function MaxTurns(): (m: nat)
      ensures m >= 4 && m >= maxTurnsSetting && m in {4, maxTurnsSetting}
    {
      if maxTurnsSetting > 4 then maxTurnsSetting else 4
    }

    /** Idle turns after which a model is given up: whichever of the two settings comes first. */
    function Limit(): (m: nat)
      ensures 0 < m <= MaxTurns() && (noWriteTurns > 0 ==> m <= noWriteTurns) && m in {MaxTurns(), noWriteTurns}
    {
      if 0 < noWriteTurns < MaxTurns() then noWriteTurns else MaxTurns()
    }

    /** Idle turns after which the model is told: half of those it has, but one to four. */
    function FeedbackTurns(): (t: int)
      ensures 1 <= t <= 4
      ensures var turns := if noWriteTurns != 0 then noWriteTurns else MaxTurns();
              (t > 1 ==> 2 * t <= turns) && (t < 4 ==> turns < 2 * t + 2)
    {
      var half := (if noWriteTurns != 0 then noWriteTurns else MaxTurns()) / 2;
      if half < 1 then 1 else if half > 4 then 4 else half
    }
  }

  // ---- provider replies ----------------------------------------------------------------------------------

  /** The message of a reply; `finish` is the finish reason, None when the reply gives none at all. */
  datatype Message = Message(role: Option<Json>, content: Json, refusal: Json, calls: Json, finish: Option<Json>)

  /** `Unusable` is a reply without a message, or one whose billing exceeds the budget. */
  datatype Reply = Failure | Unusable | Usable(message: Message)

  /** What the environment does in one pass of the loop: whether the progress window has closed, which models the retry
      engine tries, how the last of them replies, and the healthy fallbacks on offer. */
  datatype Pass = Pass(late: bool, tried: seq<Model>, reply: Reply, offered: seq<Model>)

  const FinishReasons: set<string> := {"stop", "tool_calls", "length", "content_filter", "refusal"}

  /** `_agentic_envelope_error` */
  predicate SoundEnvelope(m: Message) {
    && (m.role.None? || m.role == Some(Str("assistant")))
    && (m.content.Null? || m.content.Str?) && (m.refusal.Null? || m.refusal.Str?) && (m.calls.Null? || m.calls.List?)
    && (m.finish.Some? && !m.finish.value.Null? ==> m.finish.value.Str? && m.finish.value.s in FinishReasons)
    && (FinishedBy(m, "stop") ==> !HasCalls(m))
    && (FinishedBy(m, "tool_calls") ==> HasCalls(m))
  }

  predicate FinishedBy(m: Message, reason: string) { m.finish == Some(Str(reason)) }

  predicate HasCalls(m: Message) { m.calls.List? && m.calls.items != [] }

  lemma CallsMean(m: Message)
    ensures HasCalls(m) ==> m.calls.List?
  {
  }

  predicate Refused(m: Message) {
    || (m.refusal.Str? && m.refusal.s != "") || FinishedBy(m, "content_filter") || FinishedBy(m, "refusal")
  }

  predicate Unfit(m: Message) { !SoundEnvelope(m) || Refused(m) }

  /** The messages that a turn can be made of. */
  lemma FitIff(m: Message)
    ensures !Unfit(m) <==>
            && m.role in {None, Some(Str("assistant"))} && m.refusal in {Null, Str("")}
            && (m.content == Null || m.content.Str?) && (m.calls == Null || m.calls.List?)
            && (|| m.finish in {None, Some(Null), Some(Str("length"))}
                || (m.finish == Some(Str("stop")) && m.calls in {Null, List([])})
                || (m.finish == Some(Str("tool_calls")) && m.calls !in {Null, List([])}))
  {
    assert "stop" in FinishReasons && "tool_calls" in FinishReasons && "length" in FinishReasons;
  }

  function TextOf(m: Message): string { if m.content.Str? then m.content.s else "" }

  /** What follows a step of the loop body: the next step, another pass (`continue`), or the end (`break`). */
  datatype Next = Proceed | Again | Stop

  // ---- what a finished session owes ----------------------------------------------------------------------

  predicate Ready(cfg: Config, files: Files, p: Path) { p in files && !cfg.rules.rc.receiptBody(files[p]) }

  function Missing(cfg: Config, files: Files): set<Path> { set p | p in cfg.planned && !Ready(cfg, files, p) }

  /** Every planned file has real content, the project is not a stub unless it was nudged about that twice, and it
      verifies unless verification is off or has denied the finish twice. */
  predicate Acceptable(cfg: Config, files: Files, stubNudges: nat, verifyDenials: nat) {
    (forall p | p in cfg.planned :: Ready(cfg, files, p)) && Unobjectionable(cfg, files, stubNudges, verifyDenials)
  }

  lemma NothingMissing(cfg: Config, files: Files)
    ensures |Missing(cfg, files)| == 0 <==> forall p | p in cfg.planned :: Ready(cfg, files, p)
  {
    if p :| p in cfg.planned && !Ready(cfg, files, p) { assert p in Missing(cfg, files); }
    if |Missing(cfg, files)| > 0 { var p :| p in Missing(cfg, files); }
  }

  datatype Report = Report(ok: bool, completed: bool, filesWritten: nat, switches: nat)

  function Occurrences(s: seq<string>, x: string): nat {
    if s == [] then 0 else Occurrences(s[..|s| - 1], x) + if s[|s| - 1] == x then 1 else 0
  }

  /** `max(set(window), key=window.count)` */
  method Dominant(window: seq<string>) returns (top: string, count: nat)
    requires window != []
    ensures top in window && count == Occurrences(window, top)
    ensures forall x | x in window :: Occurrences(window, x) <= count
  {
    top, count := window[0], Occurrences(window, window[0]);
    for i := 0 to |window|
      invariant top in window && count == Occurrences(window, top)
      invariant forall j | 0 <= j < i :: Occurrences(window, window[j]) <= count
    {
      var n := Occurrences(window, window[i]);
      if n > count { top, count := window[i], n; }
    }
  }

  /** The same call three times over. */
  predicate Doomed(recent: seq<(string, string)>) { |recent| == 3 && recent[0] == recent[1] == recent[2] }

  /** Half of the last changes are on one path. */
  ghost predicate Churning(window: seq<string>) {
    |window| == ChurnWindow && exists x | x in window :: Occurrences(window, x) >= ChurnThreshold
  }

  predicate Sprawling(auxiliaries: set<string>, missing: nat) { missing > 0 && |auxiliaries| >= AuxiliaryThreshold }

  predicate Stagnant(stagnation: nat, missing: nat) {
    missing > 0 && stagnation >= AuxiliaryThreshold && stagnation >= missing
  }

  lemma DoomedIff(recent: seq<(string, string)>)
    ensures Doomed(recent) <==> exists call :: recent == [call, call, call]
  {
    if Doomed(recent) { assert recent == [recent[0], recent[0], recent[0]]; }
  }

  lemma {:induction false} OccurrencesAre(s: seq<string>, x: string)
    ensures Occurrences(s, x) == multiset(s)[x]
  {
    if s != [] {
      OccurrencesAre(s[..|s| - 1], x);
      assert s == s[..|s| - 1] + [s[|s| - 1]];
    }
  }

  lemma ChurningIff(window: seq<string>)
    ensures forall x :: Occurrences(window, x) == multiset(window)[x]
    ensures Churning(window) <==> |window| == 16 && exists x :: multiset(window)[x] >= 8
  {
    forall x ensures Occurrences(window, x) == multiset(window)[x] { OccurrencesAre(window, x); }
    hide Occurrences;
    if x :| multiset(window)[x] >= 8 { assert x in multiset(window) && x in window; }
  }

  lemma GuardsMean(recent: seq<(string, string)>, window: seq<string>, auxiliaries: set<string>, stagnation: nat,
                   missing: nat)
    ensures Doomed(recent) <==> exists call :: recent == [call, call, call]
    ensures Churning(window) <==> |window| == 16 && exists x :: multiset(window)[x] >= 8
    ensures Sprawling(auxiliaries, missing) <==> missing > 0 && |auxiliaries| >= 6
    ensures Stagnant(stagnation, missing) <==> missing > 0 && stagnation >= 6 && stagnation >= missing
  {
    DoomedIff(recent);
    ChurningIff(window);
  }

  function Last(s: seq<string>, n: nat): seq<string> { if |s| <= n then s else s[|s| - n..] }

  const ChurnWindow := 16
  const ChurnThreshold := 8
  const AuxiliaryThreshold := 6
  const EmptyLimit := 2

  /** What holds of everything that was sent, of the switches, and of the stretches without a change. */
  ghost predicate PastOk(cfg: Config, trace: Trace, messages: History, exhausted: set<Model>, switches: nat) {
    && RequestsOk(trace, messages, cfg.editing)
    && NeverAgain(trace) && exhausted == Abandoned(trace) && switches == Switches(trace) == |exhausted|
    && (cfg.maxFallbacks > 0 ==> switches <= cfg.maxFallbacks)
    && Bounded(trace, cfg.Limit())
  }

  /** The current model is a fresh one and has turns left. */
  ghost predicate ModelOk(cfg: Config, trace: Trace, model: Model, exhausted: set<Model>, idle: nat, recoveries: nat) {
    model !in exhausted && idle <= cfg.Limit() && Ahead(trace, cfg.Limit(), recoveries, idle)
  }

  lemma RequestStep(cfg: Config, trace: Trace, messages: History, exhausted: set<Model>, switches: nat, model: Model,
                    idle: nat, recoveries: nat, sent: History, m: Model)
    requires PastOk(cfg, trace, messages, exhausted, switches)
    requires ModelOk(cfg, trace, model, exhausted, idle, recoveries)
    requires WellFormed(messages) && SameShape(messages, sent) && EditedCopy(messages, cfg.editing, sent)
    requires m !in exhausted
    ensures PastOk(cfg, trace + [Request(m, sent)], messages, exhausted, switches)
    ensures ModelOk(cfg, trace + [Request(m, sent)], model, exhausted, idle, recoveries)
  {
    hide WellFormed, RequestsOk, NeverAgain, Bounded, Ahead, Abandoned, Switches, SameShape, EditedCopy, Config.Limit;
    RequestSent(trace, messages, cfg.editing, sent, m);
    NeverAgainSnoc(trace, Request(m, sent));
    RequestTick(trace, cfg.Limit(), recoveries, idle, Request(m, sent));
  }

  lemma SwitchStep(cfg: Config, trace: Trace, messages: History, exhausted: set<Model>, switches: nat, model: Model,
                   idle: nat, recoveries: nat, to: Model)
    requires PastOk(cfg, trace, messages, exhausted, switches)
    requires ModelOk(cfg, trace, model, exhausted, idle, recoveries)
    requires (cfg.maxFallbacks > 0 ==> switches < cfg.maxFallbacks) && to != model && to !in exhausted
    requires recoveries <= 4
    ensures PastOk(cfg, trace + [Switched(model, to)], messages, exhausted + {model}, switches + 1)
    ensures ModelOk(cfg, trace + [Switched(model, to)], to, exhausted + {model}, 0, recoveries)
  {
    hide RequestsOk, NeverAgain, Bounded, Ahead, Abandoned, Switches, Config.Limit;
    NeverAgainSnoc(trace, Switched(model, to));
    SwitchTick(trace, cfg.Limit(), recoveries, idle, Switched(model, to));
    RequestsLater(trace, messages, cfg.editing, Switched(model, to));
  }

  /** A reply: of a turn that changed a file, of a turn that did not, or one that leads to a recovery. */
  lemma ReplyStep(cfg: Config, trace: Trace, messages: History, exhausted: set<Model>, switches: nat, model: Model,
                  idle: nat, recoveries: nat, changed: bool)
    requires PastOk(cfg, trace, messages, exhausted, switches)
    requires ModelOk(cfg, trace, model, exhausted, idle, recoveries)
    requires idle < cfg.Limit() && recoveries <= 4
    ensures var t := trace + [Reply(changed)];
            && PastOk(cfg, t, messages, exhausted, switches)
            && (changed ==> ModelOk(cfg, t, model, exhausted, 0, recoveries))
            && (!changed ==> ModelOk(cfg, t, model, exhausted, idle + 1, recoveries))
            && (!changed ==> ModelOk(cfg, t, model, exhausted, idle, recoveries + 1))
  {
    hide RequestsOk, NeverAgain, Bounded, Ahead, Abandoned, Switches, Config.Limit;
    NeverAgainSnoc(trace, Reply(changed));
    ReplyTick(trace, cfg.Limit(), recoveries, idle, changed);
    RequestsLater(trace, messages, cfg.editing, Reply(changed));
  }

  /** The history may grow. */
  lemma PastGrows(cfg: Config, trace: Trace, messages: History, exhausted: set<Model>, switches: nat, later: History)
    requires PastOk(cfg, trace, messages, exhausted, switches) && Grows(messages, later)
    ensures PastOk(cfg, trace, later, exhausted, switches)
  {
    hide RequestsOk, NeverAgain, Bounded, Abandoned, Switches, Config.Limit;
    RequestsGrow(trace, messages, later, cfg.editing);
  }

  predicate SomeFresh(offered: seq<Model>, model: Model, exhausted: set<Model>) {
    exists m | m in offered :: m != model && m !in exhausted
  }

  /** One request for each tried model that is not exhausted; the others are not asked. */
  function Asked(tried: seq<Model>, exhausted: set<Model>, sent: History): Trace {
    if tried == [] then []
    else
      var m := tried[|tried| - 1];
      Asked(tried[..|tried| - 1], exhausted, sent) + if m in exhausted then [] else [Request(m, sent)]
  }

  lemma AskedNone(exhausted: set<Model>, sent: History)
    ensures forall tried: seq<Model> :: Asked(tried[..0], exhausted, sent) == []
  {
  }

  lemma AskedNext(tried: seq<Model>, i: nat, exhausted: set<Model>, sent: History)
    requires i < |tried|
    ensures Asked(tried[..i + 1], exhausted, sent) ==
            Asked(tried[..i], exhausted, sent) + if tried[i] in exhausted then [] else [Request(tried[i], sent)]
  {
    assert tried[..i + 1][..i] == tried[..i];
  }

  /** `missing` planned files; `stagnation` counts the writes without new coverage. */
  datatype Coverage = Coverage(
    window: seq<string>, missing: nat, auxiliaries: set<string>, auxiliaryWarned: bool,
    stagnation: nat, stagnationWarned: bool, incompleteNudged: bool)

  /** `kept` are the last `n` of `all`, or all of them. */
  ghost predicate LastOf<T(!new)>(all: seq<T>, kept: seq<T>, n: nat) {
    |kept| <= n && exists dropped :: all == dropped + kept && (dropped == [] || |kept| == n)
  }

  /** The paths that a write names. */
  ghost predicate Names(name: string, args: Args, paths: seq<string>) {
    if name in {"edit_file", "write_file"} then |paths| == 1 && Get(args, "path") == Str(paths[0])
    else
      && name == "write_files" && Get(args, "files").List? && |paths| == |Get(args, "files").items|
      && forall i | 0 <= i < |paths| ::
           Get(args, "files").items[i].Obj? && Get(Get(args, "files").items[i].fields, "path") == Str(paths[i])
  }

  ghost predicate Normalised(cfg: Config, paths: seq<string>, names: seq<string>) {
    |names| == |paths| && forall i | 0 <= i < |paths| :: names[i] == cfg.normal(paths[i])
  }

  /** The window holds the last sixteen changed paths, normalised. */
  ghost predicate Windowed(cfg: Config, paths: seq<string>, a: seq<string>, b: seq<string>) {
    exists names :: Normalised(cfg, paths, names) && LastOf(a + names, b, 16)
  }

  /** After a change better coverage lets the counts start over, and without it they grow by what the change adds. */
  ghost predicate Recounted(cfg: Config, paths: seq<string>, changed: nat, a: Coverage, b: Coverage) {
    && Windowed(cfg, paths, a.window, b.window)
    && (b.missing < a.missing ==>
          && b.stagnation == 0 && !b.stagnationWarned && !b.auxiliaryWarned && !b.incompleteNudged
          && b.auxiliaries == Helpers(cfg, paths))
    && (b.missing >= a.missing ==>
          && b.stagnationWarned == a.stagnationWarned && b.auxiliaryWarned == a.auxiliaryWarned
          && b.incompleteNudged == a.incompleteNudged && b.auxiliaries == a.auxiliaries + Helpers(cfg, paths)
          && (b.missing == 0 ==> b.stagnation == a.stagnation)
          && (b.missing > 0 ==>
                var n := b.stagnation - a.stagnation;
                n <= changed && n <= Others(cfg, paths) && (n == changed || n == Others(cfg, paths))))
  }

  /** The bookkeeping of a write. */
  ghost predicate RecountedFor(cfg: Config, p: Parsed, changed: nat, a: Coverage, b: Coverage) {
    exists paths :: Names(p.call.name, p.args, paths) && Recounted(cfg, paths, changed, a, b)
  }

  class Session {
    const cfg: Config
    const ws: Workspace
    var messages: History
    var model: Model
    var wrote: nat
    var finished: bool
    var failed: bool  // some error text was recorded
    var idle: nat     // turns since the last changed file, for this model
    var readNudged: bool
    var lengthRecoveries: nat
    var protocolRecoveries: nat
    var exhausted: set<Model>
    var switches: nat
    var marked: seq<Model>  // models reported as unhealthy
    var recent: seq<(string, string)>
    var doomWarned: bool
    var empties: nat
    var window: seq<string>
    var churnWarned: set<string>
    var auxiliaries: set<string>
    var auxiliaryWarned: bool
    var missing: nat
    var stagnation: nat
    var stagnationWarned: bool
    var incompleteNudged: bool
    var planNudged: bool
    var stubNudges: nat
    var verifyDenials: nat
    ghost var trace: Trace

    /** The counters stand for the project. */
    ghost predicate Accounts() reads this`missing, this`wrote, ws {
      && ws.Valid() && ws.rules == cfg.rules
      && missing == |Missing(cfg, ws.files)| && wrote == |ws.log|
    }

    ghost predicate Past() reads this`trace, this`messages, this`exhausted, this`switches {
      PastOk(cfg, trace, messages, exhausted, switches)
    }

    /** The session may go on. */
    ghost predicate Going()
      reads this`messages, this`model, this`exhausted, this`failed, this`idle, this`trace
      reads this`lengthRecoveries, this`protocolRecoveries, this`stubNudges, this`verifyDenials
    {
      && WellFormed(messages) && !failed
      && lengthRecoveries <= 2 && protocolRecoveries <= 2 && stubNudges <= 2 && verifyDenials <= 2
      && ModelOk(cfg, trace, model, exhausted, idle, lengthRecoveries + protocolRecoveries)
    }

    ghost predicate Valid() reads this, ws { Accounts() && Past() && Going() }

    constructor (cfg: Config, ws: Workspace, model: Model, system: string, prompt: string)
      requires ws.Valid() && ws.rules == cfg.rules && ws.log == []
      ensures Valid() && !finished && !Warned() && this.cfg == cfg && this.ws == ws && fresh(this) && trace == []
      ensures messages == [System(system), User(prompt)] && this.model == model
    {
      this.cfg, this.ws, this.model := cfg, ws, model;
      messages := [System(system), User(prompt)];
      wrote, finished, failed, idle, readNudged := 0, false, false, 0, false;
      lengthRecoveries, protocolRecoveries, exhausted, switches, marked := 0, 0, {}, 0, [];
      recent, doomWarned, empties, window, churnWarned := [], false, 0, [], {};
      auxiliaries, auxiliaryWarned, stagnation, stagnationWarned := {}, false, 0, false;
      missing := |Missing(cfg, ws.files)|;
      incompleteNudged, planNudged, stubNudges, verifyDenials := false, false, 0, 0;
      trace := [];
      new;
      EmptyTrace(messages, cfg.editing, cfg.Limit());
      PlainMessage([], System(system));
      PlainMessage([System(system)], User(prompt));
    }

    /** What the guards on coverage and churn go by. */
    ghost function CoverageNow(): Coverage
      reads this`window, this`missing, this`auxiliaries, this`auxiliaryWarned, this`stagnation
      reads this`stagnationWarned, this`incompleteNudged
    {
      Coverage(window, missing, auxiliaries, auxiliaryWarned, stagnation, stagnationWarned, incompleteNudged)
    }

    ghost function Flags(): (bool, bool, bool)
      reads this`auxiliaryWarned, this`stagnationWarned, this`incompleteNudged
    {
      (auxiliaryWarned, stagnationWarned, incompleteNudged)
    }

    /** A guard after a turn has spoken before, or has just seen the second empty reply. */
    ghost predicate MayGiveUp()
      reads this`doomWarned, this`churnWarned, this`auxiliaryWarned, this`stagnationWarned
      reads this`incompleteNudged, this`empties
    {
      doomWarned || churnWarned != {} || Flags() != (false, false, false) || empties >= EmptyLimit
    }

    /** Something went wrong in an earlier turn. */
    ghost predicate Warned()
      reads this`doomWarned, this`churnWarned, this`auxiliaryWarned, this`stagnationWarned
      reads this`incompleteNudged, this`empties
      reads this`lengthRecoveries, this`protocolRecoveries
    {
      MayGiveUp() || empties > 0 || lengthRecoveries > 0 || protocolRecoveries > 0
    }

    // ---- talking to the model ----------------------------------------------------------------------------

    /** Appends a message that neither makes calls nor answers one. */
    method Say(m: Msg)
      requires Past() && WellFormed(messages) && !m.Tool? && Calls(m) == []
      modifies this`messages
      ensures Past() && WellFormed(messages) && messages == old(messages) + [m]
    {
      hide WellFormed, PastOk, Calls;
      PlainMessage(messages, m);
      GrowsByAppending(messages, [m]);
      PastGrows(cfg, trace, messages, exhausted, switches, messages + [m]);
      messages := messages + [m];
    }

    /** Says something to the model before the next pass. */
    method Nudge(text: string)
      requires Past() && Going()
      modifies this`messages
      ensures Past() && Going() && messages == old(messages) + [User(text)]
    {
      hide WellFormed, PastOk, ModelOk;
      PlainUser(text);
      Say(User(text));
    }

    /** The retry engine tries models in turn. */
    method Send(tried: seq<Model>, sent: History)
      requires Past() && Going() && SameShape(messages, sent) && EditedCopy(messages, cfg.editing, sent)
      modifies this`trace
      ensures Past() && Going() && trace == old(trace) + Asked(tried, exhausted, sent)
    {
      hide WellFormed, PastOk, ModelOk, SameShape, EditedCopy, Asked;
      AskedNone(exhausted, sent);
      for i := 0 to |tried|
        invariant Past() && Going() && trace == old(trace) + Asked(tried[..i], exhausted, sent)
      {
        var m := tried[i];
        AskedNext(tried, i, exhausted, sent);
        if m !in exhausted {
          RequestStep(cfg, trace, messages, exhausted, switches, model, idle, lengthRecoveries + protocolRecoveries,
                      sent, m);
          trace := trace + [Request(m, sent)];
        }
      }
      assert tried[..|tried|] == tried;
    }

    /** The request of one pass: the shrunk copy of the history goes to the models the retry engine tries, and the model
        that answers is kept. */
    method Ask(pass: Pass) returns (answered: bool, ghost sent: History)
      requires Past() && Going()
      modifies this`trace, this`model
      ensures Past() && Going()
      ensures EditedCopy(messages, cfg.editing, sent) && trace == old(trace) + Asked(pass.tried, exhausted, sent)
      ensures answered <==> pass.tried != [] && pass.tried[|pass.tried| - 1] !in exhausted && !pass.reply.Failure?
      ensures model == if answered then pass.tried[|pass.tried| - 1] else old(model)
    {
      hide WellFormed, PastOk, SameShape, EditsTo, Ahead, Config.Limit, Asked;
      var edited, cut := EditContext(messages, cfg.editing);
      Send(pass.tried, edited);
      sent := edited;
      answered := pass.tried != [] && pass.tried[|pass.tried| - 1] !in exhausted && !pass.reply.Failure?;
      if answered { model := pass.tried[|pass.tried| - 1]; }
    }

    /** The first model on offer that is neither the current one nor exhausted. */
    method Choose(offered: seq<Model>) returns (chosen: Option<Model>)
      ensures chosen.Some? ==> chosen.value in offered && chosen.value != model && chosen.value !in exhausted
      ensures chosen.Some? <==> SomeFresh(offered, model, exhausted)
    {
      for k := 0 to |offered|
        invariant forall j | 0 <= j < k :: offered[j] == model || offered[j] in exhausted
      {
        if offered[k] != model && offered[k] !in exhausted { return Some(offered[k]); }
      }
      chosen := None;
    }

    /** Another model may take over. */
    ghost predicate OtherModel(offered: seq<Model>) reads this`switches, this`model, this`exhausted {
      && cfg.fallbackEnabled && (cfg.maxFallbacks > 0 ==> switches < cfg.maxFallbacks)
      && exists m :: m in offered && m != model && m !in exhausted
    }

    /** Gives the current model up for good. */
    method Abandon(to: Model)
      requires Past() && Going() && (cfg.maxFallbacks > 0 ==> switches < cfg.maxFallbacks)
      requires to != model && to !in exhausted
      modifies this`trace, this`model, this`exhausted, this`switches, this`idle
      ensures Past() && Going() && idle == 0 && model == to && exhausted == old(exhausted) + {old(model)}
      ensures trace == old(trace) + [Switched(old(model), to)]
    {
      hide WellFormed, PastOk, ModelOk;
      SwitchStep(cfg, trace, messages, exhausted, switches, model, idle, lengthRecoveries + protocolRecoveries, to);
      trace := trace + [Switched(model, to)];
      exhausted, switches, model, idle := exhausted + {model}, switches + 1, to, 0;
    }

    method SwitchTo(to: Model)
      requires Past() && Going() && (cfg.maxFallbacks > 0 ==> switches < cfg.maxFallbacks)
      requires to != model && to !in exhausted
      modifies this`trace, this`model, this`exhausted, this`switches, this`marked, this`idle, this`readNudged
      modifies this`recent, this`doomWarned
      ensures Past() && Going() && idle == 0 && model == to && exhausted == old(exhausted) + {old(model)}
      ensures trace == old(trace) + [Switched(old(model), to)] && recent == [] && !doomWarned
      ensures Warned() ==> old(Warned())
      ensures marked == old(marked) + [old(model)]
    {
      hide *;
      marked := marked + [model];
      Abandon(to);
      StartOver();
    }

    /** Forgets what was held against the model. */
    method StartOver()
      modifies this`readNudged, this`recent, this`doomWarned
      ensures !readNudged && recent == [] && !doomWarned && (Warned() ==> old(Warned()))
    {
      readNudged, recent, doomWarned := false, [], false;
    }

    /** `_switch_to_fallback` */
    method SwitchToFallback(offered: seq<Model>) returns (done: bool)
      requires Past() && Going()
      modifies this`trace, this`model, this`exhausted, this`switches, this`marked, this`idle, this`readNudged
      modifies this`recent, this`doomWarned
      ensures Past() && Going()
      ensures Warned() ==> old(Warned())
      ensures done ==>
                idle == 0 && model in offered && model != old(model) && exhausted == old(exhausted) + {old(model)}
      ensures done <==> old(OtherModel(offered))
      ensures done ==> trace == old(trace) + [Switched(old(model), model)] && recent == [] && !doomWarned
      ensures marked == if done then old(marked) + [old(model)] else old(marked)
      ensures !done ==>
                idle == old(idle) && exhausted == old(exhausted) && trace == old(trace) && doomWarned == old(doomWarned)
    {
      hide PastOk, ModelOk, WellFormed;
      done := false;
      if cfg.fallbackEnabled && (cfg.maxFallbacks > 0 ==> switches < cfg.maxFallbacks) {
        var chosen := Choose(offered);
        if chosen.Some? {
          SwitchTo(chosen.value);
          done := true;
        }
      }
    }

    // ---- running tools -----------------------------------------------------------------------------------

    /** Bookkeeping after a call that changed files at `paths`. */
    method CountChange(paths: seq<string>, changed: nat)
      modifies this`window, this`missing, this`auxiliaries, this`auxiliaryWarned
      modifies this`stagnation, this`stagnationWarned, this`incompleteNudged
      ensures FlagsFall(old(Flags()), Flags()) && missing == |Missing(cfg, ws.files)|
      ensures Recounted(cfg, paths, changed, old(CoverageNow()), CoverageNow())
    {
      hide Missing, Others, Helpers, Last, Normals, Windowed;
      WindowOf(cfg, paths, window);
      window := Last(window + Normals(cfg, paths), ChurnWindow);
      var current := |Missing(cfg, ws.files)|;
      if current < missing {
        auxiliaries, auxiliaryWarned, stagnation, stagnationWarned, incompleteNudged := {}, false, 0, false, false;
      } else if current > 0 {
        var others := CountOthers(paths);
        stagnation := stagnation + if others < changed then others else changed;
      }
      missing := current;
      AddHelpers(paths);
    }

    method CountOthers(paths: seq<string>) returns (others: nat)
      ensures others == Others(cfg, paths)
    {
      others := 0;
      for i := 0 to |paths|
        invariant others == Others(cfg, paths[..i])
      {
        assert paths[..i + 1][..i] == paths[..i];
        if !cfg.auxiliary(cfg.normal(paths[i])) { others := others + 1; }
      }
      assert paths[..|paths|] == paths;
    }

    method AddHelpers(paths: seq<string>)
      modifies this`auxiliaries
      ensures auxiliaries == old(auxiliaries) + Helpers(cfg, paths)
    {
      for i := 0 to |paths|
        invariant auxiliaries == old(auxiliaries) + Helpers(cfg, paths[..i])
      {
        assert paths[..i + 1][..i] == paths[..i];
        var target := cfg.rules.confine(paths[i]);
        if target.Some? && target.value !in cfg.planned && cfg.auxiliary(cfg.normal(paths[i])) {
          auxiliaries := auxiliaries + {cfg.normal(paths[i])};
        }
      }
      assert paths[..|paths|] == paths;
    }

    /** One call of a batch.  Its body leaves the conversation only when the write is fully persisted or when a batch
        reports, as a failure, that all it was allowed to write was there already. */
    method RunCall(p: Parsed) returns (kept: Call, result: Result, toolFailed: bool)
      requires Accounts() && ArgsOk(p.call.name, p.args)
      modifies ws, this`wrote, this`finished, this`recent, this`window, this`missing, this`auxiliaries
      modifies this`auxiliaryWarned
      modifies this`stagnation, this`stagnationWarned, this`incompleteNudged
      ensures Accounts() && wrote >= old(wrote) && old(ws.log) <= ws.log
      ensures wrote == old(wrote) ==> ws.files == old(ws.files) && CoverageNow() == old(CoverageNow())
      ensures wrote > old(wrote) ==>
                RecountedFor(cfg, p, wrote - old(wrote), old(CoverageNow()), CoverageNow())
      ensures finished == (old(finished) || p.call.name == "finish")
      ensures if p.call.name == "finish" then recent == old(recent)
              else LastOf(old(recent) + [(p.call.name, p.call.arguments)], recent, 3)
      ensures Follows(cfg.rules, p, result, old(ws.files), ws.files)
      ensures FlagsFall(old(Flags()), Flags())
      ensures kept == Kept(p, result, cfg.codec, cfg.rules.rc)
      ensures kept != p.call ==>
                && p.call.name in {"write_file", "write_files"}
                && (!toolFailed <==> FullyPersisted(cfg.rules, p.call.name, p.args, ws.files))
                && (toolFailed ==> result == OkUnchangedBatch)
                && (toolFailed <==> p.call.name == "write_files" && QuietRefusal(cfg.rules, p.args, old(ws.files)))
      ensures p.call.name == "write_files" && QuietRefusal(cfg.rules, p.args, old(ws.files)) ==>
                toolFailed && result == OkUnchangedBatch
    {
      hide Missing, HistoryOf, FullyPersisted, Recounted, LastCalls, Leaves, Kept, LastOf, Names;
      hide Confirmed, CallLeaves, CallRefused, Tells;
      hide QuietRefusal, PathsOf, IsReceipt, ArgsOk, FlagsFall, EditRefused, WriteRefused, BatchRefused;
      FlagsStay(Flags());
      kept, result, toolFailed := p.call, Ok, false;
      ghost var before := ws.files;
      if p.call.name == "finish" {
        finished := true;
        FinishFollows(cfg.rules, p, before);
        NothingCompacted(p, result, cfg.codec, cfg.rules.rc);
        return;
      }
      var changed: nat;
      result, changed, toolFailed := ws.RunTool(p.call.name, p.args);
      if changed > 0 {
        wrote := wrote + changed;
        NamesOf(p.call.name, p.args);
        CountChange(PathsOf(p.call.name, p.args), changed);
      }
      LastThree(recent + [(p.call.name, p.call.arguments)]);
      recent := LastCalls(recent + [(p.call.name, p.call.arguments)]);
      if p.call.name in {"write_file", "write_files"} {
        var saved: nat;
        kept, saved := CompactWriteCall(p, result, cfg.codec, cfg.rules.rc);
        KeptShape(p, result, cfg.codec, cfg.rules.rc);
      } else {
        NothingCompacted(p, result, cfg.codec, cfg.rules.rc);
      }
    }

    /** A validated batch: the calls join the conversation together with their results, one by one. */
    method RunBatch(text: string, calls: seq<Parsed>) returns (ghost results: seq<Result>)
      requires Accounts() && Past() && Going()
      requires DistinctIds(calls) && forall p | p in calls :: ArgsOk(p.call.name, p.args)
      modifies ws, this`wrote, this`finished, this`recent, this`window, this`missing, this`auxiliaries
      modifies this`auxiliaryWarned
      modifies this`stagnation, this`stagnationWarned, this`incompleteNudged, this`messages
      ensures Accounts() && Past() && Going()
      ensures wrote >= old(wrote) && old(ws.log) <= ws.log
      ensures finished <==> old(finished) || exists k :: 0 <= k < |calls| && calls[k].call.name == "finish"
      ensures FlagsFall(old(Flags()), Flags())
      ensures |old(messages)| <= |messages| && messages[..|old(messages)|] == old(messages)
      ensures IsBatch(cfg, text, calls, results, messages[|old(messages)|..])
      ensures BatchRuns(cfg.rules, calls, results, old(ws.files), ws.files)
    {
      hide *;
      GoingMeans();
      BatchStarts(cfg.rules, calls, ws.files);
      var base := messages;
      var current := seq(|calls|, i requires 0 <= i < |calls| => calls[i].call);
      var answers: History := [];
      results := [];
      messages := base + [Assistant(text, current)];
      AnswerNone(cfg, calls, current);
      FlagsStay(Flags());
      for k := 0 to |calls|
        invariant Accounts() && wrote >= old(wrote) && old(ws.log) <= ws.log
        invariant finished <==> old(finished) || exists j :: 0 <= j < k && calls[j].call.name == "finish"
        invariant |current| == |calls| && Answering(cfg, calls, current, results, answers, k)
        invariant FlagsFall(old(Flags()), Flags()) && messages == base + [Assistant(text, current)] + answers
        invariant BatchRuns(cfg.rules, calls[..k], results, old(ws.files), ws.files)
      {
        ghost var flags, between := Flags(), ws.files;
        var kept, result, _ := RunCall(calls[k]);
        FlagsKeepFalling(old(Flags()), flags, Flags());
        BatchGoesOn(cfg.rules, calls, k, results, result, old(ws.files), between, ws.files);
        KeptShape(calls[k], result, cfg.codec, cfg.rules.rc);
        AnswerNext(cfg, calls, current, results, answers, k, result);
        current := current[k := kept];
        answers := answers + [Tool(kept.id, cfg.render(result))];
        results := results + [result];
        messages := base + [Assistant(text, current)] + answers;
      }
      assert calls[..|calls|] == calls;
      BatchAnswered(cfg, base, text, calls, current, results, answers);
      Continued();
    }

    /** The history may grow, as long as it is well-formed. */
    twostate lemma Continued()
      requires old(Past()) && old(Going()) && WellFormed(messages) && Grows(old(messages), messages)
      requires unchanged(`trace) && unchanged(`exhausted) && unchanged(`switches) && unchanged(`model)
      requires unchanged(`failed)
      requires unchanged(`idle) && unchanged(`lengthRecoveries) && unchanged(`protocolRecoveries)
      requires unchanged(`stubNudges) && unchanged(`verifyDenials)
      ensures Past() && Going()
    {
      hide WellFormed, PastOk, ModelOk, Grows;
      PastGrows(cfg, trace, old(messages), exhausted, switches, messages);
    }

    // ---- one reply ---------------------------------------------------------------------------------------

    /** Records a reply; what it leaves of the model's turns depends on what came of it. */
    ghost method Note(changed: bool)
      requires Past() && Going() && idle < cfg.Limit()
      modifies this`trace
      ensures Past() && trace == old(trace) + [Reply(changed)]
      ensures var r := lengthRecoveries + protocolRecoveries;
              && (changed ==> ModelOk(cfg, trace, model, exhausted, 0, r))
              && (!changed ==> ModelOk(cfg, trace, model, exhausted, idle + 1, r))
              && (!changed ==> ModelOk(cfg, trace, model, exhausted, idle, r + 1))
    {
      hide WellFormed, PastOk, ModelOk;
      ReplyStep(cfg, trace, messages, exhausted, switches, model, idle, lengthRecoveries + protocolRecoveries, changed);
      trace := trace + [Reply(changed)];
    }

    /** A reply cut short: the model may go on, twice a session. */
    method TakeTruncated(text: string) returns (next: Next)
      requires Past() && Going() && idle < cfg.Limit()
      modifies this`trace, this`lengthRecoveries, this`messages, this`failed
      ensures next.Stop? ==> old(Warned())
      ensures Past() && (next.Again? ==> Going()) && (next.Stop? <==> failed) && !next.Proceed?
      ensures (next.Again? <==> old(lengthRecoveries) < 2) && trace == old(trace) + [Reply(false)]
      ensures lengthRecoveries == old(lengthRecoveries) + 1
      ensures messages == if next.Again? then old(messages) + [Assistant(text, []), User("continue")] else old(messages)
    {
      hide WellFormed, PastOk, ModelOk;
      Note(false);
      lengthRecoveries := lengthRecoveries + 1;
      if lengthRecoveries > 2 {
        failed := true;
        return Stop;
      }
      PlainUser("continue");
      PlainAssistant(text);
      Say(Assistant(text, []));
      Say(User("continue"));
      next := Again;
    }

    method RejectBatch() returns (next: Next)
      requires Past() && Going() && idle < cfg.Limit()
      modifies this`trace, this`protocolRecoveries, this`messages, this`failed
      ensures next.Stop? ==> old(Warned())
      ensures Past() && (next.Again? ==> Going() && messages == old(messages) + [User("rejected")]) && !next.Proceed?
      ensures (next.Stop? <==> failed) && (next.Stop? <==> old(protocolRecoveries) == 2)
      ensures (next.Stop? ==> messages == old(messages)) && trace == old(trace) + [Reply(false)]
      ensures protocolRecoveries == old(protocolRecoveries) + 1
    {
      hide WellFormed, PastOk, ModelOk;
      Note(false);
      protocolRecoveries := protocolRecoveries + 1;
      if protocolRecoveries > 2 {
        failed := true;
        return Stop;
      }
      PlainUser("rejected");
      Say(User("rejected"));
      next := Again;
    }

    /** A batch of tool calls.  A rejected one runs no tool and adds no result: it is answered by one user message,
        twice a session. */
    method TakeBatch(text: string, tcs: seq<Json>) returns (next: Next)
      requires Accounts() && Past() && Going() && idle < cfg.Limit() && !finished
      modifies ws, this`wrote, this`finished, this`recent, this`window, this`missing, this`auxiliaries
      modifies this`auxiliaryWarned
      modifies this`stagnation, this`stagnationWarned, this`incompleteNudged, this`messages, this`trace, this`failed
      modifies this`protocolRecoveries, this`empties
      ensures next.Stop? || (next.Proceed? && MayGiveUp()) ==> old(Warned())
      ensures Accounts() && Past() && wrote >= old(wrote)
      ensures next.Proceed? <==> tcs != [] && exists c :: ParsesTo(tcs, cfg.codec, c) && DistinctIds(c)
      ensures next.Proceed? ==> Going() && idle < cfg.Limit() && trace == old(trace) && empties == 0
      ensures next.Proceed? ==>
                && |old(messages)| <= |messages| && messages[..|old(messages)|] == old(messages)
                && BatchFor(cfg, text, tcs, messages[|old(messages)|..], old(ws.files), ws.files)
      ensures !next.Proceed? ==> ws.files == old(ws.files) && ws.log == old(ws.log) && !finished
      ensures !next.Proceed? ==> trace == old(trace) + [Reply(false)]
      ensures next.Again? ==>
                Going() && |messages| == |old(messages)| + 1 && messages[..|old(messages)|] == old(messages)
                              && messages[|old(messages)|].User?
      ensures (next.Stop? <==> failed) && (next.Stop? ==> messages == old(messages))
      ensures next.Stop? <==> !next.Proceed? && old(protocolRecoveries) == 2
      ensures next.Proceed? ==> (finished <==> exists c :: ParsesTo(tcs, cfg.codec, c) && CallsFinish(c))
    {
      hide *;
      var ok, calls := ValidateBatch(tcs, cfg.codec);
      if !ok {
        next := RejectBatch();
        return;
      }
      ghost var results := RunBatch(text, calls);
      FinishIsCalled(tcs, cfg.codec, calls);
      BatchIsFor(cfg, text, tcs, calls, results, messages[|old(messages)|..], old(ws.files), ws.files);
      empties := 0;
      NothingNew();
      GoingMeans();
      next := Proceed;
    }

    twostate lemma NothingNew()
      requires doomWarned == old(doomWarned) && churnWarned == old(churnWarned) && empties == 0
      requires FlagsFall(old(Flags()), Flags())
      ensures MayGiveUp() ==> old(Warned())
    {
    }

    /** A reply without calls finishes the session, unless it is blank. */
    method TakeProse(text: string)
      requires Past() && Going() && !finished
      modifies this`messages, this`finished, this`empties
      ensures MayGiveUp() ==> old(Warned())
      ensures Past() && Going() && (finished <==> !Text.Blank(text)) && (finished ==> empties == 0)
      ensures !finished ==> empties == old(empties) + 1
      ensures messages == old(messages) + [Assistant(text, [])]
    {
      hide WellFormed, PastOk, ModelOk;
      PlainAssistant(text);
      Say(Assistant(text, []));
      if Text.Blank(text) { empties := empties + 1; } else { finished, empties := true, 0; }
    }

    /** The end of a turn, in which the tools have changed files or not. */
    method EndTurn(changed: bool)
      requires Past() && Going() && idle < cfg.Limit()
      modifies this`trace, this`idle, this`readNudged, this`messages
      ensures Past() && Going() && trace == old(trace) + [Reply(changed)]
      ensures idle == if changed then 0 else old(idle) + 1
      ensures messages ==
              old(messages) + if !changed && !finished && !old(readNudged) && idle >= cfg.FeedbackTurns()
                              then [User("read-only progress")] else []
      ensures readNudged <==> !changed && (old(readNudged) || messages != old(messages))
    {
      hide WellFormed, PastOk, ModelOk;
      Note(changed);
      if changed { idle, readNudged := 0, false; } else { idle := idle + 1; }
      if !finished && !readNudged && idle >= cfg.FeedbackTurns() {
        Nudge("read-only progress");
        readNudged := true;
      }
    }

    /** Everything up to the end of the turn. */
    method TakeReply(m: Message) returns (next: Next)
      requires Accounts() && Past() && Going() && idle < cfg.Limit() && !finished
      modifies ws, this`wrote, this`finished, this`recent, this`window, this`missing, this`auxiliaries
      modifies this`auxiliaryWarned
      modifies this`stagnation, this`stagnationWarned, this`incompleteNudged, this`messages, this`trace, this`failed
      modifies this`protocolRecoveries, this`lengthRecoveries, this`empties, this`idle, this`readNudged
      ensures Accounts() && Past() && wrote >= old(wrote)
      ensures next.Proceed? ==> Going()
      ensures next.Again? ==> Going() && !finished
      ensures next.Stop? ==> failed && !finished && (Unfit(m) || old(Warned()))
      ensures next.Proceed? ==> (MayGiveUp() ==> old(Warned()))
      ensures trace == old(trace) + [Reply(wrote > old(wrote))]
      ensures !next.Proceed? ==> ws.files == old(ws.files) && ws.log == old(ws.log) && wrote == old(wrote)
      ensures next.Proceed? <==> TakesCalls(cfg, m) || TakesProse(m)
      ensures next.Stop? <==> || Unfit(m) || (FinishedBy(m, "length") && old(lengthRecoveries) == 2)
                              || (!FinishedBy(m, "length") && !next.Proceed? && old(protocolRecoveries) == 2)
      ensures (finished <==> AsksToEnd(cfg, m)) && ReplyLeaves(cfg, m, old(ws.files), ws.files)
      ensures next.Proceed? ==>
                && |old(messages)| <= |messages| && messages[..|old(messages)|] == old(messages)
                && Heard(cfg, m, messages[|old(messages)|..], old(ws.files), ws.files)
    {
      hide *;
      GoingMeans();
      ReplyKinds(cfg, m);
      if Unfit(m) {
        Note(false);
        failed := true;
        return Stop;
      }
      if FinishedBy(m, "length") {
        next := TakeTruncated(TextOf(m));
        return;
      }
      var before := wrote;
      WroteIsLogged();
      CallsMean(m);
      if HasCalls(m) {
        next := TakeBatch(TextOf(m), m.calls.items);
        WroteIsLogged();
        if !next.Proceed? { return; }
      } else {
        TakeProse(TextOf(m));
      }
      ghost var spoken := messages;
      EndTurn(wrote > before);
      HeardIf(cfg, m, old(messages), spoken, messages, old(ws.files), ws.files);
      next := Proceed;
    }

    // ---- guards after a turn -----------------------------------------------------------------------------

    /** The same call three times over: a warning, then another model. */
    method CheckDoom(offered: seq<Model>) returns (next: Next)
      requires Past() && Going()
      modifies this`trace, this`model, this`exhausted, this`switches, this`marked, this`idle, this`readNudged
      modifies this`recent, this`doomWarned
      modifies this`messages, this`failed
      ensures next.Stop? || (next.Proceed? && MayGiveUp()) ==> old(MayGiveUp())
      ensures Past() && (next.Stop? <==> failed) && (!next.Stop? ==> Going())
      ensures next.Proceed? <==> finished || !exists call :: old(recent) == [call, call, call]
      ensures !next.Proceed? && !old(doomWarned) ==>
                next.Again? && doomWarned && recent == [] && trace == old(trace)
                            && messages == old(messages) + [User("doom loop")]
      ensures !next.Proceed? && old(doomWarned) ==>
                messages == old(messages) && (next.Again? <==> old(OtherModel(offered)))
      ensures next.Proceed? ==> messages == old(messages) && recent == old(recent) && doomWarned == old(doomWarned)
      ensures !next.Again? ==> trace == old(trace)
      ensures next.Again? && old(doomWarned) ==> trace == old(trace) + [Switched(old(model), model)] && recent == []
    {
      hide WellFormed, PastOk, ModelOk, SomeFresh;
      DoomedIff(recent);
      next := Proceed;
      if !finished && Doomed(recent) {
        if doomWarned {
          var switched := SwitchToFallback(offered);
          failed := !switched;
          return if switched then Again else Stop;
        }
        doomWarned, recent := true, [];
        Nudge("doom loop");
        next := Again;
      }
    }

    /** Half of the last sixteen changes on one path: a warning, then the end. */
    method CheckChurn() returns (next: Next)
      requires Past() && Going()
      modifies this`window, this`churnWarned, this`messages, this`failed
      ensures next.Stop? || (next.Proceed? && MayGiveUp()) ==> old(MayGiveUp())
      ensures Past() && (next.Stop? <==> failed) && (!next.Stop? ==> Going())
      ensures next.Proceed? <==> finished || |old(window)| != 16 || forall x :: multiset(old(window))[x] < 8
      ensures next.Proceed? ==> window == old(window) && churnWarned == old(churnWarned)
      ensures !next.Proceed? ==> exists x :: && multiset(old(window))[x] >= 8 && window == []
                                             && (next.Stop? <==> x in old(churnWarned))
                                             && churnWarned == old(churnWarned) + {x}
    {
      hide WellFormed, PastOk, ModelOk;
      ChurningIff(window);
      next := Proceed;
      if !finished && |window| == ChurnWindow {
        var top, count := Dominant(window);
        if count >= ChurnThreshold {
          window := [];
          if top in churnWarned {
            failed := true;
            return Stop;
          }
          churnWarned := churnWarned + {top};
          Nudge("path churn");
          next := Again;
        }
      }
    }

    method CheckAuxiliary() returns (next: Next)
      requires Past() && Going()
      modifies this`auxiliaries, this`auxiliaryWarned, this`messages, this`failed
      ensures next.Stop? || (next.Proceed? && MayGiveUp()) ==> old(MayGiveUp())
      ensures Past() && (next.Stop? <==> failed) && (!next.Stop? ==> Going())
      ensures next.Proceed? <==> finished || missing == 0 || |old(auxiliaries)| < 6
      ensures next.Proceed? ==> auxiliaries == old(auxiliaries) && auxiliaryWarned == old(auxiliaryWarned)
      ensures !next.Proceed? ==> auxiliaries == {} && auxiliaryWarned && (next.Stop? <==> old(auxiliaryWarned))
    {
      hide WellFormed, PastOk, ModelOk;
      next := Proceed;
      if !finished && Sprawling(auxiliaries, missing) {
        auxiliaries := {};
        if auxiliaryWarned {
          failed := true;
          return Stop;
        }
        auxiliaryWarned := true;
        Nudge("auxiliary churn");
        next := Again;
      }
    }

    method CheckCoverage() returns (next: Next)
      requires Past() && Going()
      modifies this`stagnation, this`stagnationWarned, this`messages, this`failed
      ensures next.Stop? || (next.Proceed? && MayGiveUp()) ==> old(MayGiveUp())
      ensures Past() && (next.Stop? <==> failed) && (!next.Stop? ==> Going())
      ensures next.Proceed? <==> finished || missing == 0 || old(stagnation) < 6 || old(stagnation) < missing
      ensures next.Proceed? ==> stagnation == old(stagnation) && stagnationWarned == old(stagnationWarned)
      ensures !next.Proceed? ==> stagnation == 0 && stagnationWarned && (next.Stop? <==> old(stagnationWarned))
    {
      hide WellFormed, PastOk, ModelOk;
      next := Proceed;
      if !finished && Stagnant(stagnation, missing) {
        stagnation := 0;
        if stagnationWarned {
          failed := true;
          return Stop;
        }
        stagnationWarned := true;
        Nudge("planned coverage stalled");
        next := Again;
      }
    }

    /** Stub and verification objections; both give up after two. */
    method Object() returns (next: Next)
      requires Past() && Going()
      modifies this`stubNudges, this`verifyDenials, this`messages
      ensures Past() && Going() && !next.Stop?
      ensures next.Proceed? <==> Unobjectionable(cfg, ws.files, old(stubNudges), old(verifyDenials))
      ensures next.Proceed? ==>
                stubNudges == old(stubNudges) && verifyDenials == old(verifyDenials) && messages == old(messages)
      ensures next.Again? ==> stubNudges + verifyDenials == old(stubNudges) + old(verifyDenials) + 1
    {
      hide WellFormed, PastOk, ModelOk;
      next := Again;
      if cfg.stubNudges && stubNudges < 2 && cfg.looksStub(ws.files) {
        stubNudges := stubNudges + 1;
        Nudge("stub");
      } else if cfg.verifyOnStop && verifyDenials < 2 && cfg.problems(ws.files) {
        verifyDenials := verifyDenials + 1;
        Nudge("verify on stop");
      } else {
        next := Proceed;
      }
    }

    /** With the plan complete, a session that does not finish by itself is finished after one more pass. */
    method CheckConverged() returns (next: Next)
      requires Accounts() && Past() && Going()
      modifies this`planNudged, this`stubNudges, this`verifyDenials, this`messages, this`finished
      ensures Past() && Going() && (old(finished) ==> next.Proceed?)
      ensures next.Proceed? <==> old(finished) || cfg.planned == {} || missing > 0
      ensures !next.Stop? ==> finished == old(finished)
      ensures !next.Proceed? ==> planNudged
      ensures !next.Proceed? ==>
                (next.Stop? <==>
                   old(planNudged) && Acceptable(cfg, ws.files, old(stubNudges), old(verifyDenials)))
      ensures next.Proceed? ==> stubNudges == old(stubNudges) && verifyDenials == old(verifyDenials)
      ensures next.Stop? ==> finished && Acceptable(cfg, ws.files, stubNudges, verifyDenials)
    {
      hide WellFormed, PastOk, ModelOk, HistoryOf, Missing, Acceptable, Unobjectionable;
      next := Proceed;
      if !finished && cfg.planned != {} && missing == 0 {
        if !planNudged {
          planNudged := true;
          Nudge("plan complete");
          return Again;
        }
        AcceptableIff(cfg, ws.files, stubNudges, verifyDenials);
        next := Object();
        if next.Again? { return; }
        finished := true;
        next := Stop;
      }
    }

    method CheckEmpty() returns (next: Next)
      requires Past() && Going()
      modifies this`messages, this`failed
      ensures next.Stop? && failed ==> old(MayGiveUp())
      ensures Past() && (next.Stop? <==> failed) && (!next.Stop? ==> Going())
      ensures next.Proceed? <==> finished || empties == 0
      ensures next.Stop? <==> !finished && empties >= 2
    {
      hide WellFormed, PastOk, ModelOk;
      next := Proceed;
      if !finished && empties > 0 {
        if empties >= EmptyLimit {
          failed := true;
          return Stop;
        }
        Nudge("empty reply");
        next := Again;
      }
    }

    /** The finish gate: it lets a finished session end only in an acceptable state. */
    method CheckFinish() returns (next: Next)
      requires Accounts() && Past() && Going()
      modifies this`incompleteNudged, this`stubNudges, this`verifyDenials, this`messages, this`finished, this`failed
      ensures next.Stop? && failed ==> old(MayGiveUp())
      ensures Past() && !next.Proceed? && (next.Again? ==> Going() && !finished)
      ensures next.Again? && !old(finished) ==> stubNudges == old(stubNudges) && verifyDenials == old(verifyDenials)
      ensures next.Stop? && failed <==> old(finished) && missing > 0 && old(incompleteNudged)
      ensures next.Stop? && finished <==>
              old(finished) && Acceptable(cfg, ws.files, old(stubNudges), old(verifyDenials))
      ensures next.Stop? ==>
                (failed <==> !finished) && (finished ==> Acceptable(cfg, ws.files, stubNudges, verifyDenials))
    {
      hide WellFormed, PastOk, ModelOk, HistoryOf, Missing, Acceptable, Unobjectionable;
      next := Again;
      AcceptableIff(cfg, ws.files, stubNudges, verifyDenials);
      if finished && cfg.planned != {} && missing > 0 {
        finished := false;
        if incompleteNudged {
          failed := true;
          return Stop;
        }
        incompleteNudged := true;
        Nudge("finish denied");
      } else if finished {
        next := Object();
        finished := next.Proceed?;
        if finished { next := Stop; }
      }
    }

    // ---- the loop ----------------------------------------------------------------------------------------

    /** The guards against a session that goes round in circles, in order: only the first that applies acts. */
    method JudgeProgress(offered: seq<Model>) returns (next: Next)
      requires Past() && Going()
      modifies this`trace, this`model, this`exhausted, this`switches, this`marked, this`idle, this`readNudged
      modifies this`recent, this`doomWarned
      modifies this`window, this`churnWarned, this`auxiliaries, this`auxiliaryWarned, this`stagnation
      modifies this`stagnationWarned
      modifies this`messages, this`failed
      ensures Past() && (next.Stop? <==> failed) && (!next.Stop? ==> Going())
      ensures next.Stop? || (next.Proceed? && MayGiveUp()) ==> old(MayGiveUp())
      ensures next.Proceed? <==> || finished
                                 || (&& !Doomed(old(recent)) && !Churning(old(window))
                                     && !Sprawling(old(auxiliaries), missing) && !Stagnant(old(stagnation), missing))
      ensures !finished && Doomed(old(recent)) ==>
                if !old(doomWarned) then next.Again? && doomWarned && recent == []
                else
                  && (next.Again? <==> old(OtherModel(offered)))
                  && (next.Again? ==> trace == old(trace) + [Switched(old(model), model)] && recent == [])
      ensures !finished && !Doomed(old(recent)) && Churning(old(window)) ==>
                exists x :: multiset(old(window))[x] >= 8 && window == []
                            && (next.Stop? <==> x in old(churnWarned)) && churnWarned == old(churnWarned) + {x}
      ensures !finished && !Doomed(old(recent)) && !Churning(old(window)) && Sprawling(old(auxiliaries), missing) ==>
                auxiliaries == {} && auxiliaryWarned && (next.Stop? <==> old(auxiliaryWarned))
      ensures (&& !finished && !Doomed(old(recent)) && !Churning(old(window)) && !Sprawling(old(auxiliaries), missing)
               && Stagnant(old(stagnation), missing)) ==>
                stagnation == 0 && stagnationWarned && (next.Stop? <==> old(stagnationWarned))
      ensures trace == old(trace) || trace == old(trace) + [Switched(old(model), model)]
    {
      hide *;
      GuardsMean(recent, window, auxiliaries, stagnation, missing);
      next := CheckDoom(offered);
      if next.Proceed? { next := CheckChurn(); }
      if next.Proceed? { next := CheckAuxiliary(); }
      if next.Proceed? { next := CheckCoverage(); }
    }

    /** The guards after a turn: those against going round in circles, then those that decide the end. */
    method Judge(offered: seq<Model>) returns (next: Next)
      requires Accounts() && Past() && Going()
      modifies this`trace, this`model, this`exhausted, this`switches, this`marked, this`idle, this`readNudged
      modifies this`recent, this`doomWarned
      modifies this`window, this`churnWarned, this`auxiliaries, this`auxiliaryWarned, this`stagnation
      modifies this`stagnationWarned
      modifies this`planNudged, this`incompleteNudged, this`stubNudges, this`verifyDenials
      modifies this`messages, this`finished, this`failed
      ensures Past() && !next.Proceed? && (next.Again? ==> Going() && !finished)
      ensures next.Stop? ==>
                (failed <==> !finished) && (finished ==> Acceptable(cfg, ws.files, stubNudges, verifyDenials))
      ensures (&& !old(finished)
               && (|| Doomed(old(recent)) || Churning(old(window))
                   || Sprawling(old(auxiliaries), missing) || Stagnant(old(stagnation), missing))) ==> !finished
      ensures trace == old(trace) || trace == old(trace) + [Switched(old(model), model)]
      ensures next.Stop? && failed ==> old(MayGiveUp())
      ensures old(finished) ==>
                && (finished <==> Acceptable(cfg, ws.files, old(stubNudges), old(verifyDenials)))
                && (failed <==> missing > 0 && old(incompleteNudged))
      ensures !old(finished) && finished ==> cfg.planned != {} && old(planNudged)
      ensures !old(finished) && Doomed(old(recent)) ==>
                (next.Stop? <==> old(doomWarned) && !old(OtherModel(offered)))
      ensures !old(finished) && !Doomed(old(recent)) && Churning(old(window)) ==>
                exists x :: multiset(old(window))[x] >= 8 && (next.Stop? <==> x in old(churnWarned))
      ensures !old(finished) && !Doomed(old(recent)) && !Churning(old(window)) ==>
                && (Sprawling(old(auxiliaries), missing) ==> (next.Stop? <==> old(auxiliaryWarned)))
                && (!Sprawling(old(auxiliaries), missing) && Stagnant(old(stagnation), missing) ==>
                      (next.Stop? <==> old(stagnationWarned)))
                && (cfg.planned != {} && missing == 0 ==>
                      (next.Stop? <==>
                         old(planNudged) && Acceptable(cfg, ws.files, old(stubNudges), old(verifyDenials))))
                && (!Sprawling(old(auxiliaries), missing) && !Stagnant(old(stagnation), missing) ==>
                      (cfg.planned == {} || missing > 0 ==> (next.Stop? <==> empties >= 2)))
    {
      hide *;
      GuardsMean(recent, window, auxiliaries, stagnation, missing);
      next := JudgeProgress(offered);
      if next.Proceed? { next := JudgeEnd(); }
    }

    /** The guards that decide the end. */
    method JudgeEnd() returns (next: Next)
      requires Accounts() && Past() && Going()
      modifies this`planNudged, this`incompleteNudged, this`stubNudges, this`verifyDenials
      modifies this`messages, this`finished, this`failed
      ensures Past() && !next.Proceed? && (next.Again? ==> Going() && !finished)
      ensures next.Stop? ==>
                (failed <==> !finished) && (finished ==> Acceptable(cfg, ws.files, stubNudges, verifyDenials))
      ensures next.Stop? && failed ==> old(MayGiveUp())
      ensures old(finished) ==>
                && (finished <==> Acceptable(cfg, ws.files, old(stubNudges), old(verifyDenials)))
                && (failed <==> missing > 0 && old(incompleteNudged))
      ensures !old(finished) && finished ==> cfg.planned != {} && old(planNudged)
      ensures !old(finished) && cfg.planned != {} && missing == 0 ==>
                (next.Stop? <==> old(planNudged) && Acceptable(cfg, ws.files, old(stubNudges), old(verifyDenials)))
      ensures !old(finished) && (cfg.planned == {} || missing > 0) ==> (next.Stop? <==> empties >= 2)
    {
      hide *;
      next := CheckConverged();
      if !next.Proceed? { GoingMeans(); return; }
      next := CheckEmpty();
      if next.Proceed? { next := CheckFinish(); }
      if next.Again? { GoingMeans(); }
    }

    lemma GoingMeans()
      requires Going()
      ensures !failed && WellFormed(messages) && lengthRecoveries <= 2 && protocolRecoveries <= 2
    {
    }

    /** One pass of the loop.  `arrived` says that a reply came in, `sent` is what the models were asked, and `switched`
        that the pass ended by giving the model up. */
    method Step(pass: Pass) returns (next: Next, ghost arrived: bool, ghost sent: History, ghost switched: bool)
      requires Accounts() && Past() && Going() && !finished
      modifies this, ws
      ensures Accounts() && Past() && !next.Proceed? && (next.Again? ==> Going() && !finished)
      ensures next.Stop? ==>
                (failed <==> !finished) && (finished ==> Acceptable(cfg, ws.files, stubNudges, verifyDenials))
      ensures pass.late ==> next.Stop? && trace == old(trace)
      ensures !pass.late && old(idle) == cfg.Limit() ==>
                trace == if next.Again? then old(trace) + [Switched(old(model), model)] else old(trace)
      ensures pass.late || old(idle) == cfg.Limit() ==>
                ws.files == old(ws.files) && ws.log == old(ws.log) && messages == old(messages)
      ensures !pass.late && old(idle) < cfg.Limit() ==>
                && EditedCopy(old(messages), cfg.editing, sent) && (switched ==> Answered(pass, old(exhausted)))
                && trace == old(trace) + PassTicks(pass, old(exhausted), sent, |ws.log| > |old(ws.log)|)
                            + if switched then [Switched(pass.tried[|pass.tried| - 1], model)] else []
      ensures arrived <==> !pass.late && old(idle) < cfg.Limit() && Answered(pass, old(exhausted))
      ensures Replies(trace) == Replies(old(trace)) + if arrived then [|ws.log| > |old(ws.log)|] else []
      ensures PassAdds(cfg, pass, old(trace), trace, if arrived then Some(|ws.log| > |old(ws.log)|) else None)
      ensures next.Again? ==> arrived || (!pass.late && trace == old(trace) + [Switched(old(model), model)])
      ensures next.Stop? ==> if finished then arrived else !arrived || NoUse(pass.reply) || old(Warned())
      ensures Warned() ==> arrived || old(Warned())
      ensures PassLeaves(cfg, pass, arrived, old(ws.files), ws.files)
      ensures arrived && Ends(cfg, pass) ==>
                (finished <==> Acceptable(cfg, ws.files, old(stubNudges), old(verifyDenials)))
      ensures finished ==> next.Stop? && (Ends(cfg, pass) || (cfg.planned != {} && old(planNudged)))
    {
      hide *;
      PassMeans(cfg, pass);
      next, sent, switched := Stop, [], false;
      arrived := !pass.late && idle < cfg.Limit() && Answered(pass, exhausted);
      ghost var tried, t0, before := exhausted, trace, |ws.log|;
      TurnsLeft();
      if pass.late {
        failed := true;
        NothingAdded(cfg, pass, t0);
      } else if idle >= cfg.MaxTurns() || (cfg.noWriteTurns > 0 && idle >= cfg.noWriteTurns) {
        var done := SwitchToFallback(pass.offered);
        failed, switched := !done, done;
        if done {
          next := Again;
          SwitchIsNoReply(t0, trace[|t0|]);
        }
        RestAdds(cfg, pass, t0, trace);
      } else {
        TriedIsAbandoned();
        next, sent, switched := Turn(pass);
        AnsweredMeans(pass, tried);
        PassReplies(t0, pass, tried, sent, |ws.log| > before, switched, model, trace);
        TurnAdds(cfg, pass, t0, tried, sent, |ws.log| > before, switched, model, trace);
      }
    }

    /** A model that has used up its turns has that many fruitless replies. */
    lemma TurnsLeft()
      requires Going()
      ensures !failed && idle <= cfg.Limit()
      ensures idle >= cfg.MaxTurns() || (cfg.noWriteTurns > 0 && idle >= cfg.noWriteTurns) <==> idle == cfg.Limit()
      ensures idle == cfg.Limit() ==> Fruitless(trace) >= cfg.Limit()
    {
    }

    lemma TriedIsAbandoned()
      requires Past()
      ensures exhausted == Abandoned(trace)
    {
    }

    /** A pass that makes a request. */
    method Turn(pass: Pass) returns (next: Next, ghost sent: History, ghost switched: bool)
      requires Accounts() && Past() && Going() && !finished && idle < cfg.Limit()
      modifies this, ws
      ensures Accounts() && Past() && !next.Proceed? && (next.Again? ==> Going() && !finished)
      ensures next.Stop? ==>
                (failed <==> !finished) && (finished ==> Acceptable(cfg, ws.files, stubNudges, verifyDenials))
      ensures EditedCopy(old(messages), cfg.editing, sent) && (switched ==> Answered(pass, old(exhausted)))
      ensures trace == old(trace) + PassTicks(pass, old(exhausted), sent, |ws.log| > |old(ws.log)|)
                       + if switched then [Switched(pass.tried[|pass.tried| - 1], model)] else []
      ensures !Answered(pass, old(exhausted)) ==> next.Stop? && !finished && (Warned() ==> old(Warned()))
      ensures next.Stop? && !finished && Answered(pass, old(exhausted)) ==> NoUse(pass.reply) || old(Warned())
      ensures PassLeaves(cfg, pass, Answered(pass, old(exhausted)), old(ws.files), ws.files)
      ensures Answered(pass, old(exhausted)) && Ends(cfg, pass) ==>
                (finished <==> Acceptable(cfg, ws.files, old(stubNudges), old(verifyDenials)))
      ensures finished ==>
                && next.Stop? && Answered(pass, old(exhausted))
                && (Ends(cfg, pass) || (cfg.planned != {} && old(planNudged)))
    {
      hide *;
      PassMeans(cfg, pass);
      next, switched := Stop, false;
      ghost var t0, tried, before := trace, exhausted, |ws.log|;
      WroteIsLogged();
      var answered: bool;
      answered, sent := Ask(pass);
      TicksOfPass(t0, pass, tried, sent);
      UseOf(pass.reply);
      if !answered {
        failed := true;
        return;
      }
      if pass.reply.Unusable? {
        Note(false);
        failed := true;
        return;
      }
      next := TakeReply(pass.reply.message);
      WroteIsLogged();
      if next.Proceed? {
        ghost var t1 := trace;
        next := Judge(pass.offered);
        switched := trace != t1;
      }
    }

    lemma WroteIsLogged()
      requires Accounts()
      ensures wrote == |ws.log|
    {
    }

    /** A run, for however long the provider keeps it going.  Of every pass that was made, `arrivals` says whether a
        reply came in and then whether its turn changed a file, and `marks` what the trace was after it.  A run that
        reports success wrote files, and leaves the project in an acceptable state. */
    method Run(passes: seq<Pass>)
      returns (report: Report, ghost arrivals: seq<Option<bool>>, ghost marks: seq<Trace>, ghost lefts: seq<Files>,
               ghost gaveUp: bool)
      requires Accounts() && Past() && Going() && !finished && ws.log == [] && trace == [] && !Warned()
      modifies this, ws
      ensures Past() && Accounts()
      ensures report.ok <==> finished && wrote > 0
      ensures report.completed <==> finished
      ensures report.ok ==>
                !failed && forall p | p in cfg.planned :: p in ws.files && !cfg.rules.rc.receiptBody(ws.files[p])
      ensures report.ok && cfg.stubNudges && stubNudges < 2 ==> !cfg.looksStub(ws.files)
      ensures report.ok && cfg.verifyOnStop && verifyDenials < 2 ==> !cfg.problems(ws.files)
      ensures report.filesWritten == |ws.log| && report.switches == Switches(trace) == |exhausted|
      ensures |arrivals| <= |passes| && Replies(trace) == Somes(arrivals)
      ensures Made(cfg, passes, arrivals, marks) && trace == marks[|marks| - 1]
      ensures |arrivals| < |passes| ==> finished || gaveUp
      ensures finished || gaveUp ==> arrivals != [] && EndsFor(cfg, passes[|arrivals| - 1], arrivals, finished)
      ensures Worked(cfg, passes, arrivals, lefts) && lefts[0] == old(ws.files) && ws.files == lefts[|arrivals|]
      ensures cfg.maxFallbacks > 0 ==> report.switches <= cfg.maxFallbacks
      ensures RequestsOk(trace, messages, cfg.editing) && NeverAgain(trace)
      ensures StretchesBounded(trace, cfg.Limit()) && IdleBounded(Somes(arrivals), report.switches, cfg.Limit())
    {
      hide *;
      arrivals, marks, lefts := [], [[]], [ws.files];
      NoReplies();
      NoneMade(cfg, passes);
      NoneWorked(cfg, passes, ws.files);
      GoingMeans();
      for k := 0 to |passes|
        invariant Accounts() && Past() && Going() && !finished
        invariant |arrivals| == k && Replies(trace) == Somes(arrivals) && (Warned() ==> Somes(arrivals) != [])
        invariant Made(cfg, passes, arrivals, marks) && marks != [] && trace == marks[|marks| - 1]
        invariant k > 0 ==> GoesOn(passes[k - 1], arrivals[k - 1], marks)
        invariant Worked(cfg, passes, arrivals, lefts) && |lefts| == k + 1 && ws.files == lefts[k]
        invariant lefts[0] == old(ws.files) && !failed
      {
        ghost var before := |ws.log|;
        ghost var t0 := trace;
        var next, arrived, _, _ := Step(passes[k]);
        ghost var arrival := if arrived then Some(|ws.log| > before) else None;
        SomesSnoc(arrivals, arrival);
        MadeNext(cfg, passes, arrivals, marks, arrival, trace);
        EndsMeans(cfg, passes[k], arrivals, arrival, finished);
        WorkedNext(cfg, passes, arrivals, lefts, arrival, ws.files);
        GoesOnMeans(passes[k], arrival, marks, trace);
        arrivals, marks, lefts := arrivals + [arrival], marks + [trace], lefts + [ws.files];
        if next.Stop? { break; }
        GoingMeans();
      }
      gaveUp := failed;
      if !finished { failed := true; }
      Counts();
      AcceptableMeans(cfg, ws.files, stubNudges, verifyDenials);
      CourseOfASession(cfg, trace, messages, exhausted, switches);
      report := Report(finished && wrote > 0 && !failed, finished, wrote, switches);
    }

    lemma Counts()
      requires Accounts() && Past()
      ensures wrote == |ws.log| && switches == Switches(trace) == |exhausted|
      ensures PastOk(cfg, trace, messages, exhausted, switches)
    {
    }
  }

  predicate FlagsFall(a: (bool, bool, bool), b: (bool, bool, bool)) { (b.0 ==> a.0) && (b.1 ==> a.1) && (b.2 ==> a.2) }

  lemma FlagsStay(a: (bool, bool, bool))
    ensures FlagsFall(a, a)
  {
  }

  lemma FlagsKeepFalling(a: (bool, bool, bool), b: (bool, bool, bool), c: (bool, bool, bool))
    requires FlagsFall(a, b) && FlagsFall(b, c)
    ensures FlagsFall(a, c)
  {
  }

  predicate Unobjectionable(cfg: Config, files: Files, stubNudges: nat, verifyDenials: nat) {
    && (cfg.stubNudges && stubNudges < 2 ==> !cfg.looksStub(files))
    && (cfg.verifyOnStop && verifyDenials < 2 ==> !cfg.problems(files))
  }

  /** What the invariant of a session means for its course: every request was well-formed; a model was given up at most
      once, and never asked again; and a stretch without a changed file is bounded. */
  lemma CourseOfASession(cfg: Config, trace: Trace, messages: History, exhausted: set<Model>, switches: nat)
    requires PastOk(cfg, trace, messages, exhausted, switches)
    ensures RequestsOk(trace, messages, cfg.editing) && NeverAgain(trace)
    ensures StretchesBounded(trace, cfg.Limit()) && IdleBounded(Replies(trace), switches, cfg.Limit())
    ensures cfg.maxFallbacks > 0 ==> switches <= cfg.maxFallbacks
  {
    BoundedMeans(trace, cfg.Limit());
  }

  /** A reply comes in. */
  predicate Answered(pass: Pass, exhausted: set<Model>) {
    pass.tried != [] && pass.tried[|pass.tried| - 1] !in exhausted && !pass.reply.Failure?
  }

  lemma AnsweredMeans(pass: Pass, exhausted: set<Model>)
    ensures Answered(pass, exhausted) ==> pass.tried != [] && pass.reply != Failure
  {
  }

  /** A reply that no turn can be made of. */
  predicate NoUse(reply: Reply) { reply.Unusable? || (reply.Usable? && Unfit(reply.message)) }

  lemma UseOf(reply: Reply)
    ensures NoUse(reply) <==> reply.Unusable? || (reply.Usable? && Unfit(reply.message))
  {
  }

  /** What a pass adds to the trace, and whether a reply came in.  A pass that comes too late adds nothing; one whose
      model has used up its turns at most gives it up; any other asks the models that are not exhausted, takes the
      reply if the last of them gives one, and may then give that model up. */
  ghost predicate PassAdds(cfg: Config, pass: Pass, before: Trace, after: Trace, arrival: Option<bool>) {
    || (pass.late && arrival.None? && after == before)
    || (!pass.late && arrival.None? && Fruitless(before) >= cfg.Limit() && MaySwitch(before, after))
    || (&& !pass.late && (arrival.Some? <==> Answered(pass, Abandoned(before)))
        && Turned(pass, before, arrival == Some(true), after))
  }

  ghost predicate MaySwitch(t: Trace, t': Trace) { t' == t || exists from :: GivesUp(t, from, t') }

  ghost predicate GivesUp(t: Trace, from: Model, t': Trace) { exists to :: t' == t + [Switched(from, to)] }

  ghost predicate Turned(pass: Pass, before: Trace, changed: bool, after: Trace) {
    exists sent :: TurnTrace(pass, before, sent, changed, after)
  }

  ghost predicate TurnTrace(pass: Pass, before: Trace, sent: History, changed: bool, after: Trace) {
    var exhausted := Abandoned(before);
    var turn := before + PassTicks(pass, exhausted, sent, changed);
    after == turn || (Answered(pass, exhausted) && GivesUp(turn, pass.tried[|pass.tried| - 1], after))
  }

  lemma NoneChanged(pass: Pass, exhausted: set<Model>, sent: History)
    ensures !Answered(pass, exhausted) ==>
              PassTicks(pass, exhausted, sent, true) == PassTicks(pass, exhausted, sent, false)
  {
  }

  lemma NothingAdded(cfg: Config, pass: Pass, t: Trace)
    requires pass.late
    ensures PassAdds(cfg, pass, t, t, None)
  {
  }

  lemma RestAdds(cfg: Config, pass: Pass, t: Trace, t': Trace)
    requires !pass.late && Fruitless(t) >= cfg.Limit()
    requires t' == t || (|t'| == |t| + 1 && t'[..|t|] == t && t'[|t|].Switched?)
    ensures PassAdds(cfg, pass, t, t', None)
  {
    hide Fruitless, Abandoned, Config.Limit, TurnTrace, Answered;
    if t' != t {
      assert t' == t + [Switched(t'[|t|].from, t'[|t|].to)];
      assert GivesUp(t, t'[|t|].from, t');
    }
  }

  lemma TurnAdds(cfg: Config, pass: Pass, t: Trace, exhausted: set<Model>, sent: History, changed: bool, switched: bool,
                 to: Model, t': Trace)
    requires !pass.late && exhausted == Abandoned(t) && (switched ==> Answered(pass, exhausted) && pass.tried != [])
    requires t' == t + PassTicks(pass, exhausted, sent, changed)
                   + if switched then [Switched(pass.tried[|pass.tried| - 1], to)] else []
    ensures PassAdds(cfg, pass, t, t', if Answered(pass, exhausted) then Some(changed) else None)
  {
    hide Abandoned, Asked, Config.Limit, Fruitless, PassTicks;
    NoneChanged(pass, exhausted, sent);
    assert TurnTrace(pass, t, sent, Answered(pass, exhausted) && changed, t');
  }

  /** The passes made so far, with the trace before the first and after each. */
  ghost predicate Made(cfg: Config, passes: seq<Pass>, arrivals: seq<Option<bool>>, marks: seq<Trace>) {
    && |arrivals| <= |passes| && |marks| == |arrivals| + 1 && marks[0] == []
    && (forall k | 0 <= k < |arrivals| :: PassAdds(cfg, passes[k], marks[k], marks[k + 1], arrivals[k]))
    && (forall k | 0 <= k < |arrivals| - 1 :: GoesOn(passes[k], arrivals[k], marks[..k + 2]))
  }

  /** A pass with another one to follow: a reply came in, or a model without turns was given up. */
  ghost predicate GoesOn(pass: Pass, arrival: Option<bool>, marks: seq<Trace>) {
    !pass.late && (arrival.Some? || (|marks| > 1 && marks[|marks| - 1] != marks[|marks| - 2]))
  }

  /** Why a session ends of itself: it is finished, in a pass with a reply that asks for that, or with a plan; or its
      last pass came too late, brought no reply or a useless one; or a guard gave it up, which takes an earlier
      reply. */
  ghost predicate EndsFor(cfg: Config, pass: Pass, arrivals: seq<Option<bool>>, finished: bool)
    requires arrivals != []
  {
    var arrived := arrivals[|arrivals| - 1].Some?;
    if finished then arrived && (Ends(cfg, pass) || cfg.planned != {})
    else !arrived || NoUse(pass.reply) || |Somes(arrivals)| >= 2
  }

  lemma NoneMade(cfg: Config, passes: seq<Pass>)
    ensures Made(cfg, passes, [], [[]])
  {
  }

  lemma MadeNext(cfg: Config, passes: seq<Pass>, arrivals: seq<Option<bool>>, marks: seq<Trace>, a: Option<bool>,
                 t: Trace)
    requires Made(cfg, passes, arrivals, marks) && |arrivals| < |passes| && marks != []
    requires PassAdds(cfg, passes[|arrivals|], marks[|marks| - 1], t, a)
    requires arrivals != [] ==> GoesOn(passes[|arrivals| - 1], arrivals[|arrivals| - 1], marks)
    ensures Made(cfg, passes, arrivals + [a], marks + [t])
  {
    hide PassAdds, GoesOn;
    var ms := marks + [t];
    forall k | 0 <= k < |arrivals| ensures GoesOn(passes[k], arrivals[k], ms[..k + 2]) {
      assert ms[..k + 2] == marks[..k + 2];
      if k == |arrivals| - 1 { assert marks[..k + 2] == marks; }
    }
  }

  lemma EndsMeans(cfg: Config, pass: Pass, arrivals: seq<Option<bool>>, a: Option<bool>, finished: bool)
    ensures EndsFor(cfg, pass, arrivals + [a], finished) <==>
            if finished then a.Some? && (Ends(cfg, pass) || cfg.planned != {})
            else a.None? || NoUse(pass.reply) || |Somes(arrivals)| >= 1
  {
    hide NoUse, Ends;
    SomesSnoc(arrivals, a);
  }

  lemma GoesOnMeans(pass: Pass, a: Option<bool>, marks: seq<Trace>, t: Trace)
    requires marks != []
    ensures GoesOn(pass, a, marks + [t]) <==> !pass.late && (a.Some? || t != marks[|marks| - 1])
  {
  }

  /** What a pass that makes a request adds to the trace. */
  function PassTicks(pass: Pass, exhausted: set<Model>, sent: History, changed: bool): Trace {
    Asked(pass.tried, exhausted, sent) + if Answered(pass, exhausted) then [Reply(changed)] else []
  }

  lemma TicksOfPass(t: Trace, pass: Pass, exhausted: set<Model>, sent: History)
    ensures Answered(pass, exhausted) <==>
            pass.tried != [] && pass.tried[|pass.tried| - 1] !in exhausted && !pass.reply.Failure?
    ensures forall changed ::
              t + PassTicks(pass, exhausted, sent, changed) ==
              t + Asked(pass.tried, exhausted, sent) + if Answered(pass, exhausted) then [Reply(changed)] else []
  {
    hide Asked;
  }

  lemma {:induction false} NoReplyAsked(tried: seq<Model>, exhausted: set<Model>, sent: History)
    ensures Replies(Asked(tried, exhausted, sent)) == []
  {
    if tried != [] {
      var init, m := tried[..|tried| - 1], tried[|tried| - 1];
      NoReplyAsked(init, exhausted, sent);
      RepliesAppend(Asked(init, exhausted, sent), [Request(m, sent)]);
      assert Replies([Request(m, sent)]) == [] by { assert [Request(m, sent)][..0] == []; }
      assert Asked(init, exhausted, sent) + [] == Asked(init, exhausted, sent);
    }
  }

  lemma SwitchIsNoReply(t: Trace, tick: Tick)
    requires tick.Switched?
    ensures Replies(t + [tick]) == Replies(t)
  {
    RepliesAppend(t, [tick]);
  }

  lemma PassReplies(t: Trace, pass: Pass, exhausted: set<Model>, sent: History, changed: bool, switched: bool,
                    to: Model, t': Trace)
    requires switched ==> pass.tried != []
    requires t' == t + PassTicks(pass, exhausted, sent, changed)
                   + if switched then [Switched(pass.tried[|pass.tried| - 1], to)] else []
    ensures Replies(t') == Replies(t) + if Answered(pass, exhausted) then [changed] else []
  {
    var asked, reply := Asked(pass.tried, exhausted, sent), if Answered(pass, exhausted) then [Reply(changed)] else [];
    var last := if switched then [Switched(pass.tried[|pass.tried| - 1], to)] else [];
    NoReplyAsked(pass.tried, exhausted, sent);
    RepliesAppend(t + (asked + reply), last);
    RepliesAppend(t, asked + reply);
    RepliesAppend(asked, reply);
  }

  function Somes(arrivals: seq<Option<bool>>): seq<bool> {
    if arrivals == [] then []
    else
      var a := arrivals[|arrivals| - 1];
      Somes(arrivals[..|arrivals| - 1]) + if a.Some? then [a.value] else []
  }

  lemma SomesSnoc(arrivals: seq<Option<bool>>, a: Option<bool>)
    ensures Somes(arrivals + [a]) == Somes(arrivals) + if a.Some? then [a.value] else []
  {
    assert (arrivals + [a])[..|arrivals|] == arrivals;
  }

  lemma NoReplies()
    ensures Replies([]) == Somes([])
  {
  }

  lemma AcceptableIff(cfg: Config, files: Files, stubNudges: nat, verifyDenials: nat)
    ensures Acceptable(cfg, files, stubNudges, verifyDenials) <==>
            |Missing(cfg, files)| == 0 && Unobjectionable(cfg, files, stubNudges, verifyDenials)
    ensures cfg.planned == {} ==> |Missing(cfg, files)| == 0
  {
    NothingMissing(cfg, files);
  }

  lemma PlainAssistant(text: string)
    ensures Calls(Assistant(text, [])) == []
  {
  }

  /** What a batch of calls becomes: one message with the calls, each as it is kept once its result is known, and then
      the results in the same order, under the ids of the calls. */
  ghost predicate IsBatch(cfg: Config, text: string, calls: seq<Parsed>, results: seq<Result>, ms: History)
    requires forall p | p in calls :: ArgsOk(p.call.name, p.args)
  {
    && |results| == |calls| && |ms| == 1 + |calls|
    && ms[0].Assistant? && ms[0].text == text && |ms[0].calls| == |calls|
    && forall k | 0 <= k < |calls| && calls[k] in calls ::
         && ms[0].calls[k] == Kept(calls[k], results[k], cfg.codec, cfg.rules.rc)
         && ms[1 + k] == Tool(calls[k].call.id, cfg.render(results[k]))
  }

  // What a reply comes to.

  ghost predicate TakesCalls(cfg: Config, m: Message) {
    && !Unfit(m) && !FinishedBy(m, "length") && HasCalls(m)
    && exists c :: ParsesTo(m.calls.items, cfg.codec, c) && DistinctIds(c)
  }

  ghost predicate TakesProse(m: Message) { !Unfit(m) && !FinishedBy(m, "length") && !HasCalls(m) }

  ghost predicate CallsFinish(calls: seq<Parsed>) { exists k :: 0 <= k < |calls| && calls[k].call.name == "finish" }

  /** A reply that asks to finish: by a call that is taken, or by a text without calls. */
  ghost predicate AsksToEnd(cfg: Config, m: Message) {
    || (TakesProse(m) && m.content.Str? && exists c :: c in m.content.s && c !in {' ', '\t', '\n', '\r'})
    || (TakesCalls(cfg, m) && exists c :: ParsesTo(m.calls.items, cfg.codec, c) && CallsFinish(c))
  }

  /** What a reply leaves in the project: what its calls do when they are taken, and nothing new otherwise. */
  ghost predicate ReplyLeaves(cfg: Config, m: Message, before: Files, after: Files) {
    if TakesCalls(cfg, m) then exists ms, text :: BatchFor(cfg, text, m.calls.items, ms, before, after)
    else after == before
  }

  /** What a reply adds to the conversation: its calls with their results, or its text; and then at most one word on the
      lack of progress. */
  ghost predicate Heard(cfg: Config, m: Message, ms: History, before: Files, after: Files) {
    exists n | 0 <= n <= |ms| :: SaysOf(cfg, m, ms[..n], before, after) && Nudges(ms[n..])
  }

  ghost predicate SaysOf(cfg: Config, m: Message, ms: History, before: Files, after: Files) {
    var text := if m.content.Str? then m.content.s else "";
    if HasCalls(m) then BatchFor(cfg, text, m.calls.items, ms, before, after) else ms == [Assistant(text, [])]
  }

  ghost predicate Nudges(ms: History) { ms == [] || ms == [User("read-only progress")] }

  /** The reply of a pass asks to finish. */
  ghost predicate Ends(cfg: Config, pass: Pass) { pass.reply.Usable? && AsksToEnd(cfg, pass.reply.message) }

  /** What a pass leaves in the project. */
  ghost predicate PassLeaves(cfg: Config, pass: Pass, arrived: bool, before: Files, after: Files) {
    if arrived && pass.reply.Usable? then ReplyLeaves(cfg, pass.reply.message, before, after) else after == before
  }

  lemma PassMeans(cfg: Config, pass: Pass)
    ensures Ends(cfg, pass) <==> pass.reply.Usable? && AsksToEnd(cfg, pass.reply.message)
    ensures forall before, after, arrived :: PassLeaves(cfg, pass, arrived, before, after) <==>
              if arrived && pass.reply.Usable? then ReplyLeaves(cfg, pass.reply.message, before, after)
              else after == before
  {
    hide AsksToEnd, ReplyLeaves;
  }

  /** The project before the first pass and after each. */
  ghost predicate Worked(cfg: Config, passes: seq<Pass>, arrivals: seq<Option<bool>>, lefts: seq<Files>) {
    && |arrivals| <= |passes| && |lefts| == |arrivals| + 1
    && forall k | 0 <= k < |arrivals| :: PassLeaves(cfg, passes[k], arrivals[k].Some?, lefts[k], lefts[k + 1])
  }

  lemma NoneWorked(cfg: Config, passes: seq<Pass>, files: Files)
    ensures Worked(cfg, passes, [], [files])
  {
  }

  lemma WorkedNext(cfg: Config, passes: seq<Pass>, arrivals: seq<Option<bool>>, lefts: seq<Files>, a: Option<bool>,
                   files: Files)
    requires Worked(cfg, passes, arrivals, lefts) && |arrivals| < |passes|
    requires PassLeaves(cfg, passes[|arrivals|], a.Some?, lefts[|arrivals|], files)
    ensures Worked(cfg, passes, arrivals + [a], lefts + [files])
  {
    hide PassLeaves;
  }

  lemma AcceptableMeans(cfg: Config, files: Files, stubNudges: nat, verifyDenials: nat)
    ensures Acceptable(cfg, files, stubNudges, verifyDenials) <==>
            && (forall p | p in cfg.planned :: p in files && !cfg.rules.rc.receiptBody(files[p]))
            && (cfg.stubNudges && stubNudges < 2 ==> !cfg.looksStub(files))
            && (cfg.verifyOnStop && verifyDenials < 2 ==> !cfg.problems(files))
    ensures forall p :: p in Missing(cfg, files) <==>
              p in cfg.planned && (p in files ==> cfg.rules.rc.receiptBody(files[p]))
  {
    assert forall p | p in cfg.planned :: Ready(cfg, files, p) <==> p in files && !cfg.rules.rc.receiptBody(files[p]);
  }

  lemma ReplyKinds(cfg: Config, m: Message)
    ensures HasCalls(m) ==> m.calls.List? && m.calls.items != []
    ensures TakesCalls(cfg, m) <==>
            && !Unfit(m) && !FinishedBy(m, "length") && HasCalls(m)
            && exists c :: ParsesTo(m.calls.items, cfg.codec, c) && DistinctIds(c)
    ensures TakesProse(m) <==> !Unfit(m) && !FinishedBy(m, "length") && !HasCalls(m)
    ensures TakesCalls(cfg, m) ==>
              (AsksToEnd(cfg, m) <==> exists c :: ParsesTo(m.calls.items, cfg.codec, c) && CallsFinish(c))
    ensures TakesProse(m) ==> (AsksToEnd(cfg, m) <==> !Text.Blank(TextOf(m)))
    ensures !TakesCalls(cfg, m) && !TakesProse(m) ==> !AsksToEnd(cfg, m)
    ensures !TakesCalls(cfg, m) ==> forall files :: ReplyLeaves(cfg, m, files, files)
  {
    BlankIff(TextOf(m));
    hide Unfit, FinishedBy, ParsesTo, DistinctIds, CallsFinish, Text.Blank;
  }

  lemma HeardIf(cfg: Config, m: Message, base: History, spoken: History, all: History, before: Files, after: Files)
    requires |base| <= |spoken| && spoken[..|base|] == base
    requires HasCalls(m) ==> m.calls.List? && BatchFor(cfg, TextOf(m), m.calls.items, spoken[|base|..], before, after)
    requires !HasCalls(m) ==> spoken == base + [Assistant(TextOf(m), [])]
    requires all == spoken || all == spoken + [User("read-only progress")]
    requires TakesCalls(cfg, m) <==> HasCalls(m)
    requires !HasCalls(m) ==> after == before
    ensures |base| <= |all| && all[..|base|] == base && Heard(cfg, m, all[|base|..], before, after)
    ensures ReplyLeaves(cfg, m, before, after)
  {
    hide BatchFor, TakesCalls, HasCalls;
    var ms, n := all[|base|..], |spoken| - |base|;
    assert ms[..n] == spoken[|base|..] && SaysOf(cfg, m, ms[..n], before, after);
    assert Nudges(ms[n..]);
  }

  /** A batch is read one way, so any reading of it tells whether it calls finish. */
  lemma FinishIsCalled(tcs: seq<Json>, codec: Codec, calls: seq<Parsed>)
    requires ParsesTo(tcs, codec, calls)
    ensures (exists c :: ParsesTo(tcs, codec, c) && CallsFinish(c)) <==>
            exists k :: 0 <= k < |calls| && calls[k].call.name == "finish"
  {
    forall c | ParsesTo(tcs, codec, c) ensures c == calls { ParsesOneWay(tcs, codec, c, calls); }
    hide ParsesTo;
    assert CallsFinish(calls) <==> exists k :: 0 <= k < |calls| && calls[k].call.name == "finish";
  }

  /** The calls that the items ask for are in the messages and have run. */
  ghost predicate BatchFor(cfg: Config, text: string, tcs: seq<Json>, ms: History, before: Files, after: Files) {
    exists calls, results :: ParsesTo(tcs, cfg.codec, calls) && BatchRan(cfg, text, calls, results, ms, before, after)
  }

  ghost predicate BatchRan(cfg: Config, text: string, calls: seq<Parsed>, results: seq<Result>, ms: History,
                           before: Files, after: Files) {
    && (forall p | p in calls :: ArgsOk(p.call.name, p.args))
    && IsBatch(cfg, text, calls, results, ms) && BatchRuns(cfg.rules, calls, results, before, after)
  }

  lemma BatchIsFor(cfg: Config, text: string, tcs: seq<Json>, calls: seq<Parsed>, results: seq<Result>, ms: History,
                   before: Files, after: Files)
    requires ParsesTo(tcs, cfg.codec, calls)
    requires forall p | p in calls :: ArgsOk(p.call.name, p.args)
    requires IsBatch(cfg, text, calls, results, ms) && BatchRuns(cfg.rules, calls, results, before, after)
    ensures BatchFor(cfg, text, tcs, ms, before, after)
  {
    hide ParsesTo, IsBatch, ArgsOk, BatchRuns;
    assert BatchRan(cfg, text, calls, results, ms, before, after);
  }

  lemma FinishFollows(rules: Rules, p: Parsed, files: Files)
    requires p.call.name == "finish" && ArgsOk("finish", p.args)
    ensures Follows(rules, p, Ok, files, files)
  {
  }

  lemma NothingCompacted(p: Parsed, r: Result, codec: Codec, rc: Receipts)
    requires ArgsOk(p.call.name, p.args) && p.call.name !in {"write_file", "write_files"}
    ensures Kept(p, r, codec, rc) == p.call
  {
  }

  /** The first `k` calls of a batch have their results. */
  ghost predicate Answering(cfg: Config, calls: seq<Parsed>, current: seq<Call>, results: seq<Result>, ms: History,
                            k: nat)
    requires forall p | p in calls :: ArgsOk(p.call.name, p.args)
  {
    && |current| == |calls| && k == |results| == |ms| <= |calls|
    && (forall j | 0 <= j < k && calls[j] in calls ::
          && current[j] == Kept(calls[j], results[j], cfg.codec, cfg.rules.rc)
          && ms[j] == Tool(calls[j].call.id, cfg.render(results[j])))
    && (forall j | k <= j < |calls| :: current[j] == calls[j].call)
  }

  lemma AnswerNone(cfg: Config, calls: seq<Parsed>, current: seq<Call>)
    requires forall p | p in calls :: ArgsOk(p.call.name, p.args)
    requires |current| == |calls| && forall j | 0 <= j < |calls| :: current[j] == calls[j].call
    ensures Answering(cfg, calls, current, [], [], 0)
  {
  }

  lemma AnswerNext(cfg: Config, calls: seq<Parsed>, current: seq<Call>, results: seq<Result>, ms: History, k: nat,
                   r: Result)
    requires forall p | p in calls :: ArgsOk(p.call.name, p.args)
    requires Answering(cfg, calls, current, results, ms, k) && k < |calls|
    ensures var kept := Kept(calls[k], r, cfg.codec, cfg.rules.rc);
            Answering(cfg, calls, current[k := kept], results + [r], ms + [Tool(calls[k].call.id, cfg.render(r))],
                      k + 1)
  {
    hide ArgsOk, Kept;
  }

  lemma BatchAnswered(cfg: Config, base: History, text: string, calls: seq<Parsed>, current: seq<Call>,
                      results: seq<Result>, ms: History)
    requires WellFormed(base) && DistinctIds(calls) && forall p | p in calls :: ArgsOk(p.call.name, p.args)
    requires Answering(cfg, calls, current, results, ms, |calls|)
    ensures WellFormed(base + [Assistant(text, current)] + ms)
    ensures var all := base + [Assistant(text, current)] + ms;
            && Grows(base, all) && |base| <= |all| && all[..|base|] == base
            && IsBatch(cfg, text, calls, results, all[|base|..])
  {
    hide WellFormed, Grows, ArgsOk, Kept;
    forall k | 0 <= k < |calls| ensures current[k].id == calls[k].call.id && ms[k].Tool? && ms[k].id == current[k].id {
      assert calls[k] in calls;
      KeptShape(calls[k], results[k], cfg.codec, cfg.rules.rc);
    }
    AnsweredBatch(base, Assistant(text, current), ms);
    var tail := [Assistant(text, current)] + ms;
    GrowsByAppending(base, tail);
    var all := base + [Assistant(text, current)] + ms;
    assert all == base + tail && all[|base|..] == tail;
    assert tail[0].calls == current && forall k | 0 <= k < |calls| :: tail[1 + k] == ms[k];
  }

  function Normals(cfg: Config, paths: seq<string>): seq<string> {
    seq(|paths|, i requires 0 <= i < |paths| => cfg.normal(paths[i]))
  }

  /** How many of the paths are no build helpers. */
  function Others(cfg: Config, paths: seq<string>): nat {
    if paths == [] then 0
    else Others(cfg, paths[..|paths| - 1]) + if cfg.auxiliary(cfg.normal(paths[|paths| - 1])) then 0 else 1
  }

  /** The build helpers among the paths that are not planned. */
  function Helpers(cfg: Config, paths: seq<string>): set<string> {
    if paths == [] then {}
    else
      var p := paths[|paths| - 1];
      var target := cfg.rules.confine(p);
      Helpers(cfg, paths[..|paths| - 1])
      + if target.Some? && target.value !in cfg.planned && cfg.auxiliary(cfg.normal(p)) then {cfg.normal(p)} else {}
  }

  function LastCalls(s: seq<(string, string)>): seq<(string, string)> { if |s| <= 3 then s else s[|s| - 3..] }

  /** The paths a write call names. */
  function PathsOf(name: string, args: Args): seq<string>
    requires ArgsOk(name, args)
  {
    if name in {"edit_file", "write_file"} then [Get(args, "path").s]
    else if name == "write_files" then
      var items := Get(args, "files").items;
      seq(|items|, i requires 0 <= i < |items| && FileItemOk(items[i]) => Get(items[i].fields, "path").s)
    else []
  }

  lemma NamesOf(name: string, args: Args)
    requires ArgsOk(name, args) && name in {"edit_file", "write_file", "write_files"}
    ensures Names(name, args, PathsOf(name, args))
  {
    if name == "write_files" {
      var items := Get(args, "files").items;
      forall i | 0 <= i < |items| ensures items[i].Obj? && Get(items[i].fields, "path").Str? {
        assert FileItemOk(items[i]);
      }
    }
  }

  lemma LastThree(s: seq<(string, string)>)
    ensures LastOf(s, LastCalls(s), 3)
  {
    var n := if |s| <= 3 then 0 else |s| - 3;
    assert s == s[..n] + LastCalls(s);
  }

  lemma WindowOf(cfg: Config, paths: seq<string>, window: seq<string>)
    ensures Windowed(cfg, paths, window, Last(window + Normals(cfg, paths), ChurnWindow))
  {
    var names := Normals(cfg, paths);
    var all := window + names;
    var n := if |all| <= ChurnWindow then 0 else |all| - ChurnWindow;
    assert all == all[..n] + Last(all, ChurnWindow);
    assert Normalised(cfg, paths, names);
  }

  lemma PlainUser(text: string)
    ensures Calls(User(text)) == []
  {
  }

  lemma RequestsLater(trace: Trace, messages: History, ed: Editing, t: Tick)
    requires RequestsOk(trace, messages, ed) && !t.Request?
    ensures RequestsOk(trace + [t], messages, ed)
  {
  }

  lemma EmptyTrace(messages: History, ed: Editing, limit: nat)
    ensures RequestsOk([], messages, ed) && NeverAgain([]) && Abandoned([]) == {} && Switches([]) == 0
    ensures Bounded([], limit) && Ahead([], limit, 0, 0) && WellFormed([])
  {
  }
}
