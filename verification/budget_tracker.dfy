/** `BudgetTracker`: one tracker, its ledger file, and the fused record-and-check transaction. */
module BudgetTracker {
  import opened Options

  /** The shared file.  `Unreadable` covers a missing file and one that is not a JSON object. */
  datatype LedgerFile = Unreadable | Ledger(day: int, spent: real, tokens: int)

  /** A tracker's own daily counters. */
  datatype Counters = Counters(spentDay: real, tokensDay: int, ledgerDay: int)

  datatype LlmResult = LlmResult(cost: real, promptTokens: int, completionTokens: int)

  datatype Caps = Caps(perBuild: real, daily: real, tokens: int)

  datatype Exceeded = PerBuildCap | DailyCap | TokenCap

  function Max(a: int, b: int): int { if a < b then b else a }
  function MaxReal(a: real, b: real): real { if a < b then b else a }

  // ---- the pieces of a transaction -----------------------------------------------------------------------

  /** `_load_ledger` */
  function Load(m: Counters, f: LedgerFile, today: int, merge: bool): Counters {
    match f
    case Unreadable => m
    case Ledger(day, spent, tokens) =>
      if day != today then m
      else if spent < 0.0 || tokens < 0 then (if merge then m else Counters(0.0, 0, m.ledgerDay))
      else if merge then Counters(MaxReal(m.spentDay, spent), Max(m.tokensDay, tokens), today)
      else Counters(spent, tokens, today)
  }

  /** `_save_ledger` */
  function Saved(m: Counters): LedgerFile { Ledger(m.ledgerDay, m.spentDay, m.tokensDay) }

  function Add(m: Counters, r: LlmResult): Counters {
    Counters(m.spentDay + r.cost, m.tokensDay + r.promptTokens + r.completionTokens, m.ledgerDay)
  }

  /** `_check_caps`: the first configured cap that is crossed. */
  function Crossed(caps: Caps, buildSpend: real, m: Counters): Option<Exceeded> {
    if caps.perBuild > 0.0 && buildSpend > caps.perBuild then Some(PerBuildCap)
    else if caps.daily > 0.0 && m.spentDay > caps.daily then Some(DailyCap)
    else if caps.tokens > 0 && m.tokensDay > caps.tokens then Some(TokenCap)
    else None
  }

  /** The outcome of the caps on a build's spend and a day's totals: the first of the three caps, in the order build,
      day and tokens, that is set and exceeded. */
  predicate Verdict(caps: Caps, build: real, spent: real, tokens: int, raised: Option<Exceeded>) {
    var b, d, t := 0.0 < caps.perBuild < build, 0.0 < caps.daily < spent, 0 < caps.tokens < tokens;
    && (raised.Some? <==> b || d || t)
    && (raised == Some(PerBuildCap) <==> b)
    && (raised == Some(DailyCap) <==> !b && d)
    && (raised == Some(TokenCap) <==> !b && !d && t)
  }

  // ---- whole transactions on values ----------------------------------------------------------------------

  /** Counters and, when the tracker has a ledger path, the file. */
  datatype Books = Books(m: Counters, file: Option<LedgerFile>)

  function LoadFrom(b: Books, today: int, merge: bool): Books {
    if b.file.None? then b else b.(m := Load(b.m, b.file.value, today, merge))
  }

  function SaveTo(b: Books): Books { if b.file.None? then b else b.(file := Some(Saved(b.m))) }

  function RolledOver(b: Books, today: int): Books {
    if b.m.ledgerDay == today then b
    else
      var loaded := LoadFrom(b, today, false);
      if loaded.m.ledgerDay == today then loaded else SaveTo(loaded.(m := Counters(0.0, 0, today)))
  }

  function Recorded(b: Books, today: int, r: LlmResult): Books {
    var loaded := LoadFrom(RolledOver(b, today), today, false);
    SaveTo(loaded.(m := Add(loaded.m, r)))
  }

  function Checked(b: Books, today: int): Books { LoadFrom(RolledOver(b, today), today, true) }

  /** After a save the file equals memory, so the merging reload of `check` changes nothing. */
  lemma CheckAfterRecordIsNoOp(b: Books, today: int, r: LlmResult)
    ensures Checked(Recorded(b, today, r), today) == Recorded(b, today, r)
  {
    assert RolledOver(b, today).m.ledgerDay == today;
  }

  // ---- the tracker ---------------------------------------------------------------------------------------

  class Disk {
    var file: LedgerFile
    constructor (f: LedgerFile)
      ensures file == f
    {
      file := f;
    }
  }

  /** Spend shared by the tasks of one build. */
  class BuildState {
    var spent: real
    constructor ()
      ensures spent == 0.0
    {
      spent := 0.0;
    }
  }

  class Tracker {
    const caps: Caps
    const ledger: Disk?
    var spentBuild: real
    var spentDay: real
    var tokensDay: int
    var ledgerDay: int
    var calls: seq<LlmResult>

    ghost function View(): Books
      reads this, ledger
    {
      Books(Counters(spentDay, tokensDay, ledgerDay), if ledger == null then None else Some(ledger.file))
    }

    constructor (caps: Caps, ledger: Disk?, today: int)
      ensures this.caps == caps && this.ledger == ledger && spentBuild == 0.0 && calls == []
      ensures View() == LoadFrom(Books(Counters(0.0, 0, today), if ledger == null then None else Some(ledger.file)),
                                 today, false)
    {
      this.caps, this.ledger := caps, ledger;
      spentBuild, spentDay, tokensDay, ledgerDay, calls := 0.0, 0.0, 0, today, [];
      new;
      LoadLedger(today, false);
    }

    method LoadLedger(today: int, merge: bool)
      modifies this`spentDay, this`tokensDay, this`ledgerDay
      ensures View() == LoadFrom(old(View()), today, merge)
    {
      if ledger == null { return; }
      match ledger.file {
        case Unreadable =>
        case Ledger(day, spent, tokens) =>
          if day != today { return; }
          if spent < 0.0 || tokens < 0 {
            if !merge { spentDay, tokensDay := 0.0, 0; }
            return;
          }
          if merge {
            spentDay, tokensDay := MaxReal(spentDay, spent), Max(tokensDay, tokens);
          } else {
            spentDay, tokensDay := spent, tokens;
          }
          ledgerDay := today;
      }
    }

    method SaveLedger()
      modifies ledger
      ensures View() == SaveTo(old(View()))
    {
      if ledger == null { return; }
      ledger.file := Ledger(ledgerDay, spentDay, tokensDay);
    }

    method RolloverIfNeeded(today: int)
      modifies this`spentDay, this`tokensDay, this`ledgerDay, ledger
      ensures View() == RolledOver(old(View()), today)
    {
      if ledgerDay == today { return; }
      LoadLedger(today, false);
      if ledgerDay == today { return; }
      ledgerDay, spentDay, tokensDay := today, 0.0, 0;
      SaveLedger();
    }

    /** `_record_locked`; `state` is the build context of the calling task, if any. */
    method RecordLocked(r: LlmResult, state: BuildState?, today: int)
      modifies this, ledger, state
      ensures View() == Recorded(old(View()), today, r)
      ensures state == null ==> spentBuild == old(spentBuild) + r.cost
      ensures state != null ==> spentBuild == state.spent == old(state.spent) + r.cost
      ensures calls == old(calls) + [r]
    {
      RolloverIfNeeded(today);
      LoadLedger(today, false);
      spentDay := spentDay + r.cost;
      tokensDay := tokensDay + r.promptTokens + r.completionTokens;
      if state == null {
        spentBuild := spentBuild + r.cost;
      } else {
        state.spent := state.spent + r.cost;
        spentBuild := state.spent;
      }
      calls := calls + [r];
      SaveLedger();
    }

    function BuildSpend(state: BuildState?): real
      reads this, state
    {
      if state == null then spentBuild else state.spent
    }

    method Record(r: LlmResult, state: BuildState?, today: int)
      modifies this, ledger, state
      ensures View() == Recorded(old(View()), today, r)
      ensures BuildSpend(state) == old(BuildSpend(state)) + r.cost
      ensures spentBuild == if state == null then old(spentBuild) + r.cost else old(state.spent) + r.cost
      ensures state != null ==> state.spent == spentBuild
      ensures calls == old(calls) + [r]
    {
      RecordLocked(r, state, today);
    }

    /** `_check_caps` */
    method CheckCaps(state: BuildState?) returns (raised: Option<Exceeded>)
      ensures raised == Crossed(caps, BuildSpend(state), View().m)
      ensures Verdict(caps, if state == null then spentBuild else state.spent, spentDay, tokensDay, raised)
    {
      var spent := BuildSpend(state);
      if caps.perBuild > 0.0 && spent > caps.perBuild { return Some(PerBuildCap); }
      if caps.daily > 0.0 && spentDay > caps.daily { return Some(DailyCap); }
      if caps.tokens > 0 && tokensDay > caps.tokens { return Some(TokenCap); }
      raised := None;
    }

    method Check(state: BuildState?, today: int) returns (raised: Option<Exceeded>)
      modifies this`spentDay, this`tokensDay, this`ledgerDay, ledger
      ensures View() == Checked(old(View()), today)
      ensures raised == Crossed(caps, BuildSpend(state), View().m)
      ensures Verdict(caps, if state == null then spentBuild else state.spent, spentDay, tokensDay, raised)
    {
      RolloverIfNeeded(today);
      LoadLedger(today, true);
      raised := CheckCaps(state);
    }

    /** One transaction with the state and outcome of `Record` followed by `Check` on the same day. */
    method RecordAndCheck(r: LlmResult, state: BuildState?, today: int) returns (raised: Option<Exceeded>)
      modifies this, ledger, state
      ensures View() == Checked(Recorded(old(View()), today, r), today)
      ensures BuildSpend(state) == old(BuildSpend(state)) + r.cost
      ensures raised == Crossed(caps, BuildSpend(state), View().m)
      ensures Verdict(caps, if state == null then spentBuild else state.spent, spentDay, tokensDay, raised)
      ensures calls == old(calls) + [r]
    {
      CheckAfterRecordIsNoOp(View(), today, r);
      RecordLocked(r, state, today);
      raised := CheckCaps(state);
    }
  }
}
