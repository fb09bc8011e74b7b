/** Payroll calls taken apart into their statements, interleaving freely. */
module PayrollRaces {
  import opened Options
  import opened Money
  import opened Payroll

  type CallId = nat

  /** Where a call stands. */
  datatype Pc =
    | Looping(settings: Settings, period: Period, users: seq<UserId>)                // next employee, if any
    | Counted(settings: Settings, period: Period, users: seq<UserId>, missed: nat)
    | NoEntry(settings: Settings, period: Period, users: seq<UserId>, missed: nat)
    | RefreshPending(settings: Settings, period: Period, users: seq<UserId>, refresh: Refresh)
    | CreatePending(settings: Settings, period: Period, users: seq<UserId>, entry: Entry)
    | UpdatePending(key: Key, adjustment: Adjustment)
    | ConfirmPending(key: Key)
    | Done
    | ConfirmDone(key: Key)
    | Refused                    // PAYROLL_ENTRY_CONFIRMED or not found
    | Failed                     // a RangeError, or the CHECK constraint

  datatype State = State(
    settings: Option<Settings>,
    missed: map<Key, nat>,
    entries: Entries,
    calls: map<CallId, Pc>,
    winners: map<Key, CallId>)   // history: whose confirmation took effect

  datatype Event =
    | PutSettings(finePerMissed: nat, rate: nat)
    | MissedChanges(key: Key, count: nat)
    | StartGenerate(call: CallId, period: Period, users: seq<UserId>)
    | CountMissed(call: CallId)
    | FindExisting(call: CallId)
    | FindPrevious(call: CallId)
    | WriteRow(call: CallId)
    | FindForUpdate(call: CallId, key: Key, base: Option<nat>, fine: Option<nat>)
    | FindForConfirm(call: CallId, key: Key)
    | WriteUpdate(call: CallId)
    | WriteConfirm(call: CallId, who: UserId, at: Time)

  predicate AtEmployee(pc: Pc) {
    (pc.Looping? || pc.Counted? || pc.NoEntry? || pc.RefreshPending? || pc.CreatePending?) && pc.users != []
  }

  function KeyOf(pc: Pc): Key
    requires AtEmployee(pc)
  {
    Key(pc.users[0], pc.period)
  }

  function Next(pc: Pc): Pc
    requires AtEmployee(pc)
  {
    if |pc.users| == 1 then Done else Looping(pc.settings, pc.period, pc.users[1..])
  }

  function SetPc(s: State, c: CallId, pc: Pc): State { s.(calls := s.calls[c := pc]) }

  function AfterFindExisting(es: Entries, pc: Pc): Pc
    requires AtEmployee(pc) && pc.Counted?
  {
    var k := KeyOf(pc);
    if k !in es then NoEntry(pc.settings, pc.period, pc.users, pc.missed)
    else if es[k].status.Confirmed? then Next(pc)
    else
      match RefreshOf(es[k], pc.missed, pc.settings)
      case None => Failed
      case Some(w) => RefreshPending(pc.settings, pc.period, pc.users, w)
  }

  function AfterFindPrevious(es: Entries, pc: Pc): Pc
    requires AtEmployee(pc) && pc.NoEntry?
  {
    match NewEntry(CarriedBase(es, pc.users[0], pc.period), pc.missed, pc.settings)
    case None => Failed
    case Some(e) => CreatePending(pc.settings, pc.period, pc.users, e)
  }

  /** A generate call's write, and what it leads to. */
  function RowWritten(es: Entries, pc: Pc): Option<Entries>
    requires AtEmployee(pc) && (pc.RefreshPending? || pc.CreatePending?)
  {
    if pc.RefreshPending? then WriteRefresh(es, KeyOf(pc), pc.refresh) else WriteNew(es, KeyOf(pc), pc.entry)
  }

  function AfterFindForUpdate(es: Entries, k: Key, base: Option<nat>, fine: Option<nat>): Pc {
    if !IsDraft(es, k) || !TyiynInput(base) || !TyiynInput(fine) then Refused
    else
      match AdjustmentOf(es[k], base, fine)
      case None => Failed
      case Some(w) => UpdatePending(k, w)
  }

  function UpdateStep(s: State, c: CallId): State
    requires c in s.calls && s.calls[c].UpdatePending?
  {
    var k := s.calls[c].key;
    match WriteAdjustment(s.entries, k, s.calls[c].adjustment)
    case None => SetPc(s, c, Failed)
    case Some(es) => SetPc(s.(entries := es), c, if IsDraft(s.entries, k) then Done else Refused)
  }

  function ConfirmStep(s: State, c: CallId, who: UserId, at: Time): State
    requires c in s.calls && s.calls[c].ConfirmPending?
  {
    var k := s.calls[c].key;
    if IsDraft(s.entries, k)
    then SetPc(s.(entries := WriteConfirmation(s.entries, k, who, at), winners := s.winners[k := c]), c, ConfirmDone(k))
    else SetPc(s, c, Refused)
  }

  predicate At(s: State, c: CallId) { c in s.calls }

  function Step(s: State, e: Event): State {
    match e
    case PutSettings(f, rate) =>
      if f < TYIYN_LIMIT && rate <= 10_000 then s.(settings := Some(Settings(f, rate))) else s
    case MissedChanges(k, n) => s.(missed := s.missed[k := n])
    case StartGenerate(c, period, users) =>
      if At(s, c) || s.settings.None? || users == [] then s else SetPc(s, c, Looping(s.settings.value, period, users))
    case CountMissed(c) =>
      if At(s, c) && s.calls[c].Looping? && AtEmployee(s.calls[c]) then
        var pc := s.calls[c];
        SetPc(s, c, Counted(pc.settings, pc.period, pc.users, if KeyOf(pc) in s.missed then s.missed[KeyOf(pc)] else 0))
      else s
    case FindExisting(c) =>
      if At(s, c) && s.calls[c].Counted? && AtEmployee(s.calls[c])
        then SetPc(s, c, AfterFindExisting(s.entries, s.calls[c])) else s
    case FindPrevious(c) =>
      if At(s, c) && s.calls[c].NoEntry? && AtEmployee(s.calls[c])
        then SetPc(s, c, AfterFindPrevious(s.entries, s.calls[c])) else s
    case WriteRow(c) =>
      if At(s, c) && (s.calls[c].RefreshPending? || s.calls[c].CreatePending?) && AtEmployee(s.calls[c]) then
        match RowWritten(s.entries, s.calls[c])
        case None => SetPc(s, c, Failed)
        case Some(es) => SetPc(s.(entries := es), c, Next(s.calls[c]))
      else s
    case FindForUpdate(c, k, base, fine) =>
      if At(s, c) then s else SetPc(s, c, AfterFindForUpdate(s.entries, k, base, fine))
    case FindForConfirm(c, k) =>
      if At(s, c) then s else SetPc(s, c, if k in s.entries then ConfirmPending(k) else Refused)
    case WriteUpdate(c) => if At(s, c) && s.calls[c].UpdatePending? then UpdateStep(s, c) else s
    case WriteConfirm(c, who, at) => if At(s, c) && s.calls[c].ConfirmPending? then ConfirmStep(s, c, who, at) else s
  }

  function Run(s: State, es: seq<Event>): State
    decreases |es|
  {
    if es == [] then s else Run(Step(s, es[0]), es[1..])
  }

  // --- Confirmed entries ------------------------------------------------------------------------

  predicate IsConfirmed(s: State, k: Key) { k in s.entries && s.entries[k].status.Confirmed? }

  /** A confirmed entry is frozen in every field, whatever stale writes are still to come. */
  lemma {:induction false} ConfirmedIsFrozen(s: State, es: seq<Event>, k: Key)
    requires IsConfirmed(s, k)
    ensures k in Run(s, es).entries && Run(s, es).entries[k] == s.entries[k]
    decreases |es|
  {
    if es != [] { ConfirmedIsFrozen(Step(s, es[0]), es[1..], k); }
  }

  /** The ranges every row has. */
  predicate InRange(e: Entry) { e.base < TYIYN_LIMIT && e.rate <= 10_000 }

  predicate Bounded(e: Entry) {
    InRange(e) && FinalFormula(e) && e.amounts.tax <= e.base && e.amounts.fine <= MAX_DB_BIGINT
  }

  predicate EntryInv(s: State, k: Key)
    requires k in s.entries
  {
    Bounded(s.entries[k]) && (s.entries[k].status.Confirmed? <==> k in s.winners)
  }

  predicate CallInv(s: State, c: CallId)
    requires c in s.calls
  {
    PcInv(s, c, s.calls[c])
  }

  ghost predicate Inv(s: State) {
    && (s.settings.Some? ==> s.settings.value.rate <= 10_000)
    && s.winners.Keys <= s.entries.Keys
    && (forall k {:trigger EntryInv(s, k)} :: k in s.entries ==> EntryInv(s, k))
    && (forall c {:trigger CallInv(s, c)} :: c in s.calls ==> CallInv(s, c))
  }

  /** The salary a refresh was worked out for. */
  function BaseOf(w: Refresh): int { w.amounts.final + w.amounts.fine + w.amounts.tax }

  predicate PcInv(s: State, c: CallId, pc: Pc) {
    match pc
    case ConfirmDone(k) => k in s.winners && s.winners[k] == c
    case Looping(t, _, _) => t.rate <= 10_000
    case Counted(t, _, _, _) => t.rate <= 10_000
    case NoEntry(t, _, _, _) => t.rate <= 10_000
    case RefreshPending(t, _, _, w) =>
      t.rate <= 10_000 && w.rate <= 10_000 && w.amounts.tax <= BaseOf(w) && w.amounts.fine <= MAX_DB_BIGINT
    case CreatePending(t, _, _, e) => t.rate <= 10_000 && e.status.Draft? && Bounded(e)
    case UpdatePending(_, w) =>
      && w.base < TYIYN_LIMIT && w.amounts.fine <= MAX_DB_BIGINT && w.amounts.tax <= w.base
      && w.amounts.final == w.base - w.amounts.fine - w.amounts.tax
    case _ => true
  }

  lemma SetPcKeeps(s: State, c: CallId, pc: Pc)
    requires Inv(s) && PcInv(s, c, pc)
    ensures Inv(SetPc(s, c, pc))
  {
    var s' := SetPc(s, c, pc);
    forall k | k in s'.entries ensures EntryInv(s', k) { assert EntryInv(s, k); }
    forall d | d in s'.calls ensures CallInv(s', d) { if d != c { assert CallInv(s, d); } }
  }

  lemma EntriesKeep(s: State, es: Entries)
    requires Inv(s) && s.entries.Keys <= es.Keys
    requires forall k :: k in es ==> Bounded(es[k]) && (es[k].status.Confirmed? <==> k in s.winners)
    ensures Inv(s.(entries := es))
  {
    var s' := s.(entries := es);
    forall k | k in es ensures EntryInv(s', k) {}
    forall c | c in s'.calls ensures CallInv(s', c) { assert CallInv(s, c); }
  }

  lemma RowKeeps(s: State, c: CallId)
    requires Inv(s) && At(s, c) && (s.calls[c].RefreshPending? || s.calls[c].CreatePending?) && AtEmployee(s.calls[c])
    ensures Inv(Step(s, WriteRow(c)))
  {
    var pc := s.calls[c];
    var es := RowWritten(s.entries, pc);
    assert CallInv(s, c);
    if es.Some? {
      forall k | k in es.value ensures Bounded(es.value[k]) && (es.value[k].status.Confirmed? <==> k in s.winners) {
        if k in s.entries { assert EntryInv(s, k); }
      }
      EntriesKeep(s, es.value);
      SetPcKeeps(s.(entries := es.value), c, Next(pc));
    } else {
      SetPcKeeps(s, c, Failed);
    }
  }

  lemma UpdateWriteKeeps(s: State, c: CallId)
    requires Inv(s) && At(s, c) && s.calls[c].UpdatePending?
    ensures Inv(UpdateStep(s, c))
  {
    var k := s.calls[c].key;
    var es := WriteAdjustment(s.entries, k, s.calls[c].adjustment);
    assert CallInv(s, c);
    if es.Some? {
      forall j | j in es.value ensures Bounded(es.value[j]) && (es.value[j].status.Confirmed? <==> j in s.winners) {
        assert EntryInv(s, j);
      }
      EntriesKeep(s, es.value);
      SetPcKeeps(s.(entries := es.value), c, if IsDraft(s.entries, k) then Done else Refused);
    } else {
      SetPcKeeps(s, c, Failed);
    }
  }

  lemma ConfirmKeeps(s: State, c: CallId, who: UserId, at: Time)
    requires Inv(s) && At(s, c) && s.calls[c].ConfirmPending?
    ensures Inv(ConfirmStep(s, c, who, at))
  {
    var k := s.calls[c].key;
    if IsDraft(s.entries, k) {
      assert EntryInv(s, k);
      var s' := ConfirmStep(s, c, who, at);
      forall j | j in s'.entries ensures EntryInv(s', j) { assert EntryInv(s, j); }
      forall d | d in s'.calls ensures CallInv(s', d) { if d != c { assert CallInv(s, d); } }
    } else {
      SetPcKeeps(s, c, Refused);
    }
  }

  /** What a statement reads and works out is in range. */
  lemma FindKeeps(s: State, c: CallId)
    requires Inv(s) && At(s, c) && AtEmployee(s.calls[c])
    ensures s.calls[c].Counted? ==> PcInv(s, c, AfterFindExisting(s.entries, s.calls[c]))
    ensures s.calls[c].NoEntry? ==> PcInv(s, c, AfterFindPrevious(s.entries, s.calls[c]))
  {
    var pc, k := s.calls[c], KeyOf(s.calls[c]);
    assert CallInv(s, c);
    if pc.NoEntry? {
      var base := CarriedBase(s.entries, pc.users[0], pc.period);
      CarriedInRange(s, pc.users[0], pc.period);
      PercentWithinWhole(base, pc.settings.rate);
    } else if pc.Counted? && IsDraft(s.entries, k) {
      assert EntryInv(s, k);
      PercentWithinWhole(s.entries[k].base, pc.settings.rate);
    }
  }

  lemma CarriedInRange(s: State, user: UserId, period: Period)
    requires Inv(s)
    ensures CarriedBase(s.entries, user, period) < TYIYN_LIMIT
  {
    forall k | k in s.entries ensures s.entries[k].base < TYIYN_LIMIT { assert EntryInv(s, k); }
  }

  lemma LoadKeeps(s: State, c: CallId, k: Key, base: Option<nat>, fine: Option<nat>)
    requires Inv(s)
    ensures PcInv(s, c, AfterFindForUpdate(s.entries, k, base, fine))
  {
    if IsDraft(s.entries, k) && TyiynInput(base) && TyiynInput(fine) {
      assert EntryInv(s, k);
      PercentWithinWhole(if base.Some? then base.value else s.entries[k].base, s.entries[k].rate);
    }
  }

  lemma StepKeeps(s: State, e: Event)
    requires Inv(s)
    ensures Inv(Step(s, e))
  {
    var s' := Step(s, e);
    match e
    case WriteRow(c) => if s' != s { RowKeeps(s, c); }
    case WriteUpdate(c) => if s' != s { UpdateWriteKeeps(s, c); }
    case WriteConfirm(c, who, at) => if s' != s { ConfirmKeeps(s, c, who, at); }
    case PutSettings(_, _) => OthersKeep(s, s');
    case MissedChanges(_, _) => OthersKeep(s, s');
    case _ => ReadKeeps(s, e);
  }

  /** The statements that only read. */
  lemma ReadKeeps(s: State, e: Event)
    requires Inv(s)
    requires e.StartGenerate? || e.CountMissed? || e.FindExisting? || e.FindPrevious? || e.FindForUpdate?
            || e.FindForConfirm?
    ensures Inv(Step(s, e))
  {
    if Step(s, e) != s {
      if At(s, e.call) { assert CallInv(s, e.call); }
      if e.FindExisting? || e.FindPrevious? { FindKeeps(s, e.call); }
      if e.FindForUpdate? { LoadKeeps(s, e.call, e.key, e.base, e.fine); }
      SetPcKeeps(s, e.call, Step(s, e).calls[e.call]);
    }
  }

  lemma OthersKeep(s: State, t: State)
    requires Inv(s) && t.entries == s.entries && t.calls == s.calls && t.winners == s.winners
    requires t.settings.Some? ==> t.settings.value.rate <= 10_000
    ensures Inv(t)
  {
    forall k | k in t.entries ensures EntryInv(t, k) { assert EntryInv(s, k); }
    forall c | c in t.calls ensures CallInv(t, c) { assert CallInv(s, c); }
  }

  lemma {:induction false} RunKeeps(s: State, es: seq<Event>)
    requires Inv(s)
    ensures Inv(Run(s, es))
    decreases |es|
  {
    if es != [] {
      StepKeeps(s, es[0]);
      RunKeeps(Step(s, es[0]), es[1..]);
    }
  }

  /** Of all the calls confirming an entry, at most one is told that it did. */
  lemma OneConfirmationWins(s: State, es: seq<Event>, c: CallId, d: CallId, k: Key)
    requires Inv(s)
    requires c in Run(s, es).calls && d in Run(s, es).calls
    requires Run(s, es).calls[c] == ConfirmDone(k) && Run(s, es).calls[d] == ConfirmDone(k)
    ensures c == d && IsConfirmed(Run(s, es), k)
  {
    RunKeeps(s, es);
    assert CallInv(Run(s, es), c) && CallInv(Run(s, es), d) && EntryInv(Run(s, es), k);
  }

  /**
   * In every interleaving the final amount is what salary, fine and tax leave, the tax is part of the salary, and the
   * final amount fits its column although only the fine and the tax are ever checked.
   */
  lemma FinalAlwaysBalances(s: State, es: seq<Event>, k: Key)
    requires Inv(s) && k in Run(s, es).entries
    ensures var e := Run(s, es).entries[k];
            FinalFormula(e) && InRange(e) && e.amounts.tax <= e.base && FitsBigint(e.amounts.final)
              && FitsBigint(e.amounts.fine)
  {
    RunKeeps(s, es);
    assert EntryInv(Run(s, es), k);
  }

  // --- Stale writes -------------------------------------------------------------------------------

  /** The fine generate works out from the row as it was. */
  function RefreshFine(was: Entry, missed: nat, t: Settings): nat {
    if was.manual then was.amounts.fine else missed * t.finePerMissed
  }

  /**
   * generate's write, worked out from the row as it was. The database accepts it exactly if the salary is still the
   * same. The formulas hold afterwards if and only if, besides, the fine written is still allowed to differ from the
   * computed one or does not: a fine set by hand that generate had read breaks them once the row no longer says so.
   */
  lemma StaleRefreshHarmlessIff(was: Entry, now: Entry, missed: nat, t: Settings)
    requires was.base < TYIYN_LIMIT && t.rate <= 10_000 && RefreshOf(was, missed, t).Some?
    ensures var w := RefreshOf(was, missed, t).value;
            && (FinalFormula(Refreshed(now, w)) <==> now.base == was.base)
            && (Equations(Refreshed(now, w)) <==>
                && now.base == was.base
                && (now.manual || !was.manual || was.amounts.fine == missed * t.finePerMissed))
  {
    PercentWithinWhole(was.base, t.rate);
  }

  /**
   * A fine set by hand while generate was under way is overwritten, and still marked as set by hand, exactly if
   * generate had worked out another one.
   */
  lemma ManualFineIsOverwrittenIff(was: Entry, now: Entry, missed: nat, t: Settings)
    requires was.base < TYIYN_LIMIT && t.rate <= 10_000 && RefreshOf(was, missed, t).Some?
    requires now.manual && now.base == was.base
    ensures var row := Refreshed(now, RefreshOf(was, missed, t).value);
            && row.manual && FinalFormula(row)
            && (row.amounts.fine != now.amounts.fine <==> RefreshFine(was, missed, t) != now.amounts.fine)
  {
  }

  /**
   * update's write carries its own salary and is always accepted; the formulas hold afterwards if and only if the row
   * still asks for the same tax on that salary and, unless the fine is set by hand, the same fine.
   */
  lemma StaleAdjustmentHarmlessIff(was: Entry, now: Entry, base: Option<nat>, fine: Option<nat>)
    requires InRange(was) && InRange(now) && TyiynInput(base) && TyiynInput(fine)
    requires AdjustmentOf(was, base, fine).Some?
    ensures var w := AdjustmentOf(was, base, fine).value;
            && FinalFormula(Adjusted(now, w))
            && (Equations(Adjusted(now, w)) <==>
                && PercentOf(w.base, now.rate) == PercentOf(w.base, was.rate)
                && (w.manual || now.missed * now.finePerMissed == was.missed * was.finePerMissed))
  {
    var w := AdjustmentOf(was, base, fine).value;
    PercentWithinWhole(w.base, was.rate);
    PercentWithinWhole(w.base, now.rate);
  }

  // --- Only edits have to be whole ------------------------------------------------------------------

  /** In the list, the two statements of every update stand next to each other. */
  predicate WholeUpdates(es: seq<Event>)
    decreases |es|
  {
    || es == []
    || (es[0].FindForUpdate? && |es| >= 2 && es[1] == WriteUpdate(es[0].call) && WholeUpdates(es[2..]))
    || (!es[0].FindForUpdate? && !es[0].WriteUpdate? && WholeUpdates(es[1..]))
  }

  /** The write of a generate call fits a row: it is refused, or leaves the formulas right. */
  predicate RefreshFits(es: Entries, k: Key, w: Refresh) {
    k in es && (FinalFormula(Refreshed(es[k], w)) ==> Equations(Refreshed(es[k], w)))
  }

  /** It was worked out for some salary, and its fine is the computed one or the row's fine is set by hand. */
  predicate WorkedOut(es: Entries, k: Key, w: Refresh) {
    var base := BaseOf(w);
    && k in es && w.rate <= 10_000 && 0 <= base < TYIYN_LIMIT && PercentOf(base, w.rate) == Some(w.amounts.tax)
    && w.amounts.fine <= MAX_DB_BIGINT && (es[k].manual || w.amounts.fine == w.missed * w.finePerMissed)
  }

  lemma WorkedOutFits(es: Entries, k: Key, w: Refresh)
    requires WorkedOut(es, k, w)
    ensures RefreshFits(es, k, w)
  {
  }

  predicate CalmPc(es: Entries, pc: Pc) {
    match pc
    case Looping(t, _, _) => t.rate <= 10_000
    case Counted(t, _, _, _) => t.rate <= 10_000
    case NoEntry(t, _, _, _) => t.rate <= 10_000
    case RefreshPending(t, _, _, w) => t.rate <= 10_000 && AtEmployee(pc) && WorkedOut(es, KeyOf(pc), w)
    case CreatePending(t, _, _, e) => t.rate <= 10_000 && Equations(e)
    case UpdatePending(_, _) => false
    case _ => true
  }

  predicate CalmCall(s: State, c: CallId)
    requires c in s.calls
  {
    CalmPc(s.entries, s.calls[c])
  }

  ghost predicate Calm(s: State) {
    && (s.settings.Some? ==> s.settings.value.rate <= 10_000)
    && AllEquations(s.entries)
    && forall c {:trigger CalmCall(s, c)} :: c in s.calls ==> CalmCall(s, c)
  }

  /** No row goes, and a fine set by hand stays marked as such. */
  predicate Marked(es: Entries, fs: Entries) { forall k :: k in es ==> k in fs && (es[k].manual ==> fs[k].manual) }

  lemma CalmStays(es: Entries, fs: Entries, pc: Pc)
    requires CalmPc(es, pc) && Marked(es, fs)
    ensures CalmPc(fs, pc)
  {
  }

  /** New rows and a new position for one call. */
  lemma CalmMoves(s: State, es: Entries, c: CallId, pc: Pc)
    requires Calm(s) && AllEquations(es) && Marked(s.entries, es) && CalmPc(es, pc)
    ensures Calm(SetPc(s.(entries := es), c, pc))
  {
    var t := SetPc(s.(entries := es), c, pc);
    forall d | d in t.calls ensures CalmCall(t, d) {
      if d != c {
        assert CalmCall(s, d);
        CalmStays(s.entries, es, s.calls[d]);
      }
    }
  }

  lemma CalmRefresh(es: Entries, k: Key, e: Entry, missed: nat, t: Settings)
    requires k in es && es[k] == e && Equations(e) && t.rate <= 10_000 && RefreshOf(e, missed, t).Some?
    ensures WorkedOut(es, k, RefreshOf(e, missed, t).value)
  {
    PercentWithinWhole(e.base, t.rate);
  }

  lemma CalmFind(s: State, c: CallId)
    requires Calm(s) && At(s, c) && AtEmployee(s.calls[c]) && (s.calls[c].Counted? || s.calls[c].NoEntry?)
    ensures s.calls[c].Counted? ==> CalmPc(s.entries, AfterFindExisting(s.entries, s.calls[c]))
    ensures s.calls[c].NoEntry? ==> CalmPc(s.entries, AfterFindPrevious(s.entries, s.calls[c]))
  {
    var pc, k := s.calls[c], KeyOf(s.calls[c]);
    assert CalmCall(s, c);
    if pc.NoEntry? {
      NewKeeps(CarriedBase(s.entries, pc.users[0], pc.period), pc.missed, pc.settings);
    } else if IsDraft(s.entries, k) && RefreshOf(s.entries[k], pc.missed, pc.settings).Some? {
      CalmRefresh(s.entries, k, s.entries[k], pc.missed, pc.settings);
    }
  }

  lemma CalmWrite(s: State, c: CallId)
    requires Calm(s) && At(s, c) && AtEmployee(s.calls[c]) && (s.calls[c].RefreshPending? || s.calls[c].CreatePending?)
    ensures RowWritten(s.entries, s.calls[c]).Some? ==>
              AllEquations(RowWritten(s.entries, s.calls[c]).value) && Marked(s.entries, RowWritten(s.entries,
                s.calls[c]).value)
  {
    var pc := s.calls[c];
    assert CalmCall(s, c);
    if pc.RefreshPending? { WorkedOutFits(s.entries, KeyOf(pc), pc.refresh); }
  }

  lemma CalmStep(s: State, e: Event)
    requires Calm(s) && !e.FindForUpdate? && !e.WriteUpdate?
    ensures Calm(Step(s, e))
  {
    var t := Step(s, e);
    match e
    case PutSettings(_, _) => CalmSame(s, t);
    case MissedChanges(_, _) => CalmSame(s, t);
    case WriteRow(c) =>
      if t != s {
        CalmWrite(s, c);
        assert CalmCall(s, c);
        CalmMoves(s, t.entries, c, t.calls[c]);
      }
    case WriteConfirm(c, who, at) => CalmConfirm(s, e);
    case FindExisting(c) => if t != s { CalmFind(s, c); CalmMoves(s, s.entries, c, t.calls[c]); }
    case FindPrevious(c) => if t != s { CalmFind(s, c); CalmMoves(s, s.entries, c, t.calls[c]); }
    case CountMissed(c) => if t != s { assert CalmCall(s, c); CalmMoves(s, s.entries, c, t.calls[c]); }
    case StartGenerate(c, _, _) => if t != s { CalmMoves(s, s.entries, c, t.calls[c]); }
    case FindForConfirm(c, _) => if t != s { CalmMoves(s, s.entries, c, t.calls[c]); }
    case _ =>
  }

  lemma CalmConfirm(s: State, e: Event)
    requires Calm(s) && e.WriteConfirm?
    ensures Calm(Step(s, e))
  {
    var t := Step(s, e);
    if t != s {
      CalmMoves(s, t.entries, e.call, t.calls[e.call]);
      CalmSame(SetPc(s.(entries := t.entries), e.call, t.calls[e.call]), t);
    }
  }

  lemma CalmSame(s: State, t: State)
    requires Calm(s) && t.entries == s.entries && t.calls == s.calls
    requires (t.settings.Some? ==> t.settings.value.rate <= 10_000)
    ensures Calm(t)
  {
    forall c | c in t.calls ensures CalmCall(t, c) { assert CalmCall(s, c); }
  }

  /** An edit worked out from the row it is written to keeps its formulas, and its mark. */
  lemma WholeAdjustment(es: Entries, k: Key, base: Option<nat>, fine: Option<nat>)
    requires AllEquations(es) && IsDraft(es, k) && TyiynInput(base) && TyiynInput(fine)
    requires AdjustmentOf(es[k], base, fine).Some?
    ensures var w := AdjustmentOf(es[k], base, fine).value;
            && FinalFormula(Adjusted(es[k], w)) && AllEquations(es[k := Adjusted(es[k], w)])
            && Marked(es, es[k := Adjusted(es[k], w)])
  {
    UpdateKeeps(es, k, base, fine);
  }

  lemma CalmUpdate(s: State, c: CallId, k: Key, base: Option<nat>, fine: Option<nat>)
    requires Calm(s)
    ensures Calm(Step(Step(s, FindForUpdate(c, k, base, fine)), WriteUpdate(c)))
  {
    var m := Step(s, FindForUpdate(c, k, base, fine));
    if At(s, c) {
      assert CalmCall(s, c);
    } else if m.calls[c].UpdatePending? {
      WholeAdjustment(s.entries, k, base, fine);
      CalmAdjustment(s, m, c, k, m.calls[c].adjustment);
    } else {
      CalmMoves(s, s.entries, c, m.calls[c]);
    }
  }

  lemma CalmAdjustment(s: State, m: State, c: CallId, k: Key, w: Adjustment)
    requires Calm(s) && m == SetPc(s, c, UpdatePending(k, w)) && IsDraft(s.entries, k)
    requires FinalFormula(Adjusted(s.entries[k], w))
    requires AllEquations(s.entries[k := Adjusted(s.entries[k], w)])
    requires Marked(s.entries, s.entries[k := Adjusted(s.entries[k], w)])
    ensures Calm(Step(m, WriteUpdate(c)))
  {
    var es := s.entries[k := Adjusted(s.entries[k], w)];
    CalmMoves(s, es, c, Done);
    assert m.calls[c := Done] == s.calls[c := Done];
    assert Step(m, WriteUpdate(c)) == SetPc(s.(entries := es), c, Done);
  }

  /**
   * Let generates, confirmations, new settings and new missed shifts interleave in any way: as long as no statement
   * comes between the two of an update, every entry satisfies all formulas all the time.
   */
  lemma {:induction false} OnlyUpdatesMustBeWhole(s: State, es: seq<Event>)
    requires Calm(s) && WholeUpdates(es)
    ensures AllEquations(Run(s, es).entries)
    decreases |es|
  {
    if es != [] {
      if es[0].FindForUpdate? {
        CalmUpdate(s, es[0].call, es[0].key, es[0].base, es[0].fine);
        assert es[1..][0] == es[1] && es[1..][1..] == es[2..];
        OnlyUpdatesMustBeWhole(Step(Step(s, es[0]), es[1]), es[2..]);
      } else {
        CalmStep(s, es[0]);
        OnlyUpdatesMustBeWhole(Step(s, es[0]), es[1..]);
      }
    }
  }

  // --- Three races in full ------------------------------------------------------------------------------

  lemma {:induction false} RunSplits(s: State, es: seq<Event>, fs: seq<Event>)
    ensures Run(s, es + fs) == Run(Run(s, es), fs)
    decreases |es|
  {
    if es == [] {
      assert es + fs == fs;
    } else {
      assert (es + fs)[1..] == es[1..] + fs;
      RunSplits(Step(s, es[0]), es[1..], fs);
    }
  }

  const KEY := Key(1, 0)
  const FINE_500 := Settings(500, 0)
  const NOTHING := Amounts(0, 0, 0)
  const EMPTY_DRAFT := Entry(0, 0, 0, 0, false, NOTHING, Draft)

  /** The whole table is the draft e, `missed` shifts are missed, and the fine for one is 500. */
  predicate Only(s: State, e: Entry, missed: nat) {
    && s.settings == Some(FINE_500) && KEY in s.missed && s.missed[KEY] == missed
    && s.entries.Keys == {KEY} && s.entries[KEY] == e && e.status.Draft?
  }

  predicate Fresh(s: State) { s.calls == map[] && s.winners == map[] }

  /** The reads of a generate for the one employee. */
  function GenerateReads(c: CallId): seq<Event> { [StartGenerate(c, 0, [1]), CountMissed(c), FindExisting(c)] }

  function Pending(w: Refresh): Pc { RefreshPending(FINE_500, 0, [1], w) }

  lemma Reads(s: State, es: seq<Event>, t: State, c: CallId, e: Entry, missed: nat, w: Refresh)
    returns (fs: seq<Event>, u: State)
    requires t == Run(s, es) && Only(t, e, missed) && c !in t.calls && RefreshOf(e, missed, FINE_500) == Some(w)
    ensures fs == es + GenerateReads(c) && u == Run(s, fs) && Only(u, e, missed) && u.calls == t.calls[c := Pending(w)]
  {
    var gs := GenerateReads(c);
    fs := es + gs;
    RunSplits(s, es, gs);
    var a := Step(t, gs[0]);
    var b := Step(a, gs[1]);
    u := Step(b, gs[2]);
    assert a.calls[c] == Looping(FINE_500, 0, [1]);
    assert b.calls[c] == Counted(FINE_500, 0, [1], missed);
    assert gs[1..] == [gs[1], gs[2]] && gs[1..][1..] == [gs[2]] && [gs[2]][1..] == [];
    assert Run(t, gs) == Run(a, gs[1..]) == Run(b, [gs[2]]) == Run(u, []);
    assert KeyOf(b.calls[c]) == KEY;
    assert u.calls == t.calls[c := u.calls[c]];
  }

  lemma Then(s: State, es: seq<Event>, t: State, e: Event)
    requires t == Run(s, es)
    ensures Run(s, es + [e]) == Step(t, e)
  {
    RunSplits(s, es, [e]);
    assert [e][1..] == [];
  }

  lemma Writes(s: State, es: seq<Event>, t: State, c: CallId, e: Entry, missed: nat, w: Refresh)
    returns (fs: seq<Event>, u: State)
    requires t == Run(s, es) && Only(t, e, missed) && c in t.calls && t.calls[c] == Pending(w)
    requires FinalFormula(Refreshed(e, w))
    ensures fs == es + [WriteRow(c)] && u == Run(s, fs) && Only(u, Refreshed(e, w), missed)
    ensures u.calls == t.calls[c := Done]
  {
    Then(s, es, t, WriteRow(c));
    assert KeyOf(t.calls[c]) == KEY;
    fs, u := es + [WriteRow(c)], Step(t, WriteRow(c));
  }

  lemma Loads(s: State, es: seq<Event>, t: State, load: Event, e: Entry, missed: nat, w: Adjustment)
    returns (fs: seq<Event>, u: State)
    requires t == Run(s, es) && Only(t, e, missed) && load.FindForUpdate? && load.call !in t.calls && load.key == KEY
    requires TyiynInput(load.base) && TyiynInput(load.fine) && AdjustmentOf(e, load.base, load.fine) == Some(w)
    ensures fs == es + [load] && u == Run(s, fs) && Only(u, e, missed)
    ensures u.calls == t.calls[load.call := UpdatePending(KEY, w)]
  {
    Then(s, es, t, load);
    fs, u := es + [load], Step(t, load);
  }

  lemma Adjusts(s: State, es: seq<Event>, t: State, c: CallId, e: Entry, missed: nat, w: Adjustment)
    returns (fs: seq<Event>, u: State)
    requires t == Run(s, es) && Only(t, e, missed) && c in t.calls && t.calls[c] == UpdatePending(KEY, w)
    requires FinalFormula(Adjusted(e, w))
    ensures fs == es + [WriteUpdate(c)] && u == Run(s, fs) && Only(u, Adjusted(e, w), missed)
    ensures u.calls == t.calls[c := Done]
  {
    Then(s, es, t, WriteUpdate(c));
    fs, u := es + [WriteUpdate(c)], Step(t, WriteUpdate(c));
  }

  /** An edit that would load `w` from the draft e. */
  predicate LoadOf(load: Event, c: CallId, e: Entry, w: Adjustment) {
    && load.FindForUpdate? && load.call == c && load.key == KEY && TyiynInput(load.base) && TyiynInput(load.fine)
    && AdjustmentOf(e, load.base, load.fine) == Some(w)
  }

  /** An edit around a whole generate. */
  lemma EditAround(s: State, e: Entry, missed: nat, load: Event, a: Adjustment, w: Refresh)
    returns (es: seq<Event>, t: State)
    requires Only(s, e, missed) && Fresh(s) && LoadOf(load, 1, e, a) && RefreshOf(e, missed, FINE_500) == Some(w)
    requires FinalFormula(Refreshed(e, w)) && FinalFormula(Adjusted(Refreshed(e, w), a))
    ensures t == Run(s, es) && Only(t, Adjusted(Refreshed(e, w), a), missed)
  {
    es, t := Loads(s, [], s, load, e, missed, a);
    es, t := Reads(s, es, t, 2, e, missed, w);
    es, t := Writes(s, es, t, 2, e, missed, w);
    es, t := Adjusts(s, es, t, 1, Refreshed(e, w), missed, a);
  }

  /** A generate around a whole edit. */
  lemma GenerateAround(s: State, e: Entry, missed: nat, load: Event, a: Adjustment, w: Refresh)
    returns (es: seq<Event>, t: State)
    requires Only(s, e, missed) && Fresh(s) && LoadOf(load, 1, e, a) && RefreshOf(e, missed, FINE_500) == Some(w)
    requires FinalFormula(Adjusted(e, a)) && FinalFormula(Refreshed(Adjusted(e, a), w))
    ensures t == Run(s, es) && Only(t, Refreshed(Adjusted(e, a), w), missed) && WholeUpdates(es)
  {
    es, t := Reads(s, [], s, 2, e, missed, w);
    es, t := Loads(s, es, t, load, e, missed, a);
    es, t := Adjusts(s, es, t, 1, e, missed, a);
    es, t := Writes(s, es, t, 2, Adjusted(e, a), missed, w);
    assert es == GenerateReads(2) + [load, WriteUpdate(1), WriteRow(2)];
    WholeHere(load);
  }

  /** Two edits read the draft; a generate reads what the second wrote and writes after the first. */
  lemma EditUnderGenerate(s: State, e: Entry, missed: nat, first: Event, a: Adjustment, second: Event, b: Adjustment,
                          w: Refresh)
    returns (es: seq<Event>, t: State)
    requires Only(s, e, missed) && Fresh(s) && LoadOf(first, 1, e, a) && LoadOf(second, 2, e, b)
    requires FinalFormula(Adjusted(e, b)) && RefreshOf(Adjusted(e, b), missed, FINE_500) == Some(w)
    requires FinalFormula(Adjusted(Adjusted(e, b), a)) && FinalFormula(Refreshed(Adjusted(Adjusted(e, b), a), w))
    ensures t == Run(s, es) && Only(t, Refreshed(Adjusted(Adjusted(e, b), a), w), missed)
  {
    var d := Adjusted(e, b);
    es, t := Loads(s, [], s, first, e, missed, a);
    es, t := Loads(s, es, t, second, e, missed, b);
    es, t := Adjusts(s, es, t, 2, e, missed, b);
    es, t := Reads(s, es, t, 3, d, missed, w);
    es, t := Adjusts(s, es, t, 1, d, missed, a);
    es, t := Writes(s, es, t, 3, Adjusted(d, a), missed, w);
  }

  lemma WholeHere(load: Event)
    requires load.FindForUpdate? && load.call == 1
    ensures WholeUpdates(GenerateReads(2) + [load, WriteUpdate(1), WriteRow(2)])
  {
    var es := GenerateReads(2) + [load, WriteUpdate(1), WriteRow(2)];
    assert es[5..] == [WriteRow(2)] && [WriteRow(2)][1..] == [];
    assert WholeUpdates(es[5..]);
    assert es[3..][0] == load && es[3..][1] == WriteUpdate(1) && es[3..][2..] == es[5..];
    assert es[2..][1..] == es[3..] && es[1..][1..] == es[2..];
    assert WholeUpdates(es[2..]);
    assert WholeUpdates(es[1..]);
  }

  const AS_READ := Adjustment(0, false, NOTHING)
  const BY_HAND := Adjustment(0, true, Amounts(7, 0, -7))
  const TWO_FINES := Refresh(2, 500, 0, Amounts(1000, 0, -1000))
  const KEPT_FINE := Refresh(0, 500, 0, Amounts(7, 0, -7))

  lemma EmptyDraftBalances()
    ensures Equations(EMPTY_DRAFT) && Bounded(EMPTY_DRAFT)
  {
    PercentWithinWhole(0, 0);
  }

  lemma DraftTable(s: State, e: Entry, missed: nat)
    requires Only(s, e, missed) && Fresh(s) && Bounded(e)
    ensures Inv(s)
  {
    forall j | j in s.entries ensures EntryInv(s, j) {}
  }

  /** The races start from a sound table. */
  lemma RacesStartSound(s: State, missed: nat)
    requires Only(s, EMPTY_DRAFT, missed) && Fresh(s)
    ensures Inv(s) && Equations(EMPTY_DRAFT)
  {
    EmptyDraftBalances();
    DraftTable(s, EMPTY_DRAFT, missed);
  }

  lemma LoadedFromEmpty(c: CallId)
    ensures LoadOf(FindForUpdate(c, KEY, Some(0), None), c, EMPTY_DRAFT, AS_READ)
    ensures LoadOf(FindForUpdate(c, KEY, None, Some(7)), c, EMPTY_DRAFT, BY_HAND)
  {
    PercentWithinWhole(0, 0);
  }

  lemma RefreshedFromEmpty()
    ensures RefreshOf(EMPTY_DRAFT, 2, FINE_500) == Some(TWO_FINES)
    ensures RefreshOf(Adjusted(EMPTY_DRAFT, BY_HAND), 0, FINE_500) == Some(KEPT_FINE)
  {
    PercentWithinWhole(0, 0);
  }

  /**
   * So whole updates matter. An update reads the draft, a generate fines two missed shifts, the update writes: two
   * missed shifts, a fine of 500 each, and a fine of nothing.
   */
  lemma InterleavingBreaksTheFine(s: State) returns (es: seq<Event>, t: State)
    requires Only(s, EMPTY_DRAFT, 2) && Fresh(s)
    ensures t == Run(s, es) && Only(t, Entry(0, 2, 500, 0, false, NOTHING, Draft), 2)
    ensures !FineFormula(Entry(0, 2, 500, 0, false, NOTHING, Draft))
  {
    LoadedFromEmpty(1);
    RefreshedFromEmpty();
    es, t := EditAround(s, EMPTY_DRAFT, 2, FindForUpdate(1, KEY, Some(0), None), AS_READ, TWO_FINES);
  }

  /**
   * A generate can break them too. A first edit has read the draft; a second one sets the fine to 7 by hand; a generate
   * reads that; the first edit writes and takes the mark away again; the generate writes the 7.
   */
  lemma LateGenerateBreaksTheFine(s: State) returns (es: seq<Event>, t: State)
    requires Only(s, EMPTY_DRAFT, 0) && Fresh(s)
    ensures t == Run(s, es) && Only(t, Entry(0, 0, 500, 0, false, Amounts(7, 0, -7), Draft), 0)
    ensures !FineFormula(Entry(0, 0, 500, 0, false, Amounts(7, 0, -7), Draft))
  {
    LoadedFromEmpty(1);
    LoadedFromEmpty(2);
    RefreshedFromEmpty();
    var first, second := FindForUpdate(1, KEY, Some(0), None), FindForUpdate(2, KEY, None, Some(7));
    es, t := EditUnderGenerate(s, EMPTY_DRAFT, 0, first, AS_READ, second, BY_HAND, KEPT_FINE);
  }

  /**
   * And without breaking any formula a fine set by hand can be lost, although its edit was whole: a generate has read
   * the draft, the fine is set to 7 by hand, the generate writes the computed fine and leaves the mark.
   */
  lemma LateGenerateLosesAManualFine(s: State) returns (es: seq<Event>, t: State)
    requires Only(s, EMPTY_DRAFT, 2) && Fresh(s)
    ensures t == Run(s, es) && WholeUpdates(es) && Only(t, Entry(0, 2, 500, 0, true, Amounts(1000, 0, -1000), Draft), 2)
  {
    LoadedFromEmpty(1);
    RefreshedFromEmpty();
    es, t := GenerateAround(s, EMPTY_DRAFT, 2, FindForUpdate(1, KEY, None, Some(7)), BY_HAND, TWO_FINES);
  }
}
