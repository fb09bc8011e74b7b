/**
 * Monthly payroll (src/payroll/payroll.service.ts): the arithmetic, the four kinds of write, and the
 * calls as whole steps. PayrollRaces takes the same writes apart.
 */
module Payroll {
  import opened Options
  import opened Money

  type UserId = nat
  type Period = int
  type Time = int

  /** The unique key (userId, period). */
  datatype Key = Key(user: UserId, period: Period)

  datatype Settings = Settings(finePerMissed: nat, rate: nat)

  datatype Confirmation = Draft | Confirmed(who: UserId, at: Time)

  datatype Amounts = Amounts(fine: nat, tax: nat, final: int)

  datatype Entry = Entry(
    base: nat, missed: nat, finePerMissed: nat, rate: nat,
    manual: bool, amounts: Amounts, status: Confirmation)

  const TYIYN_LIMIT: int := 10_000_000_000_000_000

  /** None is the RangeError of assertFitsBigint. */
  function ComputePayroll(base: nat, missed: nat, finePerMissed: nat, rate: nat,
                          override: Option<nat>): Option<Amounts> {
    var fine: nat := if override.Some? then override.value else missed * finePerMissed;
    var tax := PercentOf(base, rate).value;
    if AssertFitsBigint(fine).None? || AssertFitsBigint(tax).None? then None
    else Some(Amounts(fine, tax, base - fine - tax))
  }

  // --- What every entry satisfies --------------------------------------------------------

  /** A CHECK constraint of the table. */
  predicate FinalFormula(e: Entry) { e.amounts.final == e.base - e.amounts.fine - e.amounts.tax }

  /** The fine is the computed one unless it is set by hand. */
  predicate FineFormula(e: Entry) { e.manual || e.amounts.fine == e.missed * e.finePerMissed }

  predicate Equations(e: Entry) {
    && FinalFormula(e)
    && e.base < TYIYN_LIMIT && e.rate <= 10_000
    && PercentOf(e.base, e.rate) == Some(e.amounts.tax)
    && FineFormula(e)
    && e.amounts.fine <= MAX_DB_BIGINT
  }

  predicate FitsBigint(v: int) { -MAX_DB_BIGINT <= v <= MAX_DB_BIGINT }

  /** computePayroll checks the fine and the tax; the final amount then fits its column unchecked. */
  lemma FinalFits(e: Entry)
    requires Equations(e)
    ensures FitsBigint(e.amounts.final) && FitsBigint(e.amounts.fine) && FitsBigint(e.amounts.tax)
    ensures e.amounts.final <= e.base
  {
    PercentWithinWhole(e.base, e.rate);
  }

  /** With a salary and rate in range, only the fine can be out of range. */
  lemma ComputeFailsOnlyOnTheFine(base: nat, missed: nat, finePerMissed: nat, rate: nat, override: Option<nat>)
    requires base < TYIYN_LIMIT && rate <= 10_000
    ensures ComputePayroll(base, missed, finePerMissed, rate, override).None? <==>
            (if override.Some? then override.value else missed * finePerMissed) > MAX_DB_BIGINT
  {
    PercentWithinWhole(base, rate);
  }

  // --- The writes ------------------------------------------------------------------------------

  type Entries = map<Key, Entry>

  predicate IsDraft(es: Entries, k: Key) { k in es && es[k].status.Draft? }

  /** What generate writes to an existing draft: all but the salary. */
  datatype Refresh = Refresh(missed: nat, finePerMissed: nat, rate: nat, amounts: Amounts)

  function Refreshed(e: Entry, w: Refresh): Entry {
    e.(missed := w.missed, finePerMissed := w.finePerMissed, rate := w.rate, amounts := w.amounts)
  }

  /** updateMany where status is draft; None if the CHECK constraint rejects the row. */
  function WriteRefresh(es: Entries, k: Key, w: Refresh): Option<Entries> {
    if !IsDraft(es, k) then Some(es)
    else if !FinalFormula(Refreshed(es[k], w)) then None
    else Some(es[k := Refreshed(es[k], w)])
  }

  /** create; the unique key makes a second one do nothing. */
  function WriteNew(es: Entries, k: Key, e: Entry): Option<Entries> {
    if k in es then Some(es) else if !FinalFormula(e) then None else Some(es[k := e])
  }

  datatype Adjustment = Adjustment(base: nat, manual: bool, amounts: Amounts)

  function Adjusted(e: Entry, w: Adjustment): Entry { e.(base := w.base, manual := w.manual, amounts := w.amounts) }

  function WriteAdjustment(es: Entries, k: Key, w: Adjustment): Option<Entries> {
    if !IsDraft(es, k) then Some(es)
    else if !FinalFormula(Adjusted(es[k], w)) then None
    else Some(es[k := Adjusted(es[k], w)])
  }

  function WriteConfirmation(es: Entries, k: Key, who: UserId, at: Time): Entries {
    if IsDraft(es, k) then es[k := es[k].(status := Confirmed(who, at))] else es
  }

  // --- Reads and the values to write ----------------------------------------------------------

  predicate ConfirmedBefore(es: Entries, k: Key, user: UserId, period: Period) {
    k in es && k.user == user && es[k].status.Confirmed? && k.period < period
  }

  predicate LastConfirmed(es: Entries, k: Key, user: UserId, period: Period) {
    && ConfirmedBefore(es, k, user, period)
    && forall j :: j in es && ConfirmedBefore(es, j, user, period) ==> j.period <= k.period
  }

  /** The salary of the last confirmed earlier month, or zero. */
  function CarriedBase(es: Entries, user: UserId, period: Period): nat {
    if exists k :: k in es && LastConfirmed(es, k, user, period) then
      var k :| k in es && LastConfirmed(es, k, user, period);
      es[k].base
    else 0
  }

  function RefreshOf(e: Entry, missed: nat, t: Settings): Option<Refresh> {
    match ComputePayroll(e.base, missed, t.finePerMissed, t.rate, if e.manual then Some(e.amounts.fine) else None)
    case None => None
    case Some(a) => Some(Refresh(missed, t.finePerMissed, t.rate, a))
  }

  function NewEntry(base: nat, missed: nat, t: Settings): Option<Entry> {
    match ComputePayroll(base, missed, t.finePerMissed, t.rate, None)
    case None => None
    case Some(a) => Some(Entry(base, missed, t.finePerMissed, t.rate, false, a, Draft))
  }

  function AdjustmentOf(e: Entry, base: Option<nat>, fine: Option<nat>): Option<Adjustment> {
    var b := if base.Some? then base.value else e.base;
    var f := if fine.Some? then fine else if e.manual then Some(e.amounts.fine) else None;
    match ComputePayroll(b, e.missed, e.finePerMissed, e.rate, f)
    case None => None
    case Some(a) => Some(Adjustment(b, f.Some?, a))
  }

  // --- Whole calls --------------------------------------------------------------------------------

  /** One turn of generate's loop; None when it throws. */
  function GenerateOne(es: Entries, k: Key, missed: nat, t: Settings): Option<Entries> {
    if k in es && es[k].status.Confirmed? then Some(es)
    else if k in es then
      match RefreshOf(es[k], missed, t)
      case None => None
      case Some(w) => WriteRefresh(es, k, w)
    else
      match NewEntry(CarriedBase(es, k.user, k.period), missed, t)
      case None => None
      case Some(e) => WriteNew(es, k, e)
  }

  datatype Generated = Generated(entries: Entries, completed: bool)

  type MissedCount = Key -> nat

  /** The loop over the employees: entries written before a throw stay. */
  function Generate(es: Entries, users: seq<UserId>, period: Period, missed: MissedCount, t: Settings): Generated
    decreases |users|
  {
    if users == [] then Generated(es, true)
    else
      match GenerateOne(es, Key(users[0], period), missed(Key(users[0], period)), t)
      case None => Generated(es, false)
      case Some(next) => Generate(next, users[1..], period, missed, t)
  }

  datatype State = State(settings: Option<Settings>, entries: Entries)

  datatype Event =
    | PutSettings(finePerMissed: nat, rate: nat)
    | GenerateCall(users: seq<UserId>, period: Period, missed: MissedCount)
    | UpdateCall(key: Key, base: Option<nat>, fine: Option<nat>)
    | ConfirmCall(key: Key, who: UserId, at: Time)

  predicate TyiynInput(v: Option<nat>) { v.Some? ==> v.value < TYIYN_LIMIT }

  function UpdateEntries(es: Entries, k: Key, base: Option<nat>, fine: Option<nat>): Entries {
    if IsDraft(es, k) && TyiynInput(base) && TyiynInput(fine) && AdjustmentOf(es[k], base, fine).Some? then
      match WriteAdjustment(es, k, AdjustmentOf(es[k], base, fine).value)
      case None => es
      case Some(next) => next
    else es
  }

  function Step(s: State, e: Event): State {
    match e
    case PutSettings(f, rate) =>
      if f < TYIYN_LIMIT && rate <= 10_000 then s.(settings := Some(Settings(f, rate))) else s
    case GenerateCall(users, period, missed) =>
      if s.settings.None? then s
        else s.(entries := Generate(s.entries, users, period, missed, s.settings.value).entries)
    case UpdateCall(k, base, fine) => s.(entries := UpdateEntries(s.entries, k, base, fine))
    case ConfirmCall(k, who, at) => s.(entries := WriteConfirmation(s.entries, k, who, at))
  }

  function Run(s: State, es: seq<Event>): State
    decreases |es|
  {
    if es == [] then s else Run(Step(s, es[0]), es[1..])
  }

  // --- Every serial run keeps the equations -----------------------------------------------------

  predicate AllEquations(es: Entries) { forall k :: k in es ==> Equations(es[k]) }

  predicate Inv(s: State) { (s.settings.Some? ==> s.settings.value.rate <= 10_000) && AllEquations(s.entries) }

  lemma RefreshKeeps(e: Entry, missed: nat, t: Settings)
    requires Equations(e) && t.rate <= 10_000
    ensures RefreshOf(e, missed, t).Some? ==> Equations(Refreshed(e, RefreshOf(e, missed, t).value))
  {
    PercentWithinWhole(e.base, t.rate);
  }

  lemma NewKeeps(base: nat, missed: nat, t: Settings)
    requires base < TYIYN_LIMIT && t.rate <= 10_000
    ensures NewEntry(base, missed, t).Some? ==> Equations(NewEntry(base, missed, t).value)
  {
    PercentWithinWhole(base, t.rate);
  }

  lemma GenerateOneKeeps(es: Entries, k: Key, missed: nat, t: Settings)
    requires AllEquations(es) && t.rate <= 10_000
    ensures GenerateOne(es, k, missed, t).Some? ==> AllEquations(GenerateOne(es, k, missed, t).value)
  {
    if k in es { RefreshKeeps(es[k], missed, t); } else { NewKeeps(CarriedBase(es, k.user, k.period), missed, t); }
  }

  lemma {:induction false} GenerateKeeps(es: Entries, users: seq<UserId>, period: Period, missed: MissedCount,
                                         t: Settings)
    requires AllEquations(es) && t.rate <= 10_000
    ensures AllEquations(Generate(es, users, period, missed, t).entries)
    decreases |users|
  {
    if users != [] {
      var k := Key(users[0], period);
      GenerateOneKeeps(es, k, missed(k), t);
      var next := GenerateOne(es, k, missed(k), t);
      if next.Some? { GenerateKeeps(next.value, users[1..], period, missed, t); }
    }
  }

  lemma UpdateKeeps(es: Entries, k: Key, base: Option<nat>, fine: Option<nat>)
    requires AllEquations(es)
    ensures AllEquations(UpdateEntries(es, k, base, fine))
  {
    if IsDraft(es, k) {
      var e := es[k];
      PercentWithinWhole(if base.Some? then base.value else e.base, e.rate);
    }
  }

  lemma StepKeeps(s: State, e: Event)
    requires Inv(s)
    ensures Inv(Step(s, e))
  {
    match e
    case PutSettings(_, _) =>
    case GenerateCall(users, period, missed) =>
      if s.settings.Some? { GenerateKeeps(s.entries, users, period, missed, s.settings.value); }
    case UpdateCall(k, base, fine) => UpdateKeeps(s.entries, k, base, fine);
    case ConfirmCall(k, who, at) =>
  }

  /** From an empty table, every entry of every serial run satisfies the formulas, drafts and confirmed alike. */
  lemma {:induction false} RunKeeps(s: State, es: seq<Event>)
    requires Inv(s)
    ensures Inv(Run(s, es))
    decreases |es|
  {
    if es != [] {
      StepKeeps(s, es[0]);
      RunKeeps(Step(s, es[0]), es[1..]);
    }
  }

  // --- Generating again ---------------------------------------------------------------------------

  lemma RefreshAgain(e: Entry, missed: nat, t: Settings)
    requires RefreshOf(e, missed, t).Some?
    ensures RefreshOf(Refreshed(e, RefreshOf(e, missed, t).value), missed, t) == RefreshOf(e, missed, t)
  {
  }

  predicate Settled(es: Entries, k: Key, missed: nat, t: Settings) { GenerateOne(es, k, missed, t) == Some(es) }

  lemma SettledAfterOne(es: Entries, k: Key, missed: nat, t: Settings)
    requires GenerateOne(es, k, missed, t).Some?
    ensures Settled(GenerateOne(es, k, missed, t).value, k, missed, t)
  {
    var next := GenerateOne(es, k, missed, t).value;
    if k in es && es[k].status.Draft? {
      var w := RefreshOf(es[k], missed, t).value;
      RefreshAgain(es[k], missed, t);
      assert next[k] == Refreshed(es[k], w);
      assert next[k := Refreshed(next[k], w)] == next;
    } else if k !in es {
      var e := next[k];
      assert RefreshOf(e, missed, t).value == Refresh(e.missed, e.finePerMissed, e.rate, e.amounts);
      assert next[k := e] == next;
    }
  }

  /**
   * Another employee's turn leaves this one settled: no confirmed row changes, so the carried salary does not either.
   */
  lemma SettledStays(es: Entries, k: Key, missed: nat, j: Key, other: nat, t: Settings)
    requires k in es && Settled(es, k, missed, t) && GenerateOne(es, j, other, t).Some?
    ensures k in GenerateOne(es, j, other, t).value
    ensures j != k ==> Settled(GenerateOne(es, j, other, t).value, k, missed, t)
  {
    var next := GenerateOne(es, j, other, t).value;
    if j != k {
      assert next[k] == es[k];
      if es[k].status.Draft? {
        var w := RefreshOf(es[k], missed, t).value;
        assert es[k := Refreshed(es[k], w)][k] == es[k];
        assert next[k := Refreshed(es[k], w)] == next;
      }
    }
  }

  lemma {:induction false} SettledThroughout(es: Entries, users: seq<UserId>, period: Period, missed: MissedCount,
                                             t: Settings, k: Key)
    requires k in es && Settled(es, k, missed(k), t)
    ensures var r := Generate(es, users, period, missed, t).entries; k in r && Settled(r, k, missed(k), t)
    decreases |users|
  {
    if users != [] {
      var j := Key(users[0], period);
      var next := GenerateOne(es, j, missed(j), t);
      if next.Some? {
        SettledStays(es, k, missed(k), j, missed(j), t);
        if j == k { SettledAfterOne(es, j, missed(j), t); }
        SettledThroughout(next.value, users[1..], period, missed, t, k);
      }
    }
  }

  /**
   * With the same shifts and settings, generating a second time changes nothing: it completes where the first pass
   * did, and stops at the same employee where the first met a RangeError.
   */
  lemma {:induction false} GenerateTwice(es: Entries, users: seq<UserId>, period: Period, missed: MissedCount,
                                         t: Settings)
    ensures var g := Generate(es, users, period, missed, t); Generate(g.entries, users, period, missed, t) == g
    decreases |users|
  {
    if users != [] {
      var k := Key(users[0], period);
      var next := GenerateOne(es, k, missed(k), t);
      if next.Some? {
        GenerateTwice(next.value, users[1..], period, missed, t);
        SettledAfterOne(es, k, missed(k), t);
        SettledThroughout(next.value, users[1..], period, missed, t, k);
      }
    }
  }

  // --- What a new and a refreshed draft keep -----------------------------------------------------

  /** The salary was confirmed in some earlier month of the employee and in none since, or is zero and none was. */
  predicate SalaryFrom(es: Entries, user: UserId, period: Period, base: nat) {
    || (base == 0 && forall j :: j in es && j.user == user && j.period < period ==> es[j].status == Draft)
    || exists k :: k in es && k.user == user && k.period < period && es[k].status != Draft && es[k].base == base
                    && forall j :: j in es && j.user == user && k.period < j.period < period ==> es[j].status == Draft
  }

  lemma {:induction false} SomeIsLast(es: Entries, user: UserId, period: Period, keys: set<Key>)
    requires keys != {} && forall k :: k in keys ==> ConfirmedBefore(es, k, user, period)
    ensures exists k :: k in keys && forall j :: j in keys ==> j.period <= k.period
    decreases |keys|
  {
    var k :| k in keys;
    if keys != {k} {
      SomeIsLast(es, user, period, keys - {k});
      var l :| l in keys - {k} && forall j :: j in keys - {k} ==> j.period <= l.period;
      assert forall j :: j in keys ==> j.period <= if l.period < k.period then k.period else l.period;
    }
  }

  /** The salary carried over is that of the last confirmed earlier month of the same employee, and zero without one. */
  lemma CarriedFromLastConfirmed(es: Entries, user: UserId, period: Period)
    ensures SalaryFrom(es, user, period, CarriedBase(es, user, period))
  {
    var keys := set k | k in es && ConfirmedBefore(es, k, user, period);
    if keys == {} {
      forall j | j in es && j.user == user && j.period < period
        ensures es[j].status == Draft
      {
        assert j !in keys;
      }
    } else {
      SomeIsLast(es, user, period, keys);
      var last :| last in keys && forall j :: j in keys ==> j.period <= last.period;
      assert LastConfirmed(es, last, user, period);
      var k :| k in es && LastConfirmed(es, k, user, period) && es[k].base == CarriedBase(es, user, period);
      forall j | j in es && j.user == user && k.period < j.period < period
        ensures es[j].status == Draft
      {
        assert LastConfirmed(es, k, user, period);
        assert ConfirmedBefore(es, j, user, period) ==> j.period <= k.period;
      }
    }
  }

  lemma SalaryStays(es: Entries, next: Entries, user: UserId, period: Period, base: nat)
    requires forall k :: k in es ==> k in next && (es[k].status != Draft ==> next[k] == es[k])
    requires forall k :: k in next && next[k].status != Draft ==> k in es && es[k] == next[k]
    requires SalaryFrom(next, user, period, base)
    ensures SalaryFrom(es, user, period, base)
  {
  }

  /** What generate makes of one employee's month, whether the row was there or not. */
  predicate GeneratedAs(es: Entries, k: Key, missed: nat, t: Settings, x: Entry) {
    if k in es && es[k].status != Draft then x == es[k]
    else
      && x.status == Draft && x.missed == missed && x.finePerMissed == t.finePerMissed && x.rate == t.rate
      && (if k in es then x.base == es[k].base && x.manual == es[k].manual
          else SalaryFrom(es, k.user, k.period, x.base) && !x.manual)
      && x.amounts.fine == (if k in es && es[k].manual then es[k].amounts.fine else missed * t.finePerMissed)
      && PercentOf(x.base, t.rate) == Some(x.amounts.tax)
      && x.amounts.final == x.base - x.amounts.fine - x.amounts.tax
  }

  lemma TurnGenerates(es: Entries, k: Key, missed: nat, t: Settings)
    requires GenerateOne(es, k, missed, t).Some?
    ensures var next := GenerateOne(es, k, missed, t).value;
            k in next && next == es[k := next[k]] && GeneratedAs(es, k, missed, t, next[k])
  {
    if k !in es { CarriedFromLastConfirmed(es, k.user, k.period); }
  }

  /** A generate that completes treats every employee as if alone, and leaves every other row as it was. */
  lemma {:induction false} GenerateSetsEveryRow(es: Entries, users: seq<UserId>, period: Period, missed: MissedCount,
                                                t: Settings, k: Key)
    requires Generate(es, users, period, missed, t).completed
    ensures var r := Generate(es, users, period, missed, t).entries;
            if k.user in users && k.period == period then k in r && GeneratedAs(es, k, missed(k), t, r[k])
            else (k in r <==> k in es) && (k in r ==> r[k] == es[k])
    decreases |users|
  {
    if users != [] {
      var j := Key(users[0], period);
      var next := GenerateOne(es, j, missed(j), t).value;
      TurnGenerates(es, j, missed(j), t);
      GenerateSetsEveryRow(next, users[1..], period, missed, t, k);
      var r := Generate(es, users, period, missed, t).entries;
      assert k.user in users <==> k.user == users[0] || k.user in users[1..];
      if j != k && k.user in users[1..] && k.period == period && k !in es {
        SalaryStays(es, next, k.user, k.period, r[k].base);
      }
    }
  }

  /** The fine a turn of generate would write. */
  function FineDue(es: Entries, k: Key, missed: nat, t: Settings): nat {
    if k in es && es[k].manual then es[k].amounts.fine else missed * t.finePerMissed
  }

  lemma TurnFailsOnlyOnTheFine(es: Entries, k: Key, missed: nat, t: Settings)
    requires AllEquations(es) && t.rate <= 10_000
    ensures GenerateOne(es, k, missed, t).None? <==>
            !(k in es && es[k].status != Draft) && FineDue(es, k, missed, t) > MAX_DB_BIGINT
  {
    var base := if k in es then es[k].base else CarriedBase(es, k.user, k.period);
    ComputeFailsOnlyOnTheFine(base, missed, t.finePerMissed, t.rate,
      if k in es && es[k].manual then Some(es[k].amounts.fine) else None);
  }

  /** A generate completes exactly if no employee's computed fine is beyond the column. */
  lemma {:induction false} GenerateCompletesIff(es: Entries, users: seq<UserId>, period: Period, missed: MissedCount,
                                                t: Settings)
    requires AllEquations(es) && t.rate <= 10_000
    ensures Generate(es, users, period, missed, t).completed <==>
            forall u :: u in users ==> TurnFits(es, Key(u, period), missed(Key(u, period)), t)
    decreases |users|
  {
    if users != [] {
      var k := Key(users[0], period);
      TurnFailsOnlyOnTheFine(es, k, missed(k), t);
      GenerateOneKeeps(es, k, missed(k), t);
      var next := GenerateOne(es, k, missed(k), t);
      if next.Some? {
        GenerateCompletesIff(next.value, users[1..], period, missed, t);
        forall u | u in users
          ensures u in users[1..] || u == users[0]
          ensures TurnFits(es, Key(u, period), missed(Key(u, period)), t) <==>
                  TurnFits(next.value, Key(u, period), missed(Key(u, period)), t)
        {
          TurnGenerates(es, k, missed(k), t);
        }
      } else {
        assert users[0] in users;
      }
    }
  }

  /** The row is confirmed, or fined by hand, or the computed fine fits its column. */
  predicate TurnFits(es: Entries, k: Key, missed: nat, t: Settings) {
    || (k in es && (es[k].status != Draft || es[k].manual))
    || missed * t.finePerMissed <= MAX_DB_BIGINT
  }

  /** Refreshing a draft keeps its salary, and a fine set by hand survives every later generate. */
  lemma {:induction false} ManualFineSurvives(es: Entries, users: seq<UserId>, period: Period, missed: MissedCount,
                                              t: Settings, k: Key)
    requires IsDraft(es, k)
    ensures var r := Generate(es, users, period, missed, t).entries;
            && IsDraft(r, k) && r[k].base == es[k].base && r[k].manual == es[k].manual
            && (es[k].manual ==> r[k].amounts.fine == es[k].amounts.fine)
    decreases |users|
  {
    if users != [] {
      var j := Key(users[0], period);
      var next := GenerateOne(es, j, missed(j), t);
      if next.Some? { ManualFineSurvives(next.value, users[1..], period, missed, t, k); }
    }
  }

  // --- The summary ----------------------------------------------------------------------------------

  datatype Totals = Totals(base: int, fine: int, tax: int, final: int, missed: int)

  /** The reduces of summary over the month's rows in their order. */
  function Summed(rows: seq<Entry>): Totals {
    if rows == [] then Totals(0, 0, 0, 0, 0)
    else
      var t, e := Summed(rows[..|rows| - 1]), rows[|rows| - 1];
      Totals(t.base + e.base, t.fine + e.amounts.fine, t.tax + e.amounts.tax, t.final + e.amounts.final,
        t.missed + e.missed)
  }

  function Sum(xs: seq<int>): int { if xs == [] then 0 else Sum(xs[..|xs| - 1]) + xs[|xs| - 1] }

  /** Each total is the sum of its own column. */
  predicate TotalsOf(rows: seq<Entry>, t: Totals) {
    && t.base == Sum(seq(|rows|, i requires 0 <= i < |rows| => rows[i].base as int))
    && t.fine == Sum(seq(|rows|, i requires 0 <= i < |rows| => rows[i].amounts.fine as int))
    && t.tax == Sum(seq(|rows|, i requires 0 <= i < |rows| => rows[i].amounts.tax as int))
    && t.final == Sum(seq(|rows|, i requires 0 <= i < |rows| => rows[i].amounts.final))
    && t.missed == Sum(seq(|rows|, i requires 0 <= i < |rows| => rows[i].missed as int))
  }

  predicate RowsOf(es: Entries, rows: seq<Entry>)
  {
    forall i :: 0 <= i < |rows| ==> exists k :: k in es && es[k] == rows[i]
  }

  lemma SumOfLonger(xs: seq<int>, ys: seq<int>)
    requires |xs| == |ys| + 1 && xs[..|ys|] == ys
    ensures Sum(xs) == Sum(ys) + xs[|ys|]
  {
  }

  lemma {:induction false} SummedByColumns(rows: seq<Entry>)
    ensures TotalsOf(rows, Summed(rows))
  {
    if rows != [] {
      var n := |rows| - 1;
      var less := rows[..n];
      SummedByColumns(less);
      SumOfLonger(seq(|rows|, i requires 0 <= i < |rows| => rows[i].base as int),
                  seq(n, i requires 0 <= i < n => less[i].base as int));
      SumOfLonger(seq(|rows|, i requires 0 <= i < |rows| => rows[i].amounts.fine as int),
                  seq(n, i requires 0 <= i < n => less[i].amounts.fine as int));
      SumOfLonger(seq(|rows|, i requires 0 <= i < |rows| => rows[i].amounts.tax as int),
                  seq(n, i requires 0 <= i < n => less[i].amounts.tax as int));
      SumOfLonger(seq(|rows|, i requires 0 <= i < |rows| => rows[i].amounts.final),
                  seq(n, i requires 0 <= i < n => less[i].amounts.final));
      SumOfLonger(seq(|rows|, i requires 0 <= i < |rows| => rows[i].missed as int),
                  seq(n, i requires 0 <= i < n => less[i].missed as int));
    }
  }

  lemma {:induction false} TotalsBalance(rows: seq<Entry>)
    requires forall i :: 0 <= i < |rows| ==> FinalFormula(rows[i])
    ensures Summed(rows).final == Summed(rows).base - Summed(rows).fine - Summed(rows).tax
  {
    if rows != [] { TotalsBalance(rows[..|rows| - 1]); }
  }

  /** The director's totals obey the formula of a single entry, whatever rows the report selects. */
  lemma SummaryBalances(s: State, es: seq<Event>, rows: seq<Entry>)
    requires Inv(s) && RowsOf(Run(s, es).entries, rows)
    ensures TotalsOf(rows, Summed(rows))
    ensures Summed(rows).final == Summed(rows).base - Summed(rows).fine - Summed(rows).tax
  {
    RunKeeps(s, es);
    SummedByColumns(rows);
    TotalsBalance(rows);
  }
}
