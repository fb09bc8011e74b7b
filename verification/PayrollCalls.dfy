/** The payroll service over its tables: each call is one step of Payroll. */
module PayrollCalls {
  import opened Options
  import opened Money
  import opened Payroll

  datatype Answer =
    | Accepted | TaxRateOutOfRange | PayrollPeriodInFuture | PayrollSettingsRequired
    | PayrollEntryNotFound | PayrollEntryConfirmed | OutOfRange | InvalidInput

  predicate InputOk(v: Option<nat>) { v.None? || v.value <= 9_999_999_999_999_999 }

  /** An edit sets the salary and the fine it is given, works out the rest and leaves shifts, rates and status. */
  predicate AdjustedAs(e: Entry, base: Option<nat>, fine: Option<nat>, x: Entry) {
    && x.missed == e.missed && x.finePerMissed == e.finePerMissed && x.rate == e.rate && x.status == e.status
    && x.base == (if base.Some? then base.value else e.base)
    && x.manual == (fine.Some? || e.manual)
    && x.amounts.fine == (if fine.Some? then fine.value
                          else if e.manual then e.amounts.fine
                          else e.missed * e.finePerMissed)
    && PercentOf(x.base, e.rate) == Some(x.amounts.tax)
    && x.amounts.final == x.base - x.amounts.fine - x.amounts.tax
  }

  lemma AdjustmentIs(e: Entry, base: Option<nat>, fine: Option<nat>)
    ensures AdjustmentOf(e, base, fine).Some? ==>
              AdjustedAs(e, base, fine, Adjusted(e, AdjustmentOf(e, base, fine).value))
    ensures Equations(e) && InputOk(base) && InputOk(fine) ==> AdjustmentOf(e, base, fine).Some?
  {
    if Equations(e) && InputOk(base) && InputOk(fine) {
      ComputeFailsOnlyOnTheFine(if base.Some? then base.value else e.base, e.missed, e.finePerMissed, e.rate,
        if fine.Some? then fine else if e.manual then Some(e.amounts.fine) else None);
    }
  }

  lemma EveryRowGenerated(es: Entries, users: seq<UserId>, period: Period, missed: MissedCount, t: Settings)
    ensures var g := Generate(es, users, period, missed, t);
            && (g.completed ==> GeneratedRows(es, users, period, missed, t, g.entries))
            && (AllEquations(es) && t.rate <= 10_000 ==>
                  (g.completed <==> forall u :: u in users ==> TurnFits(es, Key(u, period), missed(Key(u, period)), t)))
  {
    var g := Generate(es, users, period, missed, t);
    if g.completed { forall k { GenerateSetsEveryRow(es, users, period, missed, t, k); } }
    if AllEquations(es) && t.rate <= 10_000 { GenerateCompletesIff(es, users, period, missed, t); }
  }

  /** The table after a generate that completed: one row for each employee of the month, and every other as it was. */
  ghost predicate GeneratedRows(es: Entries, users: seq<UserId>, period: Period, missed: MissedCount, t: Settings,
                          after: Entries) {
    && (forall k :: k in after <==> k in es || (k.user in users && k.period == period))
    && forall k :: k in after ==>
         if k.user in users && k.period == period then GeneratedAs(es, k, missed(k), t, after[k])
         else k in es && after[k] == es[k]
  }

  class PayrollService {
    var settings: Option<Settings>
    var entries: Entries

    function View(): State
      reads this
    {
      State(settings, entries)
    }

    method Put(finePerMissed: nat, rate: nat) returns (answer: Answer)
      modifies this`settings
      ensures View() == Step(old(View()), PutSettings(finePerMissed, rate))
      ensures answer == if finePerMissed > 9_999_999_999_999_999 then InvalidInput
                        else if rate > 10_000 then TaxRateOutOfRange
                        else Accepted
      ensures settings == if answer.Accepted? then Some(Settings(finePerMissed, rate)) else old(settings)
    {
      if finePerMissed >= TYIYN_LIMIT { return InvalidInput; }
      if rate > 10_000 { return TaxRateOutOfRange; }
      settings := Some(Settings(finePerMissed, rate));
      return Accepted;
    }

    /** generate's loop; what was written before a RangeError stays written. */
    method GenerateMonth(users: seq<UserId>, period: Period, current: Period, missed: MissedCount)
      returns (answer: Answer)
      modifies this`entries
      ensures answer.PayrollPeriodInFuture? <==> period > current
      ensures answer.PayrollSettingsRequired? <==> period <= current && settings.None?
      ensures answer in {PayrollPeriodInFuture, PayrollSettingsRequired} ==> entries == old(entries)
      ensures !answer.PayrollPeriodInFuture? ==> View() == Step(old(View()), GenerateCall(users, period, missed))
      ensures answer.Accepted? ==>
                settings.Some? && GeneratedRows(old(entries), users, period, missed, settings.value, entries)
      ensures period <= current && settings.Some? && AllEquations(old(entries)) && settings.value.rate <= 10_000 ==>
                answer == if forall u :: u in users ==> TurnFits(old(entries), Key(u, period), missed(Key(u, period)),
                                                                 settings.value)
                          then Accepted else OutOfRange
      ensures answer.Accepted? ==>
                settings.Some? && Generate(old(entries), users, period, missed, settings.value).completed
      ensures answer.OutOfRange? ==>
                settings.Some? && !Generate(old(entries), users, period, missed, settings.value).completed
    {
      if period > current { return PayrollPeriodInFuture; }
      if settings.None? { return PayrollSettingsRequired; }
      var t := settings.value;
      ghost var goal := Generate(entries, users, period, missed, t);
      EveryRowGenerated(entries, users, period, missed, t);
      for i := 0 to |users|
        invariant Generate(entries, users[i..], period, missed, t) == goal
      {
        var k := Key(users[i], period);
        assert users[i..][0] == users[i] && users[i..][1..] == users[i + 1..];
        if !(k in entries && entries[k].status.Confirmed?) {
          if k in entries {
            var w := RefreshOf(entries[k], missed(k), t);
            if w.None? { return OutOfRange; }
            var written := WriteRefresh(entries, k, w.value);
            if written.None? { return OutOfRange; }
            entries := written.value;
          } else {
            var e := NewEntry(CarriedBase(entries, k.user, k.period), missed(k), t);
            if e.None? { return OutOfRange; }
            var written := WriteNew(entries, k, e.value);
            if written.None? { return OutOfRange; }
            entries := written.value;
          }
        }
      }
      return Accepted;
    }

    method UpdateDraft(k: Key, base: Option<nat>, fine: Option<nat>) returns (answer: Answer)
      modifies this`entries
      ensures View() == Step(old(View()), UpdateCall(k, base, fine))
      ensures answer.OutOfRange? ==> !AllEquations(old(entries))
      ensures if !InputOk(base) || !InputOk(fine) then answer == InvalidInput
              else if k !in old(entries) then answer == PayrollEntryNotFound
              else if old(entries)[k].status != Draft then answer == PayrollEntryConfirmed
              else answer in {Accepted, OutOfRange}
      ensures answer.Accepted? ==>
                && k in entries && entries == old(entries)[k := entries[k]]
                && AdjustedAs(old(entries)[k], base, fine, entries[k])
      ensures !answer.Accepted? ==> entries == old(entries)
    {
      if k in entries { AdjustmentIs(entries[k], base, fine); }
      if !TyiynInput(base) || !TyiynInput(fine) { return InvalidInput; }
      if k !in entries { return PayrollEntryNotFound; }
      if !entries[k].status.Draft? { return PayrollEntryConfirmed; }
      var w := AdjustmentOf(entries[k], base, fine);
      if w.None? { return OutOfRange; }
      var written := WriteAdjustment(entries, k, w.value);
      if written.None? { return OutOfRange; }
      entries := written.value;
      return Accepted;
    }

    method ConfirmDraft(k: Key, who: UserId, at: Time) returns (answer: Answer)
      modifies this`entries
      ensures View() == Step(old(View()), ConfirmCall(k, who, at))
      ensures answer == if k !in old(entries) then PayrollEntryNotFound
                        else if old(entries)[k].status != Draft then PayrollEntryConfirmed
                        else Accepted
      ensures entries == if answer.Accepted? then old(entries)[k := old(entries)[k].(status := Confirmed(who, at))]
                         else old(entries)
    {
      if k !in entries { return PayrollEntryNotFound; }
      if !entries[k].status.Draft? { return PayrollEntryConfirmed; }
      entries := WriteConfirmation(entries, k, who, at);
      return Accepted;
    }

    /** The totals of summary: one pass over the month's rows. */
    method Summarize(rows: seq<Entry>) returns (t: Totals)
      requires RowsOf(entries, rows) && AllEquations(entries)
      ensures t == Summed(rows) && TotalsOf(rows, t)
      ensures t.final == t.base - t.fine - t.tax
    {
      t := Totals(0, 0, 0, 0, 0);
      assert rows[..0] == [];
      for i := 0 to |rows|
        invariant t == Summed(rows[..i])
      {
        var e := rows[i];
        assert rows[..i + 1][..i] == rows[..i];
        t := Totals(t.base + e.base, t.fine + e.amounts.fine, t.tax + e.amounts.tax, t.final + e.amounts.final,
          t.missed + e.missed);
      }
      assert rows[..|rows|] == rows;
      SummedByColumns(rows);
      TotalsBalance(rows);
    }
  }
}
