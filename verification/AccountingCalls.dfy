/** The accounting service over its tables: each call is one step of Accounting. */
module AccountingCalls {
  import opened Options
  import opened BusinessCalendar
  import opened Accounting

  datatype Answer =
    | Accepted
    | CategoryDoesNotMatchType | TransactionDateInFuture | AccountingPeriodClosed | RelatedContractNotFound
    | InvalidAmount | Forbidden | TransactionNotFound | TransactionNotOwned
    | PeriodNotFinished | PeriodAlreadyClosed

  /** A category of income goes with income and any other with expense. */
  predicate Fits(kind: Kind, category: Category) {
    kind == Income <==> category in {SaleDeposit, SaleFullPayment, SaleInstallment, OtherIncome}
  }

  predicate Payable(amount: nat) { 0 < amount <= 9_999_999_999_999_999 }

  /** What findEditableByAccountant answers, of the row with this id. */
  function EditorsAnswer(month: MonthOf, rows: seq<Tx>, closed: set<Month>, actor: Actor, id: TxId): Answer {
    if !actor.accountant then Forbidden
    else if !HasId(rows, id) then TransactionNotFound
    else
      var t := rows[IndexOf(rows, id)];
      if t.owner != actor.id then TransactionNotOwned
      else if month(t.figures.day) in closed then AccountingPeriodClosed
      else Accepted
  }

  function DayAnswer(month: MonthOf, today: Day, closed: set<Month>, day: Day): Answer {
    if day > today then TransactionDateInFuture
    else if month(day) in closed then AccountingPeriodClosed
    else Accepted
  }

  /** After an edit of t: every figure that was sent, and every other as it was. */
  predicate EditedAs(t: Tx, u: Update, x: Tx) {
    && x.id == t.id && x.owner == t.owner && x.attachment == t.attachment
    && x.figures.kind == (if u.kind.Some? then u.kind.value else t.figures.kind)
    && x.figures.category == (if u.category.Some? then u.category.value else t.figures.category)
    && x.figures.amount == (if u.amount.Some? then u.amount.value else t.figures.amount)
    && x.figures.day == (if u.day.Some? then u.day.value else t.figures.day)
    && x.contract == (if u.contract.Some? then u.contract.value else t.contract)
  }

  class AccountingService {
    const month: MonthOf
    var today: Day
    var rows: seq<Tx>
    var closed: set<Month>
    var contracts: set<ContractId>

    function View(): State
      reads this
    {
      State(today, rows, closed, contracts)
    }

    method CreateTransaction(actor: Actor, id: TxId, entry: Figures, contract: Option<ContractId>)
      returns (answer: Answer)
      requires !HasId(rows, id)
      modifies this`rows
      ensures View() == Step(month, old(View()), Create(actor, id, entry, contract))
      ensures answer.Accepted? <==> CanCreate(month, old(View()), id, entry, contract)
      ensures answer.Accepted? ==> rows == old(rows) + [Tx(id, actor.id, entry, contract, None)]
      ensures !answer.Accepted? ==> rows == old(rows)
      ensures answer == if !Payable(entry.amount) then InvalidAmount
                        else if !Fits(entry.kind, entry.category) then CategoryDoesNotMatchType
                        else if !DayAnswer(month, today, closed, entry.day).Accepted?
                        then DayAnswer(month, today, closed, entry.day)
                        else if contract.Some? && contract.value !in contracts then RelatedContractNotFound
                        else Accepted
    {
      if !Payable(entry.amount) { return InvalidAmount; }
      if !CategoryMatchesType(entry.kind, entry.category) { return CategoryDoesNotMatchType; }
      if entry.day > today { return TransactionDateInFuture; }
      if month(entry.day) in closed { return AccountingPeriodClosed; }
      if contract.Some? && contract.value !in contracts { return RelatedContractNotFound; }
      rows := rows + [Tx(id, actor.id, entry, contract, None)];
      return Accepted;
    }

    method FindEditableByAccountant(actor: Actor, id: TxId) returns (answer: Answer, i: nat)
      ensures answer == EditorsAnswer(month, rows, closed, actor, id)
      ensures answer.Accepted? <==> Editable(month, View(), actor, id)
      ensures answer.Accepted? ==> i < |rows| && i == IndexOf(rows, id) && rows[i].id == id
    {
      i := 0;
      if !actor.accountant { return Forbidden, i; }
      if !HasId(rows, id) { return TransactionNotFound, i; }
      i := IndexOf(rows, id);
      if rows[i].owner != actor.id { return TransactionNotOwned, i; }
      if month(rows[i].figures.day) in closed { return AccountingPeriodClosed, i; }
      return Accepted, i;
    }

    method UpdateTransaction(actor: Actor, id: TxId, u: Update) returns (answer: Answer)
      modifies this`rows
      ensures View() == Step(month, old(View()), Edit(actor, id, u))
      ensures answer.Accepted? <==> CanEdit(month, old(View()), actor, id, u)
      ensures answer == if u.amount.Some? && !Payable(u.amount.value) then InvalidAmount
                        else if !EditorsAnswer(month, old(rows), closed, actor, id).Accepted?
                        then EditorsAnswer(month, old(rows), closed, actor, id)
                        else
                          var t := old(rows)[IndexOf(old(rows), id)];
                          if !Fits(if u.kind.Some? then u.kind.value else t.figures.kind,
                                   if u.category.Some? then u.category.value else t.figures.category)
                          then CategoryDoesNotMatchType
                          else if u.day.Some? && !DayAnswer(month, today, closed, u.day.value).Accepted?
                          then DayAnswer(month, today, closed, u.day.value)
                          else if u.contract.Some? && u.contract.value.Some? && u.contract.value.value !in contracts
                          then RelatedContractNotFound
                          else Accepted
      ensures !answer.Accepted? ==> rows == old(rows)
      ensures answer.Accepted? ==>
                var i := IndexOf(old(rows), id);
                && |rows| == |old(rows)| && EditedAs(old(rows)[i], u, rows[i])
                && forall j :: 0 <= j < |rows| && j != i ==> rows[j] == old(rows)[j]
    {
      if u.amount.Some? && !Payable(u.amount.value) { return InvalidAmount; }
      var i;
      answer, i := FindEditableByAccountant(actor, id);
      if !answer.Accepted? { return; }
      var kind, category := Or(u.kind, rows[i].figures.kind), Or(u.category, rows[i].figures.category);
      if !CategoryMatchesType(kind, category) { return CategoryDoesNotMatchType; }
      if u.day.Some? {
        if u.day.value > today { return TransactionDateInFuture; }
        if month(u.day.value) in closed { return AccountingPeriodClosed; }
      }
      if u.contract.Some? && u.contract.value.Some? && u.contract.value.value !in contracts {
        return RelatedContractNotFound;
      }
      rows := rows[i := EditRow(rows[i], u)];
      return Accepted;
    }

    method RemoveTransaction(actor: Actor, id: TxId) returns (answer: Answer)
      modifies this`rows
      ensures View() == Step(month, old(View()), Event.Remove(actor, id))
      ensures answer == EditorsAnswer(month, old(rows), closed, actor, id)
      ensures rows == if answer.Accepted?
                      then var i := IndexOf(old(rows), id); old(rows)[..i] + old(rows)[i + 1..]
                      else old(rows)
    {
      var i;
      answer, i := FindEditableByAccountant(actor, id);
      if answer.Accepted? { rows := Without(rows, i); }
    }

    method AttachFile(actor: Actor, id: TxId, file: FileId) returns (answer: Answer)
      modifies this`rows
      ensures View() == Step(month, old(View()), Event.Attach(actor, id, file))
      ensures answer == EditorsAnswer(month, old(rows), closed, actor, id)
      ensures !answer.Accepted? ==> rows == old(rows)
      ensures answer.Accepted? ==>
                var i := IndexOf(old(rows), id);
                var t := old(rows)[i];
                rows == old(rows)[i := Tx(t.id, t.owner, t.figures, t.contract, Some(file))]
    {
      var i;
      answer, i := FindEditableByAccountant(actor, id);
      if answer.Accepted? { rows := rows[i := rows[i].(attachment := Some(file))]; }
    }

    method CloseMonth(period: Month) returns (answer: Answer)
      modifies this`closed
      ensures View() == Step(month, old(View()), Event.ClosePeriod(period))
      ensures answer == if period >= month(today) then PeriodNotFinished
                        else if period in old(closed) then PeriodAlreadyClosed
                        else Accepted
      ensures closed == if answer.Accepted? then old(closed) + {period} else old(closed)
    {
      if period >= month(today) { return PeriodNotFinished; }
      if period in closed {
        assert closed + {period} == closed;
        return PeriodAlreadyClosed;
      }
      closed := closed + {period};
      return Accepted;
    }
  }
}
