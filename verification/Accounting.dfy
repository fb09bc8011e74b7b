/**
 * The accountant's book (src/accounting/accounting.service.ts) under whole-call steps: transactions,
 * closed months and the clock. Months are numbered; BusinessCalendar.PeriodOfDay and PeriodOrder tie
 * the numbers to the YYYY-MM texts.
 */
module Accounting {
  import opened Options
  import opened BusinessCalendar
  import opened Money

  type TxId = nat
  type UserId = nat
  type ContractId = nat
  type FileId = nat
  type Month = int
  type MonthOf = Day -> Month

  datatype Kind = Income | Expense

  datatype Category =
    | SaleDeposit | SaleFullPayment | SaleInstallment | OtherIncome
    | ConstructionMaterials | ContractorPayment | Payroll | EquipmentRent | Utilities
    | Marketing | LegalNotary | TaxesCorporate | AdminOffice | OtherExpense

  const INCOME_CATEGORIES: set<Category> := {SaleDeposit, SaleFullPayment, SaleInstallment, OtherIncome}

  predicate CategoryMatchesType(kind: Kind, category: Category) { kind.Income? <==> category in INCOME_CATEGORIES }

  /** The figures of a transaction, the part a report is made of. */
  datatype Figures = Figures(kind: Kind, category: Category, amount: nat, day: Day)

  datatype Tx = Tx(id: TxId, owner: UserId, figures: Figures, contract: Option<ContractId>, attachment: Option<FileId>)

  datatype Actor = Actor(id: UserId, accountant: bool)

  datatype State = State(today: Day, rows: seq<Tx>, closed: set<Month>, contracts: set<ContractId>)

  datatype Update = Update(
    kind: Option<Kind>, category: Option<Category>, amount: Option<nat>, day: Option<Day>,
    contract: Option<Option<ContractId>>) // null clears the contract

  datatype Event =
    | Midnight(day: Day)
    | Create(actor: Actor, id: TxId, entry: Figures, related: Option<ContractId>)
    | Edit(actor: Actor, id: TxId, update: Update)
    | Remove(actor: Actor, id: TxId)
    | Attach(actor: Actor, id: TxId, file: FileId)
    | ClosePeriod(period: Month)
    | AddContract(contract: ContractId)
    | DropContract(contract: ContractId)   // onDelete: SetNull

  predicate HasId(rows: seq<Tx>, id: TxId) { exists i :: 0 <= i < |rows| && rows[i].id == id }

  function IndexOf(rows: seq<Tx>, id: TxId): (i: nat)
    requires HasId(rows, id)
    ensures i < |rows| && rows[i].id == id
    ensures forall j :: 0 <= j < i ==> rows[j].id != id
  {
    if rows[0].id == id then 0
    else
      assert HasId(rows[1..], id) by {
        var k :| 0 <= k < |rows| && rows[k].id == id;
        assert rows[1..][k - 1].id == id;
      }
      1 + IndexOf(rows[1..], id)
  }

  predicate ContractKnown(s: State, contract: Option<ContractId>) { contract.None? || contract.value in s.contracts }

  predicate CanCreate(m: MonthOf, s: State, id: TxId, entry: Figures, contract: Option<ContractId>) {
    && !HasId(s.rows, id)
    && CategoryMatchesType(entry.kind, entry.category)
    && entry.day <= s.today && m(entry.day) !in s.closed
    && ContractKnown(s, contract)
    && 0 < entry.amount < 10_000_000_000_000_000
  }

  /** findEditableByAccountant */
  predicate Editable(m: MonthOf, s: State, actor: Actor, id: TxId) {
    && actor.accountant && HasId(s.rows, id)
    && s.rows[IndexOf(s.rows, id)].owner == actor.id
    && m(s.rows[IndexOf(s.rows, id)].figures.day) !in s.closed
  }

  function Or<T>(o: Option<T>, d: T): T { if o.Some? then o.value else d }

  function Edited(f: Figures, u: Update): Figures {
    Figures(Or(u.kind, f.kind), Or(u.category, f.category), Or(u.amount, f.amount), Or(u.day, f.day))
  }

  predicate CanEdit(m: MonthOf, s: State, actor: Actor, id: TxId, u: Update) {
    && Editable(m, s, actor, id)
    && CategoryMatchesType(Edited(s.rows[IndexOf(s.rows, id)].figures, u).kind, Edited(s.rows[IndexOf(s.rows,
         id)].figures, u).category)
    && (u.day.Some? ==> u.day.value <= s.today && m(u.day.value) !in s.closed)
    && (u.contract.Some? ==> ContractKnown(s, u.contract.value))
    && (u.amount.Some? ==> 0 < u.amount.value < 10_000_000_000_000_000)
  }

  function EditRow(t: Tx, u: Update): Tx { t.(figures := Edited(t.figures, u), contract := Or(u.contract, t.contract)) }

  function Without(rows: seq<Tx>, i: nat): seq<Tx>
    requires i < |rows|
  {
    rows[..i] + rows[i + 1..]
  }

  function Detach(rows: seq<Tx>, contract: ContractId): seq<Tx> {
    seq(|rows|, i requires 0 <= i < |rows| => if rows[i].contract == Some(contract)
      then rows[i].(contract := None) else rows[i])
  }

  function Step(m: MonthOf, s: State, e: Event): State {
    match e
    case Midnight(day) => if day >= s.today then s.(today := day) else s
    case Create(actor, id, entry, contract) =>
      if CanCreate(m, s, id, entry, contract) then s.(rows := s.rows + [Tx(id, actor.id, entry, contract, None)]) else s
    case Edit(actor, id, u) =>
      if CanEdit(m, s, actor, id, u)
      then s.(rows := s.rows[IndexOf(s.rows, id) := EditRow(s.rows[IndexOf(s.rows, id)], u)])
      else s
    case Remove(actor, id) => if Editable(m, s, actor, id) then s.(rows := Without(s.rows, IndexOf(s.rows, id))) else s
    case Attach(actor, id, file) =>
      if Editable(m, s, actor, id)
      then s.(rows := s.rows[IndexOf(s.rows, id) := s.rows[IndexOf(s.rows, id)].(attachment := Some(file))])
      else s
    case ClosePeriod(period) => if period < m(s.today) then s.(closed := s.closed + {period}) else s
    case AddContract(c) => s.(contracts := s.contracts + {c})
    case DropContract(c) => s.(contracts := s.contracts - {c}, rows := Detach(s.rows, c))
  }

  function Run(m: MonthOf, s: State, es: seq<Event>): State
    decreases |es|
  {
    if es == [] then s else Run(m, Step(m, s, es[0]), es[1..])
  }

  // --- The invariant ---------------------------------------------------------------------

  predicate RowInv(s: State, t: Tx) {
    && CategoryMatchesType(t.figures.kind, t.figures.category)
    && 0 < t.figures.amount < 10_000_000_000_000_000
    && t.figures.day <= s.today
  }

  ghost predicate Inv(m: MonthOf, s: State) {
    && (forall i {:trigger RowInv(s, s.rows[i])} :: 0 <= i < |s.rows| ==> RowInv(s, s.rows[i]))
    && (forall i, j :: 0 <= i < j < |s.rows| ==> s.rows[i].id != s.rows[j].id)
    && (forall p :: p in s.closed ==> p < m(s.today))
  }

  /** The month number grows with the day. */
  ghost predicate MonthsAdvance(m: MonthOf) { forall d: Day, e: Day :: d <= e ==> m(d) <= m(e) }

  /** As those of the calendar do. */
  lemma CalendarMonthsAdvance()
    ensures MonthsAdvance(MonthNumber)
  {
    forall d: Day, e: Day | d <= e ensures MonthNumber(d) <= MonthNumber(e) { MonthsAreInOrder(d, e); }
  }

  lemma StepKeeps(m: MonthOf, s: State, e: Event)
    requires MonthsAdvance(m) && Inv(m, s)
    ensures Inv(m, Step(m, s, e))
  {
    if e.Remove? {
      RemoveKeeps(m, s, e);
    } else {
      var s' := Step(m, s, e);
      forall i | 0 <= i < |s'.rows| ensures RowInv(s', s'.rows[i]) { if i < |s.rows| { assert RowInv(s, s.rows[i]); } }
    }
  }

  lemma RemoveKeeps(m: MonthOf, s: State, e: Event)
    requires Inv(m, s) && e.Remove?
    ensures Inv(m, Step(m, s, e))
  {
    if Editable(m, s, e.actor, e.id) {
      var rows, k := Without(s.rows, IndexOf(s.rows, e.id)), IndexOf(s.rows, e.id);
      forall i | 0 <= i < |rows| ensures rows[i] == s.rows[if i < k then i else i + 1] {}
      forall i | 0 <= i < |rows|
        ensures RowInv(s.(rows := rows), rows[i])
      {
        assert RowInv(s, s.rows[if i < k then i else i + 1]);
      }
    }
  }

  lemma {:induction false} RunKeeps(m: MonthOf, s: State, es: seq<Event>)
    requires MonthsAdvance(m) && Inv(m, s)
    ensures Inv(m, Run(m, s, es))
    decreases |es|
  {
    if es != [] {
      StepKeeps(m, s, es[0]);
      RunKeeps(m, Step(m, s, es[0]), es[1..]);
    }
  }

  // --- Closed months ------------------------------------------------------------------------

  datatype Line = Line(id: TxId, owner: UserId, figures: Figures)

  /** A choice of days: a month, a report's range. */
  type Days = Day -> bool

  /** The lines of the chosen days, in the book's order. */
  function Book(days: Days, rows: seq<Tx>): seq<Line> {
    if rows == [] then []
    else
      var rest := Book(days, rows[..|rows| - 1]);
      var t := rows[|rows| - 1];
      if days(t.figures.day) then rest + [Line(t.id, t.owner, t.figures)] else rest
  }

  lemma {:induction false} BookJoins(days: Days, a: seq<Tx>, b: seq<Tx>)
    ensures Book(days, a + b) == Book(days, a) + Book(days, b)
    decreases |b|
  {
    if b == [] {
      assert a + b == a;
    } else {
      var n := |b| - 1;
      BookJoins(days, a, b[..n]);
      assert (a + b)[..|a + b| - 1] == a + b[..n];
    }
  }

  lemma BookThree(days: Days, a: seq<Tx>, b: seq<Tx>, c: seq<Tx>)
    ensures Book(days, a + (b + c)) == Book(days, a) + (Book(days, b) + Book(days, c))
  {
    BookJoins(days, b, c);
    BookJoins(days, a, b + c);
  }

  lemma RowsAround(rows: seq<Tx>, i: nat)
    requires i < |rows|
    ensures rows == rows[..i] + ([rows[i]] + rows[i + 1..])
  {
  }

  lemma BookAround(days: Days, rows: seq<Tx>, i: nat)
    requires i < |rows|
    ensures Book(days, rows) == Book(days, rows[..i]) + (Book(days, [rows[i]]) + Book(days, rows[i + 1..]))
  {
    RowsAround(rows, i);
    BookThree(days, rows[..i], [rows[i]], rows[i + 1..]);
  }

  lemma BookWithout(days: Days, rows: seq<Tx>, i: nat)
    requires i < |rows| && !days(rows[i].figures.day)
    ensures Book(days, Without(rows, i)) == Book(days, rows)
  {
    BookAround(days, rows, i);
    BookOfOne(days, rows[i]);
    BookJoins(days, rows[..i], rows[i + 1..]);
  }

  lemma BookOfOne(days: Days, t: Tx)
    ensures Book(days, [t]) == if days(t.figures.day) then [Line(t.id, t.owner, t.figures)] else []
  {
    assert [t][..0] == [];
  }

  lemma BookReplaced(days: Days, rows: seq<Tx>, i: nat, t: Tx)
    requires i < |rows|
    requires (!days(rows[i].figures.day) && !days(t.figures.day))
             || (t.id == rows[i].id && t.owner == rows[i].owner && t.figures == rows[i].figures)
    ensures Book(days, rows[i := t]) == Book(days, rows)
  {
    var after := rows[i := t];
    BookAround(days, rows, i);
    BookAround(days, after, i);
    BookOfOne(days, rows[i]);
    BookOfOne(days, t);
    assert after[..i] == rows[..i] && after[i + 1..] == rows[i + 1..];
  }

  lemma {:induction false} BookDetached(days: Days, rows: seq<Tx>, c: ContractId)
    ensures Book(days, Detach(rows, c)) == Book(days, rows)
  {
    if rows != [] {
      var n := |rows| - 1;
      assert Detach(rows, c)[..n] == Detach(rows[..n], c);
      BookDetached(days, rows[..n], c);
    }
  }

  /** Only days of closed months are chosen. */
  ghost predicate AllClosed(m: MonthOf, s: State, days: Days) { forall d :: days(d) ==> m(d) in s.closed }

  lemma ClosedStep(m: MonthOf, s: State, e: Event, days: Days)
    requires AllClosed(m, s, days)
    ensures Book(days, Step(m, s, e).rows) == Book(days, s.rows)
    ensures s.closed <= Step(m, s, e).closed
  {
    match e
    case Create(actor, id, entry, contract) =>
      if CanCreate(m, s, id, entry, contract) {
        var t := Tx(id, actor.id, entry, contract, None);
        BookJoins(days, s.rows, [t]);
        BookOfOne(days, t);
      }
    case Edit(actor, id, u) =>
      if CanEdit(m, s, actor, id, u) {
        BookReplaced(days, s.rows, IndexOf(s.rows, id), EditRow(s.rows[IndexOf(s.rows, id)], u));
      }
    case Remove(actor, id) => if Editable(m, s, actor, id) { BookWithout(days, s.rows, IndexOf(s.rows, id)); }
    case Attach(actor, id, file) =>
      if Editable(m, s, actor, id) {
        var i := IndexOf(s.rows, id);
        BookReplaced(days, s.rows, i, s.rows[i].(attachment := Some(file)));
      }
    case DropContract(c) => BookDetached(days, s.rows, c);
    case _ =>
  }

  /**
   * A closed month stays closed. In every later run the lines of days in closed months, with their type, category,
   * amount and date, are the same and in the same order: nothing moves in or out by changing its date either.
   */
  lemma {:induction false} ClosedMonthsAreFrozen(m: MonthOf, s: State, es: seq<Event>, days: Days)
    requires AllClosed(m, s, days)
    ensures s.closed <= Run(m, s, es).closed
    ensures Book(days, Run(m, s, es).rows) == Book(days, s.rows)
    decreases |es|
  {
    if es != [] {
      ClosedStep(m, s, es[0], days);
      ClosedMonthsAreFrozen(m, Step(m, s, es[0]), es[1..], days);
    }
  }

  predicate Kept(rows: seq<Tx>, t: Tx)
  {
    exists u :: u in rows && u.id == t.id && u.owner == t.owner && u.figures == t.figures
  }

  /** The figures of a transaction change or go only at the hands of the accountant who entered it, in an open month. */
  lemma OnlyTheOwnerChanges(m: MonthOf, s: State, e: Event, t: Tx)
    requires Inv(m, s) && t in s.rows
    ensures Kept(Step(m, s, e).rows, t)
            || ((e.Edit? || e.Remove?) && e.id == t.id && e.actor.accountant && e.actor.id == t.owner
                 && m(t.figures.day) !in s.closed)
  {
    var i :| 0 <= i < |s.rows| && s.rows[i] == t;
    var after := Step(m, s, e).rows;
    match e
    case Remove(actor, id) =>
      if Editable(m, s, actor, id) && IndexOf(s.rows, id) != i {
        var k := if i < IndexOf(s.rows, id) then i else i - 1;
        assert after[k] == t;
      }
    case _ => assert after[i] in after;
  }
}
