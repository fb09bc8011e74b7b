/** The summary of a range (accounting.service.ts) and the daily financial report (reports.service.ts). */
module AccountingReports {
  import opened Options
  import opened BusinessCalendar
  import opened Accounting

  function Range(from: Day, to: Day): Days { d => from <= d <= to }

  /** One row of groupBy(['type', 'category']) with _sum and _count. */
  datatype Group = Group(kind: Kind, category: Category, sum: nat, count: nat)

  /** Object.values(TransactionCategory) */
  const CATEGORIES: seq<Category> := [
    SaleDeposit, SaleFullPayment, SaleInstallment, OtherIncome,
    ConstructionMaterials, ContractorPayment, Payroll, EquipmentRent, Utilities,
    Marketing, LegalNotary, TaxesCorporate, AdminOffice, OtherExpense]

  function KindOf(c: Category): Kind { if CategoryMatchesType(Income, c) then Income else Expense }

  // --- Sums over the lines themselves ------------------------------------------------------

  function SumKind(lines: seq<Line>, kind: Kind): nat {
    if lines == [] then 0
    else SumKind(lines[1..], kind) + if lines[0].figures.kind == kind then lines[0].figures.amount else 0
  }

  predicate In(l: Line, kind: Kind, c: Category) { l.figures.kind == kind && l.figures.category == c }

  function SumOf(lines: seq<Line>, kind: Kind, c: Category): nat {
    if lines == [] then 0
    else SumOf(lines[1..], kind, c) + if In(lines[0], kind, c) then lines[0].figures.amount else 0
  }

  function CountOf(lines: seq<Line>, kind: Kind, c: Category): nat {
    if lines == [] then 0 else CountOf(lines[1..], kind, c) + if In(lines[0], kind, c) then 1 else 0
  }

  /** What the database may return for groupBy over the lines: every key that occurs, once, in any order. */
  predicate IsGrouping(lines: seq<Line>, gs: seq<Group>) {
    && (forall i, j :: 0 <= i < j < |gs| ==> !SameKey(gs[i], gs[j]))
    && (forall i :: 0 <= i < |gs| ==> GroupRight(lines, gs[i]))
    && (forall l :: l in lines ==> exists i :: 0 <= i < |gs| && In(l, gs[i].kind, gs[i].category))
  }

  predicate SameKey(g: Group, h: Group) { g.kind == h.kind && g.category == h.category }

  predicate GroupRight(lines: seq<Line>, g: Group) {
    g.sum == SumOf(lines, g.kind, g.category) && g.count == CountOf(lines, g.kind, g.category) && g.count > 0
  }

  // --- summary ------------------------------------------------------------------------------

  /** rows.filter(type).reduce(...) */
  function Total(gs: seq<Group>, kind: Kind): nat {
    if gs == [] then 0 else Total(gs[1..], kind) + if gs[0].kind == kind then gs[0].sum else 0
  }

  /** rows.find((x) => x.category === category) */
  function FindCategory(gs: seq<Group>, c: Category): Option<Group> {
    if gs == [] then None
    else if gs[0].category == c then Some(gs[0])
    else FindCategory(gs[1..], c)
  }

  datatype Row = Row(category: Category, kind: Kind, count: nat, amount: nat)

  function RowFor(gs: seq<Group>, c: Category): Row {
    match FindCategory(gs, c)
    case None => Row(c, KindOf(c), 0, 0)
    case Some(g) => Row(c, KindOf(c), g.count, g.sum)
  }

  function RowsFor(gs: seq<Group>, cs: seq<Category>): seq<Row> {
    seq(|cs|, i requires 0 <= i < |cs| => RowFor(gs, cs[i]))
  }

  datatype Summary = Summary(from: Day, to: Day, income: nat, expense: nat, net: int, byCategory: seq<Row>)

  datatype ReportResult = Reported(summary: Summary) | DateRangeInvalid | DateRangeTooLarge

  const MAX_REPORT_DAYS := 366

  /** summary over what groupBy returned */
  function Summarize(from: Day, to: Day, gs: seq<Group>): ReportResult {
    if from > to then DateRangeInvalid
    else if to - from > MAX_REPORT_DAYS then DateRangeTooLarge
    else
      Reported(Summary(from, to, Total(gs, Income), Total(gs, Expense), Total(gs, Income) - Total(gs, Expense),
                       RowsFor(gs, CATEGORIES)))
  }

  /** The amounts of the category rows of one type, added up. */
  function RowsTotal(rows: seq<Row>, kind: Kind): nat {
    if rows == [] then 0 else RowsTotal(rows[1..], kind) + if rows[0].kind == kind then rows[0].amount else 0
  }

  function LinesOf(lines: seq<Line>, c: Category): seq<Line> {
    if lines == [] then []
    else if lines[0].figures.category == c then [lines[0]] + LinesOf(lines[1..], c)
    else LinesOf(lines[1..], c)
  }

  function Amounts(lines: seq<Line>): nat {
    if lines == [] then 0 else lines[0].figures.amount + Amounts(lines[1..])
  }

  function SumOver(lines: seq<Line>, cs: seq<Category>, kind: Kind): nat {
    if cs == [] then 0 else SumOver(lines, cs[1..], kind) + SumOf(lines, kind, cs[0])
  }

  predicate Distinct(cs: seq<Category>) { forall i, j :: 0 <= i < j < |cs| ==> cs[i] != cs[j] }

  lemma {:induction false} AddLine(l: Line, lines: seq<Line>, cs: seq<Category>, kind: Kind)
    requires Distinct(cs)
    ensures SumOver([l] + lines, cs, kind) ==
            SumOver(lines, cs, kind) + if l.figures.kind == kind && l.figures.category in cs
              then l.figures.amount else 0
  {
    if cs != [] {
      AddLine(l, lines, cs[1..], kind);
      assert ([l] + lines)[1..] == lines;
      assert l.figures.category in cs <==> l.figures.category == cs[0] || l.figures.category in cs[1..];
    }
  }

  lemma {:induction false} NothingOver(cs: seq<Category>, kind: Kind)
    ensures SumOver([], cs, kind) == 0
  {
    if cs != [] { NothingOver(cs[1..], kind); }
  }

  lemma AllCategories(c: Category)
    ensures c in CATEGORIES
  {
    assert c == CATEGORIES[0] || c == CATEGORIES[1] || c == CATEGORIES[2] || c == CATEGORIES[3] || c == CATEGORIES[4]
      || c == CATEGORIES[5] || c == CATEGORIES[6] || c == CATEGORIES[7] || c == CATEGORIES[8] || c == CATEGORIES[9]
      || c == CATEGORIES[10] || c == CATEGORIES[11] || c == CATEGORIES[12] || c == CATEGORIES[13];
  }

  function Place(c: Category): nat {
    match c
    case SaleDeposit => 0 case SaleFullPayment => 1 case SaleInstallment => 2 case OtherIncome => 3
    case ConstructionMaterials => 4 case ContractorPayment => 5 case Payroll => 6 case EquipmentRent => 7
    case Utilities => 8 case Marketing => 9 case LegalNotary => 10 case TaxesCorporate => 11
    case AdminOffice => 12 case OtherExpense => 13
  }

  lemma PlaceOf(i: nat)
    requires i < |CATEGORIES|
    ensures Place(CATEGORIES[i]) == i
  {
  }

  lemma CategoriesDiffer()
    ensures Distinct(CATEGORIES)
  {
    forall i, j | 0 <= i < j < |CATEGORIES|
      ensures CATEGORIES[i] != CATEGORIES[j]
    {
      PlaceOf(i);
      PlaceOf(j);
    }
  }

  /** Every amount of a type lies in exactly one category. */
  lemma {:induction false} KindIsSumOfCategories(lines: seq<Line>, kind: Kind)
    ensures SumKind(lines, kind) == SumOver(lines, CATEGORIES, kind)
  {
    if lines == [] {
      NothingOver(CATEGORIES, kind);
    } else {
      KindIsSumOfCategories(lines[1..], kind);
      AllCategories(lines[0].figures.category);
      CategoriesDiffer();
      AddLine(lines[0], lines[1..], CATEGORIES, kind);
      assert [lines[0]] + lines[1..] == lines;
    }
  }

  /** The groups as lines, so that the same counting applies to them. */
  function AsLines(gs: seq<Group>): seq<Line> {
    if gs == [] then [] else [Line(0, 0, Figures(gs[0].kind, gs[0].category, gs[0].sum, 0))] + AsLines(gs[1..])
  }

  lemma {:induction false} TotalOfLines(gs: seq<Group>, kind: Kind)
    ensures SumKind(AsLines(gs), kind) == Total(gs, kind)
  {
    if gs != [] { TotalOfLines(gs[1..], kind); }
  }

  lemma {:induction false} MissingKey(gs: seq<Group>, kind: Kind, c: Category)
    requires forall i :: 0 <= i < |gs| ==> !(gs[i].kind == kind && gs[i].category == c)
    ensures SumOf(AsLines(gs), kind, c) == 0
  {
    if gs != [] {
      assert gs[0] == gs[0];
      forall i | 0 <= i < |gs[1..]|
        ensures !(gs[1..][i].kind == kind && gs[1..][i].category == c)
      {
        assert gs[1..][i] == gs[i + 1];
      }
      MissingKey(gs[1..], kind, c);
    }
  }

  lemma {:induction false} PresentKey(gs: seq<Group>, k: nat)
    requires k < |gs| && forall i, j :: 0 <= i < j < |gs| ==> !SameKey(gs[i], gs[j])
    ensures SumOf(AsLines(gs), gs[k].kind, gs[k].category) == gs[k].sum
  {
    var rest := gs[1..];
    forall i, j | 0 <= i < j < |rest|
      ensures !SameKey(rest[i], rest[j])
    {
      assert rest[i] == gs[i + 1] && rest[j] == gs[j + 1];
    }
    if k == 0 {
      forall i | 0 <= i < |rest| ensures !(rest[i].kind == gs[0].kind && rest[i].category == gs[0].category) {
        assert rest[i] == gs[i + 1];
      }
      MissingKey(rest, gs[0].kind, gs[0].category);
    } else {
      assert rest[k - 1] == gs[k];
      PresentKey(rest, k - 1);
      assert !SameKey(gs[0], gs[k]);
    }
  }

  lemma {:induction false} NoSuchLine(lines: seq<Line>, kind: Kind, c: Category)
    requires forall l :: l in lines ==> !In(l, kind, c)
    ensures SumOf(lines, kind, c) == 0 && CountOf(lines, kind, c) == 0
  {
    if lines != [] {
      assert lines[0] in lines;
      NoSuchLine(lines[1..], kind, c);
    }
  }

  /** Grouping loses no amount of any key. */
  lemma GroupingKeepsSums(lines: seq<Line>, gs: seq<Group>, kind: Kind, c: Category)
    requires IsGrouping(lines, gs)
    ensures SumOf(AsLines(gs), kind, c) == SumOf(lines, kind, c)
  {
    if k :| 0 <= k < |gs| && gs[k].kind == kind && gs[k].category == c {
      PresentKey(gs, k);
      assert GroupRight(lines, gs[k]);
    } else {
      MissingKey(gs, kind, c);
      NoSuchLine(lines, kind, c);
    }
  }

  lemma {:induction false} SameOver(a: seq<Line>, b: seq<Line>, cs: seq<Category>, kind: Kind)
    requires forall c :: SumOf(a, kind, c) == SumOf(b, kind, c)
    ensures SumOver(a, cs, kind) == SumOver(b, cs, kind)
  {
    if cs != [] { SameOver(a, b, cs[1..], kind); }
  }

  /** In whatever order the groups come, the totals are those of the lines. */
  lemma TotalsAreSums(lines: seq<Line>, gs: seq<Group>, kind: Kind)
    requires IsGrouping(lines, gs)
    ensures Total(gs, kind) == SumKind(lines, kind)
  {
    TotalOfLines(gs, kind);
    KindIsSumOfCategories(AsLines(gs), kind);
    KindIsSumOfCategories(lines, kind);
    forall c ensures SumOf(AsLines(gs), kind, c) == SumOf(lines, kind, c) { GroupingKeepsSums(lines, gs, kind, c); }
    SameOver(AsLines(gs), lines, CATEGORIES, kind);
  }

  predicate AllMatch(lines: seq<Line>) {
    forall l :: l in lines ==> CategoryMatchesType(l.figures.kind, l.figures.category)
  }

  lemma {:induction false} FoundFirst(gs: seq<Group>, c: Category)
    ensures match FindCategory(gs, c)
            case None => forall i :: 0 <= i < |gs| ==> gs[i].category != c
            case Some(g) => g in gs && g.category == c
  {
    if gs != [] && gs[0].category != c {
      FoundFirst(gs[1..], c);
      if FindCategory(gs, c).None? {
        forall i | 0 <= i < |gs| ensures gs[i].category != c { if i > 0 { assert gs[1..][i - 1] == gs[i]; } }
      }
    }
  }

  lemma GroupMatches(lines: seq<Line>, gs: seq<Group>, g: Group)
    requires IsGrouping(lines, gs) && AllMatch(lines) && g in gs
    ensures g.kind == KindOf(g.category)
  {
    assert GroupRight(lines, g);
    if forall l :: l in lines ==> !In(l, g.kind, g.category) {
      NoSuchLine(lines, g.kind, g.category);
      assert false;
    }
  }

  /** `find` looks at the category alone and still shows all of its amount and count. */
  lemma RowShowsWholeCategory(lines: seq<Line>, gs: seq<Group>, c: Category)
    requires IsGrouping(lines, gs) && AllMatch(lines)
    ensures RowFor(gs, c).amount == SumOf(lines, KindOf(c), c) && RowFor(gs, c).count == CountOf(lines, KindOf(c), c)
  {
    FoundFirst(gs, c);
    match FindCategory(gs, c)
    case None => NoSuchLine(lines, KindOf(c), c);
    case Some(g) =>
      GroupMatches(lines, gs, g);
      assert GroupRight(lines, g);
  }

  lemma {:induction false} RowsOver(lines: seq<Line>, gs: seq<Group>, cs: seq<Category>, kind: Kind)
    requires IsGrouping(lines, gs) && AllMatch(lines)
    ensures RowsTotal(RowsFor(gs, cs), kind) == SumOver(lines, cs, kind)
  {
    if cs != [] {
      assert RowsFor(gs, cs)[1..] == RowsFor(gs, cs[1..]);
      RowsOver(lines, gs, cs[1..], kind);
      RowShowsWholeCategory(lines, gs, cs[0]);
      if KindOf(cs[0]) != kind { NoSuchLine(lines, kind, cs[0]); }
    }
  }

  /** The category rows of a summary add up to its totals. */
  lemma RowsAddUpToTotals(lines: seq<Line>, gs: seq<Group>, kind: Kind)
    requires IsGrouping(lines, gs) && AllMatch(lines)
    ensures RowsTotal(RowsFor(gs, CATEGORIES), kind) == Total(gs, kind) == SumKind(lines, kind)
  {
    RowsOver(lines, gs, CATEGORIES, kind);
    KindIsSumOfCategories(lines, kind);
    TotalsAreSums(lines, gs, kind);
  }

  lemma {:induction false} WholeCategory(lines: seq<Line>, c: Category)
    requires AllMatch(lines)
    ensures SumOf(lines, KindOf(c), c) == Amounts(LinesOf(lines, c))
    ensures CountOf(lines, KindOf(c), c) == |LinesOf(lines, c)|
  {
    if lines != [] {
      assert lines[0] in lines;
      WholeCategory(lines[1..], c);
    }
  }

  /** The row of a category: its type, and the number and the sum of its lines. */
  predicate RowRight(lines: seq<Line>, c: Category, row: Row) {
    && row.category == c
    && (row.kind == Income <==> c in {SaleDeposit, SaleFullPayment, SaleInstallment, OtherIncome})
    && row.count == |LinesOf(lines, c)| && row.amount == Amounts(LinesOf(lines, c))
  }

  /** The summary of a range read off its lines. */
  predicate SummaryRight(from: Day, to: Day, lines: seq<Line>, x: Summary) {
    && x.from == from && x.to == to
    && x.income == SumKind(lines, Income) && x.expense == SumKind(lines, Expense)
    && x.net == x.income - x.expense
    && |x.byCategory| == |CATEGORIES|
    && (forall i :: 0 <= i < |CATEGORIES| ==> RowRight(lines, CATEGORIES[i], x.byCategory[i]))
    && RowsTotal(x.byCategory, Income) == x.income && RowsTotal(x.byCategory, Expense) == x.expense
  }

  /** The rows of a summary follow the categories, each with the lines of its own, and add up to the totals. */
  lemma SummaryShowsItsLines(from: Day, to: Day, lines: seq<Line>, gs: seq<Group>)
    requires IsGrouping(lines, gs) && AllMatch(lines)
    ensures match Summarize(from, to, gs)
            case DateRangeInvalid => to < from
            case DateRangeTooLarge => from + 366 < to
            case Reported(x) => from <= to <= from + 366 && SummaryRight(from, to, lines, x)
  {
    RowsAddUpToTotals(lines, gs, Income);
    RowsAddUpToTotals(lines, gs, Expense);
    forall c ensures RowRight(lines, c, RowFor(gs, c)) {
      RowShowsWholeCategory(lines, gs, c);
      WholeCategory(lines, c);
    }
  }

  // --- Whole books ----------------------------------------------------------------------------

  lemma {:induction false} BookMatches(m: MonthOf, s: State, rows: seq<Tx>, days: Days)
    requires forall t :: t in rows ==> RowInv(s, t)
    ensures AllMatch(Book(days, rows))
  {
    if rows != [] {
      BookMatches(m, s, rows[..|rows| - 1], days);
      assert rows[|rows| - 1] in rows;
    }
  }

  /**
   * In every reachable book, whatever order groupBy chose, the summary of a range of at most 366 days ahead shows the
   * sums of its lines by type and by category, and its rows add up to its totals; any other range is refused.
   */
  lemma EverySummaryAddsUp(m: MonthOf, s: State, es: seq<Event>, from: Day, to: Day, gs: seq<Group>)
    requires MonthsAdvance(m) && Inv(m, s)
    requires IsGrouping(Book(Range(from, to), Run(m, s, es).rows), gs)
    ensures match Summarize(from, to, gs)
            case DateRangeInvalid => to < from
            case DateRangeTooLarge => from + 366 < to
            case Reported(x) =>
              && from <= to <= from + 366
              && SummaryRight(from, to, Book(Range(from, to), Run(m, s, es).rows), x)
  {
    RunKeeps(m, s, es);
    var t := Run(m, s, es);
    forall r | r in t.rows ensures RowInv(t, r) {
      var i :| 0 <= i < |t.rows| && t.rows[i] == r;
      assert RowInv(t, t.rows[i]);
    }
    BookMatches(m, t, t.rows, Range(from, to));
    SummaryShowsItsLines(from, to, Book(Range(from, to), t.rows), gs);
  }

  /** A summary inside closed months answers the same for ever, even if the database orders its groups anew. */
  lemma ClosedSummaryIsConstant(m: MonthOf, s: State, es: seq<Event>, from: Day, to: Day, gs: seq<Group>,
                                hs: seq<Group>)
    requires MonthsAdvance(m) && Inv(m, s)
    requires forall d: Day :: from <= d <= to ==> m(d) in s.closed
    requires IsGrouping(Book(Range(from, to), s.rows), gs)
    requires IsGrouping(Book(Range(from, to), Run(m, s, es).rows), hs)
    ensures Summarize(from, to, gs) == Summarize(from, to, hs)
  {
    var days := Range(from, to);
    ClosedMonthsAreFrozen(m, s, es, days);
    var lines := Book(days, s.rows);
    forall r | r in s.rows ensures RowInv(s, r) {
      var i :| 0 <= i < |s.rows| && s.rows[i] == r;
      assert RowInv(s, s.rows[i]);
    }
    BookMatches(m, s, s.rows, days);
    TotalsAreSums(lines, gs, Income);
    TotalsAreSums(lines, gs, Expense);
    TotalsAreSums(lines, hs, Income);
    TotalsAreSums(lines, hs, Expense);
    forall c ensures RowFor(gs, c) == RowFor(hs, c) {
      RowShowsWholeCategory(lines, gs, c);
      RowShowsWholeCategory(lines, hs, c);
    }
  }

  // --- Ranges ------------------------------------------------------------------------------------

  lemma {:induction false} SumSplits(rows: seq<Tx>, from: Day, mid: Day, to: Day, kind: Kind)
    requires from <= mid <= to
    ensures SumKind(Book(Range(from, to), rows), kind) ==
            SumKind(Book(Range(from, mid), rows), kind) + SumKind(Book(Range(mid + 1, to), rows), kind)
  {
    if rows != [] {
      var n := |rows| - 1;
      SumSplits(rows[..n], from, mid, to, kind);
      LastLine(Range(from, to), rows, kind);
      LastLine(Range(from, mid), rows, kind);
      LastLine(Range(mid + 1, to), rows, kind);
    }
  }

  function Part(days: Days, t: Tx, kind: Kind): nat {
    if days(t.figures.day) && t.figures.kind == kind then t.figures.amount else 0
  }

  lemma LastLine(days: Days, rows: seq<Tx>, kind: Kind)
    requires rows != []
    ensures SumKind(Book(days, rows), kind) == SumKind(Book(days, rows[..|rows| - 1]), kind) + Part(days,
            rows[|rows| - 1], kind)
  {
    var t := rows[|rows| - 1];
    if days(t.figures.day) { SumAppend(Book(days, rows[..|rows| - 1]), Line(t.id, t.owner, t.figures), kind); }
  }

  lemma {:induction false} SumAppend(lines: seq<Line>, l: Line, kind: Kind)
    ensures SumKind(lines + [l], kind) == SumKind(lines, kind) + if l.figures.kind == kind then l.figures.amount else 0
  {
    if lines != [] {
      assert (lines + [l])[1..] == lines[1..] + [l];
      SumAppend(lines[1..], l, kind);
    }
  }

  function Net(rows: seq<Tx>, from: Day, to: Day): int {
    SumKind(Book(Range(from, to), rows), Income) - SumKind(Book(Range(from, to), rows), Expense)
  }

  /** Summaries of adjacent ranges add up to the summary of both. */
  lemma AdjacentRangesAdd(rows: seq<Tx>, from: Day, mid: Day, to: Day, a: seq<Group>, b: seq<Group>, both: seq<Group>)
    requires from <= mid < to && to - from <= MAX_REPORT_DAYS
    requires IsGrouping(Book(Range(from, mid), rows), a)
    requires IsGrouping(Book(Range(mid + 1, to), rows), b)
    requires IsGrouping(Book(Range(from, to), rows), both)
    ensures var (x, y, z) := (Summarize(from, mid, a), Summarize(mid + 1, to, b), Summarize(from, to, both));
            && x.Reported? && y.Reported? && z.Reported?
            && z.summary.income == x.summary.income + y.summary.income
            && z.summary.expense == x.summary.expense + y.summary.expense
            && z.summary.net == x.summary.net + y.summary.net
  {
    forall kind: Kind ensures Total(both, kind) == Total(a, kind) + Total(b, kind) {
      SumSplits(rows, from, mid, to, kind);
      TotalsAreSums(Book(Range(from, mid), rows), a, kind);
      TotalsAreSums(Book(Range(mid + 1, to), rows), b, kind);
      TotalsAreSums(Book(Range(from, to), rows), both, kind);
    }
  }

  /** netTyiyn of a report over what groupBy returned. */
  function NetOf(gs: seq<Group>): int { Total(gs, Income) - Total(gs, Expense) }

  lemma NetIsNet(rows: seq<Tx>, from: Day, to: Day, gs: seq<Group>)
    requires IsGrouping(Book(Range(from, to), rows), gs)
    ensures NetOf(gs) == Net(rows, from, to)
  {
    TotalsAreSums(Book(Range(from, to), rows), gs, Income);
    TotalsAreSums(Book(Range(from, to), rows), gs, Expense);
  }

  /** What groupBy returned for each day's report. */
  type Daily = Day -> seq<Group>

  ghost predicate AreDaily(rows: seq<Tx>, from: Day, to: Day, daily: Daily) {
    forall d: Day :: from <= d <= to ==> IsGrouping(Book(Range(d, d), rows), daily(d))
  }

  function DailyNets(daily: Daily, from: Day, to: Day): int
    decreases if from > to then 0 else to - from + 1
  {
    if from > to then 0 else DailyNets(daily, from, to - 1) + NetOf(daily(to))
  }

  lemma {:induction false} DaysAddUp(rows: seq<Tx>, from: Day, to: Day, daily: Daily)
    requires from <= to && AreDaily(rows, from, to, daily)
    ensures DailyNets(daily, from, to) == Net(rows, from, to)
    decreases if from > to then 0 else to - from + 1
  {
    NetIsNet(rows, to, to, daily(to));
    if from < to {
      DaysAddUp(rows, from, to - 1, daily);
      SumSplits(rows, from, to - 1, to, Income);
      SumSplits(rows, from, to - 1, to, Expense);
    } else {
      assert DailyNets(daily, from, to - 1) == 0;
    }
  }

  /**
   * The results of the daily financial reports over a range add up to the netTyiyn of its summary, however the
   * database ordered the groups of each.
   */
  lemma DailyReportsAddUp(rows: seq<Tx>, from: Day, to: Day, daily: Daily, gs: seq<Group>)
    requires from <= to && to - from <= MAX_REPORT_DAYS
    requires AreDaily(rows, from, to, daily) && IsGrouping(Book(Range(from, to), rows), gs)
    ensures Summarize(from, to, gs).Reported? && Summarize(from, to, gs).summary.net == DailyNets(daily, from, to)
  {
    DaysAddUp(rows, from, to, daily);
    NetIsNet(rows, from, to, gs);
  }
}
