/**
 * The money of a contract (src/sales/contracts.service.ts): from the texts of a request to the stored
 * row and back. A step is a whole service call on one contract.
 */
module ContractTerms {
  import opened Options
  import opened Digits
  import opened Money

  type Time = int
  type FileId = nat

  datatype Role = Director | HeadOfSales | SalesManager | Accountant | Investor

  datatype Status = Draft | DepositPaid | Signed

  /** Decimal columns in hundredths, BIGINT columns in tyiyn. */
  datatype Terms = Terms(area: nat, price: nat, percent: nat, total: nat, deposit: nat)

  datatype Contract = Contract(terms: Terms, paid: bool, paidAt: Option<Time>, file: Option<FileId>, status: Status)

  /** The terms a request may name. */
  datatype Patch = Patch(area: Option<string>, price: Option<string>, percent: Option<string>)

  datatype Computed =
    | Accepted(terms: Terms)
    | AreaMustBePositive | DepositPercentOutOfRange | AmountOutOfRange
    | InvalidText                          // a text its DTO pattern would have refused

  /** computeAmounts, and the row its results are stored in. */
  function ComputeAmounts(areaSqm: string, pricePerSqm: string, depositPercent: string): Computed {
    var area, percent := ParseCenti(areaSqm), ParseCenti(depositPercent);
    if area.None? || percent.None? then InvalidText
    else if area.value <= 0 then AreaMustBePositive
    else if percent.value > 10_000 then DepositPercentOutOfRange
    else
      var price := ParseTyiyn(pricePerSqm);
      if price.None? then InvalidText
      else
        var total := ContractTotal(area.value, price.value).value;
        var deposit := PercentOf(total, percent.value).value;
        if AssertFitsBigint(total).None? || AssertFitsBigint(deposit).None? then AmountOutOfRange
        else Accepted(Terms(area.value, price.value, percent.value, total, deposit))
  }

  /** What a response shows of a stored Decimal. */
  function Shown(centi: nat): string { FormatCenti(DecimalToCentiOr0(DecimalText(centi))) }

  function DecimalToCentiOr0(s: string): int { if DecimalToCenti(s).Some? then DecimalToCenti(s).value else 0 }

  function Or(o: Option<string>, d: string): string { if o.Some? then o.value else d }

  /** update: every term the request does not name comes from the row, through its text. */
  function PatchTerms(t: Terms, p: Patch): Computed {
    if p.area.Some? && ParseCenti(p.area.value) == Some(0) then AreaMustBePositive
    else ComputeAmounts(Or(p.area, Shown(t.area)), Or(p.price, Print(t.price)), Or(p.percent, Shown(t.percent)))
  }

  predicate TermsInv(t: Terms) {
    && 0 < t.area < 1_000_000_000_000 && t.percent <= 10_000 && t.price < 10_000_000_000_000_000
    && ContractTotal(t.area, t.price) == Some(t.total) && t.total <= MAX_DB_BIGINT
    && PercentOf(t.total, t.percent) == Some(t.deposit)
  }

  // --- The texts -----------------------------------------------------------------------------------

  lemma ShownReads(v: nat)
    requires v < 1_000_000_000_000
    ensures ParseCenti(Shown(v)) == Some(v)
  {
    StoredDecimalReads(v);
    FormatThenParse(v);
  }

  lemma RowText(t: Terms)
    requires TermsInv(t)
    ensures ParseCenti(Shown(t.area)) == Some(t.area) && ParseCenti(Shown(t.percent)) == Some(t.percent)
    ensures ParseTyiyn(Print(t.price)) == Some(t.price)
  {
    ShownReads(t.area);
    ShownReads(t.percent);
    TyiynRoundTrip(t.price);
  }

  // --- What is stored --------------------------------------------------------------------------------

  /** Accepted terms are those of the texts, in range and computed from one another. */
  lemma AcceptedTerms(areaSqm: string, pricePerSqm: string, depositPercent: string, t: Terms)
    requires ComputeAmounts(areaSqm, pricePerSqm, depositPercent) == Accepted(t)
    ensures ParseCenti(areaSqm) == Some(t.area) && ParseTyiyn(pricePerSqm) == Some(t.price)
    ensures ParseCenti(depositPercent) == Some(t.percent) && TermsInv(t)
  {
    ParseBelow(areaSqm);
    TyiynText(pricePerSqm);
    PercentWithinWhole(t.total, t.percent);
  }

  /** The amounts of a row are rounded half up, and the deposit is part of the total. */
  lemma AmountsAreRounded(t: Terms)
    requires TermsInv(t)
    ensures RoundsTo(t.area * t.price, 100, t.total) && RoundsTo(t.total * t.percent, 10_000, t.deposit)
    ensures t.deposit <= t.total <= MAX_DB_BIGINT
  {
    PercentWithinWhole(t.total, t.percent);
    RoundsHalfUp(t.area, t.price, 100, t.total);
    RoundsHalfUp(t.total, t.percent, 10_000, t.deposit);
  }

  /** Texts that stand for the terms of a row compute that row. */
  lemma SameTexts(areaSqm: string, pricePerSqm: string, depositPercent: string, t: Terms)
    requires TermsInv(t)
    requires ParseCenti(areaSqm) == Some(t.area) && ParseTyiyn(pricePerSqm) == Some(t.price)
    requires ParseCenti(depositPercent) == Some(t.percent)
    ensures ComputeAmounts(areaSqm, pricePerSqm, depositPercent) == Accepted(t)
  {
    PercentWithinWhole(t.total, t.percent);
  }

  /** Texts that can be read are refused exactly for what they say. */
  lemma ReadTexts(areaSqm: string, pricePerSqm: string, depositPercent: string)
    requires ParseCenti(areaSqm).Some? && ParseTyiyn(pricePerSqm).Some? && ParseCenti(depositPercent).Some?
    ensures var (a, p, q) := (ParseCenti(areaSqm).value, ParseTyiyn(pricePerSqm).value,
            ParseCenti(depositPercent).value);
            var r := ComputeAmounts(areaSqm, pricePerSqm, depositPercent);
            && (r.AreaMustBePositive? <==> a == 0)
            && (r.DepositPercentOutOfRange? <==> a > 0 && q > 10_000)
            && (r.AmountOutOfRange? <==> a > 0 && q <= 10_000 && ContractTotal(a, p).value > MAX_DB_BIGINT)
            && !r.InvalidText?
  {
    var total := ContractTotal(ParseCenti(areaSqm).value, ParseTyiyn(pricePerSqm).value).value;
    var q := ParseCenti(depositPercent).value;
    if q <= 10_000 { PercentWithinWhole(total, q); }
  }

  /**
   * Exactly which requests fail, and how: in particular the range check of the deposit adds nothing to that of the
   * total.
   */
  lemma WhyRefused(areaSqm: string, pricePerSqm: string, depositPercent: string)
    requires Decimal2Pattern(areaSqm) && TyiynPattern(pricePerSqm) && Decimal2Pattern(depositPercent)
    ensures ParseCenti(areaSqm).Some? && ParseTyiyn(pricePerSqm).Some? && ParseCenti(depositPercent).Some?
    ensures var (a, p, q) := (ParseCenti(areaSqm).value, ParseTyiyn(pricePerSqm).value,
            ParseCenti(depositPercent).value);
            var r := ComputeAmounts(areaSqm, pricePerSqm, depositPercent);
            && (r.AreaMustBePositive? <==> a == 0)
            && (r.DepositPercentOutOfRange? <==> a > 0 && q > 10_000)
            && (r.AmountOutOfRange? <==> a > 0 && q <= 10_000 && ContractTotal(a, p).value > MAX_DB_BIGINT)
            && !r.InvalidText?
  {
    ReadTexts(areaSqm, pricePerSqm, depositPercent);
  }

  /** A request that names no term leaves all five columns as they were. */
  lemma EmptyPatchChangesNothing(t: Terms)
    requires TermsInv(t)
    ensures PatchTerms(t, Patch(None, None, None)) == Accepted(t)
  {
    RowText(t);
    SameTexts(Shown(t.area), Print(t.price), Shown(t.percent), t);
  }

  /** So does a request that sends back what the contract's own page shows. */
  lemma SendingBackWhatIsShown(t: Terms, p: Patch)
    requires TermsInv(t) && p == Patch(Some(Shown(t.area)), Some(Print(t.price)), Some(Shown(t.percent)))
    ensures PatchTerms(t, p) == Accepted(t)
  {
    RowText(t);
    SameTexts(p.area.value, p.price.value, p.percent.value, t);
  }

  /** A term the request does not name keeps its value. */
  lemma UnnamedTermsStay(t: Terms, p: Patch, u: Terms)
    requires TermsInv(t) && PatchTerms(t, p) == Accepted(u)
    ensures TermsInv(u)
    ensures (p.area.None? ==> u.area == t.area) && (p.price.None? ==> u.price == t.price)
    ensures p.percent.None? ==> u.percent == t.percent
  {
    RowText(t);
    AcceptedTerms(Or(p.area, Shown(t.area)), Or(p.price, Print(t.price)), Or(p.percent, Shown(t.percent)), u);
  }

  // --- A contract's life --------------------------------------------------------------------------------

  function DeriveStatus(paid: bool, hasFile: bool): Status {
    if paid && hasFile then Signed else if paid then DepositPaid else Draft
  }

  /** The equations of the row and the CHECK constraints of its table. */
  predicate Inv(c: Contract) {
    && TermsInv(c.terms)
    && c.status == DeriveStatus(c.paid, c.file.Some?)
    && (c.paid <==> c.paidAt.Some?)
    && (c.status.Signed? ==> c.paid && c.file.Some?) && (c.status.Draft? || c.paid)
  }

  datatype Event =
    | Update(role: Role, patch: Patch)
    | MarkDeposit(role: Role, paid: bool, now: Time)
    | AttachFile(role: Role, file: FileId)

  predicate Editable(c: Contract, role: Role) {
    !role.Accountant? && !role.Investor? && !(role.SalesManager? && c.status.Signed?)
  }

  predicate MayMark(c: Contract, role: Role, paid: bool) {
    !role.Investor? && (role.Accountant? || Editable(c, role)) && (paid || !role.SalesManager?)
  }

  function Marked(c: Contract, paid: bool, now: Time): Contract {
    c.(paid := paid,
       paidAt := if !paid then None else if c.paidAt.Some? then c.paidAt else Some(now),
       status := DeriveStatus(paid, c.file.Some?))
  }

  function Step(c: Contract, e: Event): Contract {
    match e
    case Update(role, p) =>
      if Editable(c, role) && PatchTerms(c.terms, p).Accepted? then c.(terms := PatchTerms(c.terms, p).terms) else c
    case MarkDeposit(role, paid, now) => if MayMark(c, role, paid) then Marked(c, paid, now) else c
    case AttachFile(role, file) =>
      if Editable(c, role) then c.(file := Some(file), status := DeriveStatus(c.paid, true)) else c
  }

  function Run(c: Contract, es: seq<Event>): Contract
    decreases |es|
  {
    if es == [] then c else Run(Step(c, es[0]), es[1..])
  }

  lemma StepKeeps(c: Contract, e: Event)
    requires Inv(c)
    ensures Inv(Step(c, e))
  {
    match e
    case Update(role, p) =>
      if PatchTerms(c.terms, p).Accepted? { UnnamedTermsStay(c.terms, p, PatchTerms(c.terms, p).terms); }
    case _ =>
  }

  lemma {:induction false} RunKeeps(c: Contract, es: seq<Event>)
    requires Inv(c)
    ensures Inv(Run(c, es))
    decreases |es|
  {
    if es != [] {
      StepKeeps(c, es[0]);
      RunKeeps(Step(c, es[0]), es[1..]);
    }
  }

  predicate TouchesTerms(e: Event) { e.Update? && e.patch != Patch(None, None, None) }

  lemma QuietStep(c: Contract, e: Event)
    requires Inv(c) && !TouchesTerms(e)
    ensures Step(c, e).terms == c.terms
  {
    match e
    case Update(_, p) =>
      EmptyPatchChangesNothing(c.terms);
      assert PatchTerms(c.terms, p) == Accepted(c.terms);
    case _ =>
  }

  /** Until a request names a term, the terms and both amounts stay as agreed, whatever else happens to the contract. */
  lemma {:induction false} TermsStayAsAgreed(c: Contract, es: seq<Event>)
    requires Inv(c) && forall e :: e in es ==> !TouchesTerms(e)
    ensures Run(c, es).terms == c.terms
    decreases |es|
  {
    if es != [] {
      assert es[0] in es;
      QuietStep(c, es[0]);
      StepKeeps(c, es[0]);
      TermsStayAsAgreed(Step(c, es[0]), es[1..]);
    }
  }

  /** A signed contract is read-only for sales managers: nothing they send, in any order, changes it. */
  lemma {:induction false} SignedIsReadOnlyForManagers(c: Contract, es: seq<Event>)
    requires c.status.Signed? && forall e :: e in es ==> e.role.SalesManager?
    ensures Run(c, es) == c
    decreases |es|
  {
    if es != [] {
      assert es[0] in es;
      SignedIsReadOnlyForManagers(c, es[1..]);
    }
  }

  // --- What a request gets, read off its texts -----------------------------------------------------------

  /** Directors and heads of sales always, a sales manager until the contract is signed. */
  predicate MaySell(role: Role, status: Status) {
    role in {Director, HeadOfSales} || (role == SalesManager && status != Signed)
  }

  predicate WellTyped(p: Patch) {
    && (p.area.Some? ==> Decimal2Pattern(p.area.value))
    && (p.price.Some? ==> TyiynPattern(p.price.value))
    && (p.percent.Some? ==> Decimal2Pattern(p.percent.value))
  }

  /** The hundredths a well-typed request asks for. */
  function NewCenti(o: Option<string>, was: nat): nat {
    if o.Some? && ParseCenti(o.value).Some? then ParseCenti(o.value).value else was
  }

  function NewPrice(o: Option<string>, was: nat): nat {
    if o.Some? && ParseTyiyn(o.value).Some? then ParseTyiyn(o.value).value else was
  }

  /** The accepted terms are those sent, and the others as they were, with the amounts that go with them. */
  predicate Follows(t: Terms, p: Patch, u: Terms) {
    && (if p.area.Some? then ParseCenti(p.area.value) == Some(u.area) else u.area == t.area)
    && (if p.price.Some? then ParseTyiyn(p.price.value) == Some(u.price) else u.price == t.price)
    && (if p.percent.Some? then ParseCenti(p.percent.value) == Some(u.percent) else u.percent == t.percent)
    && TermsInv(u)
  }

  /** The answer to a well-typed request, by the first of the terms it would end with that is out of range. */
  predicate AnsweredAs(t: Terms, p: Patch, r: Computed) {
    var area, percent := NewCenti(p.area, t.area), NewCenti(p.percent, t.percent);
    var total := ContractTotal(area, NewPrice(p.price, t.price)).value;
    if area == 0 then r == AreaMustBePositive
    else if percent > 10_000 then r == DepositPercentOutOfRange
    else if total > MAX_DB_BIGINT then r == AmountOutOfRange
    else r.Accepted?
  }

  lemma PatchOutcome(t: Terms, p: Patch)
    requires TermsInv(t)
    ensures var r := PatchTerms(t, p);
            && (r.Accepted? ==> Follows(t, p, r.terms))
            && (WellTyped(p) ==> AnsweredAs(t, p, r))
  {
    var (areaSqm, price, percent) := (Or(p.area, Shown(t.area)), Or(p.price, Print(t.price)),
      Or(p.percent, Shown(t.percent)));
    RowText(t);
    if PatchTerms(t, p).Accepted? { AcceptedTerms(areaSqm, price, percent, PatchTerms(t, p).terms); }
    if WellTyped(p) { ReadTexts(areaSqm, price, percent); }
  }

  /** A contract row, updated in place. */
  class ContractRow {
    var terms: Terms
    var paid: bool
    var paidAt: Option<Time>
    var file: Option<FileId>
    var status: Status

    function View(): Contract
      reads this
    {
      Contract(terms, paid, paidAt, file, status)
    }

    constructor (accepted: Terms)
      requires TermsInv(accepted)
      ensures Inv(View()) && terms == accepted && status.Draft?
    {
      terms := accepted;
      paid, paidAt, file, status := false, None, None, Draft;
    }

    method ApplyPatch(role: Role, patch: Patch) returns (answer: Option<Computed>)
      requires Inv(View())
      modifies this`terms
      ensures View() == Step(old(View()), Update(role, patch)) && Inv(View())
      ensures answer.None? <==> !MaySell(role, status)
      ensures answer.Some? && answer.value.Accepted? ==>
                answer.value.terms == terms && Follows(old(terms), patch, terms)
      ensures !(answer.Some? && answer.value.Accepted?) ==> terms == old(terms)
      ensures answer.Some? && WellTyped(patch) ==> AnsweredAs(old(terms), patch, answer.value)
    {
      StepKeeps(View(), Update(role, patch));
      PatchOutcome(terms, patch);
      if !Editable(View(), role) { return None; }
      var amounts := NewAmounts(patch);
      if amounts.Accepted? { terms := amounts.terms; }
      return Some(amounts);
    }

    method NewAmounts(patch: Patch) returns (amounts: Computed)
      ensures amounts == PatchTerms(terms, patch)
    {
      var areaSqm := Or(patch.area, Shown(terms.area));
      var price := Or(patch.price, Print(terms.price));
      var percent := Or(patch.percent, Shown(terms.percent));
      if patch.area.Some? && ParseCenti(patch.area.value) == Some(0) { return AreaMustBePositive; }
      return ComputeAmounts(areaSqm, price, percent);
    }

    method Mark(role: Role, toPaid: bool, now: Time) returns (ok: bool)
      requires Inv(View())
      modifies this`paid, this`paidAt, this`status
      ensures View() == Step(old(View()), MarkDeposit(role, toPaid, now)) && Inv(View())
      ensures ok <==> role == Accountant || (MaySell(role, old(status)) && (toPaid || role != SalesManager))
      ensures !ok ==> View() == old(View())
      ensures ok ==>
                && paid == toPaid && (status.Signed? <==> toPaid && file.Some?) && (status.Draft? <==> !toPaid)
                && paidAt == if !toPaid then None else if old(paid) then old(paidAt) else Some(now)
    {
      StepKeeps(View(), MarkDeposit(role, toPaid, now));
      ok := MayMark(View(), role, toPaid);
      if ok {
        paidAt := if !toPaid then None else if paidAt.Some? then paidAt else Some(now);
        paid := toPaid;
        status := DeriveStatus(paid, file.Some?);
      }
    }

    method Attach(role: Role, stored: FileId) returns (ok: bool)
      requires Inv(View())
      modifies this`file, this`status
      ensures View() == Step(old(View()), AttachFile(role, stored)) && Inv(View())
      ensures ok <==> MaySell(role, old(status))
      ensures !ok ==> View() == old(View())
      ensures ok ==> file == Some(stored) && status == if paid then Signed else Draft
    {
      StepKeeps(View(), AttachFile(role, stored));
      ok := Editable(View(), role);
      if ok {
        file := Some(stored);
        status := DeriveStatus(paid, true);
      }
    }
  }
}
