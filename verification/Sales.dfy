/**
 * From a lead to a booking to a contract (src/sales/), one database statement or transaction at a time.
 * A call first loads a row and checks its status; what it writes may come after other calls' writes.
 *
 * The schema's share: Lead.bookingId and Contract.bookingId are unique, `converted` and bookingId go
 * together by a CHECK constraint, and deleting a booking sets both references to null.
 */
module Sales {
  import opened Options

  type LeadId = nat
  type BookingId = nat
  type ContractId = nat
  type ManagerId = nat
  type CallId = nat

  datatype LeadStatus = New | Assigned | Converted | Rejected

  datatype Lead = Lead(status: LeadStatus, manager: Option<ManagerId>, booking: Option<BookingId>)

  datatype BookingStatus = Active | Cancelled | Contracted   // Contracted is the source's `converted`

  /** History: the lead whose conversion created the booking. */
  datatype Booking = Booking(status: BookingStatus, from: Option<LeadId>)

  datatype Contract = Contract(booking: Option<BookingId>)

  datatype Pc =
    | ToAssign(lead: LeadId, manager: ManagerId)
    | ToReject(lead: LeadId)
    | ToConvert(lead: LeadId)
    | ToEdit(booking: BookingId, to: Option<BookingStatus>)
    | ToContract(booking: BookingId)
    | Won(lead: LeadId, booking: BookingId)           // convert has committed
    | Drawn(booking: BookingId, contract: ContractId) // createFromBooking has committed
    | Done
    | Refused                                          // 404 or 409
    | Failed                                           // a constraint of the database

  datatype State = State(
    leads: map<LeadId, Lead>,
    bookings: map<BookingId, Booking>,
    contracts: map<ContractId, Contract>,
    calls: map<CallId, Pc>)

  const EMPTY := State(map[], map[], map[], map[])

  datatype Event =
    | RegisterLead(lead: LeadId)
    | AddBooking(booking: BookingId)
    | LoadToAssign(call: CallId, lead: LeadId, manager: ManagerId)
    | WriteAssign(call: CallId)
    | LoadToReject(call: CallId, lead: LeadId)
    | WriteReject(call: CallId)
    | LoadToConvert(call: CallId, lead: LeadId)
    | CommitConvert(call: CallId, booking: BookingId)
    | LoadToEdit(call: CallId, booking: BookingId, to: Option<BookingStatus>)
    | WriteEdit(call: CallId)
    | LoadToContract(call: CallId, booking: BookingId)
    | CommitContract(call: CallId, contract: ContractId)
    | DeleteBooking(booking: BookingId)
    | DeleteContract(contract: ContractId)

  /** The CHECK constraint Lead_converted_has_booking. */
  predicate LeadCheck(l: Lead) { l.status.Converted? <==> l.booking.Some? }

  function SetPc(s: State, c: CallId, pc: Pc): State { s.(calls := s.calls[c := pc]) }

  /** lead.update by id alone: it fails when the row is gone or the constraint rejects it. */
  function WriteLead(s: State, c: CallId, id: LeadId, l: Lead): State {
    if id !in s.leads || !LeadCheck(l) then SetPc(s, c, Failed)
    else SetPc(s.(leads := s.leads[id := l]), c, Done)
  }

  predicate Convertible(s: State, id: LeadId) {
    id in s.leads && (s.leads[id].status.New? || s.leads[id].status.Assigned?) && s.leads[id].booking.None?
  }

  /** The transaction of convert; the loser's booking is rolled back. */
  function ConvertStep(s: State, c: CallId, id: LeadId, b: BookingId): State {
    if Convertible(s, id)
    then SetPc(s.(leads := s.leads[id := s.leads[id].(status := Converted, booking := Some(b))],
                  bookings := s.bookings[b := Booking(Active, Some(id))]), c, Won(id, b))
    else SetPc(s, c, Refused)
  }

  predicate HasContract(s: State, b: BookingId) { exists k :: k in s.contracts && s.contracts[k].booking == Some(b) }

  /** The transaction of createFromBooking; a second contract for the booking breaks the unique key. */
  function ContractStep(s: State, c: CallId, b: BookingId, k: ContractId): State {
    if !(b in s.bookings && s.bookings[b].status.Active?) then SetPc(s, c, Refused)
    else if HasContract(s, b) then SetPc(s, c, Failed)
    else SetPc(s.(bookings := s.bookings[b := s.bookings[b].(status := Contracted)],
                  contracts := s.contracts[k := Contract(Some(b))]), c, Drawn(b, k))
  }

  function EditStep(s: State, c: CallId, b: BookingId, to: Option<BookingStatus>): State {
    if b !in s.bookings then SetPc(s, c, Failed)
    else if to.None? then SetPc(s, c, Done)
    else SetPc(s.(bookings := s.bookings[b := s.bookings[b].(status := to.value)]), c, Done)
  }

  predicate HasLead(s: State, b: BookingId) { exists l :: l in s.leads && s.leads[l].booking == Some(b) }

  function Unlink(contracts: map<ContractId, Contract>, b: BookingId): map<ContractId, Contract> {
    map k | k in contracts :: if contracts[k].booking == Some(b) then Contract(None) else contracts[k]
  }

  /** onDelete: SetNull on a converted lead would break its CHECK constraint, so the delete fails. */
  function DeleteStep(s: State, b: BookingId): State {
    if b !in s.bookings || HasLead(s, b) then s
    else s.(bookings := s.bookings - {b}, contracts := Unlink(s.contracts, b))
  }

  function AssignPc(s: State, lead: LeadId, manager: ManagerId): Pc {
    if lead !in s.leads || s.leads[lead].status.Converted? || s.leads[lead].status.Rejected? then Refused
    else ToAssign(lead, manager)
  }

  function RejectPc(s: State, lead: LeadId): Pc {
    if lead !in s.leads || s.leads[lead].status.Converted? then Refused else ToReject(lead)
  }

  function ConvertPc(s: State, lead: LeadId): Pc {
    if lead !in s.leads || s.leads[lead].status.Converted? || s.leads[lead].status.Rejected?
      || s.leads[lead].manager.None?
    then Refused
    else ToConvert(lead)
  }

  function EditPc(s: State, b: BookingId, to: Option<BookingStatus>): Pc {
    if b !in s.bookings || s.bookings[b].status.Contracted? || to == Some(Contracted) then Refused else ToEdit(b, to)
  }

  function ContractPc(s: State, b: BookingId): Pc {
    if b in s.bookings && s.bookings[b].status.Active? then ToContract(b) else Refused
  }

  function Begin(s: State, c: CallId, pc: Pc): State { if c in s.calls then s else SetPc(s, c, pc) }

  function Step(s: State, e: Event): State {
    match e
    case RegisterLead(l) => if l in s.leads then s else s.(leads := s.leads[l := Lead(New, None, None)])
    case AddBooking(b) => if b in s.bookings then s else s.(bookings := s.bookings[b := Booking(Active, None)])
    case LoadToAssign(c, l, m) => Begin(s, c, AssignPc(s, l, m))
    case WriteAssign(c) =>
      if c in s.calls && s.calls[c].ToAssign? && s.calls[c].lead in s.leads
      then WriteLead(s, c, s.calls[c].lead, s.leads[s.calls[c].lead].(status := Assigned,
        manager := Some(s.calls[c].manager)))
      else s
    case LoadToReject(c, l) => Begin(s, c, RejectPc(s, l))
    case WriteReject(c) =>
      if c in s.calls && s.calls[c].ToReject? && s.calls[c].lead in s.leads
      then WriteLead(s, c, s.calls[c].lead, s.leads[s.calls[c].lead].(status := Rejected))
      else s
    case LoadToConvert(c, l) => Begin(s, c, ConvertPc(s, l))
    case CommitConvert(c, b) =>
      if c in s.calls && s.calls[c].ToConvert? && b !in s.bookings && !HasContract(s, b)
      then ConvertStep(s, c, s.calls[c].lead, b)
      else s
    case LoadToEdit(c, b, to) => Begin(s, c, EditPc(s, b, to))
    case WriteEdit(c) =>
      if c in s.calls && s.calls[c].ToEdit? then EditStep(s, c, s.calls[c].booking, s.calls[c].to) else s
    case LoadToContract(c, b) => Begin(s, c, ContractPc(s, b))
    case CommitContract(c, k) =>
      if c in s.calls && s.calls[c].ToContract? && k !in s.contracts
        then ContractStep(s, c, s.calls[c].booking, k) else s
    case DeleteBooking(b) => DeleteStep(s, b)
    case DeleteContract(k) => s.(contracts := s.contracts - {k})
  }

  function Run(s: State, es: seq<Event>): State
    decreases |es|
  {
    if es == [] then s else Run(Step(s, es[0]), es[1..])
  }

  // --- The invariant ---------------------------------------------------------------------------

  predicate LeadInv(s: State, l: LeadId)
    requires l in s.leads
  {
    && LeadCheck(s.leads[l])
    && (s.leads[l].booking.Some? ==>
         s.leads[l].booking.value in s.bookings && s.bookings[s.leads[l].booking.value].from == Some(l))
  }

  predicate BookingInv(s: State, b: BookingId)
    requires b in s.bookings
  {
    s.bookings[b].from.Some? ==>
      s.bookings[b].from.value in s.leads && s.leads[s.bookings[b].from.value].booking == Some(b)
  }

  predicate ContractInv(s: State, k: ContractId)
    requires k in s.contracts
  {
    s.contracts[k].booking.Some? ==>
      && s.contracts[k].booking.value in s.bookings
      && forall j :: j in s.contracts && s.contracts[j].booking == s.contracts[k].booking ==> j == k
  }

  predicate CallInv(s: State, c: CallId)
    requires c in s.calls
  {
    match s.calls[c]
    case Won(l, b) => l in s.leads && s.leads[l].booking == Some(b)
    case ToEdit(_, to) => to != Some(Contracted)
    case _ => true
  }

  ghost predicate Inv(s: State) {
    && (forall l {:trigger LeadInv(s, l)} :: l in s.leads ==> LeadInv(s, l))
    && (forall b {:trigger BookingInv(s, b)} :: b in s.bookings ==> BookingInv(s, b))
    && (forall k {:trigger ContractInv(s, k)} :: k in s.contracts ==> ContractInv(s, k))
    && (forall c {:trigger CallInv(s, c)} :: c in s.calls ==> CallInv(s, c))
  }

  lemma SetPcKeeps(s: State, c: CallId, pc: Pc)
    requires Inv(s)
    requires pc.Won? ==> pc.lead in s.leads && s.leads[pc.lead].booking == Some(pc.booking)
    requires pc.ToEdit? ==> pc.to != Some(Contracted)
    ensures Inv(SetPc(s, c, pc))
  {
    var t := SetPc(s, c, pc);
    forall l | l in t.leads ensures LeadInv(t, l) { assert LeadInv(s, l); }
    forall b | b in t.bookings ensures BookingInv(t, b) { assert BookingInv(s, b); }
    forall k | k in t.contracts ensures ContractInv(t, k) { assert ContractInv(s, k); }
    forall d | d in t.calls ensures CallInv(t, d) { if d != c { assert CallInv(s, d); } }
  }

  /** A lead's status and manager change while its booking, if any, stays. */
  lemma LeadKeeps(s: State, id: LeadId, l: Lead)
    requires Inv(s) && LeadCheck(l)
    requires if id in s.leads then l.booking == s.leads[id].booking else l.booking.None?
    ensures Inv(s.(leads := s.leads[id := l]))
  {
    var t := s.(leads := s.leads[id := l]);
    forall m | m in t.leads ensures LeadInv(t, m) { if m in s.leads { assert LeadInv(s, m); } }
    forall b | b in t.bookings ensures BookingInv(t, b) { assert BookingInv(s, b); }
    forall k | k in t.contracts ensures ContractInv(t, k) { assert ContractInv(s, k); }
    forall d | d in t.calls ensures CallInv(t, d) { assert CallInv(s, d); }
  }

  lemma BookingKeeps(s: State, id: BookingId, b: Booking)
    requires Inv(s)
    requires if id in s.bookings then b.from == s.bookings[id].from else b.from.None?
    ensures Inv(s.(bookings := s.bookings[id := b]))
  {
    var t := s.(bookings := s.bookings[id := b]);
    forall l | l in t.leads ensures LeadInv(t, l) { assert LeadInv(s, l); }
    forall a | a in t.bookings ensures BookingInv(t, a) { if a in s.bookings { assert BookingInv(s, a); } }
    forall k | k in t.contracts ensures ContractInv(t, k) { assert ContractInv(s, k); }
    forall d | d in t.calls ensures CallInv(t, d) { assert CallInv(s, d); }
  }

  lemma ConvertKeeps(s: State, c: CallId, id: LeadId, b: BookingId)
    requires Inv(s) && b !in s.bookings
    ensures Inv(ConvertStep(s, c, id, b))
  {
    if Convertible(s, id) {
      var t := ConvertStep(s, c, id, b);
      forall l | l in t.leads ensures LeadInv(t, l) { assert LeadInv(s, l); }
      forall a | a in t.bookings ensures BookingInv(t, a) { if a != b { assert BookingInv(s, a); } }
      forall k | k in t.contracts ensures ContractInv(t, k) { assert ContractInv(s, k); }
      forall d | d in t.calls ensures CallInv(t, d) { if d != c { assert CallInv(s, d); } }
    } else {
      SetPcKeeps(s, c, Refused);
    }
  }

  lemma ContractKeeps(s: State, c: CallId, b: BookingId, k: ContractId)
    requires Inv(s) && k !in s.contracts
    ensures Inv(ContractStep(s, c, b, k))
  {
    if b in s.bookings && s.bookings[b].status.Active? && !HasContract(s, b) {
      var u := s.(bookings := s.bookings[b := s.bookings[b].(status := Contracted)]);
      BookingKeeps(s, b, u.bookings[b]);
      var v := u.(contracts := u.contracts[k := Contract(Some(b))]);
      forall l | l in v.leads ensures LeadInv(v, l) { assert LeadInv(u, l); }
      forall a | a in v.bookings ensures BookingInv(v, a) { assert BookingInv(u, a); }
      forall j | j in v.contracts ensures ContractInv(v, j) { if j != k { assert ContractInv(u, j); } }
      forall d | d in v.calls ensures CallInv(v, d) { assert CallInv(u, d); }
      SetPcKeeps(v, c, Drawn(b, k));
    } else {
      SetPcKeeps(s, c, if HasContract(s, b) && b in s.bookings && s.bookings[b].status.Active? then Failed
        else Refused);
    }
  }

  lemma DeleteKeeps(s: State, b: BookingId)
    requires Inv(s)
    ensures Inv(DeleteStep(s, b))
  {
    var t := DeleteStep(s, b);
    forall l | l in t.leads ensures LeadInv(t, l) { assert LeadInv(s, l); }
    forall a | a in t.bookings ensures BookingInv(t, a) { assert BookingInv(s, a); }
    forall k | k in t.contracts ensures ContractInv(t, k) { assert ContractInv(s, k); }
    forall d | d in t.calls ensures CallInv(t, d) { assert CallInv(s, d); }
  }

  lemma RemoveContractKeeps(s: State, k: ContractId)
    requires Inv(s)
    ensures Inv(s.(contracts := s.contracts - {k}))
  {
    var t := s.(contracts := s.contracts - {k});
    forall l | l in t.leads ensures LeadInv(t, l) { assert LeadInv(s, l); }
    forall a | a in t.bookings ensures BookingInv(t, a) { assert BookingInv(s, a); }
    forall j | j in t.contracts ensures ContractInv(t, j) { assert ContractInv(s, j); }
    forall d | d in t.calls ensures CallInv(t, d) { assert CallInv(s, d); }
  }

  lemma WriteKeeps(s: State, c: CallId, id: LeadId, l: Lead)
    requires Inv(s) && id in s.leads && l.booking == s.leads[id].booking
    ensures Inv(WriteLead(s, c, id, l))
  {
    if LeadCheck(l) {
      LeadKeeps(s, id, l);
      SetPcKeeps(s.(leads := s.leads[id := l]), c, Done);
    } else {
      SetPcKeeps(s, c, Failed);
    }
  }

  lemma EditKeeps(s: State, c: CallId, b: BookingId, to: Option<BookingStatus>)
    requires Inv(s)
    ensures Inv(EditStep(s, c, b, to))
  {
    if b in s.bookings && to.Some? {
      var a := s.bookings[b].(status := to.value);
      BookingKeeps(s, b, a);
      SetPcKeeps(s.(bookings := s.bookings[b := a]), c, Done);
    } else {
      SetPcKeeps(s, c, if b in s.bookings then Done else Failed);
    }
  }

  lemma StepKeeps(s: State, e: Event)
    requires Inv(s)
    ensures Inv(Step(s, e))
  {
    var t := Step(s, e);
    match e
    case RegisterLead(l) => if l !in s.leads { LeadKeeps(s, l, Lead(New, None, None)); }
    case AddBooking(b) => if b !in s.bookings { BookingKeeps(s, b, Booking(Active, None)); }
    case WriteAssign(c) =>
      if t != s {
        var pc := s.calls[c];
        WriteKeeps(s, c, pc.lead, s.leads[pc.lead].(status := Assigned, manager := Some(pc.manager)));
      }
    case WriteReject(c) =>
      if t != s { WriteKeeps(s, c, s.calls[c].lead, s.leads[s.calls[c].lead].(status := Rejected)); }
    case CommitConvert(c, b) => if t != s { ConvertKeeps(s, c, s.calls[c].lead, b); }
    case WriteEdit(c) => if t != s { EditKeeps(s, c, s.calls[c].booking, s.calls[c].to); }
    case CommitContract(c, k) => if t != s { ContractKeeps(s, c, s.calls[c].booking, k); }
    case DeleteBooking(b) => DeleteKeeps(s, b);
    case DeleteContract(k) => RemoveContractKeeps(s, k);
    case _ => if t != s { SetPcKeeps(s, e.call, t.calls[e.call]); }
  }

  lemma {:induction false} RunKeeps(s: State, es: seq<Event>)
    requires Inv(s)
    ensures Inv(Run(s, es))
    decreases |es|
  {
    if es != [] {
      StepKeeps(s, es[0]);
      RunKeeps(Step(s, es[0]), es[1..]);
    }
  }

  lemma {:induction false} RunSplits(s: State, es: seq<Event>, fs: seq<Event>)
    ensures Run(s, es + fs) == Run(Run(s, es), fs)
    decreases |es|
  {
    if es == [] {
      assert es + fs == fs;
    } else {
      assert (es + fs)[1..] == es[1..] + fs;
      RunSplits(Step(s, es[0]), es[1..], fs);
    }
  }

  // --- Leads and their bookings --------------------------------------------------------------------

  function BookingsFrom(s: State, l: LeadId): set<BookingId>
  {
    set b | b in s.bookings && s.bookings[b].from == Some(l)
  }

  /** A lead has made exactly the booking it names: one if it names one, otherwise none. */
  lemma OneBookingPerLead(s: State, es: seq<Event>, l: LeadId)
    requires Inv(s) && l in Run(s, es).leads
    ensures BookingsFrom(Run(s, es), l) ==
            match Run(s, es).leads[l].booking
            case None => {}
            case Some(b) => {b}
  {
    RunKeeps(s, es);
    var t := Run(s, es);
    assert LeadInv(t, l);
    forall b | b in BookingsFrom(t, l) ensures t.leads[l].booking == Some(b) { assert BookingInv(t, b); }
  }

  /** A booking can be deleted exactly if no lead was converted into it; its contract then stands without a booking. */
  lemma DeletedIffNotFromALead(s: State, b: BookingId)
    requires Inv(s) && b in s.bookings
    ensures var t := Step(s, DeleteBooking(b));
            && t.leads == s.leads && t.calls == s.calls
            && t.bookings == (if s.bookings[b].from == None then s.bookings - {b} else s.bookings)
            && t.contracts.Keys == s.contracts.Keys
            && forall k :: k in t.contracts ==>
                 t.contracts[k].booking == if s.bookings[b].from == None && s.contracts[k].booking == Some(b) then None
                                           else s.contracts[k].booking
  {
    assert BookingInv(s, b);
    if l :| l in s.leads && s.leads[l].booking == Some(b) { assert LeadInv(s, l); }
  }

  lemma LeadStaysConverted(s: State, e: Event, l: LeadId)
    requires Inv(s) && l in s.leads && s.leads[l].booking.Some?
    ensures l in Step(s, e).leads && Step(s, e).leads[l] == s.leads[l]
    ensures s.leads[l].booking.value in Step(s, e).bookings
  {
    assert LeadInv(s, l);
  }

  /** A conversion is final: no stale assign or reject touches the lead again, and its booking cannot be deleted. */
  lemma {:induction false} ConversionIsFinal(s: State, es: seq<Event>, l: LeadId)
    requires Inv(s) && l in s.leads && s.leads[l].booking.Some?
    ensures l in Run(s, es).leads && Run(s, es).leads[l] == s.leads[l]
    ensures s.leads[l].booking.value in Run(s, es).bookings
    decreases |es|
  {
    if es != [] {
      assert LeadInv(s, l);
      LeadStaysConverted(s, es[0], l);
      StepKeeps(s, es[0]);
      ConversionIsFinal(Step(s, es[0]), es[1..], l);
    } else {
      assert LeadInv(s, l);
    }
  }

  /** A convert that does not win leaves no booking, no changed lead and no contract. */
  lemma LosingConvertLeavesNothing(s: State, c: CallId, b: BookingId)
    requires c in s.calls && s.calls[c].ToConvert?
    ensures var t := Step(s, CommitConvert(c, b));
            t.calls[c].Won? || (t.bookings == s.bookings && t.leads == s.leads && t.contracts == s.contracts)
    ensures var t := Step(s, CommitConvert(c, b));
            t.calls[c].Won? <==> b !in s.bookings && !HasContract(s, b) && Convertible(s, s.calls[c].lead)
  {
  }

  /**
   * Of all the calls converting a lead, whatever else interleaves, at most one wins, and the winner's booking stands.
   */
  lemma OneConvertWins(s: State, es: seq<Event>, c: CallId, d: CallId)
    requires Inv(s) && c in Run(s, es).calls && d in Run(s, es).calls
    requires Run(s, es).calls[c].Won? && Run(s, es).calls[d].Won?
    requires Run(s, es).calls[c].lead == Run(s, es).calls[d].lead
    ensures Run(s, es).calls[c] == Run(s, es).calls[d]
    ensures Run(s, es).calls[c].booking in Run(s, es).bookings
  {
    RunKeeps(s, es);
    var t := Run(s, es);
    assert CallInv(t, c) && CallInv(t, d) && LeadInv(t, t.calls[c].lead);
  }

  // --- Bookings and their contracts ---------------------------------------------------------------

  /** However conversions, edits and deletions interleave, a booking has at most one contract. */
  lemma OneContractPerBooking(s: State, es: seq<Event>, j: ContractId, k: ContractId)
    requires Inv(s) && j in Run(s, es).contracts && k in Run(s, es).contracts
    requires Run(s, es).contracts[j].booking.Some? && Run(s, es).contracts[j].booking == Run(s, es).contracts[k].booking
    ensures j == k && Run(s, es).contracts[j].booking.value in Run(s, es).bookings
  {
    RunKeeps(s, es);
    assert ContractInv(Run(s, es), j);
  }

  /** The only write that takes a booking out of `converted` is an edit loaded before the conversion. */
  lemma ContractedIsLostIff(s: State, e: Event, b: BookingId)
    requires Inv(s) && b in s.bookings && s.bookings[b].status.Contracted? && b in Step(s, e).bookings
    ensures !Step(s, e).bookings[b].status.Contracted? <==>
            e.WriteEdit? && e.call in s.calls && s.calls[e.call].ToEdit? && s.calls[e.call].booking == b
              && s.calls[e.call].to.Some?
  {
    if e.WriteEdit? && e.call in s.calls { assert CallInv(s, e.call); }
    if e.CommitConvert? && e.booking == b { assert Step(s, e) == s; }
  }

  /** No edit of the booking is between its load and its write. */
  predicate NoEditUnderWay(s: State, b: BookingId)
  {
    forall c :: c in s.calls && s.calls[c].ToEdit? ==> s.calls[c].booking != b
  }

  predicate Settled(s: State, b: BookingId) {
    b in s.bookings && s.bookings[b].status.Contracted? && NoEditUnderWay(s, b)
  }

  lemma SettledStep(s: State, e: Event, b: BookingId)
    requires Inv(s) && Settled(s, b)
    ensures b in Step(s, e).bookings ==> Settled(Step(s, e), b)
    ensures e.CommitContract? && e.call in s.calls && s.calls[e.call] == ToContract(b) ==>
              Step(s, e).calls[e.call] == s.calls[e.call] || Step(s, e).calls[e.call].Refused?
  {
    if b in Step(s, e).bookings { ContractedIsLostIff(s, e, b); }
  }

  /**
   * Once no old edit is under way, a converted booking stays converted, and every late conversion of it is refused
   * before it reaches the unique key.
   */
  lemma {:induction false} ContractedForGood(s: State, es: seq<Event>, b: BookingId)
    requires Inv(s) && Settled(s, b) && DeleteBooking(b) !in es
    ensures Settled(Run(s, es), b)
    ensures forall c, k {:trigger Step(Run(s, es), CommitContract(c, k))} ::
              var t := Run(s, es);
              c in t.calls && t.calls[c] == ToContract(b) && k !in t.contracts ==>
                Step(t, CommitContract(c, k)) == SetPc(t, c, Refused)
    decreases |es|
  {
    if es != [] {
      assert es[0] in es;
      assert b in Step(s, es[0]).bookings;
      SettledStep(s, es[0], b);
      StepKeeps(s, es[0]);
      ContractedForGood(Step(s, es[0]), es[1..], b);
    }
  }

  // --- When the unique key is needed --------------------------------------------------------------------

  /** In the list, the two statements of every booking edit stand next to each other. */
  predicate WholeEdits(es: seq<Event>)
    decreases |es|
  {
    || es == []
    || (es[0].LoadToEdit? && |es| >= 2 && es[1] == WriteEdit(es[0].call) && WholeEdits(es[2..]))
    || (!es[0].LoadToEdit? && !es[0].WriteEdit? && WholeEdits(es[1..]))
  }

  predicate Drawable(s: State, b: BookingId)
    requires b in s.bookings
  {
    HasContract(s, b) ==> s.bookings[b].status.Contracted?
  }

  /** A booking with a contract is converted, and no edit is between its load and its write. */
  ghost predicate Tidy(s: State) {
    && (forall b {:trigger Drawable(s, b)} :: b in s.bookings ==> Drawable(s, b))
    && (forall c :: c in s.calls ==> !s.calls[c].ToEdit?)
  }

  lemma TidyStep(s: State, e: Event)
    requires Inv(s) && Tidy(s) && !e.LoadToEdit? && !e.WriteEdit?
    ensures Tidy(Step(s, e))
  {
    var t := Step(s, e);
    forall b | b in t.bookings ensures Drawable(t, b) { DrawableStep(s, e, b); }
  }

  lemma DrawableStep(s: State, e: Event, b: BookingId)
    requires Inv(s) && Tidy(s) && !e.LoadToEdit? && !e.WriteEdit? && b in Step(s, e).bookings
    ensures Drawable(Step(s, e), b)
  {
    var t := Step(s, e);
    if b in s.bookings { assert Drawable(s, b); }
    if HasContract(t, b) {
      var k :| k in t.contracts && t.contracts[k].booking == Some(b);
      if k in s.contracts { assert ContractInv(s, k); }
    }
  }

  lemma TidyEdit(s: State, c: CallId, b: BookingId, to: Option<BookingStatus>)
    requires Inv(s) && Tidy(s)
    ensures Tidy(Step(Step(s, LoadToEdit(c, b, to)), WriteEdit(c)))
  {
    var t := Step(Step(s, LoadToEdit(c, b, to)), WriteEdit(c));
    assert t.contracts == s.contracts;
    forall a | a in t.bookings ensures Drawable(t, a) {
      assert Drawable(s, a);
      assert HasContract(t, a) ==> HasContract(s, a);
    }
  }

  /**
   * With whole edits a booking that has a contract is converted all the time, so no conversion ever fails on the key.
   */
  lemma {:induction false} KeyIsNotNeeded(s: State, es: seq<Event>)
    requires Inv(s) && Tidy(s) && WholeEdits(es)
    ensures Tidy(Run(s, es))
    ensures forall c, k :: !CommitFails(Run(s, es), c, k)
    decreases |es|
  {
    if es != [] {
      if es[0].LoadToEdit? {
        var m := Step(s, es[0]);
        StepKeeps(s, es[0]);
        StepKeeps(m, es[1]);
        TidyEdit(s, es[0].call, es[0].booking, es[0].to);
        assert es[1..][0] == es[1] && es[1..][1..] == es[2..];
        KeyIsNotNeeded(Step(m, es[1]), es[2..]);
      } else {
        StepKeeps(s, es[0]);
        TidyStep(s, es[0]);
        KeyIsNotNeeded(Step(s, es[0]), es[1..]);
      }
    } else {
      forall c, k ensures !CommitFails(s, c, k) { TidyCommits(s, c, k); }
    }
  }

  lemma TidyCommits(s: State, c: CallId, k: ContractId)
    requires Tidy(s)
    ensures !CommitFails(s, c, k)
  {
    if c in s.calls && s.calls[c].ToContract? && s.calls[c].booking in s.bookings {
      assert Drawable(s, s.calls[c].booking);
    }
  }

  /** The conversion passes its status check and then fails on the unique key. */
  predicate CommitFails(s: State, c: CallId, k: ContractId) {
    && c in s.calls && s.calls[c].ToContract? && k !in s.contracts
    && s.calls[c].booking in s.bookings && Step(s, CommitContract(c, k)).calls[c].Failed?
  }

  /**
   * A stale edit makes it necessary: it puts the booking back to active, and a second conversion gets as far as the
   * key.
   */
  lemma StaleEditNeedsTheKey(s: State) returns (es: seq<Event>)
    requires s == EMPTY
    ensures CommitFails(Run(s, es), 3, 1)
  {
    es := [AddBooking(0), LoadToEdit(1, 0, Some(Active)), LoadToContract(2, 0), CommitContract(2, 0), WriteEdit(1),
      LoadToContract(3, 0)];
    RunSix(s, es);
    var t := Step(Step(Step(s, es[0]), es[1]), es[2]);
    BothLoad(s, t);
    DrawnTwice(t);
  }

  lemma BothLoad(s: State, t: State)
    requires s == EMPTY && t == Step(Step(Step(s, AddBooking(0)), LoadToEdit(1, 0, Some(Active))), LoadToContract(2, 0))
    ensures t.bookings == map[0 := Booking(Active, None)] && t.contracts == map[]
    ensures t.calls == map[1 := ToEdit(0, Some(Active)), 2 := ToContract(0)]
  {
    assert Step(s, AddBooking(0)).bookings == map[0 := Booking(Active, None)];
    assert Step(Step(s, AddBooking(0)), LoadToEdit(1, 0, Some(Active))).calls == map[1 := ToEdit(0, Some(Active))];
  }

  lemma DrawnTwice(t: State)
    requires t.bookings == map[0 := Booking(Active, None)] && t.contracts == map[]
    requires t.calls == map[1 := ToEdit(0, Some(Active)), 2 := ToContract(0)]
    ensures CommitFails(Step(Step(Step(t, CommitContract(2, 0)), WriteEdit(1)), LoadToContract(3, 0)), 3, 1)
  {
    assert !HasContract(t, 0);
    var u := Step(t, CommitContract(2, 0));
    assert u.contracts == map[0 := Contract(Some(0))] && u.calls[1] == ToEdit(0, Some(Active)) && 3 !in u.calls;
    var v := Step(u, WriteEdit(1));
    assert v.contracts == u.contracts && v.bookings[0].status.Active? && 3 !in v.calls;
    var x := Step(v, LoadToContract(3, 0));
    assert x.contracts[0].booking == Some(0);
    assert HasContract(x, 0);
  }

  lemma RunSix(s: State, es: seq<Event>)
    requires |es| == 6
    ensures Run(s, es) == Step(Step(Step(Step(Step(Step(s, es[0]), es[1]), es[2]), es[3]), es[4]), es[5])
  {
    RunThree(s, es);
    RunThree(Step(Step(Step(s, es[0]), es[1]), es[2]), es[3..]);
    assert es[3..][0] == es[3] && es[3..][1] == es[4] && es[3..][2] == es[5] && es[3..][3..] == [];
  }

  lemma RunThree(s: State, es: seq<Event>)
    requires |es| >= 3
    ensures Run(s, es) == Run(Step(Step(Step(s, es[0]), es[1]), es[2]), es[3..])
  {
    assert es[1..][0] == es[1] && es[1..][1..] == es[2..];
    assert es[2..][0] == es[2] && es[2..][1..] == es[3..];
    assert Run(s, es) == Run(Step(s, es[0]), es[1..]);
    assert Run(Step(s, es[0]), es[1..]) == Run(Step(Step(s, es[0]), es[1]), es[2..]);
  }
}
