/** The sales services as they run: each call loads, lets other calls' statements `env` pass, and writes. */
module SalesCalls {
  import opened Options
  import opened Sales

  /** The caller of an event, if it has one. */
  predicate MovedBy(e: Event, c: CallId) {
    match e
    case RegisterLead(_) => false
    case AddBooking(_) => false
    case DeleteBooking(_) => false
    case DeleteContract(_) => false
    case _ => e.call == c
  }

  predicate AllForeign(es: seq<Event>, c: CallId) { forall e :: e in es ==> !MovedBy(e, c) }

  lemma {:induction false} ForeignRun(s: State, es: seq<Event>, c: CallId)
    requires AllForeign(es, c) && c in s.calls
    ensures c in Run(s, es).calls && Run(s, es).calls[c] == s.calls[c]
    decreases |es|
  {
    if es != [] {
      assert es[0] in es;
      ForeignRun(Step(s, es[0]), es[1..], c);
    }
  }

  function Whole(load: Event, env: seq<Event>, write: Event): seq<Event> { [load] + env + [write] }

  lemma WholeRun(s: State, load: Event, env: seq<Event>, write: Event)
    ensures Run(s, Whole(load, env, write)) == Step(Run(Step(s, load), env), write)
  {
    assert Whole(load, env, write)[1..] == env + [write];
    RunSplits(Step(s, load), env, [write]);
    assert [write][1..] == [];
  }

  /** Where a call that has loaded its row finds the tables when it comes to write. */
  function Meanwhile(s: State, load: Event, env: seq<Event>): State { Run(Step(s, load), env) }

  lemma MeanwhileKeeps(s: State, load: Event, env: seq<Event>)
    requires Inv(s)
    ensures Inv(Meanwhile(s, load, env))
    ensures Meanwhile(s, load, []) == Step(s, load)
  {
    StepKeeps(s, load);
    RunKeeps(Step(s, load), env);
  }

  predicate OpenLead(leads: map<LeadId, Lead>, lead: LeadId) { lead in leads && leads[lead].status in {New, Assigned} }

  predicate IsActive(bookings: map<BookingId, Booking>, b: BookingId) { b in bookings && bookings[b].status == Active }

  predicate Contracts(contracts: map<ContractId, Contract>, b: BookingId) {
    exists k :: k in contracts && contracts[k].booking == Some(b)
  }

  class SalesServices {
    var leads: map<LeadId, Lead>
    var bookings: map<BookingId, Booking>
    var contracts: map<ContractId, Contract>
    var calls: map<CallId, Pc>

    constructor ()
      ensures View() == EMPTY
    {
      leads, bookings, contracts, calls := map[], map[], map[], map[];
    }

    function View(): State
      reads this
    {
      State(leads, bookings, contracts, calls)
    }

    /** Statements of other calls. */
    method Others(c: CallId, env: seq<Event>)
      requires c in calls && AllForeign(env, c)
      modifies this
      ensures View() == Run(old(View()), env) && c in calls && calls[c] == old(calls[c])
    {
      ForeignRun(View(), env, c);
      var s := Run(View(), env);
      leads, bookings, contracts, calls := s.leads, s.bookings, s.contracts, s.calls;
    }

    method Assign(c: CallId, lead: LeadId, manager: ManagerId, env: seq<Event>)
      requires c !in calls && AllForeign(env, c) && Inv(View())
      modifies this
      ensures c in calls
      ensures calls[c].Refused? <==> !OpenLead(old(leads), lead)
      ensures calls[c].Refused? ==> leads == old(leads) && bookings == old(bookings) && contracts == old(contracts)
      ensures !calls[c].Refused? ==>
                var mid := Meanwhile(old(View()), LoadToAssign(c, lead, manager), env);
                && lead in mid.leads
                && calls[c] == (if mid.leads[lead].status == Converted then Failed else Done)
                && leads == (if calls[c].Done? then mid.leads[lead := Lead(Assigned, Some(manager), None)]
                             else mid.leads)
                && bookings == mid.bookings && contracts == mid.contracts
      ensures env == [] && OpenLead(old(leads), lead) ==>
                calls[c] == Done && leads == old(leads)[lead := Lead(Assigned, Some(manager), None)]
      ensures calls[c].Refused? ==> View() == Step(old(View()), LoadToAssign(c, lead, manager))
      ensures !calls[c].Refused? ==>
                View() == Run(old(View()), Whole(LoadToAssign(c, lead, manager), env, WriteAssign(c)))
      ensures calls[c].Done? ==>
                && lead in leads && leads[lead].status.Assigned?
                && leads[lead].manager == Some(manager) && leads[lead].booking.None?
    {
      if lead !in leads || leads[lead].status.Converted? || leads[lead].status.Rejected? {
        calls := calls[c := Refused];
        return;
      }
      ghost var load := LoadToAssign(c, lead, manager);
      MeanwhileKeeps(View(), load, env);
      calls := calls[c := ToAssign(lead, manager)];
      WholeRun(old(View()), LoadToAssign(c, lead, manager), env, WriteAssign(c));
      LeadsStay(View(), env, lead);
      Others(c, env);
      assert LeadInv(View(), lead);
      var row := leads[lead].(status := Assigned, manager := Some(manager));
      if LeadCheck(row) {
        leads := leads[lead := row];
        calls := calls[c := Done];
      } else {
        calls := calls[c := Failed];
      }
    }

    method Reject(c: CallId, lead: LeadId, env: seq<Event>)
      requires c !in calls && AllForeign(env, c) && Inv(View())
      modifies this
      ensures c in calls
      ensures calls[c].Refused? <==> lead !in old(leads) || old(leads)[lead].status == Converted
      ensures calls[c].Refused? ==> leads == old(leads) && bookings == old(bookings) && contracts == old(contracts)
      ensures !calls[c].Refused? ==>
                var mid := Meanwhile(old(View()), LoadToReject(c, lead), env);
                && lead in mid.leads
                && calls[c] == (if mid.leads[lead].status == Converted then Failed else Done)
                && leads == (if calls[c].Done?
                             then mid.leads[lead := Lead(LeadStatus.Rejected, mid.leads[lead].manager, None)]
                             else mid.leads)
                && bookings == mid.bookings && contracts == mid.contracts
      ensures env == [] && !calls[c].Refused? ==>
                && calls[c] == Done
                && leads == old(leads)[lead := Lead(LeadStatus.Rejected, old(leads)[lead].manager, None)]
      ensures calls[c].Refused? ==> View() == Step(old(View()), LoadToReject(c, lead))
      ensures !calls[c].Refused? ==> View() == Run(old(View()), Whole(LoadToReject(c, lead), env, WriteReject(c)))
      ensures calls[c].Done? ==> lead in leads && leads[lead].status.Rejected? && leads[lead].booking.None?
    {
      if lead !in leads || leads[lead].status.Converted? {
        calls := calls[c := Refused];
        return;
      }
      MeanwhileKeeps(View(), LoadToReject(c, lead), env);
      calls := calls[c := ToReject(lead)];
      WholeRun(old(View()), LoadToReject(c, lead), env, WriteReject(c));
      LeadsStay(View(), env, lead);
      Others(c, env);
      assert LeadInv(View(), lead);
      var row := leads[lead].(status := LeadStatus.Rejected);
      if LeadCheck(row) {
        leads := leads[lead := row];
        calls := calls[c := Done];
      } else {
        calls := calls[c := Failed];
      }
    }

    /** convert: the booking is created first, then the lead claimed; a lost claim rolls both back. */
    method Convert(c: CallId, lead: LeadId, booking: BookingId, env: seq<Event>)
      requires c !in calls && AllForeign(env, c) && Inv(View())
      requires booking !in Meanwhile(View(), LoadToConvert(c, lead), env).bookings
      requires !HasContract(Meanwhile(View(), LoadToConvert(c, lead), env), booking)
      modifies this
      ensures c in calls && (calls[c].Refused? || calls[c] == Won(lead, booking))
      ensures !(OpenLead(old(leads), lead) && old(leads)[lead].manager.Some?) ==>
                calls[c].Refused? && leads == old(leads) && bookings == old(bookings) && contracts == old(contracts)
      ensures OpenLead(old(leads), lead) && old(leads)[lead].manager.Some? ==>
                var mid := Meanwhile(old(View()), LoadToConvert(c, lead), env);
                && (calls[c].Won? <==> OpenLead(mid.leads, lead))
                && leads == (if calls[c].Won?
                             then mid.leads[lead := Lead(Converted, mid.leads[lead].manager, Some(booking))]
                             else mid.leads)
                && bookings == (if calls[c].Won? then mid.bookings[booking := Booking(Active, Some(lead))]
                                else mid.bookings)
                && contracts == mid.contracts
      ensures env == [] && OpenLead(old(leads), lead) && old(leads)[lead].manager.Some? ==>
                && calls[c] == Won(lead, booking)
                && leads == old(leads)[lead := Lead(Converted, old(leads)[lead].manager, Some(booking))]
                && bookings == old(bookings)[booking := Booking(Active, Some(lead))] && contracts == old(contracts)
      ensures calls[c].Won? ==>
                && View() == Run(old(View()), Whole(LoadToConvert(c, lead), env, CommitConvert(c, booking)))
                && lead in leads && leads[lead].booking == Some(booking) && BookingsFrom(View(), lead) == {booking}
      ensures calls[c].Refused? ==>
                || View() == Step(old(View()), LoadToConvert(c, lead))
                || View() == Run(old(View()), Whole(LoadToConvert(c, lead), env, CommitConvert(c, booking)))
    {
      ghost var s0 := View();
      ghost var es := Whole(LoadToConvert(c, lead), env, CommitConvert(c, booking));
      if lead !in leads || leads[lead].status.Converted? || leads[lead].status.Rejected? || leads[lead].manager.None? {
        calls := calls[c := Refused];
        return;
      }
      MeanwhileKeeps(s0, LoadToConvert(c, lead), env);
      calls := calls[c := ToConvert(lead)];
      WholeRun(s0, LoadToConvert(c, lead), env, CommitConvert(c, booking));
      ConvertLoaded(c, lead, booking, env);
      if calls[c].Won? { OnlyBooking(s0, es, lead, booking); }
    }

    method ConvertLoaded(c: CallId, lead: LeadId, booking: BookingId, env: seq<Event>)
      requires c in calls && calls[c] == ToConvert(lead) && AllForeign(env, c) && Inv(Run(View(), env))
      requires booking !in Run(View(), env).bookings && !HasContract(Run(View(), env), booking)
      modifies this
      ensures var mid := Run(old(View()), env);
              && View() == Step(mid, CommitConvert(c, booking))
              && c in calls && calls[c] == (if OpenLead(mid.leads, lead) then Won(lead, booking) else Refused)
              && leads == (if calls[c].Won?
                           then mid.leads[lead := Lead(Converted, mid.leads[lead].manager, Some(booking))]
                           else mid.leads)
              && bookings == (if calls[c].Won? then mid.bookings[booking := Booking(Active, Some(lead))]
                              else mid.bookings)
              && contracts == mid.contracts
    {
      Others(c, env);
      if lead in leads { assert LeadInv(View(), lead); }
      CommitConversion(c, booking);
    }

    /** The transaction of convert. */
    method CommitConversion(c: CallId, booking: BookingId)
      requires c in calls && calls[c].ToConvert? && booking !in bookings && !HasContract(View(), booking)
      modifies this
      ensures View() == Step(old(View()), CommitConvert(c, booking))
      ensures var lead := old(calls[c].lead);
              && c in calls
              && (calls[c] == if OpenLead(old(leads), lead) && old(leads)[lead].booking == None
                              then Won(lead, booking) else Refused)
              && leads == (if calls[c].Won?
                           then old(leads)[lead := Lead(Converted, old(leads)[lead].manager, Some(booking))]
                           else old(leads))
              && bookings == (if calls[c].Won? then old(bookings)[booking := Booking(Active, Some(lead))]
                              else old(bookings))
              && contracts == old(contracts)
    {
      var lead := calls[c].lead;
      var leadsBefore, bookingsBefore := leads, bookings;
      bookings := bookings[booking := Booking(Active, Some(lead))];
      if lead in leads && (leads[lead].status.New? || leads[lead].status.Assigned?) && leads[lead].booking.None? {
        leads := leads[lead := leads[lead].(status := Converted, booking := Some(booking))];
        calls := calls[c := Won(lead, booking)];
      } else {
        leads, bookings := leadsBefore, bookingsBefore;
        calls := calls[c := Refused];
      }
    }

    /** bookings.service.ts update: the status it sets is written whatever the row has become. */
    method EditBooking(c: CallId, booking: BookingId, to: Option<BookingStatus>, env: seq<Event>)
      requires c !in calls && AllForeign(env, c) && to != Some(Contracted)
      modifies this
      ensures c in calls
      ensures calls[c].Refused? <==> booking !in old(bookings) || old(bookings)[booking].status == Contracted
      ensures calls[c].Refused? ==> leads == old(leads) && bookings == old(bookings) && contracts == old(contracts)
      ensures !calls[c].Refused? ==>
                var mid := Meanwhile(old(View()), LoadToEdit(c, booking, to), env);
                && calls[c] == (if booking in mid.bookings then Done else Failed)
                && bookings == (if calls[c].Done? && to.Some?
                                then mid.bookings[booking := Booking(to.value, mid.bookings[booking].from)]
                                else mid.bookings)
                && leads == mid.leads && contracts == mid.contracts
      ensures env == [] && !calls[c].Refused? ==>
                && calls[c] == Done
                && bookings == if to.Some? then old(bookings)[booking := Booking(to.value, old(bookings)[booking].from)]
                               else old(bookings)
      ensures calls[c].Refused? ==> View() == Step(old(View()), LoadToEdit(c, booking, to))
      ensures !calls[c].Refused? ==> View() == Run(old(View()), Whole(LoadToEdit(c, booking, to), env, WriteEdit(c)))
    {
      if booking !in bookings || bookings[booking].status.Contracted? {
        calls := calls[c := Refused];
        return;
      }
      calls := calls[c := ToEdit(booking, to)];
      WholeRun(old(View()), LoadToEdit(c, booking, to), env, WriteEdit(c));
      Others(c, env);
      if booking !in bookings {
        calls := calls[c := Failed];
      } else {
        if to.Some? { bookings := bookings[booking := bookings[booking].(status := to.value)]; }
        calls := calls[c := Done];
      }
    }

    /** createFromBooking: claim the booking, then create its contract, in one transaction. */
    method CreateFromBooking(c: CallId, booking: BookingId, contract: ContractId, env: seq<Event>)
      requires c !in calls && AllForeign(env, c)
      requires contract !in Meanwhile(View(), LoadToContract(c, booking), env).contracts
      modifies this
      ensures c in calls && (calls[c].Refused? || calls[c].Failed? || calls[c] == Drawn(booking, contract))
      ensures calls[c].Drawn? ==>
                && View() == Run(old(View()), Whole(LoadToContract(c, booking), env, CommitContract(c, contract)))
                && booking in bookings && bookings[booking].status.Contracted?
                && forall k :: k in contracts && contracts[k].booking == Some(booking) ==> k == contract
      ensures !IsActive(old(bookings), booking) ==>
                calls[c].Refused? && leads == old(leads) && bookings == old(bookings) && contracts == old(contracts)
      ensures IsActive(old(bookings), booking) ==>
                var mid := Meanwhile(old(View()), LoadToContract(c, booking), env);
                && calls[c] == (if !IsActive(mid.bookings, booking) then Refused
                                else if Contracts(mid.contracts, booking) then Failed
                                else Drawn(booking, contract))
                && bookings == (if calls[c].Drawn?
                                then mid.bookings[booking := Booking(Contracted, mid.bookings[booking].from)]
                                else mid.bookings)
                && contracts == (if calls[c].Drawn? then mid.contracts[contract := Contract(Some(booking))]
                                 else mid.contracts)
                && leads == mid.leads
      ensures env == [] && IsActive(old(bookings), booking) && !Contracts(old(contracts), booking) ==>
                && calls[c] == Drawn(booking, contract)
                && bookings == old(bookings)[booking := Booking(Contracted, old(bookings)[booking].from)]
                && contracts == old(contracts)[contract := Contract(Some(booking))] && leads == old(leads)
      ensures !calls[c].Drawn? ==>
                || View() == Step(old(View()), LoadToContract(c, booking))
                || View() == Run(old(View()), Whole(LoadToContract(c, booking), env, CommitContract(c, contract)))
    {
      if booking !in bookings || !bookings[booking].status.Active? {
        calls := calls[c := Refused];
        return;
      }
      calls := calls[c := ToContract(booking)];
      WholeRun(old(View()), LoadToContract(c, booking), env, CommitContract(c, contract));
      Others(c, env);
      CommitDrawing(c, contract);
    }

    /** The transaction of createFromBooking. */
    method CommitDrawing(c: CallId, contract: ContractId)
      requires c in calls && calls[c].ToContract? && contract !in contracts
      modifies this
      ensures View() == Step(old(View()), CommitContract(c, contract))
      ensures c in calls
      ensures var booking := old(calls[c].booking);
              && calls[c] == (if !IsActive(old(bookings), booking) then Refused
                              else if Contracts(old(contracts), booking) then Failed
                              else Drawn(booking, contract))
              && bookings == (if calls[c].Drawn?
                              then old(bookings)[booking := Booking(Contracted, old(bookings)[booking].from)]
                              else old(bookings))
              && contracts == (if calls[c].Drawn? then old(contracts)[contract := Contract(Some(booking))]
                               else old(contracts))
              && leads == old(leads)
      ensures calls[c].Drawn? ==>
                && calls[c].booking in bookings && bookings[calls[c].booking].status.Contracted?
                && forall k :: k in contracts && contracts[k].booking == Some(calls[c].booking) ==> k == contract
    {
      var booking := calls[c].booking;
      if booking !in bookings || !bookings[booking].status.Active? {
        calls := calls[c := Refused];
      } else if HasContract(View(), booking) {
        calls := calls[c := Failed];
      } else {
        bookings := bookings[booking := bookings[booking].(status := Contracted)];
        contracts := contracts[contract := Contract(Some(booking))];
        calls := calls[c := Drawn(booking, contract)];
      }
    }
  }

  lemma OnlyBooking(s: State, es: seq<Event>, l: LeadId, b: BookingId)
    requires Inv(s) && l in Run(s, es).leads && Run(s, es).leads[l].booking == Some(b)
    ensures BookingsFrom(Run(s, es), l) == {b}
  {
    OneBookingPerLead(s, es, l);
  }

  lemma {:induction false} LeadsStay(s: State, es: seq<Event>, l: LeadId)
    requires l in s.leads
    ensures l in Run(s, es).leads
    decreases |es|
  {
    if es != [] { LeadsStay(Step(s, es[0]), es[1..], l); }
  }
}
