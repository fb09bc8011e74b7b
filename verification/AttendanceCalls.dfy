/** The attendance services over their tables: each call is one step of Attendance. */
module AttendanceCalls {
  import opened Options
  import opened BusinessCalendar
  import opened Attendance

  datatype Answer =
    | Accepted
    | ShiftNotApplicable | PreviousShiftNotClosed | ShiftAlreadyExistsForToday | NoOpenShift
    | DayOffDateInPast | DayOffEmployeeInvalid | ShiftAlreadyRecordedForDate | DayOffAlreadyExists | DayOffNotFound

  function ArrearsOn(c: Config, s: State, days: set<Day>): map<Slot, Shift> {
    map u, d | u in s.users && d in days && Owes(c, s, Slot(u, d)) :: Slot(u, d) := MISSED_SHIFT
  }

  lemma RowOn(c: Config, s: State, days: set<Day>, k: Slot)
    ensures k in ArrearsOn(c, s, days) <==> k.date in days && Owes(c, s, k)
    ensures k in ArrearsOn(c, s, days) ==> ArrearsOn(c, s, days)[k] == MISSED_SHIFT
  {
  }

  lemma RowOf(users: set<UserId>, day: Day, k: Slot)
    ensures k in MissedRows(users, day) <==> k.date == day && k.user in users
    ensures k in MissedRows(users, day) ==> MissedRows(users, day)[k] == MISSED_SHIFT
  {
  }

  lemma SameAbsent(c: Config, s: State, days: set<Day>, d: Day)
    requires d !in days
    ensures Absent(c, s.(shifts := s.shifts + ArrearsOn(c, s, days)), d) == Absent(c, s, d)
  {
    forall u ensures Slot(u, d) !in ArrearsOn(c, s, days) { RowOn(c, s, days, Slot(u, d)); }
  }

  /** Recording one more day of the window after some others. */
  lemma RecordNext(c: Config, s: State, days: set<Day>, d: Day)
    requires d !in days && InWindow(c, s, d)
    ensures RecordMissed(c, s.(shifts := s.shifts + ArrearsOn(c, s, days)), d) == s.shifts + ArrearsOn(c, s, days + {d})
  {
    SameAbsent(c, s, days, d);
    var rows, more, all := MissedRows(Absent(c, s, d), d), ArrearsOn(c, s, days), ArrearsOn(c, s, days + {d});
    forall k ensures k in all <==> k in more || k in rows { AddedRow(c, s, days, d, k); }
    forall k | k in all ensures all[k] == MISSED_SHIFT { RowOn(c, s, days + {d}, k); }
    forall k | k in more ensures more[k] == MISSED_SHIFT { RowOn(c, s, days, k); }
    AddMaps(s.shifts, more, rows, all);
  }

  lemma AddedRow(c: Config, s: State, days: set<Day>, d: Day, k: Slot)
    ensures k in ArrearsOn(c, s, days + {d}) <==> k in ArrearsOn(c, s, days) || k in MissedRows(Absent(c, s, d), d)
  {
    RowOn(c, s, days, k);
    RowOn(c, s, days + {d}, k);
    RowOf(Absent(c, s, d), d, k);
  }

  lemma AddMaps(m: map<Slot, Shift>, more: map<Slot, Shift>, rows: map<Slot, Shift>, all: map<Slot, Shift>)
    requires forall k :: k in all <==> k in more || k in rows
    requires forall k :: k in all ==> all[k] == MISSED_SHIFT
    requires forall k :: k in more ==> more[k] == MISSED_SHIFT
    requires forall k :: k in rows ==> rows[k] == MISSED_SHIFT
    ensures m + more + rows == m + all
  {
  }

  lemma WindowArrears(c: Config, s: State, days: set<Day>)
    requires forall d :: d in days <==> InWindow(c, s, d)
    ensures ArrearsOn(c, s, days) == Arrears(c, s)
  {
    assert days == Window(c, s);
  }

  /** What recordMissedFor asks of an employee and a day, read off the tables. */
  predicate OwesShift(users: map<UserId, User>, shifts: map<Slot, Shift>, dayOffs: DayOffs, zone: Zone, k: Slot) {
    && k.user in users && users[k.user].role in {HeadOfSales, SalesManager, Accountant} && users[k.user].active
    && users[k.user].createdAt < StartOf(zone, k.date)
    && k !in shifts && NoDayOff(dayOffs, k)
  }

  predicate NoDayOff(dayOffs: DayOffs, k: Slot) {
    forall id :: id in dayOffs ==> !(dayOffs[id].user == k.user && dayOffs[id].date == k.date)
  }

  predicate ShiftRole(users: map<UserId, User>, u: UserId) {
    u in users && users[u].role in {HeadOfSales, SalesManager, Accountant}
  }

  /** Some shift of the employee is still open. */
  predicate StillOpen(shifts: map<Slot, Shift>, u: UserId) {
    exists k :: k in shifts && k.user == u && shifts[k].status == Open
  }

  lemma NoDayOffIs(dayOffs: DayOffs, k: Slot)
    ensures NoDayOff(dayOffs, k) <==> !HasDayOff(dayOffs, k)
  {
    if !NoDayOff(dayOffs, k) {
      var id :| id in dayOffs && dayOffs[id].user == k.user && dayOffs[id].date == k.date;
      assert dayOffs[id] == k;
    }
  }

  lemma OwesIs(c: Config, s: State, k: Slot)
    ensures Owes(c, s, k) <==> OwesShift(s.users, s.shifts, s.dayOffs, c.zone, k)
  {
    NoDayOffIs(s.dayOffs, k);
  }

  /** After recordMissedFor of a past working day: the old rows, and a missed one for everyone who owed that day. */
  lemma RecordedFor(c: Config, s: State, day: Day, k: Slot)
    requires day < Today(c, s) && WorkingOn(day, c.weekdays)
    ensures var after := RecordMissed(c, s, day);
            && (k in after <==> k in s.shifts || (k.date == day && OwesShift(s.users, s.shifts, s.dayOffs, c.zone, k)))
            && (k in after ==> after[k] == if k in s.shifts then s.shifts[k] else Shift(Missed, None, None))
  {
    OwesIs(c, s, k);
    RowOf(Absent(c, s, day), day, k);
  }

  /** After catchUp: the same for every working day of the window. */
  lemma CaughtUp(c: Config, s: State, k: Slot)
    ensures var after := Step(c, s, CatchUp).shifts;
            && (k in after <==>
                k in s.shifts
                || (Today(c, s) - c.lookback <= k.date < Today(c, s) && IsoWeekday(k.date) in c.weekdays
                    && OwesShift(s.users, s.shifts, s.dayOffs, c.zone, k)))
            && (k in after ==> after[k] == if k in s.shifts then s.shifts[k] else Shift(Missed, None, None))
  {
    OwesIs(c, s, k);
    RowOn(c, s, Window(c, s), k);
    WindowArrears(c, s, Window(c, s));
  }

  lemma AllRecorded(c: Config, s: State, day: Day)
    ensures var after := RecordMissed(c, s, day);
            && (forall k :: k in after <==>
                  k in s.shifts
                  || (k.date == day && day < LocalDay(c.zone, s.now) && IsoWeekday(day) in c.weekdays
                      && OwesShift(s.users, s.shifts, s.dayOffs, c.zone, k)))
            && forall k :: k in after ==> after[k] == if k in s.shifts then s.shifts[k] else Shift(Missed, None, None)
  {
    if day < Today(c, s) && WorkingOn(day, c.weekdays) {
      forall k { RecordedFor(c, s, day, k); }
    }
  }

  lemma AllCaughtUp(c: Config, s: State)
    ensures var after, today := Step(c, s, CatchUp).shifts, LocalDay(c.zone, s.now);
            && (forall k :: k in after <==>
                  k in s.shifts
                  || (today - c.lookback <= k.date < today && IsoWeekday(k.date) in c.weekdays
                      && OwesShift(s.users, s.shifts, s.dayOffs, c.zone, k)))
            && forall k :: k in after ==> after[k] == if k in s.shifts then s.shifts[k] else Shift(Missed, None, None)
  {
    forall k { CaughtUp(c, s, k); }
  }

  class AttendanceServices {
    const config: Config
    var now: Instant
    var users: map<UserId, User>
    var shifts: map<Slot, Shift>
    var dayOffs: DayOffs

    constructor (config: Config, now: Instant)
      ensures this.config == config && View() == State(now, map[], map[], map[])
    {
      this.config, this.now := config, now;
      users, shifts, dayOffs := map[], map[], map[];
    }

    function View(): State
      reads this
    {
      State(now, users, shifts, dayOffs)
    }

    /** shifts.service.ts open */
    method OpenOwn(actor: UserId) returns (answer: Answer)
      requires actor in users
      modifies this
      ensures View() == Step(config, old(View()), OpenShift(actor))
      ensures var slot := Slot(actor, LocalDay(config.zone, now));
              answer == if !ShiftRole(users, actor) then ShiftNotApplicable
                        else if StillOpen(old(shifts), actor) then PreviousShiftNotClosed
                        else if slot in old(shifts) then ShiftAlreadyExistsForToday
                        else Accepted
      ensures shifts == if answer == Accepted
                        then old(shifts)[Slot(actor, LocalDay(config.zone, now)) := Shift(Open, Some(now), None)]
                        else old(shifts)
    {
      if !HasShiftButton(users[actor].role) { return ShiftNotApplicable; }
      if HasOpen(shifts, actor) { return PreviousShiftNotClosed; }
      var today := LocalDay(config.zone, now);
      if Slot(actor, today) in shifts { return ShiftAlreadyExistsForToday; }
      shifts := shifts[Slot(actor, today) := Shift(Open, Some(now), None)];
      return Accepted;
    }

    /** shifts.service.ts close; with at most one open shift there is no choice to make. */
    method CloseOwn(actor: UserId) returns (answer: Answer)
      requires actor in users && Inv(config, View())
      modifies this
      ensures View() == Step(config, old(View()), CloseShift(actor))
      ensures answer == if !ShiftRole(users, actor) then ShiftNotApplicable
                        else if StillOpen(old(shifts), actor) then Accepted
                        else NoOpenShift
      ensures answer.Accepted? ==> !StillOpen(shifts, actor)
      ensures !answer.Accepted? ==> View() == old(View())
      ensures answer.Accepted? ==>
                && shifts.Keys == old(shifts).Keys
                && forall k :: k in shifts ==>
                     shifts[k] == if k.user == actor && old(shifts)[k].status == Open
                                  then Shift(Closed, old(shifts)[k].openedAt, Some(now)) else old(shifts)[k]
    {
      if !HasShiftButton(users[actor].role) { return ShiftNotApplicable; }
      if !HasOpen(shifts, actor) {
        assert CloseLatest(shifts, actor, now) == shifts;
        return NoOpenShift;
      }
      var slot :| slot in shifts && slot.user == actor && shifts[slot].status.Open?;
      assert SlotInv(config, View(), slot);
      ghost var before := shifts;
      shifts := shifts[slot := shifts[slot].(status := Closed, closedAt := Some(now))];
      assert shifts == CloseLatest(before, actor, now);
      assert forall k :: k in before && k.user == actor && before[k].status == Open ==> k == slot;
      return Accepted;
    }

    /** day-offs.service.ts create */
    method GrantDay(id: DayOffId, user: UserId, date: Day) returns (answer: Answer)
      requires id !in dayOffs
      modifies this
      ensures View() == Step(config, old(View()), GrantDayOff(id, user, date))
      ensures answer == if date < LocalDay(config.zone, now) then DayOffDateInPast
                        else if !ShiftRole(users, user) || !users[user].active then DayOffEmployeeInvalid
                        else if Slot(user, date) in shifts then ShiftAlreadyRecordedForDate
                        else if !NoDayOff(old(dayOffs), Slot(user, date)) then DayOffAlreadyExists
                        else Accepted
      ensures dayOffs == if answer == Accepted then old(dayOffs)[id := Slot(user, date)] else old(dayOffs)
    {
      NoDayOffIs(dayOffs, Slot(user, date));
      if date < LocalDay(config.zone, now) { return DayOffDateInPast; }
      if user !in users || !users[user].active || !HasShiftButton(users[user].role) { return DayOffEmployeeInvalid; }
      if Slot(user, date) in shifts { return ShiftAlreadyRecordedForDate; }
      if HasDayOff(dayOffs, Slot(user, date)) { return DayOffAlreadyExists; }
      dayOffs := dayOffs[id := Slot(user, date)];
      return Accepted;
    }

    /** day-offs.service.ts update; without a new date only the reason changes. */
    method MoveDay(id: DayOffId, date: Option<Day>) returns (answer: Answer)
      modifies this
      ensures View() == Step(config, old(View()), MoveDayOff(id, date))
      ensures var today := LocalDay(config.zone, now);
              answer == if id !in old(dayOffs) then DayOffNotFound
                        else if old(dayOffs)[id].date < today then DayOffDateInPast
                        else if date.None? then Accepted
                        else if date.value < today then DayOffDateInPast
                        else if Slot(old(dayOffs)[id].user, date.value) in shifts then ShiftAlreadyRecordedForDate
                        else if !NoDayOff(old(dayOffs) - {id}, Slot(old(dayOffs)[id].user, date.value))
                        then DayOffAlreadyExists
                        else Accepted
      ensures dayOffs == if answer == Accepted && date.Some?
                         then old(dayOffs)[id := Slot(old(dayOffs)[id].user, date.value)] else old(dayOffs)
    {
      if id !in dayOffs { return DayOffNotFound; }
      var today := LocalDay(config.zone, now);
      if dayOffs[id].date < today { return DayOffDateInPast; }
      if date.Some? {
        if date.value < today { return DayOffDateInPast; }
        var slot := Slot(dayOffs[id].user, date.value);
        NoDayOffIs(dayOffs - {id}, slot);
        if slot in shifts { return ShiftAlreadyRecordedForDate; }
        if HasDayOff(dayOffs - {id}, slot) {
          assert exists j :: j in dayOffs && dayOffs[j] == slot && j != id;
          return DayOffAlreadyExists;
        }
        assert forall j :: j in dayOffs && j != id ==> j in dayOffs - {id};
        dayOffs := dayOffs[id := slot];
      }
      return Accepted;
    }

    method CancelDay(id: DayOffId) returns (answer: Answer)
      modifies this
      ensures View() == Step(config, old(View()), CancelDayOff(id))
      ensures answer == if id !in old(dayOffs) then DayOffNotFound
                        else if old(dayOffs)[id].date < LocalDay(config.zone, now) then DayOffDateInPast
                        else Accepted
      ensures dayOffs == if answer == Accepted then old(dayOffs) - {id} else old(dayOffs)
    {
      if id !in dayOffs { return DayOffNotFound; }
      if dayOffs[id].date < LocalDay(config.zone, now) { return DayOffDateInPast; }
      dayOffs := dayOffs - {id};
      return Accepted;
    }

    /** missed-shifts.service.ts recordMissedFor: the query, then createMany. */
    method RecordMissedFor(date: Day) returns (count: nat)
      modifies this`shifts
      ensures shifts == RecordMissed(config, old(View()), date)
      ensures count == |shifts| - |old(shifts)|
      ensures forall k :: k in shifts <==>
                k in old(shifts)
                || (k.date == date && date < LocalDay(config.zone, now) && IsoWeekday(date) in config.weekdays
                    && OwesShift(users, old(shifts), dayOffs, config.zone, k))
      ensures forall k :: k in shifts ==>
                shifts[k] == if k in old(shifts) then old(shifts)[k] else Shift(Missed, None, None)
    {
      AllRecorded(config, View(), date);
      count := AddRows(date);
    }

    method AddRows(date: Day) returns (count: nat)
      modifies this`shifts
      ensures shifts == RecordMissed(config, old(View()), date)
      ensures count == |shifts| - |old(shifts)|
    {
      if date >= LocalDay(config.zone, now) || !WorkingOn(date, config.weekdays) { return 0; }
      var start := StartOfDay(config.zone, date);
      var employees := set u | u in users && HasShiftButton(users[u].role) && users[u].active
        && users[u].createdAt < start
                               && Slot(u, date) !in shifts && !HasDayOff(dayOffs, Slot(u, date));
      assert employees == Absent(config, View(), date);
      if employees == {} {
        assert MissedRows(employees, date) == map[];
        return 0;
      }
      var rows := MissedRows(employees, date);
      forall k | k in rows ensures k !in shifts { RowOf(employees, date, k); }
      RowCount(employees, date);
      DisjointSize(shifts, rows);
      shifts := shifts + rows;
      count := |employees|;
    }

    /** missed-shifts.service.ts catchUp: the total is the number of rows added. */
    method CatchUpAll() returns (total: nat)
      modifies this`shifts
      ensures View() == Step(config, old(View()), CatchUp)
      ensures total == |shifts| - |old(shifts)|
      ensures var today := LocalDay(config.zone, now);
              forall k :: k in shifts <==>
                k in old(shifts)
                || (today - config.lookback <= k.date < today && IsoWeekday(k.date) in config.weekdays
                    && OwesShift(users, old(shifts), dayOffs, config.zone, k))
      ensures forall k :: k in shifts ==>
                shifts[k] == if k in old(shifts) then old(shifts)[k] else Shift(Missed, None, None)
    {
      AllCaughtUp(config, View());
      total := AddWindow();
    }

    method AddNext(ghost s: State, days: seq<Day>, i: nat) returns (count: nat)
      requires i < |days| && FallingDays(days) && forall d :: d in days ==> InWindow(config, s, d)
      requires View() == After(config, s, days[..i])
      modifies this`shifts
      ensures View() == After(config, s, days[..i + 1])
      ensures count == |shifts| - |old(shifts)|
    {
      AfterNext(config, s, days, i);
      count := AddRows(days[i]);
    }

    method AddWindow() returns (total: nat)
      modifies this`shifts
      ensures View() == Step(config, old(View()), CatchUp)
      ensures total == |shifts| - |old(shifts)|
    {
      ghost var s := View();
      var days := PastDays(LocalDay(config.zone, now), config.lookback, config.weekdays);
      total := 0;
      NothingRecorded(config, s);
      for i := 0 to |days|
        invariant View() == After(config, s, days[..i])
        invariant total == |shifts| - |s.shifts|
      {
        var added := AddNext(s, days, i);
        total := total + added;
      }
      assert days[..|days|] == days;
      WindowArrears(config, s, Among(days));
    }
  }

  function After(c: Config, s: State, days: seq<Day>): State { s.(shifts := s.shifts + ArrearsOn(c, s, Among(days))) }

  lemma NothingRecorded(c: Config, s: State)
    ensures After(c, s, []) == s
  {
    assert ArrearsOn(c, s, Among([])) == map[];
    assert s.shifts + map[] == s.shifts;
  }

  lemma AfterNext(c: Config, s: State, days: seq<Day>, i: nat)
    requires i < |days| && FallingDays(days) && forall d :: d in days ==> InWindow(c, s, d)
    ensures After(c, s, days[..i + 1]) == s.(shifts := RecordMissed(c, After(c, s, days[..i]), days[i]))
  {
    NextOf(days, i);
    RecordNext(c, s, Among(days[..i]), days[i]);
  }

  function Among(days: seq<Day>): set<Day> { set d | d in days }

  lemma NextOf(days: seq<Day>, i: nat)
    requires i < |days| && FallingDays(days)
    ensures days[i] in days && days[i] !in Among(days[..i])
    ensures Among(days[..i + 1]) == Among(days[..i]) + {days[i]}
  {
    assert days[..i + 1] == days[..i] + [days[i]];
  }

  lemma {:induction false} RowCount(users: set<UserId>, day: Day)
    ensures |MissedRows(users, day)| == |users|
    decreases |users|
  {
    if users != {} {
      var u :| u in users;
      RowCount(users - {u}, day);
      assert MissedRows(users, day) == MissedRows(users - {u}, day)[Slot(u, day) := MISSED_SHIFT];
    }
  }

  lemma {:induction false} DisjointSize(a: map<Slot, Shift>, b: map<Slot, Shift>)
    requires a.Keys !! b.Keys
    ensures |a + b| == |a| + |b|
  {
    assert (a + b).Keys == a.Keys + b.Keys;
    assert |(a + b).Keys| == |a + b|;
  }
}
