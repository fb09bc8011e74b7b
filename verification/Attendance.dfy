/**
 * Shifts, days off and missed shifts (src/attendance/) as one machine over a moving clock. A step is
 * a whole service call; a call that is refused changes nothing.
 *
 * Dates are day numbers: BusinessCalendar.TextOrderIsDayOrder makes every comparison of date texts the
 * comparison of their days.
 */
module Attendance {
  import opened Options
  import opened BusinessCalendar

  type UserId = nat
  type DayOffId = nat

  datatype Role = Director | Accountant | HeadOfSales | SalesManager | Investor | Reception

  datatype User = User(role: Role, active: bool, createdAt: Instant)

  datatype Status = Open | Closed | Missed

  datatype Shift = Shift(status: Status, openedAt: Option<Instant>, closedAt: Option<Instant>)

  /** The unique key (userId, date) of a shift. */
  datatype Slot = Slot(user: UserId, date: Day)

  /** DayOff rows by id; (userId, date) is unique among them. */
  type DayOffs = map<DayOffId, Slot>

  datatype Config = Config(zone: Zone, weekdays: set<nat>, lookback: nat)

  datatype State = State(
    now: Instant,
    users: map<UserId, User>,
    shifts: map<Slot, Shift>,
    dayOffs: DayOffs)

  datatype Event =
    | Tick(to: Instant)
    | Hire(user: UserId, role: Role)
    | Change(user: UserId, role: Role, active: bool)
    | OpenShift(user: UserId)
    | CloseShift(user: UserId)
    | GrantDayOff(id: DayOffId, user: UserId, date: Day)
    | MoveDayOff(id: DayOffId, newDate: Option<Day>)
    | CancelDayOff(id: DayOffId)
    | CatchUp

  predicate HasShiftButton(role: Role) { role in {HeadOfSales, SalesManager, Accountant} }

  function Today(c: Config, s: State): Day { LocalDay(c.zone, s.now) }

  predicate HasOpen(shifts: map<Slot, Shift>, u: UserId) {
    exists k :: k in shifts && k.user == u && shifts[k].status.Open?
  }

  predicate HasDayOff(dayOffs: DayOffs, k: Slot) { exists id :: id in dayOffs && dayOffs[id] == k }

  predicate CanOpen(c: Config, s: State, u: UserId) {
    && u in s.users && HasShiftButton(s.users[u].role)
    && !HasOpen(s.shifts, u) && Slot(u, Today(c, s)) !in s.shifts
  }

  /** findFirst of the open shifts, latest date first. */
  predicate LatestOpen(shifts: map<Slot, Shift>, k: Slot) {
    && k in shifts && shifts[k].status.Open?
    && forall j :: j in shifts && j.user == k.user && shifts[j].status.Open? ==> j.date <= k.date
  }

  function CloseLatest(shifts: map<Slot, Shift>, u: UserId, now: Instant): map<Slot, Shift> {
    map k | k in shifts :: if k.user == u && LatestOpen(shifts, k)
      then Shift(Closed, shifts[k].openedAt, Some(now)) else shifts[k]
  }

  predicate CanGrant(c: Config, s: State, id: DayOffId, k: Slot) {
    && id !in s.dayOffs && Today(c, s) <= k.date
    && k.user in s.users && s.users[k.user].active && HasShiftButton(s.users[k.user].role)
    && k !in s.shifts && !HasDayOff(s.dayOffs, k)
  }

  predicate Manageable(c: Config, s: State, id: DayOffId) { id in s.dayOffs && Today(c, s) <= s.dayOffs[id].date }

  predicate CanMove(c: Config, s: State, id: DayOffId, date: Day) {
    && Manageable(c, s, id) && Today(c, s) <= date
    && Slot(s.dayOffs[id].user, date) !in s.shifts
    && forall j :: j in s.dayOffs && s.dayOffs[j] == Slot(s.dayOffs[id].user, date) ==> j == id
  }

  /** The `where` of recordMissedFor for one employee. */
  predicate Owes(c: Config, s: State, k: Slot) {
    && k.user in s.users
    && HasShiftButton(s.users[k.user].role) && s.users[k.user].active
    && s.users[k.user].createdAt < StartOf(c.zone, k.date)
    && k !in s.shifts && !HasDayOff(s.dayOffs, k)
  }

  const MISSED_SHIFT := Shift(Missed, None, None)

  function Absent(c: Config, s: State, day: Day): set<UserId> { set u | u in s.users && Owes(c, s, Slot(u, day)) }

  function MissedRows(users: set<UserId>, day: Day): map<Slot, Shift> {
    map u | u in users :: Slot(u, day) := MISSED_SHIFT
  }

  function RecordMissed(c: Config, s: State, day: Day): map<Slot, Shift> {
    if day < Today(c, s) && WorkingOn(day, c.weekdays) then s.shifts + MissedRows(Absent(c, s, day), day) else s.shifts
  }

  predicate InWindow(c: Config, s: State, d: Day) { PastWorkingDay(Today(c, s), c.lookback, c.weekdays, d) }

  function Window(c: Config, s: State): set<Day> {
    set d | Today(c, s) - c.lookback <= d < Today(c, s) && InWindow(c, s, d)
  }

  /** The rows one catchUp adds. */
  function Arrears(c: Config, s: State): map<Slot, Shift> {
    map u, d | u in s.users && d in Window(c, s) && Owes(c, s, Slot(u, d)) :: Slot(u, d) := MISSED_SHIFT
  }

  function Step(c: Config, s: State, e: Event): State {
    match e
    case Tick(to) => if to >= s.now then s.(now := to) else s
    case Hire(u, role) => if u in s.users then s else s.(users := s.users[u := User(role, true, s.now)])
    case Change(u, role, active) =>
      if u in s.users then s.(users := s.users[u := s.users[u].(role := role, active := active)]) else s
    case OpenShift(u) =>
      if CanOpen(c, s, u) then s.(shifts := s.shifts[Slot(u, Today(c, s)) := Shift(Open, Some(s.now), None)]) else s
    case CloseShift(u) =>
      if u in s.users && HasShiftButton(s.users[u].role) then s.(shifts := CloseLatest(s.shifts, u, s.now)) else s
    case GrantDayOff(id, u, d) =>
      if CanGrant(c, s, id, Slot(u, d)) then s.(dayOffs := s.dayOffs[id := Slot(u, d)]) else s
    case MoveDayOff(id, date) =>
      if date.Some? && CanMove(c, s, id, date.value)
      then s.(dayOffs := s.dayOffs[id := Slot(s.dayOffs[id].user, date.value)])
      else s
    case CancelDayOff(id) => if Manageable(c, s, id) then s.(dayOffs := s.dayOffs - {id}) else s
    case CatchUp => s.(shifts := s.shifts + Arrears(c, s))
  }

  function Run(c: Config, s: State, es: seq<Event>): State
    decreases |es|
  {
    if es == [] then s else Run(c, Step(c, s, es[0]), es[1..])
  }

  // --- The invariant ------------------------------------------------------------------------

  /** Local dates never go back, as they could not within a zone that only moves by an hour or two at night. */
  ghost predicate DatesAdvance(c: Config) {
    forall s: Instant, t: Instant :: s <= t ==> LocalDay(c.zone, s) <= LocalDay(c.zone, t)
  }

  /** As they do not in a zone of fixed offset. */
  lemma FixedZonesAdvance(c: Config)
    requires Fixed(c.zone)
    ensures DatesAdvance(c)
  {
    forall s: Instant, t: Instant | s <= t ensures LocalDay(c.zone, s) <= LocalDay(c.zone, t) {
      LaterIsNoEarlierDay(c.zone, s, t);
    }
  }

  predicate SlotInv(c: Config, s: State, k: Slot)
    requires k in s.shifts
  {
    && k.date <= Today(c, s)
    && (s.shifts[k].status.Missed? ==> k.date < Today(c, s) && !HasDayOff(s.dayOffs, k))
    && (s.shifts[k].status.Open? ==> OnlyOpen(s.shifts, k))
  }

  predicate OnlyOpen(shifts: map<Slot, Shift>, k: Slot) {
    forall j :: j in shifts && j.user == k.user && shifts[j].status.Open? ==> j == k
  }

  predicate UniqueDayOff(dayOffs: DayOffs, id: DayOffId)
    requires id in dayOffs
  {
    forall j :: j in dayOffs && dayOffs[j] == dayOffs[id] ==> j == id
  }

  ghost predicate Inv(c: Config, s: State) {
    && DatesAdvance(c)
    && (forall k {:trigger SlotInv(c, s, k)} :: k in s.shifts ==> SlotInv(c, s, k))
    && (forall id {:trigger UniqueDayOff(s.dayOffs, id)} :: id in s.dayOffs ==> UniqueDayOff(s.dayOffs, id))
  }

  lemma TimeKeeps(c: Config, s: State, t: Instant)
    requires Inv(c, s) && t >= s.now
    ensures Inv(c, s.(now := t))
  {
    forall k | k in s.shifts ensures SlotInv(c, s.(now := t), k) { assert SlotInv(c, s, k); }
  }

  lemma OpenKeeps(c: Config, s: State, u: UserId)
    requires Inv(c, s) && CanOpen(c, s, u)
    ensures Inv(c, Step(c, s, OpenShift(u)))
  {
    var s' := Step(c, s, OpenShift(u));
    forall k | k in s'.shifts ensures SlotInv(c, s', k) { if k in s.shifts { assert SlotInv(c, s, k); } }
  }

  lemma CloseKeeps(c: Config, s: State, u: UserId)
    requires Inv(c, s)
    ensures Inv(c, s.(shifts := CloseLatest(s.shifts, u, s.now)))
  {
    var s' := s.(shifts := CloseLatest(s.shifts, u, s.now));
    forall k | k in s'.shifts ensures SlotInv(c, s', k) { assert SlotInv(c, s, k); }
  }

  /** Days off change only for dates from today on, where no shift is missed. */
  lemma DayOffsKeep(c: Config, s: State, dayOffs: DayOffs)
    requires Inv(c, s)
    requires forall id :: id in dayOffs ==> UniqueDayOff(dayOffs, id)
    requires forall id ::
               id in dayOffs && dayOffs[id].date < Today(c, s) ==> id in s.dayOffs && s.dayOffs[id] == dayOffs[id]
    ensures Inv(c, s.(dayOffs := dayOffs))
  {
    forall k | k in s.shifts ensures SlotInv(c, s.(dayOffs := dayOffs), k) { assert SlotInv(c, s, k); }
  }

  lemma GrantKeeps(c: Config, s: State, id: DayOffId, k: Slot)
    requires Inv(c, s) && CanGrant(c, s, id, k)
    ensures Inv(c, s.(dayOffs := s.dayOffs[id := k]))
  {
    var d := s.dayOffs[id := k];
    forall j | j in d ensures UniqueDayOff(d, j) { if j != id { assert UniqueDayOff(s.dayOffs, j); } }
    DayOffsKeep(c, s, d);
  }

  lemma MoveKeeps(c: Config, s: State, id: DayOffId, date: Day)
    requires Inv(c, s) && CanMove(c, s, id, date)
    ensures Inv(c, s.(dayOffs := s.dayOffs[id := Slot(s.dayOffs[id].user, date)]))
  {
    var d := s.dayOffs[id := Slot(s.dayOffs[id].user, date)];
    forall j | j in d ensures UniqueDayOff(d, j) { if j != id { assert UniqueDayOff(s.dayOffs, j); } }
    DayOffsKeep(c, s, d);
  }

  lemma CancelKeeps(c: Config, s: State, id: DayOffId)
    requires Inv(c, s)
    ensures Inv(c, s.(dayOffs := s.dayOffs - {id}))
  {
    var d := s.dayOffs - {id};
    forall j | j in d ensures UniqueDayOff(d, j) { assert UniqueDayOff(s.dayOffs, j); }
    DayOffsKeep(c, s, d);
  }

  lemma CatchUpKeeps(c: Config, s: State)
    requires Inv(c, s)
    ensures Inv(c, Step(c, s, CatchUp))
  {
    var s' := Step(c, s, CatchUp);
    forall k | k in s'.shifts ensures SlotInv(c, s', k) { if k in s.shifts { assert SlotInv(c, s, k); } }
  }

  lemma StepKeeps(c: Config, s: State, e: Event)
    requires Inv(c, s)
    ensures Inv(c, Step(c, s, e))
  {
    match e
    case Tick(to) => if to >= s.now { TimeKeeps(c, s, to); }
    case Hire(u, role) => UsersKeep(c, s, Step(c, s, e).users);
    case Change(u, role, active) => UsersKeep(c, s, Step(c, s, e).users);
    case OpenShift(u) => if CanOpen(c, s, u) { OpenKeeps(c, s, u); }
    case CloseShift(u) => CloseKeeps(c, s, u);
    case GrantDayOff(id, u, d) => if CanGrant(c, s, id, Slot(u, d)) { GrantKeeps(c, s, id, Slot(u, d)); }
    case MoveDayOff(id, date) => if date.Some? && CanMove(c, s, id, date.value) { MoveKeeps(c, s, id, date.value); }
    case CancelDayOff(id) => if Manageable(c, s, id) { CancelKeeps(c, s, id); }
    case CatchUp => CatchUpKeeps(c, s);
  }

  lemma UsersKeep(c: Config, s: State, users: map<UserId, User>)
    requires Inv(c, s)
    ensures Inv(c, s.(users := users))
  {
    forall k | k in s.shifts ensures SlotInv(c, s.(users := users), k) { assert SlotInv(c, s, k); }
  }

  lemma {:induction false} RunKeeps(c: Config, s: State, es: seq<Event>)
    requires Inv(c, s)
    ensures Inv(c, Run(c, s, es))
    decreases |es|
  {
    if es != [] {
      StepKeeps(c, s, es[0]);
      RunKeeps(c, Step(c, s, es[0]), es[1..]);
    }
  }
}
