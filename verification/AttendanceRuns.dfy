/** What the missed-shift job leaves behind, over whole runs. */
module AttendanceRuns {
  import opened Options
  import opened BusinessCalendar
  import opened Attendance

  predicate IsMissed(s: State, k: Slot) { k in s.shifts && s.shifts[k].status.Missed? }

  predicate Worked(s: State, k: Slot) { k in s.shifts && !s.shifts[k].status.Missed? }

  /** On k's working day a check found the employee accountable: in a shift role, active, hired before it. */
  predicate Accountable(c: Config, s: State, k: Slot) {
    && k.user in s.users && s.users[k.user].role in {HeadOfSales, SalesManager, Accountant} && s.users[k.user].active
    && s.users[k.user].createdAt < StartOf(c.zone, k.date)
  }

  /** Some catchUp of the run met k's date inside its window and the employee accountable. */
  predicate Checked(c: Config, s: State, es: seq<Event>, k: Slot)
    decreases |es|
  {
    es != [] && (Checks(c, s, es[0], k) || Checked(c, Step(c, s, es[0]), es[1..], k))
  }

  predicate Checks(c: Config, s: State, e: Event, k: Slot) {
    e.CatchUp? && InWindow(c, s, k.date) && Accountable(c, s, k)
  }

  /** Some catchUp of the run found k accountable, without a shift and without a day off. */
  predicate Charged(c: Config, s: State, es: seq<Event>, k: Slot)
    decreases |es|
  {
    es != [] && ((es[0].CatchUp? && InWindow(c, s, k.date) && Owes(c, s, k)) || Charged(c, Step(c, s, es[0]),
      es[1..], k))
  }

  // --- One row ---------------------------------------------------------------------------------

  lemma MissedStep(c: Config, s: State, e: Event, k: Slot)
    requires Inv(c, s)
    ensures IsMissed(Step(c, s, e), k) <==> IsMissed(s, k) || (e.CatchUp? && InWindow(c, s, k.date) && Owes(c, s, k))
  {
    if k in s.shifts { assert SlotInv(c, s, k); }
    if e.CatchUp? { assert k in Arrears(c, s) <==> InWindow(c, s, k.date) && Owes(c, s, k); }
  }

  /**
   * A missed row is there at the end exactly when it was at the start or some check recorded it; none is ever erased.
   */
  lemma {:induction false} MissedExactly(c: Config, s: State, es: seq<Event>, k: Slot)
    requires Inv(c, s)
    ensures IsMissed(Run(c, s, es), k) <==> IsMissed(s, k) || Charged(c, s, es, k)
    decreases |es|
  {
    if es != [] {
      MissedStep(c, s, es[0], k);
      StepKeeps(c, s, es[0]);
      MissedExactly(c, Step(c, s, es[0]), es[1..], k);
    }
  }

  /** Once a date is over, work and days off on it are settled. */
  lemma PastStep(c: Config, s: State, e: Event, k: Slot)
    requires Inv(c, s) && k.date < Today(c, s)
    ensures k.date < Today(c, Step(c, s, e))
    ensures Worked(Step(c, s, e), k) <==> Worked(s, k)
    ensures HasDayOff(Step(c, s, e).dayOffs, k) <==> HasDayOff(s.dayOffs, k)
  {
    MissedStep(c, s, e, k);
    if HasDayOff(s.dayOffs, k) {
      var id :| id in s.dayOffs && s.dayOffs[id] == k;
      assert id in Step(c, s, e).dayOffs && Step(c, s, e).dayOffs[id] == k;
    }
  }

  lemma {:induction false} DayIsSettled(c: Config, s: State, es: seq<Event>, k: Slot)
    requires Inv(c, s) && k.date < Today(c, s)
    ensures k.date < Today(c, Run(c, s, es))
    ensures Worked(Run(c, s, es), k) <==> Worked(s, k)
    ensures HasDayOff(Run(c, s, es).dayOffs, k) <==> HasDayOff(s.dayOffs, k)
    decreases |es|
  {
    if es != [] {
      PastStep(c, s, es[0], k);
      StepKeeps(c, s, es[0]);
      DayIsSettled(c, Step(c, s, es[0]), es[1..], k);
    }
  }

  predicate Accounted(s: State, k: Slot) { Worked(s, k) || HasDayOff(s.dayOffs, k) || IsMissed(s, k) }

  lemma {:induction false} CheckedIsAccounted(c: Config, s: State, es: seq<Event>, k: Slot)
    requires Inv(c, s) && Checked(c, s, es, k)
    ensures Accounted(Run(c, s, es), k)
    decreases |es|
  {
    var s' := Step(c, s, es[0]);
    StepKeeps(c, s, es[0]);
    if Checks(c, s, es[0], k) {
      MissedStep(c, s, es[0], k);
      PastStep(c, s, es[0], k);
      DayIsSettled(c, s', es[1..], k);
      MissedExactly(c, s', es[1..], k);
    } else {
      CheckedIsAccounted(c, s', es[1..], k);
    }
  }

  // --- Whole runs ------------------------------------------------------------------------------

  /** No date of anybody's is both missed and a day off, or both missed and worked. */
  lemma NeverMissedOnADayOff(c: Config, s: State, es: seq<Event>, k: Slot)
    requires Inv(c, s)
    ensures IsMissed(Run(c, s, es), k) ==> !HasDayOff(Run(c, s, es).dayOffs, k) && k.date < Today(c, Run(c, s, es))
  {
    RunKeeps(c, s, es);
    if k in Run(c, s, es).shifts { assert SlotInv(c, Run(c, s, es), k); }
  }

  /** Nobody is charged whom no check has found accountable in time. */
  lemma {:induction false} ChargedIsChecked(c: Config, s: State, es: seq<Event>, k: Slot)
    requires Charged(c, s, es, k)
    ensures Checked(c, s, es, k)
    decreases |es|
  {
    if !(es[0].CatchUp? && InWindow(c, s, k.date) && Owes(c, s, k)) {
      ChargedIsChecked(c, Step(c, s, es[0]), es[1..], k);
    }
  }

  /**
   * When day k.date is over, what becomes of it is decided by how it ended and by whether some catchUp checks it in
   * time, finding a shift role, an active account and a hiring before that day: it is missed exactly if it was
   * already, or is checked and ended with neither a shift nor a day off.
   */
  lemma MissedExactlyWhenAbsent(c: Config, s: State, es: seq<Event>, k: Slot)
    requires Inv(c, s) && k.date < Today(c, s)
    ensures IsMissed(Run(c, s, es), k) <==>
            IsMissed(s, k) || (Checked(c, s, es, k) && !Worked(s, k) && !HasDayOff(s.dayOffs, k))
  {
    DayIsSettled(c, s, es, k);
    NeverMissedOnADayOff(c, s, es, k);
    MissedExactly(c, s, es, k);
    if Checked(c, s, es, k) { CheckedIsAccounted(c, s, es, k); }
    if Charged(c, s, es, k) { ChargedIsChecked(c, s, es, k); }
  }

  /** The state without the job's rows. */
  function Strip(s: State): State { s.(shifts := map k | k in s.shifts && !s.shifts[k].status.Missed? :: s.shifts[k]) }

  function WithoutCatchUps(es: seq<Event>): seq<Event> {
    if es == [] then []
    else if es[0].CatchUp? then WithoutCatchUps(es[1..])
    else [es[0]] + WithoutCatchUps(es[1..])
  }

  lemma StripOpen(c: Config, s: State, u: UserId)
    requires Inv(c, s)
    ensures CanOpen(c, s, u) <==> CanOpen(c, Strip(s), u)
  {
    var k := Slot(u, Today(c, s));
    if k in s.shifts { assert SlotInv(c, s, k); }
    if HasOpen(s.shifts, u) {
      var j :| j in s.shifts && j.user == u && s.shifts[j].status.Open?;
      assert j in Strip(s).shifts;
    }
  }

  lemma StripStep(c: Config, s: State, e: Event)
    requires Inv(c, s)
    ensures Strip(Step(c, s, e)) == if e.CatchUp? then Strip(s) else Step(c, Strip(s), e)
  {
    match e
    case OpenShift(u) => StripOpen(c, s, u);
    case CloseShift(u) => StripClose(s, u);
    case GrantDayOff(id, u, d) => StripDayOff(c, s, e);
    case MoveDayOff(id, date) => StripDayOff(c, s, e);
    case _ =>
  }

  lemma StripDayOff(c: Config, s: State, e: Event)
    requires Inv(c, s) && (e.GrantDayOff? || e.MoveDayOff?)
    ensures Strip(Step(c, s, e)) == Step(c, Strip(s), e)
  {
    match e
    case GrantDayOff(id, u, d) => if Slot(u, d) in s.shifts { assert SlotInv(c, s, Slot(u, d)); }
    case MoveDayOff(id, date) =>
      if date.Some? && id in s.dayOffs {
        var k := Slot(s.dayOffs[id].user, date.value);
        if k in s.shifts { assert SlotInv(c, s, k); }
      }
  }

  lemma StripClose(s: State, u: UserId)
    ensures Strip(s.(shifts := CloseLatest(s.shifts, u, s.now))).shifts == CloseLatest(Strip(s).shifts, u, s.now)
  {
    var t := Strip(s);
    forall k | k in t.shifts ensures LatestOpen(s.shifts, k) <==> LatestOpen(t.shifts, k) {}
  }

  lemma {:induction false} StripRun(c: Config, s: State, es: seq<Event>)
    requires Inv(c, s)
    ensures Strip(Run(c, s, es)) == Run(c, Strip(s), WithoutCatchUps(es))
    decreases |es|
  {
    if es != [] {
      StripStep(c, s, es[0]);
      StepKeeps(c, s, es[0]);
      StripRun(c, Step(c, s, es[0]), es[1..]);
      if !es[0].CatchUp? {
        assert WithoutCatchUps(es)[0] == es[0] && WithoutCatchUps(es)[1..] == WithoutCatchUps(es[1..]);
      }
    }
  }

  /**
   * When the job runs does not matter. Two runs that differ only in when and how often catchUp ran agree on the
   * clock, the accounts, the days off and every shift worked, and on k's missed row once both have checked it.
   */
  lemma ScheduleDoesNotMatter(c: Config, s: State, es: seq<Event>, fs: seq<Event>, k: Slot)
    requires Inv(c, s) && WithoutCatchUps(es) == WithoutCatchUps(fs)
    ensures Strip(Run(c, s, es)) == Strip(Run(c, s, fs))
    ensures Checked(c, s, es, k) && Checked(c, s, fs, k) ==>
              (IsMissed(Run(c, s, es), k) <==> IsMissed(Run(c, s, fs), k))
  {
    StripRun(c, s, es);
    StripRun(c, s, fs);
    var a, b := Run(c, s, es), Run(c, s, fs);
    assert Worked(a, k) <==> k in Strip(a).shifts;
    assert Worked(b, k) <==> k in Strip(b).shifts;
    assert a.dayOffs == Strip(a).dayOffs == b.dayOffs;
    if Checked(c, s, es, k) && Checked(c, s, fs, k) {
      CheckedIsAccounted(c, s, es, k);
      CheckedIsAccounted(c, s, fs, k);
      NeverMissedOnADayOff(c, s, es, k);
      NeverMissedOnADayOff(c, s, fs, k);
    }
  }

  lemma NoArrearsLeft(c: Config, s: State, k: Slot)
    ensures k !in Arrears(c, Step(c, s, CatchUp))
  {
    assert k in Arrears(c, s) <==> InWindow(c, s, k.date) && Owes(c, s, k);
  }

  /** Running catchUp again, however often, adds nothing. */
  lemma ExtraRunsAddNothing(c: Config, s: State)
    ensures Arrears(c, Step(c, s, CatchUp)) == map[]
    ensures Step(c, Step(c, s, CatchUp), CatchUp) == Step(c, s, CatchUp)
  {
    var more := Arrears(c, Step(c, s, CatchUp));
    forall k ensures k !in more { NoArrearsLeft(c, s, k); }
    assert more == map[];
  }

  /** A recorded date can no longer become a day off, for anyone, in any later run. */
  lemma {:induction false} MissedStaysMissed(c: Config, s: State, es: seq<Event>, k: Slot)
    requires Inv(c, s) && IsMissed(s, k)
    ensures IsMissed(Run(c, s, es), k) && !HasDayOff(Run(c, s, es).dayOffs, k)
  {
    MissedExactly(c, s, es, k);
    NeverMissedOnADayOff(c, s, es, k);
  }

  // --- What a single call may do -------------------------------------------------------------------

  /** A day off appears only for a date from today on that has no shift row, and disappears only from today on. */
  lemma DayOffsAreAgreedInAdvance(c: Config, s: State, e: Event, k: Slot)
    ensures !HasDayOff(s.dayOffs, k) && HasDayOff(Step(c, s, e).dayOffs, k) ==>
              Today(c, s) <= k.date && k !in s.shifts && (e.GrantDayOff? || e.MoveDayOff?)
    ensures HasDayOff(s.dayOffs, k) && !HasDayOff(Step(c, s, e).dayOffs, k) ==> Today(c, s) <= k.date
  {
    if HasDayOff(s.dayOffs, k) {
      var id :| id in s.dayOffs && s.dayOffs[id] == k;
      if k.date < Today(c, s) { assert id in Step(c, s, e).dayOffs && Step(c, s, e).dayOffs[id] == k; }
    }
  }

  /** A shift row appears only as an open shift of today or a missed one of a past working day, and none ever goes. */
  lemma ShiftsAppearTodayOrMissed(c: Config, s: State, e: Event, k: Slot)
    ensures k in s.shifts ==> k in Step(c, s, e).shifts
    ensures k !in s.shifts && k in Step(c, s, e).shifts ==>
              var row := Step(c, s, e).shifts[k];
              || (row == Shift(Open, Some(s.now), None) && k.date == Today(c, s) && e == OpenShift(k.user))
              || (row == MISSED_SHIFT && InWindow(c, s, k.date) && !HasDayOff(s.dayOffs, k) && e.CatchUp?)
  {
  }
}
