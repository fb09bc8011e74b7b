/** Business dates (src/common/business-calendar.service.ts): ISO text, days and zoned instants. */
module BusinessCalendar {
  import opened Options
  import opened Digits
  import opened CivilDays

  type IsoDate = string
  type Day = int       // a Date at UTC midnight, in days from 1970-01-01
  type Instant = int   // milliseconds from 1970-01-01

  const DAY_MS := 86_400_000
  const LAST_DATE: int := 100_000_000 // JavaScript's Date reaches this many days either way

  // --- Text ---------------------------------------------------------------------------

  function Pad(n: nat, width: nat): string { PadStart(Print(n), width) }

  /** toISOString().slice(0, 10): years outside 0..9999 are printed with a sign and six digits. */
  function IsoText(c: Civil): string
    requires ValidCivil(c)
  {
    var monthDay := "-" + Pad(c.month, 2) + "-" + Pad(c.day, 2);
    if 0 <= c.year <= 9999 then Pad(c.year, 4) + monthDay
    else Slice10((if c.year < 0 then "-" + Pad(-c.year, 6) else "+" + Pad(c.year, 6)) + monthDay)
  }

  function Slice10(s: string): string { if |s| <= 10 then s else s[..10] }

  /** None is the RangeError of an invalid Date. */
  function FromDbDate(n: Day): Option<IsoDate> {
    if -LAST_DATE <= n <= LAST_DATE then Some(Iso(n)) else None
  }

  predicate InRange(s: string, lo: nat, hi: nat) { AllDigits(s) && lo <= Value(s) <= hi }

  /** ^\d{4}-(0[1-9]|1[0-2])-(0[1-9]|[12]\d|3[01])$ */
  predicate IsoPattern(s: string) {
    && |s| == 10 && s[4] == '-' && s[7] == '-'
    && AllDigits(s[..4]) && InRange(s[5..7], 1, 12) && InRange(s[8..], 1, 31)
  }

  function ReadCivil(s: string): (c: Civil)
    requires IsoPattern(s)
    ensures 1 <= c.month <= 12 && 1 <= c.day <= 31
  {
    Civil(Value(s[..4]), Value(s[5..7]), Value(s[8..]))
  }

  /** None is the Error: no such text or, 30 February, no such day. */
  function ToDbDate(date: IsoDate): Option<Day> {
    if !IsoPattern(date) then None
    else
      var d := DayNumber(ReadCivil(date));
      if FromDbDate(d) == Some(date) then Some(d) else None
  }

  /** From 0000-01-01 to 9999-12-31. */
  predicate IsoDay(n: Day) { -719_528 <= n <= 2_932_896 }

  lemma FourDigitYear(n: Day)
    ensures IsoDay(n) <==> 0 <= CivilOf(n).year <= 9999
  {
    var first, last := Civil(0, 1, 1), Civil(9999, 12, 31);
    assert DayNumber(first) == -719_528 && DayNumber(last) == 2_932_896;
    OrderAgrees(CivilOf(n), first);
    OrderAgrees(last, CivilOf(n));
  }

  function Iso(n: Day): IsoDate { IsoText(CivilOf(n)) }

  /** a < b on JavaScript strings. */
  predicate Less(a: string, b: string)
    decreases |a|
  {
    if b == "" then false
    else if a == "" then true
    else a[0] < b[0] || (a[0] == b[0] && Less(a[1..], b[1..]))
  }

  lemma PadReads(n: nat, width: nat)
    requires width > 0 && n < Pow10(width)
    ensures |Pad(n, width)| == width && AllDigits(Pad(n, width)) && Value(Pad(n, width)) == n
  {
    PrintReads(n);
    PrintLength(n, width);
    if |Print(n)| < width { ZerosInFront(width - |Print(n)|, Print(n)); }
  }

  /** Two digit strings of one length with one value are one string. */
  lemma {:induction false} SameDigits(a: string, b: string)
    requires AllDigits(a) && AllDigits(b) && |a| == |b| && Value(a) == Value(b)
    ensures a == b
  {
    if a != "" {
      var n := |a| - 1;
      SameDigits(a[..n], b[..n]);
      assert a == a[..n] + [a[n]] && b == b[..n] + [b[n]];
    }
  }

  lemma IsoParts(c: Civil)
    requires ValidCivil(c) && 0 <= c.year <= 9999
    ensures IsoPattern(IsoText(c)) && ReadCivil(IsoText(c)) == c
    ensures IsoText(c)[..4] == Pad(c.year, 4) && IsoText(c)[5..7] == Pad(c.month, 2) && IsoText(c)[8..] == Pad(c.day, 2)
  {
    assert Pow10(2) == 100 && Pow10(4) == 10000;
    PadReads(c.year, 4);
    PadReads(c.month, 2);
    PadReads(c.day, 2);
    MonthStep(c.year, c.month);
    Dashed(Pad(c.year, 4), Pad(c.month, 2), Pad(c.day, 2));
  }

  lemma Dashed(y: string, m: string, d: string)
    requires |y| == 4 && |m| == 2 && |d| == 2
    ensures var s := y + ("-" + m + "-" + d);
            && |s| == 10 && s[4] == '-' && s[7] == '-'
            && s[..4] == y && s[5..7] == m && s[8..] == d
  {
  }

  /** Printing a day and reading it back. */
  lemma DayRoundTrip(n: Day)
    requires IsoDay(n)
    ensures FromDbDate(n) == Some(Iso(n)) && ToDbDate(Iso(n)) == Some(n)
  {
    FourDigitYear(n);
    IsoParts(CivilOf(n));
  }

  lemma WideYear(c: Civil)
    requires ValidCivil(c) && !(0 <= c.year <= 9999)
    ensures !IsoPattern(IsoText(c))
  {
    var monthDay := "-" + Pad(c.month, 2) + "-" + Pad(c.day, 2);
    SignFirst(if c.year < 0 then '-' else '+', Pad(Abs(c.year), 6), monthDay);
  }

  lemma SignFirst(sign: char, year: string, monthDay: string)
    requires !IsDigit(sign)
    ensures !IsoPattern(Slice10([sign] + year + monthDay))
  {
    var s := Slice10([sign] + year + monthDay);
    if |s| == 10 {
      assert s[..4][0] == sign;
      assert !AllDigits(s[..4]);
    }
  }

  function Abs(v: int): nat { if v < 0 then -v else v }

  /** toDbDate accepts exactly the printed forms of days with a four-digit year. */
  lemma AcceptedDates(s: IsoDate, n: Day)
    ensures ToDbDate(s) == Some(n) <==> IsoDay(n) && s == Iso(n)
  {
    FourDigitYear(n);
    if ToDbDate(s) == Some(n) {
      if !IsoDay(n) {
        WideYear(CivilOf(n));
        assert false;
      }
    } else if IsoDay(n) {
      DayRoundTrip(n);
    }
  }

  /** Which texts those are: the pattern, and no day beyond the end of its month. */
  lemma RealDates(s: IsoDate)
    ensures ToDbDate(s).Some? <==>
            && IsoPattern(s)
            && var c := ReadCivil(s);
               c.day <= if c.month == 2 then (if Leap(c.year) then 29 else 28)
                 else if c.month in {4, 6, 9, 11} then 30 else 31
  {
    if IsoPattern(s) {
      var c := ReadCivil(s);
      MonthLengths(c.year, c.month);
      if ValidCivil(c) { RealDateReads(s, c); }
      if ToDbDate(s).Some? { ReadBack(s); }
    }
  }

  lemma TextOfDate(c: Civil, n: Day)
    requires ValidCivil(c) && 0 <= c.year <= 9999 && n == DayNumber(c)
    ensures IsoDay(n) && Iso(n) == IsoText(c)
  {
    CivilOfDay(c);
    FourDigitYear(n);
  }

  lemma RealDateReads(s: IsoDate, c: Civil)
    requires IsoPattern(s) && c == ReadCivil(s) && ValidCivil(c)
    ensures ToDbDate(s).Some?
  {
    var n := DayNumber(c);
    ValueBelow(s[..4]);
    assert Pow10(4) == 10000;
    TextOfDate(c, n);
    IsoParts(c);
    SameText(s, IsoText(c));
    AcceptedDates(s, n);
  }

  lemma SameText(s: IsoDate, t: IsoDate)
    requires IsoPattern(s) && IsoPattern(t) && ReadCivil(s) == ReadCivil(t)
    ensures s == t
  {
    SameDigits(s[..4], t[..4]);
    SameDigits(s[5..7], t[5..7]);
    SameDigits(s[8..], t[8..]);
    assert s == s[..4] + [s[4]] + s[5..7] + [s[7]] + s[8..];
    assert t == t[..4] + [t[4]] + t[5..7] + [t[7]] + t[8..];
  }

  lemma ReadBack(s: IsoDate)
    requires ToDbDate(s).Some?
    ensures IsoPattern(s) && ValidCivil(ReadCivil(s))
  {
    var n := ToDbDate(s).value;
    AcceptedDates(s, n);
    FourDigitYear(n);
    IsoParts(CivilOf(n));
  }

  // --- Text order is day order ---------------------------------------------------------

  lemma {:induction false} LessSplits(a: string, b: string, x: string, y: string)
    requires |a| == |b|
    ensures Less(a + x, b + y) <==> Less(a, b) || (a == b && Less(x, y))
  {
    if a == "" {
      assert a + x == x && b + y == y;
    } else {
      assert (a + x)[1..] == a[1..] + x && (b + y)[1..] == b[1..] + y;
      assert a == [a[0]] + a[1..] && b == [b[0]] + b[1..];
      LessSplits(a[1..], b[1..], x, y);
    }
  }

  lemma {:induction false} DigitOrder(a: string, b: string)
    requires AllDigits(a) && AllDigits(b) && |a| == |b|
    ensures Less(a, b) <==> Value(a) < Value(b)
  {
    if a != "" {
      var n := |a| - 1;
      DigitOrder(a[..n], b[..n]);
      LessSplits(a[..n], b[..n], a[n..], b[n..]);
      assert a == a[..n] + a[n..] && b == b[..n] + b[n..];
      if Value(a[..n]) == Value(b[..n]) { SameDigits(a[..n], b[..n]); }
      assert Less(a[n..], b[n..]) <==> a[n] < b[n] by { assert a[n..] == [a[n]] && b[n..] == [b[n]]; }
    }
  }

  lemma IsoTextOrder(a: Civil, b: Civil)
    requires ValidCivil(a) && ValidCivil(b) && 0 <= a.year <= 9999 && 0 <= b.year <= 9999
    ensures Less(IsoText(a), IsoText(b)) <==> Earlier(a, b)
  {
    IsoParts(a);
    IsoParts(b);
    var s, t := IsoText(a), IsoText(b);
    DigitOrder(s[..4], t[..4]);
    DigitOrder(s[5..7], t[5..7]);
    DigitOrder(s[8..], t[8..]);
    if a.year == b.year { SameDigits(s[..4], t[..4]); }
    if a.month == b.month { SameDigits(s[5..7], t[5..7]); }
    DashedOrder(s, t);
  }

  lemma DashedOrder(s: string, t: string)
    requires |s| == |t| == 10 && s[4] == t[4] && s[7] == t[7]
    ensures Less(s, t) <==>
            Less(s[..4], t[..4]) || (s[..4] == t[..4] && (Less(s[5..7],
              t[5..7]) || (s[5..7] == t[5..7] && Less(s[8..], t[8..]))))
  {
    LessSplits(s[..4], t[..4], s[4..], t[4..]);
    assert s == s[..4] + s[4..] && t == t[..4] + t[4..];
    assert s[4..][1..] == s[5..] && t[4..][1..] == t[5..];
    LessSplits(s[5..7], t[5..7], s[7..], t[7..]);
    assert s[5..] == s[5..7] + s[7..] && t[5..] == t[5..7] + t[7..];
    assert s[7..][1..] == s[8..] && t[7..][1..] == t[8..];
  }

  /** Comparing business dates as strings, as every service does, compares the days. */
  lemma TextOrderIsDayOrder(n: Day, m: Day)
    requires IsoDay(n) && IsoDay(m)
    ensures Less(Iso(n), Iso(m)) <==> n < m
    ensures Iso(n) == Iso(m) <==> n == m
  {
    FourDigitYear(n);
    FourDigitYear(m);
    IsoTextOrder(CivilOf(n), CivilOf(m));
    OrderAgrees(CivilOf(n), CivilOf(m));
    DayRoundTrip(n);
    DayRoundTrip(m);
  }

  // --- Working days ------------------------------------------------------------------------

  /** getUTCDay with Sunday as 7; 1970-01-01 was a Thursday. */
  function IsoWeekday(n: Day): nat {
    var jsDay := (n + 4) % 7;
    if jsDay == 0 then 7 else jsDay
  }

  predicate WorkingOn(n: Day, weekdays: set<nat>) { IsoWeekday(n) in weekdays }

  function IsWorkingDay(date: IsoDate, weekdays: set<nat>): Option<bool> {
    match ToDbDate(date)
    case None => None
    case Some(n) => Some(WorkingOn(n, weekdays))
  }

  function AddDays(date: IsoDate, days: int): Option<IsoDate> {
    var d := ToDbDate(date);
    if d.None? then None else FromDbDate(d.value + days)
  }

  /** From any date to any other by the number of days between them; so back again as well. */
  lemma AddDaysReaches(n: Day, m: Day, k: int)
    requires IsoDay(n) && IsoDay(m) && k == m - n
    ensures AddDays(Iso(n), k) == Some(Iso(m))
  {
    DayRoundTrip(n);
    DayRoundTrip(m);
  }

  /** Day 0 is 1970-01-01, a Thursday. */
  lemma EpochIsThursday()
    ensures CivilOf(0) == Civil(1970, 1, 1) && IsoWeekday(0) == 4
  {
    EpochIsFirstOfJanuary1970();
  }

  /** Any seven days in a row have each weekday exactly once. */
  lemma EachWeekdayOnceAWeek(n: Day, w: nat)
    requires 1 <= w <= 7
    ensures exists d :: n <= d < n + 7 && IsoWeekday(d) == w
    ensures forall d, e :: n <= d < e < n + 7 ==> IsoWeekday(d) != IsoWeekday(e)
  {
    var d := n + (w - IsoWeekday(n)) % 7;
    WeekdayShift(n, d - n);
    forall d, e | n <= d < e < n + 7 ensures IsoWeekday(d) != IsoWeekday(e) { WeekdaysDiffer(d, e - d); }
  }

  lemma WeekdaysDiffer(n: Day, k: nat)
    requires 0 < k < 7
    ensures IsoWeekday(n) != IsoWeekday(n + k)
  {
    WeekdayShift(n, k);
  }

  lemma WeekdayShift(n: Day, k: nat)
    requires k < 7
    ensures IsoWeekday(n + k) == (IsoWeekday(n) - 1 + k) % 7 + 1
  {
    var q, r := (n + 4) / 7, (n + 4) % 7;
    assert n + k + 4 == 7 * q + (r + k);
  }

  /** The working days among the L days before n. */
  predicate PastWorkingDay(n: Day, lookback: nat, weekdays: set<nat>, d: Day) {
    n - lookback <= d < n && WorkingOn(d, weekdays)
  }

  /** The days of a list of texts fall strictly from one to the next. */
  predicate FallingDays(out: seq<Day>) { forall i, j :: 0 <= i < j < |out| ==> out[i] > out[j] }

  /** The working days before n, nearest first. */
  function PastDays(n: Day, lookback: nat, weekdays: set<nat>): (out: seq<Day>)
    ensures FallingDays(out)
    ensures forall d :: d in out <==> PastWorkingDay(n, lookback, weekdays, d)
  {
    if lookback == 0 then []
    else
      var nearer := PastDays(n, lookback - 1, weekdays);
      if WorkingOn(n - lookback, weekdays) then
        Pushed(nearer, n, lookback, weekdays);
        nearer + [n - lookback]
      else nearer
  }

  lemma Pushed(days: seq<Day>, n: Day, i: nat, weekdays: set<nat>)
    requires i >= 1 && FallingDays(days) && WorkingOn(n - i, weekdays)
    requires forall d :: d in days <==> PastWorkingDay(n, i - 1, weekdays, d)
    ensures FallingDays(days + [n - i])
    ensures forall d :: d in days + [n - i] <==> PastWorkingDay(n, i, weekdays, d)
  {
    forall k | 0 <= k < |days| ensures days[k] > n - i { assert days[k] in days; }
  }

  function Texts(days: seq<Day>): seq<IsoDate> { seq(|days|, i requires 0 <= i < |days| => Iso(days[i])) }

  /** addDays: the Date is moved and printed again. */
  method MoveDate(date: IsoDate, days: int) returns (moved: Option<IsoDate>)
    ensures moved == AddDays(date, days)
  {
    var d := ToDbDate(date);
    if d.None? { return None; }
    var day := d.value;
    day := day + days;
    moved := FromDbDate(day);
  }

  lemma Moved(date: IsoDate, n: Day, m: Day, k: int, moved: Option<IsoDate>, weekdays: set<nat>)
    requires date == Iso(n) && IsoDay(n) && IsoDay(m) && k == m - n && moved == AddDays(date, k)
    ensures moved == Some(Iso(m)) && IsWorkingDay(Iso(m), weekdays) == Some(WorkingOn(m, weekdays))
  {
    AddDaysReaches(n, m, k);
    WorkingText(m, weekdays);
  }

  /** One turn of the loop below. */
  method StepTo(date: IsoDate, n: Day, m: Day, k: int, weekdays: set<nat>) returns (moved: IsoDate, working: bool)
    requires date == Iso(n) && IsoDay(n) && IsoDay(m) && k == m - n
    ensures moved == Iso(m) && working == WorkingOn(m, weekdays)
  {
    var d := MoveDate(date, k);
    Moved(date, n, m, k, d, weekdays);
    moved := d.value;
    working := IsWorkingDay(moved, weekdays).value;
  }

  lemma WorkingText(n: Day, weekdays: set<nat>)
    requires IsoDay(n)
    ensures IsWorkingDay(Iso(n), weekdays) == Some(WorkingOn(n, weekdays))
  {
    DayRoundTrip(n);
  }

  lemma NextText(n: Day, i: nat, weekdays: set<nat>, d: Day)
    requires i >= 1 && d == n - i
    ensures Texts(PastDays(n, i, weekdays)) == Texts(PastDays(n, i - 1, weekdays)) + if WorkingOn(d,
            weekdays) then [Iso(d)] else []
  {
    TextsGrow(PastDays(n, i - 1, weekdays), d);
  }

  lemma TextsGrow(days: seq<Day>, d: Day)
    ensures Texts(days + [d]) == Texts(days) + [Iso(d)]
    ensures Texts(days) + [] == Texts(days)
  {
  }

  /** pastWorkingDays: the texts of exactly the working days of the lookback, nearest first. */
  method PastWorkingDays(date: IsoDate, n: Day, lookbackDays: nat, weekdays: set<nat>) returns (out: seq<IsoDate>)
    requires date == Iso(n) && IsoDay(n) && IsoDay(n - lookbackDays)
    ensures out == Texts(PastDays(n, lookbackDays, weekdays))
  {
    out := [];
    for i := 1 to lookbackDays + 1
      invariant out == Texts(PastDays(n, i - 1, weekdays))
    {
      var m: Day := n - i;
      NextText(n, i, weekdays, m);
      var d, working := StepTo(date, n, m, -i, weekdays);
      if working { out := out + [d]; }
    }
  }

  // --- Instants ---------------------------------------------------------------------------

  /** How far local time is ahead of UTC at an instant. */
  type Zone = Instant -> int

  function LocalDay(zone: Zone, t: Instant): Day { (t + zone(t)) / DAY_MS }

  function DateOf(zone: Zone, t: Instant): IsoDate { Iso(LocalDay(zone, t)) }

  /** The two passes of startOfDay. */
  method StartOfDay(zone: Zone, n: Day) returns (guess: Instant)
    ensures guess == StartOf(zone, n)
  {
    var midnightUtc := n * DAY_MS;
    guess := midnightUtc;
    for i := 0 to 2
      invariant guess == match i
                         case 0 => midnightUtc
                         case 1 => midnightUtc - zone(midnightUtc)
                         case _ => StartOf(zone, n)
    {
      guess := midnightUtc - zone(guess);
    }
  }

  function StartOf(zone: Zone, n: Day): Instant {
    var midnightUtc := n * DAY_MS;
    midnightUtc - zone(midnightUtc - zone(midnightUtc))
  }

  /**
   * In any zone, the result is local midnight exactly when the offset there is the one the second
   * pass used, which a transition between the two guesses can spoil.
   */
  lemma StartIsLocalMidnight(zone: Zone, n: Day)
    ensures LocalMidnight(zone, n, StartOf(zone, n)) <==>
            zone(StartOf(zone, n)) == zone(n * DAY_MS - zone(n * DAY_MS))
  {
  }

  predicate LocalMidnight(zone: Zone, n: Day, t: Instant) { t + zone(t) == n * DAY_MS }

  /** A zone that changes its offset once, at `change`: summer time begins or ends. */
  ghost predicate OneTransition(zone: Zone, change: Instant, before: int, after: int) {
    forall t :: zone(t) == if t < change then before else after
  }

  /** Around a single transition two passes are enough: they find local midnight whenever the day has one. */
  lemma TwoPassesFindMidnight(zone: Zone, n: Day, change: Instant, before: int, after: int)
    requires OneTransition(zone, change, before, after)
    ensures LocalMidnight(zone, n, StartOf(zone, n)) <==> exists t :: LocalMidnight(zone, n, t)
  {
    if t :| LocalMidnight(zone, n, t) {
      assert t == n * DAY_MS - before || t == n * DAY_MS - after;
    }
  }

  ghost predicate Fixed(zone: Zone) { forall s, t :: zone(s) == zone(t) }

  lemma BoundsAgreeWithDay(zone: Zone, n: Day, t: Instant)
    requires Fixed(zone)
    ensures StartOf(zone, n) <= t < StartOf(zone, n + 1) <==> LocalDay(zone, t) == n
  {
    var m := n * DAY_MS;
    assert zone(m - zone(m)) == zone(t);
    assert zone((m + DAY_MS) - zone(m + DAY_MS)) == zone(t);
    var l := t + zone(t);
    assert m <= l < m + DAY_MS <==> l / DAY_MS == n;
  }

  /** With a fixed offset, an instant lies within the bounds of a date exactly when that is its date. */
  lemma BoundsAgreeWithDate(zone: Zone, n: Day, t: Instant)
    requires Fixed(zone) && IsoDay(n) && IsoDay(LocalDay(zone, t))
    ensures StartOf(zone, n) <= t < StartOf(zone, n + 1) <==> DateOf(zone, t) == Iso(n)
  {
    BoundsAgreeWithDay(zone, n, t);
    TextOrderIsDayOrder(LocalDay(zone, t), n);
  }

  /** An account created before the day began was created on an earlier date. */
  lemma CreatedBeforeDay(zone: Zone, n: Day, t: Instant)
    requires Fixed(zone)
    ensures t < StartOf(zone, n) <==> LocalDay(zone, t) < n
  {
    var m := n * DAY_MS;
    assert zone(m - zone(m)) == zone(t);
    var l := t + zone(t);
    assert l < m <==> l / DAY_MS < n;
  }

  lemma LaterIsNoEarlierDay(zone: Zone, s: Instant, t: Instant)
    requires Fixed(zone) && s <= t
    ensures LocalDay(zone, s) <= LocalDay(zone, t)
  {
    assert zone(s) == zone(t);
  }

  // --- Months -------------------------------------------------------------------------------

  /** ^\d{4}-(0[1-9]|1[0-2])$ */
  predicate PeriodPattern(p: string) { |p| == 7 && p[4] == '-' && AllDigits(p[..4]) && InRange(p[5..], 1, 12) }

  /** Date.UTC reads the years 0 to 99 as 1900 to 1999. */
  function UtcYear(y: int): int { if 0 <= y <= 99 then 1900 + y else y }

  /** [start, endExclusive) of "YYYY-MM"; None is the Error. */
  function PeriodRange(period: string): Option<(Day, Day)> {
    if !PeriodPattern(period) then None
    else
      var y, m := UtcYear(Value(period[..4])), Value(period[5..]);
      Some((DayNumber(Civil(y, m, 1)), DayNumber(Civil(y, m + 1, 1))))
  }

  function PeriodOf(date: IsoDate): string { if |date| <= 7 then date else date[..7] }

  lemma PeriodOfDay(n: Day, p: string)
    requires IsoDay(n) && PeriodPattern(p)
    ensures PeriodOf(Iso(n)) == p <==> CivilOf(n).year == Value(p[..4]) && CivilOf(n).month == Value(p[5..])
  {
    var c := CivilOf(n);
    FourDigitYear(n);
    IsoParts(c);
    var q := Iso(n)[..7];
    assert q[..4] == Iso(n)[..4] && q[5..] == Iso(n)[5..7];
    if c.year == Value(p[..4]) && c.month == Value(p[5..]) {
      SameDigits(q[..4], p[..4]);
      SameDigits(q[5..], p[5..]);
      assert q == q[..4] + [q[4]] + q[5..] && p == p[..4] + [p[4]] + p[5..];
    }
  }

  lemma MonthRange(n: Day, y: int, m: int)
    requires 1 <= m <= 12
    ensures DayNumber(Civil(y, m, 1)) <= n < DayNumber(Civil(y, m + 1, 1)) <==>
              CivilOf(n).year == y && CivilOf(n).month == m
  {
    var c := CivilOf(n);
    MonthStep(y, m);
    var last := Civil(y, m, MonthLength(y, m));
    assert DayNumber(last) == DayNumber(Civil(y, m + 1, 1)) - 1;
    OrderAgrees(c, Civil(y, m, 1));
    OrderAgrees(last, c);
  }

  predicate PeriodHolds(p: string, n: Day)
    requires PeriodPattern(p)
  {
    PeriodOf(Iso(n)) == p <==> PeriodRange(p).value.0 <= n < PeriodRange(p).value.1
  }

  /** A date belongs to a month exactly when it lies in the month's range, except in years 0 to 99. */
  lemma PeriodAgrees(p: string)
    requires PeriodPattern(p)
    ensures (forall n | IsoDay(n) :: PeriodHolds(p, n)) <==> Value(p[..4]) >= 100
  {
    var y, m := Value(p[..4]), Value(p[5..]);
    forall n | IsoDay(n) && y >= 100 ensures PeriodHolds(p, n) {
      PeriodOfDay(n, p);
      MonthRange(n, y, m);
    }
    if y < 100 {
      var first := Civil(y, m, 1);
      MonthStep(y, m);
      var n := DayNumber(first);
      CivilOfDay(first);
      FourDigitYear(n);
      PeriodOfDay(n, p);
      MonthRange(n, UtcYear(y), m);
      assert !PeriodHolds(p, n);
    }
  }

  /** Months counted from year 0. */
  function MonthNumber(n: Day): int { CivilOf(n).year * 12 + CivilOf(n).month - 1 }

  lemma MonthsAreInOrder(n: Day, m: Day)
    requires n <= m
    ensures MonthNumber(n) <= MonthNumber(m)
  {
    OrderAgrees(CivilOf(m), CivilOf(n));
  }

  /** Comparing periods as strings compares the months. */
  lemma PeriodOrder(n: Day, m: Day)
    requires IsoDay(n) && IsoDay(m)
    ensures Less(PeriodOf(Iso(n)), PeriodOf(Iso(m))) <==> MonthNumber(n) < MonthNumber(m)
    ensures PeriodOf(Iso(n)) == PeriodOf(Iso(m)) <==> MonthNumber(n) == MonthNumber(m)
  {
    FourDigitYear(n);
    FourDigitYear(m);
    PeriodText(CivilOf(n));
    PeriodText(CivilOf(m));
    PeriodTextOrder(PeriodOf(Iso(n)), PeriodOf(Iso(m)));
  }

  lemma PeriodText(c: Civil)
    requires ValidCivil(c) && 0 <= c.year <= 9999
    ensures var p := PeriodOf(IsoText(c)); PeriodPattern(p) && Value(p[..4]) == c.year && Value(p[5..]) == c.month
  {
    IsoParts(c);
    var s := IsoText(c);
    assert s[..7][..4] == s[..4] && s[..7][5..] == s[5..7];
  }

  lemma PeriodTextOrder(p: string, q: string)
    requires PeriodPattern(p) && PeriodPattern(q)
    ensures Less(p, q) <==>
            Value(p[..4]) < Value(q[..4]) || (Value(p[..4]) == Value(q[..4]) && Value(p[5..]) < Value(q[5..]))
    ensures p == q <==> Value(p[..4]) == Value(q[..4]) && Value(p[5..]) == Value(q[5..])
  {
    DigitOrder(p[..4], q[..4]);
    DigitOrder(p[5..], q[5..]);
    if Value(p[..4]) == Value(q[..4]) { SameDigits(p[..4], q[..4]); }
    if Value(p[5..]) == Value(q[5..]) { SameDigits(p[5..], q[5..]); }
    LessSplits(p[..4], q[..4], p[4..], q[4..]);
    assert p == p[..4] + p[4..] && q == q[..4] + q[4..];
    assert p[4..] == "-" + p[5..] && q[4..] == "-" + q[5..];
    LessSplits("-", "-", p[5..], q[5..]);
    assert !Less("-", "-");
  }
}
