/**
 When an automation runs next (hostService.ts). Calendar arithmetic is that of section 21.4.1 of ECMA-262: times
 are milliseconds and days are days since 1 January 1970 UTC, and months are counted from 0.
 */
module AutomationCalendar {
  import opened Options

  const MS_PER_DAY: int := 86_400_000
  const MAX_TIME: int := 8_640_000_000_000_000

  // ---------------------------------------------------------------- years and months

  function DayFromYear(y: int): int {
    365 * (y - 1970) + (y - 1969) / 4 - (y - 1901) / 100 + (y - 1601) / 400
  }

  predicate Leap(y: int) { y % 4 == 0 && (y % 100 != 0 || y % 400 == 0) }

  datatype Month = Month(year: int, index: int) {
    predicate Valid() { 0 <= index < 12 }
  }

  /** The day of the year on which a month starts. */
  function MonthStart(m: Month): int
    requires m.Valid()
  {
    (match m.index
     case 0 => 0
     case 1 => 31
     case 2 => 59
     case 3 => 90
     case 4 => 120
     case 5 => 151
     case 6 => 181
     case 7 => 212
     case 8 => 243
     case 9 => 273
     case 10 => 304
     case _ => 334) + if Leap(m.year) && m.index >= 2 then 1 else 0
  }

  function FirstDay(m: Month): int
    requires m.Valid()
  {
    DayFromYear(m.year) + MonthStart(m)
  }

  function MonthLength(m: Month): int {
    if m.index == 1 then (if Leap(m.year) then 29 else 28)
    else if m.index == 3 || m.index == 5 || m.index == 8 || m.index == 10 then 30
    else 31
  }

  /** The month n months on: the year and month that MakeDay derives from a month number beyond December. */
  function Plus(m: Month, n: int): (r: Month)
    requires m.Valid()
    ensures r.Valid()
  {
    Month(m.year + (m.index + n) / 12, (m.index + n) % 12)
  }

  function Successor(m: Month): Month { if m.index == 11 then Month(m.year + 1, 0) else Month(m.year, m.index + 1) }

  /** The length of n consecutive months beginning with m. */
  function SumOfLengths(m: Month, n: nat): int
    decreases n
  {
    if n == 0 then 0 else MonthLength(m) + SumOfLengths(Successor(m), n - 1)
  }

  lemma Fours(y: int)
    ensures (y - 1968) / 4 == (y - 1969) / 4 + if y % 4 == 0 then 1 else 0
  {
    assert (y - 1968) / 4 == y / 4 - 492 && y == 4 * (y / 4) + y % 4;
  }

  lemma Hundreds(y: int)
    ensures (y - 1900) / 100 == (y - 1901) / 100 + if y % 100 == 0 then 1 else 0
  {
    assert (y - 1900) / 100 == y / 100 - 19 && y == 100 * (y / 100) + y % 100;
  }

  lemma FourHundreds(y: int)
    ensures (y - 1600) / 400 == (y - 1601) / 400 + if y % 400 == 0 then 1 else 0
  {
    assert (y - 1600) / 400 == y / 400 - 4 && y == 400 * (y / 400) + y % 400;
  }

  lemma CenturiesAreFours(y: int)
    ensures y % 100 == 0 ==> y % 4 == 0
  {
    var n := 25 * (y / 100);
    assert y % 100 == 0 ==> y == 4 * n;
  }

  lemma FourCenturiesAreCenturies(y: int)
    ensures y % 400 == 0 ==> y % 100 == 0
  {
    var n := 4 * (y / 400);
    assert y % 400 == 0 ==> y == 100 * n;
  }

  lemma YearLength(y: int)
    ensures DayFromYear(y + 1) == DayFromYear(y) + if Leap(y) then 366 else 365
  {
    Fours(y);
    Hundreds(y);
    FourHundreds(y);
    CenturiesAreFours(y);
    FourCenturiesAreCenturies(y);
  }

  /** The day numbers of the months agree with their lengths in the calendar. */
  lemma MonthFollowsMonth(m: Month)
    requires m.Valid()
    ensures FirstDay(Successor(m)) == FirstDay(m) + MonthLength(m)
  {
    if m.index == 11 { YearLength(m.year); }
  }

  lemma PlusFromSuccessor(m: Month, n: nat)
    requires m.Valid() && n > 0
    ensures Plus(m, n) == Plus(Successor(m), n - 1)
  {}

  lemma {:induction false} MonthsAddUp(m: Month, n: nat)
    requires m.Valid()
    ensures FirstDay(Plus(m, n)) == FirstDay(m) + SumOfLengths(m, n)
    decreases n
  {
    if n == 0 {
      assert Plus(m, 0) == m;
    } else {
      PlusFromSuccessor(m, n);
      MonthsAddUp(Successor(m), n - 1);
      MonthFollowsMonth(m);
    }
  }

  lemma {:induction false} SumWithinBounds(m: Month, n: nat)
    ensures 28 * n <= SumOfLengths(m, n) <= 31 * n
    decreases n
  {
    if n > 0 { SumWithinBounds(Successor(m), n - 1); }
  }

  // ---------------------------------------------------------------- reading a day number

  predicate In(day: int, m: Month)
    requires m.Valid()
  {
    FirstDay(m) <= day < FirstDay(m) + MonthLength(m)
  }

  function MonthBefore(day: int, m: Month): (r: Month)
    requires m.Valid() && day < FirstDay(m) + MonthLength(m)
    ensures r.Valid() && In(day, r)
    decreases FirstDay(m) + MonthLength(m) - day
  {
    if FirstDay(m) <= day then m else
    var p := if m.index == 0 then Month(m.year - 1, 11) else Month(m.year, m.index - 1);
    MonthFollowsMonth(p);
    MonthBefore(day, p)
  }

  function MonthAfter(day: int, m: Month): (r: Month)
    requires m.Valid() && FirstDay(m) <= day
    ensures r.Valid() && In(day, r)
    decreases day - FirstDay(m)
  {
    MonthFollowsMonth(m);
    if day < FirstDay(m) + MonthLength(m) then m else MonthAfter(day, Successor(m))
  }

  /** YearFromTime and MonthFromTime. */
  function MonthOf(day: int): (m: Month)
    ensures m.Valid() && In(day, m)
  {
    if day < 0 then MonthBefore(day, Month(1969, 11)) else MonthAfter(day, Month(1970, 0))
  }

  /** DateFromTime: the day of the month, from 1. */
  function DateOf(day: int): (d: int)
    ensures 1 <= d <= MonthLength(MonthOf(day))
  {
    day - FirstDay(MonthOf(day)) + 1
  }

  lemma Later(a: Month, b: Month)
    requires a.Valid() && b.Valid() && (a.year < b.year || (a.year == b.year && a.index < b.index))
    ensures FirstDay(a) + MonthLength(a) <= FirstDay(b)
  {
    var n := 12 * (b.year - a.year) + b.index - a.index;
    assert Plus(a, n) == b;
    PlusFromSuccessor(a, n);
    MonthsAddUp(Successor(a), n - 1);
    SumWithinBounds(Successor(a), n - 1);
    MonthFollowsMonth(a);
  }

  /** A day lies in one month only. */
  lemma MonthIsUnique(day: int, m: Month)
    requires m.Valid() && In(day, m)
    ensures MonthOf(day) == m
  {
    var r := MonthOf(day);
    if r.year < m.year || (r.year == m.year && r.index < m.index) { Later(r, m); }
    if m.year < r.year || (m.year == r.year && m.index < r.index) { Later(m, r); }
  }

  // ---------------------------------------------------------------- whole months later

  /** The day that lies the summed lengths of n consecutive months ahead, the month of the day being the first. */
  function MonthsLater(day: int, n: nat): int { day + SumOfLengths(MonthOf(day), n) }

  lemma MonthsLaterIs(day: int, n: nat)
    ensures MonthsLater(day, n) == FirstDay(Plus(MonthOf(day), n)) + DateOf(day) - 1
    ensures day + 28 * n <= MonthsLater(day, n) <= day + 31 * n
  {
    MonthsAddUp(MonthOf(day), n);
    SumWithinBounds(MonthOf(day), n);
  }

  /** The d-th day counted from the start of a month, where d may run over into the next month. */
  lemma RunsOver(m: Month, d: int, day: int)
    requires m.Valid() && 1 <= d <= 31 && day == FirstDay(m) + d - 1
    ensures if d <= MonthLength(m) then MonthOf(day) == m && DateOf(day) == d
      else MonthOf(day) == Successor(m) && DateOf(day) == d - MonthLength(m)
  {
    MonthFollowsMonth(m);
    MonthIsUnique(day, if d <= MonthLength(m) then m else Successor(m));
  }

  /** Whole months later is the same day of the month, or, where the month is too short for it, as many days into
      the following month as were missing. */
  lemma MonthsLaterFallsOn(day: int, n: nat)
    ensures var m, d, later := Plus(MonthOf(day), n), DateOf(day), MonthsLater(day, n);
      if d <= MonthLength(m) then MonthOf(later) == m && DateOf(later) == d
      else MonthOf(later) == Successor(m) && DateOf(later) == d - MonthLength(m)
  {
    MonthsLaterIs(day, n);
    RunsOver(Plus(MonthOf(day), n), DateOf(day), MonthsLater(day, n));
  }

  lemma PlusPlus(m: Month, a: nat, b: nat)
    requires m.Valid()
    ensures Plus(Plus(m, a), b) == Plus(m, a + b)
  {}

  lemma SuccessorPlus(m: Month, b: nat)
    requires m.Valid()
    ensures Plus(Successor(m), b) == Successor(Plus(m, b))
  {}

  /** Starting b months after a day that may have run over, against starting it b months later at once. */
  lemma OverrunMoves(m: Month, d: int, b: nat, once: Month, d': int)
    requires m.Valid() && 1 <= d <= 31
    requires if d <= MonthLength(m) then once == m && d' == d else once == Successor(m) && d' == d - MonthLength(m)
    ensures FirstDay(Plus(once, b)) + d' == FirstDay(Plus(m, b)) + d <==>
      d <= MonthLength(m) || MonthLength(m) == MonthLength(Plus(m, b))
  {
    SuccessorPlus(m, b);
    MonthFollowsMonth(Plus(m, b));
  }

  /** Two steps of a and b months are one step of a + b months exactly when the first keeps the day of the month,
      or when what it ran over by is made up by an equally long month at the end. */
  lemma MonthsLaterInParts(day: int, a: nat, b: nat)
    ensures MonthsLater(MonthsLater(day, a), b) == MonthsLater(day, a + b) <==>
      var m := Plus(MonthOf(day), a);
      DateOf(day) <= MonthLength(m) || MonthLength(m) == MonthLength(Plus(m, b))
  {
    var m, d, once := Plus(MonthOf(day), a), DateOf(day), MonthsLater(day, a);
    assert MonthsLater(once, b) == FirstDay(Plus(MonthOf(once), b)) + DateOf(once) - 1 by { MonthsLaterIs(once, b); }
    assert MonthsLater(day, a + b) == FirstDay(Plus(m, b)) + d - 1 by {
      MonthsLaterIs(day, a + b);
      PlusPlus(MonthOf(day), a, b);
    }
    MonthsLaterFallsOn(day, a);
    OverrunMoves(m, d, b, MonthOf(once), DateOf(once));
  }

  // ---------------------------------------------------------------- schedules

  datatype Unit = Minutely | Hourly | Daily | Weekly | Monthly

  datatype Schedule = Schedule(unit: Unit, interval: int)

  /** A JavaScript value read as the interval: a finite number, another number, or something else. */
  datatype Given = Finite(value: real) | NotFinite | NoNumber

  function ClampedInterval(given: Given): (n: int)
    ensures 1 <= n <= 99
    ensures given.Finite? && 1.0 <= given.value < 100.0 ==> n as real <= given.value < n as real + 1.0
    ensures given.Finite? && given.value >= 100.0 ==> n == 99
    ensures !given.Finite? || given.value < 1.0 ==> n == 1
  {
    if !given.Finite? then 1 else
    var floor := given.value.Floor;
    if floor < 1 then 1 else if floor > 99 then 99 else floor
  }

  function UnitNamed(name: string): Option<Unit> {
    match name
    case "minutely" => Some(Minutely)
    case "hourly" => Some(Hourly)
    case "daily" => Some(Daily)
    case "weekly" => Some(Weekly)
    case "monthly" => Some(Monthly)
    case _ => None
  }

  function NameOf(u: Unit): string {
    match u
    case Minutely => "minutely"
    case Hourly => "hourly"
    case Daily => "daily"
    case Weekly => "weekly"
    case Monthly => "monthly"
  }

  /** A schedule is read exactly from the five names, each as the unit it names, with an interval of 1 to 99. */
  function AutomationInterval(name: string, given: Given): (s: Option<Schedule>)
    ensures s.None? ==> forall u :: NameOf(u) != name
    ensures s.Some? ==> NameOf(s.value.unit) == name && 1 <= s.value.interval <= 99
  {
    match UnitNamed(name)
    case None => None
    case Some(unit) => Some(Schedule(unit, ClampedInterval(given)))
  }

  // ---------------------------------------------------------------- the next run

  function Day(t: int): int { t / MS_PER_DAY }

  function TimeWithinDay(t: int): int { t % MS_PER_DAY }

  /** MakeDay: months beyond December belong to later years, days beyond the month to later months. */
  function MakeDay(year: int, month: int, date: int): int {
    FirstDay(Month(year + month / 12, month % 12)) + date - 1
  }

  function MakeDate(day: int, time: int): int { day * MS_PER_DAY + time }

  /** What the caller gets: null for an unreadable start, and a date that may be out of range. */
  datatype Run = NoRun | InvalidDate | At(time: int)

  predicate ValidTime(t: int) { -MAX_TIME <= t <= MAX_TIME }

  function TimeClip(t: int): Run { if ValidTime(t) then At(t) else InvalidDate }

  function SetUTCMonth(t: int, month: int): Run {
    var day := MakeDay(MonthOf(Day(t)).year, month, DateOf(Day(t)));
    TimeClip(MakeDate(day, TimeWithinDay(t)))
  }

  function UnitMs(u: Unit): int {
    match u
    case Minutely => 60 * 1000
    case Hourly => 60 * 60 * 1000
    case Daily => MS_PER_DAY
    case _ => 7 * MS_PER_DAY
  }

  /** The next run in terms of calendar and clock: the same time of day whole months later, or so many units later. */
  function NextRun(s: Schedule, t: int): Run
    requires s.interval >= 0
  {
    if s.unit == Monthly then TimeClip(MakeDate(MonthsLater(Day(t), s.interval), TimeWithinDay(t)))
    else TimeClip(t + s.interval * UnitMs(s.unit))
  }

  lemma MonthNumber(day: int, n: nat)
    ensures MakeDay(MonthOf(day).year, MonthOf(day).index + n, DateOf(day)) == MonthsLater(day, n)
  {
    MonthsLaterIs(day, n);
  }

  lemma SetsMonth(s: Schedule, t: int)
    requires s.unit == Monthly && s.interval >= 0
    ensures SetUTCMonth(t, MonthOf(Day(t)).index + s.interval) == NextRun(s, t)
  {
    MonthNumber(Day(t), s.interval);
  }

  lemma AddsUnits(s: Schedule, t: int, unitMs: int)
    requires s.unit != Monthly && s.interval >= 0 && unitMs == UnitMs(s.unit)
    ensures TimeClip(t + s.interval * unitMs) == NextRun(s, t)
  {}

  function MillisecondsOf(u: Unit): (ms: int)
    requires u != Monthly
    ensures ms == UnitMs(u)
  {
    if u == Minutely then 60_000 else if u == Hourly then 3_600_000 else if u == Daily then 86_400_000 else 604_800_000
  }

  method NextAutomationRunAt(schedule: Schedule, startedAt: Option<int>) returns (run: Run)
    requires schedule.interval >= 0
    ensures startedAt.None? || !ValidTime(startedAt.value) ==> run == NoRun
    ensures startedAt.Some? && ValidTime(startedAt.value) ==> run == NextRun(schedule, startedAt.value)
  {
    if startedAt.None? || !ValidTime(startedAt.value) { return NoRun; }
    var started := startedAt.value;
    if schedule.unit == Monthly {
      run := SetUTCMonth(started, MonthOf(Day(started)).index + schedule.interval);
      SetsMonth(schedule, started);
    } else {
      var unitMs := MillisecondsOf(schedule.unit);
      run := TimeClip(started + schedule.interval * unitMs);
      AddsUnits(schedule, started, unitMs);
    }
  }

  lemma DayAndTime(day: int, time: int)
    requires 0 <= time < MS_PER_DAY
    ensures Day(MakeDate(day, time)) == day && TimeWithinDay(MakeDate(day, time)) == time
  {}

  /** A monthly run is later than its start by exactly the lengths of the months between, at the same time of day,
      and is out of range only when that sum is. */
  lemma MonthlyRunIsLater(t: int, n: nat)
    ensures var days := SumOfLengths(MonthOf(Day(t)), n);
      && NextRun(Schedule(Monthly, n), t) == TimeClip(t + days * MS_PER_DAY)
      && 28 * n <= days <= 31 * n
      && Day(t + days * MS_PER_DAY) == MonthsLater(Day(t), n)
      && TimeWithinDay(t + days * MS_PER_DAY) == TimeWithinDay(t)
  {
    MonthsLaterIs(Day(t), n);
    DayAndTime(MonthsLater(Day(t), n), TimeWithinDay(t));
    assert t == MakeDate(Day(t), TimeWithinDay(t));
  }

  lemma MonthlyRun(t: int, n: nat)
    requires NextRun(Schedule(Monthly, n), t).At?
    ensures var next := NextRun(Schedule(Monthly, n), t).time;
      && next == MakeDate(MonthsLater(Day(t), n), TimeWithinDay(t))
      && Day(next) == MonthsLater(Day(t), n) && TimeWithinDay(next) == TimeWithinDay(t)
  {
    DayAndTime(MonthsLater(Day(t), n), TimeWithinDay(t));
  }

  lemma SameDate(d: int, e: int, time: int)
    ensures MakeDate(d, time) == MakeDate(e, time) <==> d == e
  {}

  /** Two monthly runs, of a and then b months, come out as the one run of a + b months exactly when the first one
      keeps the day of the month, or what it ran over by is made up by an equally long month at the end, or both
      are out of the range of dates. */
  lemma {:induction false} MonthlyRunsInParts(t: int, a: nat, b: nat)
    requires NextRun(Schedule(Monthly, a), t).At?
    ensures var once := NextRun(Schedule(Monthly, a), t).time;
      var twice, whole := NextRun(Schedule(Monthly, b), once), NextRun(Schedule(Monthly, a + b), t);
      twice == whole <==>
        || (twice == InvalidDate && whole == InvalidDate)
        || DateOf(Day(t)) <= MonthLength(Plus(MonthOf(Day(t)), a))
        || MonthLength(Plus(MonthOf(Day(t)), a)) == MonthLength(Plus(MonthOf(Day(t)), a + b))
  {
    var once := NextRun(Schedule(Monthly, a), t).time;
    MonthlyRun(t, a);
    MonthsLaterInParts(Day(t), a, b);
    PlusPlus(MonthOf(Day(t)), a, b);
    SameDate(MonthsLater(Day(once), b), MonthsLater(Day(t), a + b), TimeWithinDay(t));
  }

  /** It is not always so: two single months from 31 January 1970 end on 3 April, two months at once on 31 March. */
  lemma MonthlyRunsDiffer()
    ensures NextRun(Schedule(Monthly, 1), 30 * MS_PER_DAY) == At(61 * MS_PER_DAY)
    ensures NextRun(Schedule(Monthly, 1), 61 * MS_PER_DAY) == At(92 * MS_PER_DAY)
    ensures NextRun(Schedule(Monthly, 2), 30 * MS_PER_DAY) == At(89 * MS_PER_DAY)
  {
    EarlyDays(30, 0);
    EarlyDays(61, 2);
    assert SumOfLengths(Month(1970, 0), 1) == 31 && SumOfLengths(Month(1970, 2), 1) == 31;
    TwoMonths();
    DayAndTime(30, 0);
    DayAndTime(61, 0);
  }

  lemma EarlyDays(day: int, index: int)
    requires 0 <= index < 3 && In(day, Month(1970, index))
    ensures MonthOf(day) == Month(1970, index)
  {
    MonthIsUnique(day, Month(1970, index));
  }

  lemma TwoMonths()
    ensures SumOfLengths(Month(1970, 0), 2) == 59
  {
    assert SumOfLengths(Month(1970, 1), 1) == 28;
  }
}
