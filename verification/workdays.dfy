/** The Russian calendar of working days. */
module Workdays {
  import opened Calendar

  const YEAR_2026 := 2026 * 12
  const YEAR_2027 := 2027 * 12

  predicate Decreed(m: int) {
    YEAR_2026 <= m < YEAR_2027 + 12
  }

  /** The decrees' days off: month (from the year's January) and day. */
  predicate DecreedOff(m: int, dom: int) {
    if m < YEAR_2027 then
      (m - YEAR_2026, dom) in {(0, 1), (0, 2), (0, 5), (0, 6), (0, 7), (0, 8), (0, 9), (1, 23), (2, 9), (4, 1),
                               (4, 11), (5, 12), (10, 4), (11, 31)}
    else
      (m - YEAR_2027, dom) in {(0, 1), (0, 4), (0, 5), (0, 6), (0, 7), (0, 8), (1, 22), (1, 23), (2, 8), (4, 3),
                               (4, 10), (5, 14), (10, 4), (10, 5), (11, 31)}
  }

  /** The decrees' working weekend days: 20 February 2027. */
  predicate DecreedOn(m: int, dom: int) {
    m == YEAR_2027 + 1 && dom == 20
  }

  /** The Labour Code's holidays (art. 112). */
  predicate Holiday(m: int, dom: int) {
    (m % 12, dom) in {(0, 1), (0, 2), (0, 3), (0, 4), (0, 5), (0, 6), (0, 7), (0, 8), (1, 23), (2, 8), (4, 1),
                      (4, 9), (5, 12), (10, 4)}
  }

  /** 1 January of year 1, day 366, was a Monday. */
  predicate Weekend(d: Day) {
    d % 7 == 0 || d % 7 == 1
  }

  predicate DayOff(d: Day) {
    var m, dom := MonthOf(d), DayOfMonth(d);
    if Decreed(m) then DecreedOff(m, dom) || (Weekend(d) && !DecreedOn(m, dom))
    else Holiday(m, dom) || Weekend(d)
  }

  /** The Wednesday of the month's 13th to 19th, or the Thursday when that is a decreed day off. */
  ghost function MidMonthWorkday(m: int): (w: Day)
    ensures FirstOf(m) < w < FirstOf(m + 1) && !DayOff(w)
  {
    MonthsTile(m);
    var thirteenth := FirstOf(m) + 12;
    var wed := WeekdayFrom(thirteenth, 4);
    var thu := WeekdayFrom(thirteenth, 5);
    OffMidMonth(m, wed);
    OffMidMonth(m, thu);
    if DayOff(wed) then thu else wed
  }

  /** The first such weekday from a day on. */
  function WeekdayFrom(d: Day, weekday: nat): (w: Day)
    requires weekday < 7
    ensures d <= w < d + 7 && w % 7 == weekday
  {
    d + (weekday - d) % 7
  }

  /** From the 13th to the 19th a Wednesday or Thursday is off on a 14th only. */
  lemma OffMidMonth(m: int, d: Day)
    requires FirstOf(m) + 12 <= d < FirstOf(m) + 19 && 4 <= d % 7 <= 5
    ensures d < FirstOf(m + 1) && (DayOff(d) ==> d == FirstOf(m) + 13)
  {
    hide FirstOf, MonthOf;
    MonthsTile(m);
    MonthIs(d, m);
    assert DayOfMonth(d) == d - FirstOf(m) + 1;
  }

  /** A working day always comes: the search below ends by the middle of the next month. */
  ghost function NextWorkday(d: Day): (w: Day)
    ensures d <= w && !DayOff(w)
  {
    hide DayOff;
    MidMonthWorkday(MonthOf(d) + 1)
  }

  /** `dates.Workday`: the first day from d on that is not a day off. */
  function Workday(d: Day): (w: Day)
    ensures d <= w && !DayOff(w)
    ensures forall x :: d <= x < w ==> DayOff(x)
  {
    hide DayOff;
    WorkdayUpTo(d, NextWorkday(d))
  }

  function WorkdayUpTo(d: Day, ghost bound: Day): (w: Day)
    requires d <= bound && !DayOff(bound)
    ensures d <= w <= bound && !DayOff(w)
    ensures forall x :: d <= x < w ==> DayOff(x)
    decreases bound - d
  {
    hide DayOff;
    if DayOff(d) then WorkdayUpTo(d + 1, bound) else d
  }

  /** The loop `dates.Workday` runs. */
  method FindWorkday(day: Day) returns (d: Day)
    ensures d == Workday(day)
  {
    hide DayOff, Workday;
    d := day;
    while DayOff(d)
      invariant day <= d <= Workday(day)
      decreases Workday(day) - d
    {
      d := d + 1;
    }
  }

  /** Moving deadlines off days off keeps their order. */
  lemma WorkdayMonotone(d: Day, e: Day)
    requires d <= e
    ensures Workday(d) <= Workday(e)
  {
    hide *;
    assert !(e <= Workday(e) < Workday(d));
  }
}
