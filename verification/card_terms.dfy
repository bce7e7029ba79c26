/** A credit card's terms: the statement periods and windows its days fall in, and the days
    its purchases and minimums are to be paid by. */
module CardTerms {
  import opened Calendar
  import opened Rounding
  import Workdays

  datatype GraceKind = FromStatement | Long | Windows | Running
  datatype RunFrom = FromPurchase | FromNextDay | FromMonthStart

  /** How a purchase is split: so many monthly parts, each with a percent, the first with the fee. */
  datatype Plan = Plan(months: int, monthlyFeePercent: real, fee: int) {
    predicate Valid() {
      0 <= months && 0.0 <= monthlyFeePercent && 0 <= fee
    }
  }

  datatype Terms = Terms(
    limit: int,
    statementDay: int,
    paymentDays: int,
    graceKind: GraceKind,
    graceDays: int,
    minPercent: real,
    minFloor: int,
    windowMonths: int,
    graceMonths: int,
    openedOn: Option<Day>,
    runFrom: RunFrom,
    graceAllLost: bool,
    missedMinimumPeriod: bool,
    payByPeriodEnd: bool,
    payDay: int,
    minRoundUp: int,
    chargesInFull: bool,
    graceMoves: bool,
    gracePeriods: int,
    graceToMonthEnd: bool,
    extendDays: int,
    extendFree: bool,
    shiftToWorkday: bool,
    penaltyFromDay: int,
    installment: Plan)
  {
    /** What `Terms.Validate` asks of the terms the walk reads. */
    predicate Valid() {
      && 0 <= limit
      && 1 <= statementDay <= 31
      && 0 <= paymentDays <= 60
      && ((graceKind == Long || graceKind == Running) ==> 1 <= graceDays <= 1100)
      && (graceKind == Windows ==> 1 <= windowMonths <= 12 && windowMonths <= graceMonths <= 36 && openedOn.Some?)
      && 0 <= gracePeriods <= 12
      && (extendDays != 0 ==> graceKind == Running && graceDays < extendDays)
      && 0.0 <= minPercent <= 100.0
      && 0 <= minFloor
      && 0 <= minRoundUp
      && 0 <= payDay <= 31
      && (payDay > 0 ==> !payByPeriodEnd)
      && installment.Valid()
    }

    /** The statement day in a month: StatementDay, or the month's last when it is shorter. */
    function StatementOn(m: int): Day {
      FirstOf(m) + Min(statementDay, MonthLen(m)) - 1
    }

    /** The statements on either side of a day, its own belonging to it. */
    function Period(d: Day): (Day, Day) {
      var here := StatementOn(MonthOf(d));
      var start := if here > d then StatementOn(MonthOf(d - DayOfMonth(d))) else here;
      (start, StatementOn(MonthOf(start) + 1))
    }

    /** Counted in months from a statement, the n-th later one. */
    function StatementAfter(s: Day, n: int): Day {
      StatementOn(MonthOf(s) + n)
    }

    function Shifted(d: Day): Day {
      if shiftToWorkday then Workdays.Workday(d) else d
    }

    /** PayDay in a month, cut to the month's length. */
    function PayDayOf(m: int): Day {
      FirstOf(m) + Min(payDay, MonthLen(m)) - 1
    }

    /** The first pay day after s from month m on. */
    function PayDayFrom(s: Day, m: int): (d: Day)
      requires 1 <= payDay && m <= MonthOf(s) + 1
      ensures s < d
      decreases MonthOf(s) + 1 - m
    {
      PayDayInMonth(this, m);
      if PayDayOf(m) > s then PayDayOf(m)
      else
        assert m <= MonthOf(s) by { if m == MonthOf(s) + 1 { MonthIs(s, MonthOf(s)); } }
        PayDayFrom(s, m + 1)
    }

    /** By which day a statement asks for its payment: one rule of three. */
    function DueOn(s: Day): Day
      requires Valid()
    {
      if payByPeriodEnd then Shifted(StatementAfter(s, 1) - 1)
      else if payDay > 0 then Shifted(PayDayFrom(s, MonthOf(s)))
      else Shifted(s + paymentDays)
    }

    /** The block of `windowMonths` statements holding a day, blocks being laid both ways from the
        contract's own period. */
    function Window(d: Day): (Day, Day)
      requires Valid() && graceKind == Windows
    {
      var first := Period(openedOn.value).0;
      var at := Period(d).0;
      var n := MonthOf(at) - MonthOf(first);
      var k := if n < 0 && Rem(n, windowMonths) != 0 then Quo(n, windowMonths) - 1 else Quo(n, windowMonths);
      var start := StatementAfter(first, k * windowMonths);
      (start, StatementAfter(start, windowMonths))
    }

    /** The stretch whose purchases have one deadline. */
    function Group(d: Day): (Day, Day)
      requires Valid()
    {
      if graceKind == Windows then Window(d) else Period(d)
    }

    function ToMonthEnd(d: Day): Day {
      if graceToMonthEnd then LastOf(MonthOf(d)) else d
    }

    /** When the grace of a purchase ends, by the kind of grace. */
    function Deadline(d: Day, periods: int): Day
      requires Valid()
    {
      var (start, end) := Period(d);
      match graceKind
      case Long => Shifted(ToMonthEnd(start + graceDays - 1))
      case Windows => Shifted(StatementAfter(Window(d).0, graceMonths) - 1)
      case _ => DueOn(StatementAfter(end, periods))
    }

    /** Where a running grace starts when d is its first purchase. */
    function RunStart(d: Day): Day {
      match runFrom
      case FromPurchase => d
      case FromNextDay => d + 1
      case FromMonthStart => FirstOf(MonthOf(d))
    }

    /** What a statement of such a debt asks for at least. */
    function Minimum(debt: int, charges: int): int {
      if debt <= 0 then 0
      else
        var inFull := if chargesInFull then Min(Max(charges, 0), debt) else 0;
        var share := PercentOf(debt - inFull, minPercent);
        Min(RoundUpTo(Max(share, minFloor) + inFull, minRoundUp), debt)
    }
  }

  function PercentOf(amount: int, percent: real): int {
    Round(amount as real * percent / 100.0)
  }

  /** n raised to a multiple of r; itself when r is 0. */
  function RoundUpTo(n: int, r: int): int {
    if r > 0 && n % r != 0 then n + r - n % r else n
  }

  lemma PayDayInMonth(t: Terms, m: int)
    requires 1 <= t.payDay
    ensures FirstOf(m) <= t.PayDayOf(m) < FirstOf(m + 1)
  {
    hide MonthLen;
    MonthsTile(m);
  }

  // ---- The statement periods tile the calendar ----

  /** Statement days stay in their month, so they follow one another as the months do. */
  lemma StatementInMonth(t: Terms, m: int)
    requires t.Valid()
    ensures FirstOf(m) <= t.StatementOn(m) < FirstOf(m + 1)
    ensures MonthOf(t.StatementOn(m)) == m
  {
    hide MonthLen;
    MonthsTile(m);
    MonthIs(t.StatementOn(m), m);
  }

  lemma StatementsIncrease(t: Terms, m: int, n: int)
    requires t.Valid() && m <= n
    ensures t.StatementOn(m) <= t.StatementOn(n)
    ensures m < n ==> t.StatementOn(m) < t.StatementOn(n)
  {
    hide *;
    StatementInMonth(t, m);
    StatementInMonth(t, n);
    if m < n {
      MonthsApart(m + 1, n);
    }
  }

  /** The month whose statement opens d's period. */
  function PeriodMonth(t: Terms, d: Day): int {
    if t.StatementOn(MonthOf(d)) > d then MonthOf(d) - 1 else MonthOf(d)
  }

  lemma PeriodByMonth(t: Terms, d: Day)
    requires t.Valid()
    ensures t.Period(d) == (t.StatementOn(PeriodMonth(t, d)), t.StatementOn(PeriodMonth(t, d) + 1))
    ensures t.Period(d).0 <= d < t.Period(d).1
  {
    hide MonthLen, FirstOf, MonthFrom, MonthBack;
    var m := MonthOf(d);
    MonthsTile(m - 1);
    MonthIs(d - DayOfMonth(d), m - 1);
    StatementInMonth(t, m - 1);
    StatementInMonth(t, m);
    StatementInMonth(t, m + 1);
  }

  /** A day between two statements in a row is in the period they bound. */
  lemma PeriodIs(t: Terms, d: Day, p: int)
    requires t.Valid() && t.StatementOn(p) <= d < t.StatementOn(p + 1)
    ensures PeriodMonth(t, d) == p
    ensures t.Period(d) == (t.StatementOn(p), t.StatementOn(p + 1))
  {
    hide *;
    PeriodByMonth(t, d);
    var q := PeriodMonth(t, d);
    if q < p {
      StatementsIncrease(t, q + 1, p);
    } else if p < q {
      StatementsIncrease(t, p + 1, q);
    }
  }

  /** Every day is in exactly one period: its own holds it, each day of a period has that very
      period, and the next period starts the day this one ends. */
  lemma PeriodsTile(t: Terms, d: Day)
    requires t.Valid()
    ensures t.Period(d).0 <= d < t.Period(d).1
    ensures forall e :: t.Period(d).0 <= e < t.Period(d).1 <==> t.Period(e) == t.Period(d)
    ensures t.Period(t.Period(d).1).0 == t.Period(d).1
  {
    hide *;
    PeriodByMonth(t, d);
    var p := PeriodMonth(t, d);
    forall e ensures t.Period(d).0 <= e < t.Period(d).1 <==> t.Period(e) == t.Period(d) {
      PeriodByMonth(t, e);
      if t.Period(d).0 <= e < t.Period(d).1 {
        PeriodIs(t, e, p);
      }
    }
    StatementsIncrease(t, p + 1, p + 2);
    PeriodIs(t, t.StatementOn(p + 1), p + 1);
  }

  lemma PeriodMonthMonotone(t: Terms, d: Day, e: Day)
    requires t.Valid() && d <= e
    ensures PeriodMonth(t, d) <= PeriodMonth(t, e)
  {
    hide *;
    PeriodByMonth(t, d);
    PeriodByMonth(t, e);
    if PeriodMonth(t, e) < PeriodMonth(t, d) {
      StatementsIncrease(t, PeriodMonth(t, e) + 1, PeriodMonth(t, d));
    }
  }

  // ---- The windows tile the calendar ----

  /** The number of d's window, counted from the one of OpenedOn. */
  function WindowIndex(t: Terms, d: Day): int
    requires t.Valid() && t.graceKind == Windows
  {
    (PeriodMonth(t, d) - PeriodMonth(t, t.openedOn.value)) / t.windowMonths
  }

  /** The month whose statement opens the k-th window. */
  function WindowMonth(t: Terms, k: int): int
    requires t.Valid() && t.graceKind == Windows
  {
    PeriodMonth(t, t.openedOn.value) + k * t.windowMonths
  }

  lemma WindowByIndex(t: Terms, d: Day)
    requires t.Valid() && t.graceKind == Windows
    ensures var k := WindowIndex(t, d);
            && t.Window(d) == (t.StatementOn(WindowMonth(t, k)), t.StatementOn(WindowMonth(t, k) + t.windowMonths))
            && WindowMonth(t, k) <= PeriodMonth(t, d) < WindowMonth(t, k) + t.windowMonths
  {
    hide Terms.StatementOn, Terms.Period, Terms.StatementAfter, PeriodMonth, MonthOf, Quo, Rem;
    var p0, p := PeriodMonth(t, t.openedOn.value), PeriodMonth(t, d);
    PeriodByMonth(t, t.openedOn.value);
    PeriodByMonth(t, d);
    StatementInMonth(t, p0);
    StatementInMonth(t, p);
    QuoFloors(p - p0, t.windowMonths);
    FloorBounds(p - p0, t.windowMonths);
    var k := (p - p0) / t.windowMonths;
    StatementAfterIs(t, p0, k * t.windowMonths);
    StatementAfterIs(t, p0 + k * t.windowMonths, t.windowMonths);
  }

  lemma StatementAfterIs(t: Terms, m: int, n: int)
    requires t.Valid()
    ensures t.StatementAfter(t.StatementOn(m), n) == t.StatementOn(m + n)
  {
    hide Terms.StatementOn, MonthOf;
    StatementInMonth(t, m);
  }

  lemma FloorBounds(n: int, w: int)
    requires w > 0
    ensures n / w * w <= n < n / w * w + w
  {
  }

  lemma FloorUnique(n: int, w: int, k: int)
    requires w > 0 && k * w <= n < k * w + w
    ensures n / w == k
  {
    DivIs(n, w, k, n - k * w);
  }

  /** Every day, those before the contract's too, is in exactly one window, and the next window
      starts the day this one ends. */
  lemma WindowsTile(t: Terms, d: Day)
    requires t.Valid() && t.graceKind == Windows
    ensures t.Window(d).0 <= d < t.Window(d).1
    ensures forall e :: t.Window(d).0 <= e < t.Window(d).1 <==> t.Window(e) == t.Window(d)
    ensures t.Window(t.Window(d).1).0 == t.Window(d).1
  {
    hide *;
    WindowHolds(t, d);
    forall e ensures t.Window(d).0 <= e < t.Window(d).1 <==> t.Window(e) == t.Window(d) {
      WindowHolds(t, e);
      if t.Window(d).0 <= e < t.Window(d).1 {
        WindowOf(t, e, WindowIndex(t, d));
      }
    }
    WindowEnds(t, d);
  }

  lemma WindowHolds(t: Terms, d: Day)
    requires t.Valid() && t.graceKind == Windows
    ensures t.Window(d).0 <= d < t.Window(d).1
    ensures t.Window(d)
            == (t.StatementOn(WindowMonth(t, WindowIndex(t, d))),
                t.StatementOn(WindowMonth(t, WindowIndex(t, d)) + t.windowMonths))
  {
    hide *;
    WindowByIndex(t, d);
    PeriodByMonth(t, d);
    var at := WindowMonth(t, WindowIndex(t, d));
    StatementsIncrease(t, at, PeriodMonth(t, d));
    StatementsIncrease(t, PeriodMonth(t, d) + 1, at + t.windowMonths);
  }

  /** A day between a window's bounds is in that window. */
  lemma WindowOf(t: Terms, e: Day, k: int)
    requires t.Valid() && t.graceKind == Windows
    requires t.StatementOn(WindowMonth(t, k)) <= e < t.StatementOn(WindowMonth(t, k) + t.windowMonths)
    ensures WindowIndex(t, e) == k
    ensures t.Window(e) == (t.StatementOn(WindowMonth(t, k)), t.StatementOn(WindowMonth(t, k) + t.windowMonths))
  {
    hide Terms.StatementOn, Terms.Period, Terms.Window, PeriodMonth, Quo, Rem;
    var p, at := PeriodMonth(t, e), WindowMonth(t, k);
    PeriodByMonth(t, e);
    if p < at {
      StatementsIncrease(t, p + 1, at);
    } else if at + t.windowMonths <= p {
      StatementsIncrease(t, at + t.windowMonths, p);
    }
    FloorUnique(p - PeriodMonth(t, t.openedOn.value), t.windowMonths, k);
    WindowByIndex(t, e);
  }

  lemma WindowEnds(t: Terms, d: Day)
    requires t.Valid() && t.graceKind == Windows
    ensures t.Window(t.Window(d).1).0 == t.Window(d).1
  {
    hide Terms.StatementOn, Terms.Period, Terms.Window, PeriodMonth, WindowIndex, Quo, Rem;
    WindowHolds(t, d);
    var k := WindowIndex(t, d);
    assert WindowMonth(t, k + 1) == WindowMonth(t, k) + t.windowMonths by {
      assert (k + 1) * t.windowMonths == k * t.windowMonths + t.windowMonths;
    }
    StatementsIncrease(t, WindowMonth(t, k + 1), WindowMonth(t, k + 1) + t.windowMonths);
    WindowOf(t, t.StatementOn(WindowMonth(t, k + 1)), k + 1);
  }

  // ---- Deadlines keep the order of the purchases ----

  lemma ShiftedMonotone(t: Terms, d: Day, e: Day)
    requires d <= e
    ensures t.Shifted(d) <= t.Shifted(e)
    ensures d <= t.Shifted(d)
  {
    hide Workdays.Workday;
    Workdays.WorkdayMonotone(d, e);
  }

  /** The pay day search finds the first pay day after the statement. */
  lemma {:induction false} PayDayIsFirst(t: Terms, s: Day, m: int)
    requires t.Valid() && t.payDay > 0 && m <= MonthOf(s) + 1
    ensures exists n :: n >= m && t.PayDayFrom(s, m) == t.PayDayOf(n)
    ensures forall n :: n >= m && s < t.PayDayOf(n) ==> t.PayDayFrom(s, m) <= t.PayDayOf(n)
    decreases MonthOf(s) + 1 - m
  {
    hide Terms.PayDayOf, FirstOf, MonthLen, MonthOf;
    PayDayInMonth(t, m);
    if t.PayDayOf(m) > s {
      forall n | n >= m ensures t.PayDayOf(m) <= t.PayDayOf(n) {
        PayDayInMonth(t, n);
        if m < n {
          MonthsApart(m + 1, n);
        }
      }
    } else {
      PayDayIsFirst(t, s, m + 1);
    }
  }

  /** The pay-day loop `dueOn` runs: it ends, with the day the search defines. */
  method SearchPayDay(t: Terms, s: Day) returns (d: Day)
    requires t.Valid() && t.payDay > 0
    ensures d == t.PayDayFrom(s, MonthOf(s))
    ensures s < d && exists m :: d == t.PayDayOf(m)
    ensures forall m :: m >= MonthOf(s) && s < t.PayDayOf(m) ==> d <= t.PayDayOf(m)
  {
    var m := MonthOf(s);
    PayDayIsFirst(t, s, m);
    PayDayInMonth(t, MonthOf(s) + 1);
    while t.PayDayOf(m) <= s
      invariant MonthOf(s) <= m <= MonthOf(s) + 1
      invariant t.PayDayFrom(s, m) == t.PayDayFrom(s, MonthOf(s))
      decreases MonthOf(s) + 1 - m
    {
      m := m + 1;
    }
    d := t.PayDayOf(m);
  }

  lemma PayDayMonotone(t: Terms, s: Day, u: Day)
    requires t.Valid() && t.payDay > 0 && s <= u
    ensures t.PayDayFrom(s, MonthOf(s)) <= t.PayDayFrom(u, MonthOf(u))
  {
    hide *;
    MonthsFollowDays(s, u);
    PayDayIsFirst(t, s, MonthOf(s));
    PayDayIsFirst(t, u, MonthOf(u));
  }

  lemma DueOnMonotone(t: Terms, m: int, n: int)
    requires t.Valid() && m <= n
    ensures t.DueOn(t.StatementOn(m)) <= t.DueOn(t.StatementOn(n))
  {
    hide Terms.StatementOn, Terms.Shifted, Terms.PayDayFrom, MonthOf, Workdays.Workday;
    var s, u := t.StatementOn(m), t.StatementOn(n);
    StatementsIncrease(t, m, n);
    if t.payByPeriodEnd {
      StatementInMonth(t, m);
      StatementInMonth(t, n);
      StatementsIncrease(t, m + 1, n + 1);
      ShiftedMonotone(t, t.StatementAfter(s, 1) - 1, t.StatementAfter(u, 1) - 1);
    } else if t.payDay > 0 {
      PayDayMonotone(t, s, u);
      ShiftedMonotone(t, t.PayDayFrom(s, MonthOf(s)), t.PayDayFrom(u, MonthOf(u)));
    } else {
      ShiftedMonotone(t, s + t.paymentDays, u + t.paymentDays);
    }
  }

  lemma ToMonthEndMonotone(t: Terms, d: Day, e: Day)
    requires d <= e
    ensures t.ToMonthEnd(d) <= t.ToMonthEnd(e)
    ensures d <= t.ToMonthEnd(d)
  {
    hide FirstOf, MonthLen, MonthOf;
    MonthsFollowDays(d, e);
    MonthsApart(MonthOf(d) + 1, MonthOf(e) + 1);
  }

  /** For one grace and one number of statements later, a later purchase is never due earlier. */
  lemma DeadlineMonotone(t: Terms, d: Day, e: Day, periods: int)
    requires t.Valid() && d <= e
    ensures t.Deadline(d, periods) <= t.Deadline(e, periods)
  {
    if t.graceKind == Long {
      LongMonotone(t, d, e);
    } else if t.graceKind == Windows {
      WindowsMonotone(t, d, e);
    } else {
      StatementMonotone(t, d, e, periods);
    }
  }

  lemma LongMonotone(t: Terms, d: Day, e: Day)
    requires t.Valid() && d <= e && t.graceKind == Long
    ensures forall periods :: t.Deadline(d, periods) <= t.Deadline(e, periods)
  {
    hide Terms.StatementOn, Terms.Shifted, Terms.ToMonthEnd, Terms.Period, PeriodMonth;
    PeriodByMonth(t, d);
    PeriodByMonth(t, e);
    PeriodMonthMonotone(t, d, e);
    StatementsIncrease(t, PeriodMonth(t, d), PeriodMonth(t, e));
    var a, b := t.Period(d).0 + t.graceDays - 1, t.Period(e).0 + t.graceDays - 1;
    ToMonthEndMonotone(t, a, b);
    ShiftedMonotone(t, t.ToMonthEnd(a), t.ToMonthEnd(b));
  }

  lemma WindowsMonotone(t: Terms, d: Day, e: Day)
    requires t.Valid() && d <= e && t.graceKind == Windows
    ensures forall periods :: t.Deadline(d, periods) <= t.Deadline(e, periods)
  {
    hide Terms.StatementOn, Terms.Shifted, Terms.Period, Terms.Window, MonthOf, WindowIndex, WindowMonth;
    WindowHolds(t, d);
    WindowHolds(t, e);
    WindowMonthMonotone(t, d, e);
    var a, b := WindowMonth(t, WindowIndex(t, d)), WindowMonth(t, WindowIndex(t, e));
    StatementInMonth(t, a);
    StatementInMonth(t, b);
    StatementsIncrease(t, a + t.graceMonths, b + t.graceMonths);
    ShiftedMonotone(t, t.StatementOn(a + t.graceMonths) - 1, t.StatementOn(b + t.graceMonths) - 1);
  }

  lemma StatementMonotone(t: Terms, d: Day, e: Day, periods: int)
    requires t.Valid() && d <= e && t.graceKind != Long && t.graceKind != Windows
    ensures t.Deadline(d, periods) <= t.Deadline(e, periods)
  {
    hide Terms.StatementOn, Terms.DueOn, Terms.Period, MonthOf, PeriodMonth;
    PeriodByMonth(t, d);
    PeriodByMonth(t, e);
    PeriodMonthMonotone(t, d, e);
    var p, q := PeriodMonth(t, d), PeriodMonth(t, e);
    StatementInMonth(t, p + 1);
    StatementInMonth(t, q + 1);
    DueOnMonotone(t, p + 1 + periods, q + 1 + periods);
  }

  lemma WindowMonthMonotone(t: Terms, d: Day, e: Day)
    requires t.Valid() && t.graceKind == Windows && d <= e
    ensures WindowMonth(t, WindowIndex(t, d)) <= WindowMonth(t, WindowIndex(t, e))
  {
    hide PeriodMonth;
    PeriodMonthMonotone(t, d, e);
    var p0 := PeriodMonth(t, t.openedOn.value);
    FloorMonotone(PeriodMonth(t, d) - p0, PeriodMonth(t, e) - p0, t.windowMonths);
  }

  lemma FloorMonotone(a: int, b: int, w: int)
    requires w > 0 && a <= b
    ensures a / w <= b / w && a / w * w <= b / w * w
  {
    FloorBounds(a, w);
    FloorBounds(b, w);
    MultipleAtLeast(a / w - b / w, w);
  }

  // ---- The minimum ----

  /** The minimum never exceeds the debt and is nothing without one. Short of the whole debt it holds,
      above the charges taken in full, the floor and the percent of the rest to within half a unit,
      passes the greater of them only to be the next multiple of MinRoundUp, and is that multiple. */
  lemma MinimumBounds(t: Terms, debt: int, charges: int)
    requires t.Valid()
    ensures 0 <= t.Minimum(debt, charges) <= Max(debt, 0)
    ensures t.Minimum(debt, charges) < debt ==>
              && t.minFloor <= t.Minimum(debt, charges)
              && (t.chargesInFull ==> Max(charges, 0) <= t.Minimum(debt, charges))
              && (t.minRoundUp > 0 ==> t.Minimum(debt, charges) % t.minRoundUp == 0)
    ensures t.Minimum(debt, charges) < debt ==>
              var inFull := if t.chargesInFull then Max(charges, 0) else 0;
              var share := (debt - inFull) as real * t.minPercent / 100.0;
              && t.minFloor + inFull <= t.Minimum(debt, charges)
              && share - 0.5 <= (t.Minimum(debt, charges) - inFull) as real
              && ((t.Minimum(debt, charges) - inFull - Max(t.minRoundUp, 1)) as real < share + 0.5
                  || t.Minimum(debt, charges) - inFull - Max(t.minRoundUp, 1) < t.minFloor)
  {
    hide PercentOf, Terms.Minimum;
    if debt > 0 {
      var inFull := if t.chargesInFull then Min(Max(charges, 0), debt) else 0;
      PercentNear(debt - inFull, t.minPercent);
      MinimumBetween(t, debt, charges, inFull);
    } else {
      NoMinimum(t, debt, charges);
    }
  }

  lemma NoMinimum(t: Terms, debt: int, charges: int)
    requires debt <= 0
    ensures t.Minimum(debt, charges) == 0
  {
  }

  lemma MinimumBetween(t: Terms, debt: int, charges: int, inFull: int)
    requires t.Valid() && 0 < debt && inFull == if t.chargesInFull then Min(Max(charges, 0), debt) else 0
    ensures var whole := Max(PercentOf(debt - inFull, t.minPercent), t.minFloor) + inFull;
            && 0 <= t.Minimum(debt, charges) <= debt
            && (t.Minimum(debt, charges) < debt ==>
                  && whole <= t.Minimum(debt, charges) < whole + Max(t.minRoundUp, 1)
                  && (t.minRoundUp > 0 ==> t.Minimum(debt, charges) % t.minRoundUp == 0))
  {
    hide PercentOf, RoundUpTo;
    PercentNear(debt - inFull, t.minPercent);
    RoundUpIsMultiple(Max(PercentOf(debt - inFull, t.minPercent), t.minFloor) + inFull, t.minRoundUp);
  }

  lemma PercentNear(amount: int, percent: real)
    requires 0 <= amount && 0.0 <= percent
    ensures 0 <= PercentOf(amount, percent)
    ensures PercentOf(amount, percent) as real - 0.5 <= amount as real * percent / 100.0
            <= PercentOf(amount, percent) as real + 0.5
  {
    assert 0.0 <= amount as real * percent;
  }

  lemma RoundUpIsMultiple(n: int, r: int)
    ensures n <= RoundUpTo(n, r) < n + Max(r, 1)
    ensures r > 0 ==> RoundUpTo(n, r) % r == 0
  {
    if r > 0 && n % r != 0 {
      DivIs(n + r - n % r, r, n / r + 1, 0);
    }
  }
}
