/** The proleptic Gregorian calendar the program's `time.Time` days live in. A day is its
    number (day 0 is 1 January of year 0); a month is `12 * year + (month - 1)`, so that Go's
    `time.Date(y, m+n, 1)`, which carries months over into years, is `FirstOf(month + n)`. */
module Calendar {
  type Day = int

  predicate LeapYear(y: int) {
    y % 4 == 0 && (y % 100 != 0 || y % 400 == 0)
  }

  function MonthLen(m: int): (n: int)
    ensures 28 <= n <= 31
  {
    var k := m % 12;
    if k == 1 then (if LeapYear(m / 12) then 29 else 28)
    else if k == 3 || k == 5 || k == 8 || k == 10 then 30
    else 31
  }

  /** The first day of a month. */
  function FirstOf(m: int): Day
    decreases if m < 0 then -m else m
  {
    if m == 0 then 0
    else if m > 0 then FirstOf(m - 1) + MonthLen(m - 1)
    else FirstOf(m + 1) - MonthLen(m)
  }

  /** The last day of a month: Go's `time.Date(y, m+1, 0)`. */
  function LastOf(m: int): Day {
    FirstOf(m + 1) - 1
  }

  /** Months follow one another with no gap, each of its own length. */
  lemma MonthsTile(m: int)
    ensures FirstOf(m + 1) == FirstOf(m) + MonthLen(m)
  {
    hide LeapYear;
  }

  /** Months are at least 28 days apart. */
  lemma {:induction false} MonthsApart(m: int, n: int)
    requires m <= n
    ensures FirstOf(m) + 28 * (n - m) <= FirstOf(n)
    decreases n - m
  {
    hide MonthLen;
    if m < n {
      MonthsTile(n - 1);
      MonthsApart(m, n - 1);
    }
  }

  function MonthFrom(d: Day, m: int): (r: int)
    requires FirstOf(m) <= d
    ensures FirstOf(r) <= d < FirstOf(r + 1)
    decreases d - FirstOf(m)
  {
    hide MonthLen;
    MonthsTile(m);
    if d < FirstOf(m + 1) then m else MonthFrom(d, m + 1)
  }

  function MonthBack(d: Day, m: int): (r: int)
    requires d < FirstOf(m)
    ensures FirstOf(r) <= d < FirstOf(r + 1)
    decreases FirstOf(m) - d
  {
    hide MonthLen;
    MonthsTile(m - 1);
    if FirstOf(m - 1) <= d then m - 1 else MonthBack(d, m - 1)
  }

  /** The month a day falls in. */
  function MonthOf(d: Day): (m: int)
    ensures FirstOf(m) <= d < FirstOf(m + 1)
  {
    if FirstOf(0) <= d then MonthFrom(d, 0) else MonthBack(d, 0)
  }

  /** The day of the month, from 1. */
  function DayOfMonth(d: Day): (r: int)
    ensures 1 <= r <= MonthLen(MonthOf(d))
    ensures d == FirstOf(MonthOf(d)) + r - 1
  {
    hide MonthLen;
    MonthsTile(MonthOf(d));
    d - FirstOf(MonthOf(d)) + 1
  }

  /** A day is in one month only. */
  lemma MonthIs(d: Day, m: int)
    requires FirstOf(m) <= d < FirstOf(m + 1)
    ensures MonthOf(d) == m
  {
    hide *;
    var n := MonthOf(d);
    if n < m {
      MonthsApart(n + 1, m);
    } else if m < n {
      MonthsApart(m + 1, n);
    }
  }

  lemma MonthsFollowDays(d: Day, e: Day)
    requires d <= e
    ensures MonthOf(d) <= MonthOf(e)
  {
    hide *;
    if MonthOf(e) < MonthOf(d) {
      MonthsApart(MonthOf(e) + 1, MonthOf(d));
    }
  }

  /** `time.Date(y, m, dom)` for a day the month has. */
  lemma DateIs(m: int, dom: int)
    requires 1 <= dom <= MonthLen(m)
    ensures MonthOf(FirstOf(m) + dom - 1) == m
    ensures DayOfMonth(FirstOf(m) + dom - 1) == dom
  {
    hide MonthLen;
    MonthsTile(m);
    MonthIs(FirstOf(m) + dom - 1, m);
  }

  /** Go's integer division and remainder truncate toward zero. */
  function Quo(a: int, b: int): int
    requires b > 0
  {
    if a >= 0 then a / b else -((-a) / b)
  }

  function Rem(a: int, b: int): int
    requires b > 0
  {
    a - Quo(a, b) * b
  }

  /** Truncation, taken down by one when a remainder is left below zero, is the floor. */
  lemma QuoFloors(a: int, b: int)
    requires b > 0
    ensures a / b == (if a < 0 && Rem(a, b) != 0 then Quo(a, b) - 1 else Quo(a, b))
  {
    if a < 0 {
      var q, r := (-a) / b, (-a) % b;
      assert Rem(a, b) == -r;
      if r == 0 {
        DivIs(a, b, -q, 0);
      } else {
        DivIs(a, b, -q - 1, b - r);
      }
    }
  }

  lemma DivIs(a: int, b: int, q: int, r: int)
    requires b > 0 && 0 <= r < b && a == q * b + r
    ensures a / b == q && a % b == r
  {
    var d := q - a / b;
    assert d * b == a % b - r by {
      assert d * b == q * b - (a / b) * b;
    }
    MultipleAtLeast(d, b);
  }

  lemma MultipleAtLeast(d: int, b: int)
    requires b > 0
    ensures d >= 1 ==> d * b >= b
    ensures d <= -1 ==> d * b <= -b
  {
    if d >= 1 {
      assert (d - 1) * b >= 0;
    } else if d <= -1 {
      assert (-d - 1) * b >= 0;
    }
  }
}
