/** The day loop of `interest.Earned`, as the state it is in after each day, and what it keeps. */
module Interest {
  import opened Calendar
  import opened Rounding

  datatype Point = Point(on: Day, minor: int)
  datatype Pays = Pays(monthly: bool, capitalize: bool, ends: Option<Day>)
  datatype Payment = Payment(on: Day, minor: int)

  /** The yearly percent for a day and the balance held on it, when there is one. */
  type RateOn = (Day, int) -> Option<real>

  /** The loop's variables: interest not yet paid, the last mark and what capitalizing added to it,
      how many marks are used, the payments, and the unrated day that ended it, if any. */
  datatype Account = Account(accrued: real, base: int, added: int, next: nat, out: seq<Payment>, unrated: Option<Day>)

  const OPENED := Account(0.0, 0, 0, 0, [], None)

  /** The marks of the balance up to the day, from the next one on. */
  function Marked(points: seq<Point>, s: Account, day: Day): (r: Account)
    ensures r == s.(base := r.base, added := r.added, next := r.next)
    decreases |points| - s.next
  {
    if s.next < |points| && points[s.next].on <= day
    then Marked(points, s.(base := points[s.next].minor, added := 0, next := s.next + 1), day)
    else s
  }

  function DaysInYear(day: Day): int {
    if LeapYear(MonthOf(day) / 12) then 366 else 365
  }

  function DayInterest(balance: int, percent: real, day: Day): real {
    balance as real * percent / 100.0 / DaysInYear(day) as real
  }

  predicate MonthEnd(day: Day) {
    MonthOf(day + 1) != MonthOf(day)
  }

  predicate PayDay(pays: Pays, day: Day) {
    (pays.monthly && MonthEnd(day)) || pays.ends == Some(day)
  }

  /** The day's interest on the balance held. */
  function Accrue(s: Account, percent: Option<real>, day: Day): Account {
    var balance := s.base + s.added;
    if balance <= 0 then s
    else if percent.None? then s.(unrated := Some(day))
    else s.(accrued := s.accrued + DayInterest(balance, percent.value, day))
  }

  /** On a pay day what is accrued is rounded once and paid, and added to the balance when the
      account capitalizes. */
  function Settle(s: Account, pays: Pays, day: Day): Account {
    if !PayDay(pays, day) then s
    else
      var paid := Round(s.accrued);
      if paid <= 0 then s.(accrued := 0.0)
      else s.(accrued := 0.0, out := s.out + [Payment(day, paid)],
              added := if pays.capitalize then s.added + paid else s.added)
  }

  function DayStep(points: seq<Point>, rate: RateOn, pays: Pays, s: Account, day: Day): Account {
    if s.unrated.Some? then s
    else
      var m := Marked(points, s, day);
      var a := Accrue(m, rate(day, m.base + m.added), day);
      if a.unrated.Some? then a else Settle(a, pays, day)
  }

  /** The account after each day from `from` to `day`. */
  function EarnedTo(points: seq<Point>, rate: RateOn, pays: Pays, from: Day, day: Day): Account
    decreases day - from
  {
    if day < from then OPENED else DayStep(points, rate, pays, EarnedTo(points, rate, pays, from, day - 1), day)
  }

  /** The stretch's last day: a deposit earns nothing after its own. */
  function LastDay(pays: Pays, until: Day): Day {
    if pays.ends.Some? && pays.ends.value < until then pays.ends.value else until
  }

  function Paid(out: seq<Payment>): int {
    if out == [] then 0 else Paid(out[..|out| - 1]) + out[|out| - 1].minor
  }

  lemma PaidPush(out: seq<Payment>, p: Payment)
    ensures Paid(out + [p]) == Paid(out) + p.minor
  {
    assert (out + [p])[..|out|] == out;
  }

  // ---- A monthly payer's stretch split at a month's end ----

  /** The marks from a month's end on: the balance then held, and those still to come. */
  function Restarted(points: seq<Point>, s: Account, day: Day): seq<Point>
    requires s.next <= |points|
  {
    [Point(day, s.base + s.added)] + points[s.next..]
  }

  /** Two accounts hold alike: the same balance and accrual, the second having made the payments
      the first has made since. */
  predicate Alike(a: Account, b: Account, before: seq<Payment>, skipped: int) {
    && a.accrued == b.accrued && a.base + a.added == b.base + b.added
    && a.out == before + b.out && a.unrated == b.unrated && a.next == skipped + b.next - 1
  }

  lemma {:induction false} MarkedBounds(points: seq<Point>, s: Account, day: Day)
    requires s.next <= |points|
    ensures s.next <= Marked(points, s, day).next <= |points|
    decreases |points| - s.next
  {
    if s.next < |points| && points[s.next].on <= day {
      MarkedBounds(points, s.(base := points[s.next].minor, added := 0, next := s.next + 1), day);
    }
  }

  lemma {:induction false} MarkedAlike(points: seq<Point>, rest: seq<Point>, a: Account, b: Account,
            before: seq<Payment>, skipped: nat, day: Day)
    requires a.next <= |points| && 0 < b.next <= |rest| && |rest| == |points| - skipped + 1
    requires forall i :: 1 <= i < |rest| ==> rest[i] == points[skipped + i - 1]
    requires Alike(a, b, before, skipped)
    ensures Alike(Marked(points, a, day), Marked(rest, b, day), before, skipped)
    ensures 0 < Marked(rest, b, day).next
    decreases |points| - a.next
  {
    if a.next < |points| && points[a.next].on <= day {
      MarkedAlike(points, rest, a.(base := points[a.next].minor, added := 0, next := a.next + 1),
                  b.(base := rest[b.next].minor, added := 0, next := b.next + 1), before, skipped, day);
    }
  }

  lemma SettleAlike(a: Account, b: Account, before: seq<Payment>, skipped: nat, rate: RateOn, pays: Pays, day: Day)
    requires Alike(a, b, before, skipped) && a.unrated.None?
    ensures var x, y := Accrue(a, rate(day, a.base + a.added), day), Accrue(b, rate(day, b.base + b.added), day);
            && Alike(x, y, before, skipped)
            && Alike(Settle(x, pays, day), Settle(y, pays, day), before, skipped)
  {
    hide DayInterest, PayDay, Round;
    var x, y := Accrue(a, rate(day, a.base + a.added), day), Accrue(b, rate(day, b.base + b.added), day);
    var paid := Round(x.accrued);
    assert before + b.out + [Payment(day, paid)] == before + (b.out + [Payment(day, paid)]);
  }

  lemma {:induction false} NextBounds(points: seq<Point>, rate: RateOn, pays: Pays, from: Day, day: Day)
    ensures EarnedTo(points, rate, pays, from, day).next <= |points|
    decreases day - from
  {
    hide Accrue, Settle, Marked;
    if from <= day {
      NextBounds(points, rate, pays, from, day - 1);
      var s := EarnedTo(points, rate, pays, from, day - 1);
      MarkedBounds(points, s, day);
      KeepsNext(Marked(points, s, day), rate, pays, day);
    }
  }

  lemma KeepsNext(s: Account, rate: RateOn, pays: Pays, day: Day)
    ensures var x := Accrue(s, rate(day, s.base + s.added), day);
            x.next == s.next && Settle(x, pays, day).next == s.next
  {
    hide DayInterest, PayDay, Round;
  }

  /** The first day after the split: the restarted account meets the balance as its first mark. */
  lemma RestartAlike(points: seq<Point>, s: Account, day: Day)
    requires s.next <= |points| && s.unrated.None? && s.accrued == 0.0
    ensures Alike(Marked(points, s, day), Marked(Restarted(points, s, day), OPENED, day), s.out, s.next)
    ensures 0 < Marked(Restarted(points, s, day), OPENED, day).next
  {
    var rest := Restarted(points, s, day);
    var b := OPENED.(base := s.base + s.added, added := 0, next := 1);
    assert Marked(rest, OPENED, day) == Marked(rest, b, day);
    MarkedAlike(points, rest, s, b, s.out, s.next, day);
  }

  /** Reckoning a monthly payer's stretch is reckoning it to a month's end and then again from the
      balance then held: the payments of the two together are the payments of the whole. */
  lemma {:induction false} SplitsAtMonthEnd(points: seq<Point>, rate: RateOn, pays: Pays, from: Day, mid: Day, day: Day)
    requires pays.monthly && MonthEnd(mid) && from <= mid < day
    requires EarnedTo(points, rate, pays, from, mid).unrated.None?
    ensures var s := EarnedTo(points, rate, pays, from, mid);
            && s.next <= |points|
            && var again := EarnedTo(Restarted(points, s, mid + 1), rate, pays, mid + 1, day);
               0 < again.next && Alike(EarnedTo(points, rate, pays, from, day), again, s.out, s.next)
    decreases day - mid
  {
    hide DayStep, Alike, MonthEnd;
    var s := EarnedTo(points, rate, pays, from, mid);
    NextBounds(points, rate, pays, from, mid);
    var rest := Restarted(points, s, mid + 1);
    if day == mid + 1 {
      AllPaid(points, rate, pays, from, mid);
      RestartStep(points, s, rate, pays, day);
      assert EarnedTo(rest, rate, pays, mid + 1, mid) == OPENED;
    } else {
      SplitsAtMonthEnd(points, rate, pays, from, mid, day - 1);
      NextBounds(points, rate, pays, from, day - 1);
      NextBounds(rest, rate, pays, mid + 1, day - 1);
      StepAlike(points, rest, EarnedTo(points, rate, pays, from, day - 1), EarnedTo(rest, rate, pays, mid + 1, day - 1),
                s.out, s.next, rate, pays, day);
    }
  }

  lemma RestartStep(points: seq<Point>, s: Account, rate: RateOn, pays: Pays, day: Day)
    requires s.next <= |points| && s.unrated.None? && s.accrued == 0.0
    ensures var again := DayStep(Restarted(points, s, day), rate, pays, OPENED, day);
            0 < again.next && Alike(DayStep(points, rate, pays, s, day), again, s.out, s.next)
  {
    hide Accrue, Settle, Marked, Restarted;
    RestartAlike(points, s, day);
    var a, b := Marked(points, s, day), Marked(Restarted(points, s, day), OPENED, day);
    SettleAlike(a, b, s.out, s.next, rate, pays, day);
    KeepsNext(b, rate, pays, day);
  }

  lemma StepAlike(points: seq<Point>, rest: seq<Point>, a: Account, b: Account, before: seq<Payment>, skipped: nat,
                  rate: RateOn, pays: Pays, day: Day)
    requires a.next <= |points| && 0 < b.next <= |rest| && |rest| == |points| - skipped + 1
    requires forall i :: 1 <= i < |rest| ==> rest[i] == points[skipped + i - 1]
    requires Alike(a, b, before, skipped)
    ensures var again := DayStep(rest, rate, pays, b, day);
            0 < again.next && Alike(DayStep(points, rate, pays, a, day), again, before, skipped)
  {
    hide Accrue, Settle, Marked;
    if a.unrated.None? {
      MarkedAlike(points, rest, a, b, before, skipped, day);
      SettleAlike(Marked(points, a, day), Marked(rest, b, day), before, skipped, rate, pays, day);
      KeepsNext(Marked(rest, b, day), rate, pays, day);
    }
  }

  /** At a month's end a monthly payer has nothing accrued left. */
  lemma AllPaid(points: seq<Point>, rate: RateOn, pays: Pays, from: Day, day: Day)
    requires pays.monthly && MonthEnd(day) && from <= day && EarnedTo(points, rate, pays, from, day).unrated.None?
    ensures EarnedTo(points, rate, pays, from, day).accrued == 0.0
  {
    hide Accrue, Marked, Round, MonthEnd;
  }

  // ---- Rounding ----

  /** The unrounded interest of every day of the stretch, on the balances held. */
  function ExactTo(points: seq<Point>, rate: RateOn, pays: Pays, from: Day, day: Day): real
    decreases day - from
  {
    if day < from then 0.0
    else
      var before := EarnedTo(points, rate, pays, from, day - 1);
      var held := Marked(points, before, day);
      var balance := held.base + held.added;
      var percent := rate(day, balance);
      ExactTo(points, rate, pays, from, day - 1)
        + (if before.unrated.Some? || balance <= 0 || percent.None? then 0.0
           else DayInterest(balance, percent.value, day))
  }

  function PayDays(pays: Pays, from: Day, day: Day): nat
    decreases day - from
  {
    if day < from then 0 else PayDays(pays, from, day - 1) + (if PayDay(pays, day) then 1 else 0)
  }

  ghost predicate NotNegative(rate: RateOn) {
    forall day, balance :: rate(day, balance).Some? ==> 0.0 <= rate(day, balance).value
  }

  lemma InterestNotNegative(balance: int, percent: real, day: Day)
    requires 0 < balance && 0.0 <= percent
    ensures 0.0 <= DayInterest(balance, percent, day)
  {
    assert 0.0 <= balance as real * percent;
  }

  /** What is paid differs from the exact daily accrual by at most half a unit a pay day, and what
      is not yet paid is told apart. Without capitalizing the balances are the marked ones, so this
      is the accrual on them. */
  lemma {:induction false} RoundingIsBounded(points: seq<Point>, rate: RateOn, pays: Pays, from: Day, day: Day)
    requires NotNegative(rate)
    ensures var s := EarnedTo(points, rate, pays, from, day);
            var half := 0.5 * PayDays(pays, from, day) as real;
            && 0.0 <= s.accrued
            && -half <= Paid(s.out) as real + s.accrued - ExactTo(points, rate, pays, from, day) <= half
    decreases day - from
  {
    hide Accrue, Settle, PayDay, Marked, DayInterest;
    if from <= day {
      RoundingIsBounded(points, rate, pays, from, day - 1);
      var s := EarnedTo(points, rate, pays, from, day - 1);
      if s.unrated.None? {
        var m := Marked(points, s, day);
        var percent := rate(day, m.base + m.added);
        AccrueExact(m, percent, day);
        SettleRounds(Accrue(m, percent, day), pays, day);
      }
    }
  }

  lemma AccrueExact(m: Account, percent: Option<real>, day: Day)
    requires 0.0 <= m.accrued && (percent.Some? ==> 0.0 <= percent.value)
    ensures var a := Accrue(m, percent, day);
            && a.out == m.out && 0.0 <= a.accrued
            && a.accrued == m.accrued
               + (if m.base + m.added <= 0 || percent.None? then 0.0
                  else DayInterest(m.base + m.added, percent.value, day))
            && (m.unrated.None? ==> (a.unrated.Some? <==> m.base + m.added > 0 && percent.None?))
  {
    hide DayInterest;
    if m.base + m.added > 0 && percent.Some? {
      InterestNotNegative(m.base + m.added, percent.value, day);
    }
  }

  /** A pay day rounds away at most half a unit. */
  lemma SettleRounds(a: Account, pays: Pays, day: Day)
    requires 0.0 <= a.accrued
    ensures var s := Settle(a, pays, day);
            var off := Paid(s.out) as real + s.accrued - (Paid(a.out) as real + a.accrued);
            && 0.0 <= s.accrued
            && (if PayDay(pays, day) then -0.5 <= off <= 0.5 else off == 0.0)
  {
    hide PayDay;
    PaidPush(a.out, Payment(day, Round(a.accrued)));
  }

  /** Without capitalizing nothing is ever added: the balance is the last mark's. */
  lemma {:induction false} PlainAddsNothing(points: seq<Point>, rate: RateOn, pays: Pays, from: Day, day: Day)
    requires !pays.capitalize
    ensures EarnedTo(points, rate, pays, from, day).added == 0
    decreases day - from
  {
    hide DayInterest, PayDay, Round;
    if from <= day {
      PlainAddsNothing(points, rate, pays, from, day - 1);
      MarkedAddsNothing(points, EarnedTo(points, rate, pays, from, day - 1), day);
    }
  }

  lemma {:induction false} MarkedAddsNothing(points: seq<Point>, s: Account, day: Day)
    requires s.added == 0
    ensures Marked(points, s, day).added == 0
    decreases |points| - s.next
  {
    if s.next < |points| && points[s.next].on <= day {
      MarkedAddsNothing(points, s.(base := points[s.next].minor, added := 0, next := s.next + 1), day);
    }
  }

  // ---- Capitalizing ----

  /** A rate of the day alone, known every day. */
  ghost predicate FlatInBalance(rate: RateOn) {
    && NotNegative(rate)
    && forall day, x, y :: rate(day, x) == rate(day, y) && rate(day, x).Some?
  }

  /** The capitalizing account holds and has paid no less. */
  predicate NoLess(c: Account, p: Account) {
    && c.unrated.None? && p.unrated.None? && c.base == p.base && c.next == p.next
    && 0 == p.added <= c.added && 0.0 <= p.accrued <= c.accrued && Paid(p.out) <= Paid(c.out)
  }

  lemma {:induction false} MarkedNoLess(points: seq<Point>, c: Account, p: Account, day: Day)
    requires NoLess(c, p)
    ensures NoLess(Marked(points, c, day), Marked(points, p, day))
    decreases |points| - c.next
  {
    if c.next < |points| && points[c.next].on <= day {
      MarkedNoLess(points, c.(base := points[c.next].minor, added := 0, next := c.next + 1),
                   p.(base := points[c.next].minor, added := 0, next := c.next + 1), day);
    }
  }

  lemma InterestGrows(x: int, y: int, percent: real, day: Day)
    requires 0 < x <= y && 0.0 <= percent
    ensures DayInterest(x, percent, day) <= DayInterest(y, percent, day)
  {
    hide LeapYear, MonthOf;
    var d := DaysInYear(day) as real;
    assert 0.0 <= (y - x) as real * percent;
    assert x as real * percent <= y as real * percent;
    Quotients(x as real * percent / 100.0, y as real * percent / 100.0, d);
  }

  lemma Quotients(a: real, b: real, d: real)
    requires 0.0 < d && a <= b
    ensures a / d <= b / d
  {
  }

  lemma AccrueNoLess(c: Account, p: Account, rate: RateOn, day: Day)
    requires NoLess(c, p) && FlatInBalance(rate)
    ensures NoLess(Accrue(c, rate(day, c.base + c.added), day), Accrue(p, rate(day, p.base + p.added), day))
  {
    hide DayInterest;
    var percent := rate(day, p.base + p.added);
    assert rate(day, c.base + c.added) == percent;
    if p.base + p.added > 0 {
      InterestGrows(p.base + p.added, c.base + c.added, percent.value, day);
      InterestNotNegative(p.base + p.added, percent.value, day);
    } else if c.base + c.added > 0 {
      InterestNotNegative(c.base + c.added, percent.value, day);
    }
  }

  lemma SettleNoLess(c: Account, p: Account, monthly: bool, ends: Option<Day>, day: Day)
    requires NoLess(c, p)
    ensures NoLess(Settle(c, Pays(monthly, true, ends), day), Settle(p, Pays(monthly, false, ends), day))
  {
    hide PayDay, Round, Paid;
    assert PayDay(Pays(monthly, true, ends), day) == PayDay(Pays(monthly, false, ends), day)
           by { SamePayDay(monthly, ends, day); }
    if PayDay(Pays(monthly, true, ends), day) {
      RoundMonotone(p.accrued, c.accrued);
      PaidPush(c.out, Payment(day, Round(c.accrued)));
      PaidPush(p.out, Payment(day, Round(p.accrued)));
    }
  }

  lemma SamePayDay(monthly: bool, ends: Option<Day>, day: Day)
    ensures PayDay(Pays(monthly, true, ends), day) == PayDay(Pays(monthly, false, ends), day)
  {
    hide MonthEnd;
  }

  /** At a rate independent of the balance capitalizing never earns less. */
  lemma {:induction false} CapitalizingEarnsNoLess(points: seq<Point>, rate: RateOn, monthly: bool, ends: Option<Day>,
            from: Day, day: Day)
    requires FlatInBalance(rate)
    ensures NoLess(EarnedTo(points, rate, Pays(monthly, true, ends), from, day),
                   EarnedTo(points, rate, Pays(monthly, false, ends), from, day))
    decreases day - from
  {
    hide Accrue, Settle, Marked;
    if from <= day {
      CapitalizingEarnsNoLess(points, rate, monthly, ends, from, day - 1);
      var c, p := EarnedTo(points, rate, Pays(monthly, true, ends), from, day - 1),
        EarnedTo(points, rate, Pays(monthly, false, ends), from, day - 1);
      MarkedNoLess(points, c, p, day);
      var mc, mp := Marked(points, c, day), Marked(points, p, day);
      AccrueNoLess(mc, mp, rate, day);
      SettleNoLess(Accrue(mc, rate(day, mc.base + mc.added), day), Accrue(mp, rate(day, mp.base + mp.added), day),
                   monthly, ends, day);
    }
  }
}
