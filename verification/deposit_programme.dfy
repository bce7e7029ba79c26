/** The rate a holding of a programme earns on a day: the edition, the variant, the key rate that
    counts and the period in force, then the sweep. */
module DepositProgramme {
  import opened Calendar
  import opened Rounding
  import opened DepositRate
  import opened DepositQuote
  import Workdays

  /** The key rate of a day; none when it is not known. */
  type KeyOn = Day -> Option<real>

  // ---- The key rate's lag ----

  ghost function EarlierWorkday(d: Day): (w: Day)
    ensures w <= d && !Workdays.DayOff(w)
  {
    MonthsTile(MonthOf(d) - 1);
    Workdays.MidMonthWorkday(MonthOf(d) - 1)
  }

  /** The last working day on or before d. */
  function LastWorkday(d: Day, ghost bound: Day): (w: Day)
    requires bound <= d && !Workdays.DayOff(bound)
    ensures bound <= w <= d && !Workdays.DayOff(w)
    ensures forall x :: w < x <= d ==> Workdays.DayOff(x)
    decreases d - bound
  {
    hide MonthLen, FirstOf;
    if Workdays.DayOff(d) then LastWorkday(d - 1, bound) else d
  }

  /** The n-th working day from a month's first. */
  function NthWorkday(start: Day, n: int): (w: Day)
    ensures start <= w && !Workdays.DayOff(w)
    decreases n
  {
    if n <= 1 then Workdays.Workday(start) else Workdays.Workday(NthWorkday(start, n - 1) + 1)
  }

  /** The day whose key rate counts on a day. */
  function KeyDay(day: Day, lag: KeyLag): Day {
    match lag
    case SameDay => day
    case NextWorkday => LastWorkday(day, EarlierWorkday(day)) - 1
    case ByMonth(cutoff, workday, late) =>
      var start := FirstOf(MonthOf(day));
      var prevEnd := start - 1;
      if day >= NthWorkday(start, late) then prevEnd
      else if day >= NthWorkday(start, workday) then FirstOf(MonthOf(prevEnd)) + cutoff - 1
      else FirstOf(MonthOf(prevEnd)) - 1
  }

  lemma {:induction false} NthWorkdayRises(start: Day, m: int, n: int)
    requires m <= n
    ensures NthWorkday(start, m) <= NthWorkday(start, n)
    decreases n
  {
    if m < n && n > 1 {
      NthWorkdayRises(start, m, n - 1);
    }
  }

  /** A lagged key rate is always an earlier day's, and never goes back as the days go on, where
      the early working day is not after the late one and the cutoff is a day of every month. */
  lemma KeyDayFollows(day: Day, later: Day, lag: KeyLag)
    requires day <= later
    requires lag.ByMonth? ==> 1 <= lag.cutoff <= 28 && lag.workday <= lag.lateWorkday
    ensures KeyDay(day, lag) <= KeyDay(later, lag)
    ensures lag != SameDay ==> KeyDay(day, lag) < day
  {
    hide Workdays.DayOff, Workdays.Workday, LastWorkday, NthWorkday, MonthOf, FirstOf;
    match lag
    case SameDay =>
    case NextWorkday => WorkdayFollows(day, later);
    case ByMonth(cutoff, workday, late) => ByMonthFollows(day, later, cutoff, workday, late);
  }

  lemma WorkdayFollows(day: Day, later: Day)
    requires day <= later
    ensures LastWorkday(day, EarlierWorkday(day)) <= LastWorkday(later, EarlierWorkday(later))
  {
    hide Workdays.DayOff, LastWorkday;
    var a, b := LastWorkday(day, EarlierWorkday(day)), LastWorkday(later, EarlierWorkday(later));
    assert b < a <= later ==> Workdays.DayOff(a);
  }

  lemma ByMonthFollows(day: Day, later: Day, cutoff: int, workday: int, late: int)
    requires day <= later && 1 <= cutoff <= 28 && workday <= late
    ensures var lag := ByMonth(cutoff, workday, late); KeyDay(day, lag) <= KeyDay(later, lag) && KeyDay(day, lag) < day
  {
    hide Workdays.DayOff, Workdays.Workday, NthWorkday, MonthOf, FirstOf, MonthLen;
    var m, n := MonthOf(day), MonthOf(later);
    MonthsFollowDays(day, later);
    PreviousMonth(m);
    PreviousMonth(n);
    MonthsApart(m - 1, n - 1);
    if m < n {
      MonthsApart(m, n - 1);
    }
    NthWorkdayRises(FirstOf(m), workday, late);
  }

  lemma PreviousMonth(m: int)
    ensures MonthOf(FirstOf(m) - 1) == m - 1
    ensures FirstOf(m - 1) + 28 <= FirstOf(m)
  {
    hide MonthLen;
    MonthsTile(m - 1);
    MonthIs(FirstOf(m) - 1, m - 1);
  }

  // ---- The quote of a day ----

  predicate Admits(v: Variant, openedOn: Day) {
    v.openedFrom.None? || v.openedFrom.value <= openedOn
  }

  /** The variant whose rates a holding has on a day: a deposit's of the edition of its opening, or
      of the day's when it floats; a savings account's of the day's. */
  function ChosenOn(p: Programme, h: Holding, day: Day): Result<Variant> {
    var first := EditionOn(p.editions, if p.kind == DepositKind then h.openedOn else day);
    if first.None? then Fail(NoEdition)
    else
      var chosen := VariantOf(first.value.variants, h.variant);
      if chosen.None? then Fail(NoVariant)
      else if p.kind == DepositKind && chosen.value.floating then
        var now := EditionOn(p.editions, day);
        if now.None? then Fail(NoEdition)
        else
          var v := VariantOf(now.value.variants, h.variant);
          if v.None? then Fail(NoVariant) else Admitted(v.value, h.openedOn)
      else Admitted(chosen.value, h.openedOn)
  }

  function Admitted(v: Variant, openedOn: Day): Result<Variant> {
    if Admits(v, openedOn) then Ok(v) else Fail(Opened)
  }

  /** What the quote of a day is struck from. */
  function TermsOn(p: Programme, h: Holding, day: Day, balance: int, keyOn: KeyOn, met: Conditions): Result<Terms> {
    var chosen := ChosenOn(p, h, day);
    if chosen.Fail? then Fail(chosen.error)
    else
      var v := chosen.value;
      Ok(Terms(p.kind, v, PeriodOn(v.schedule, h.openedOn, h.openedOn, day, met), h.term, h.amount, Max(balance, 0),
               MonthOf(day), keyOn(KeyDay(day, v.lag))))
  }

  /** The percent a day's quote would give; none when the terms or some kopeck of the balance has no
      rate. */
  ghost function Answer(p: Programme, h: Holding, day: Day, balance: int, keyOn: KeyOn, met: Conditions): Option<real> {
    var t := TermsOn(p, h, day, balance, keyOn, met);
    if t.Fail? || (exists error :: FirstFailure(t.value, error, met)) then None else Some(KopeckPercent(t.value, met))
  }

  lemma SoundNeverFails(t: Terms, q: Quote, met: Conditions, error: Error)
    requires 0 <= t.balance && Sound(t, q, met)
    ensures !FirstFailure(t, error, met)
  {
    hide RateAt;
    forall k | 0 <= k < Max(t.balance, 1) ensures RateAt(t, k, met).Ok? {
      if t.balance > 0 {
        var i := Covering(q.parts, t.balance, k);
        KopeckOfPart(t, q.parts, i, k, met);
      }
    }
  }

  lemma KopeckOfPart(t: Terms, parts: seq<Part>, i: nat, k: int, met: Conditions)
    requires EachKopeck(t, parts, met) && i < |parts| && parts[i].from <= k < parts[i].to
    ensures RateAt(t, k, met) == Ok(parts[i].percent)
  {
    hide RateAt;
  }

  ghost function Covering(parts: seq<Part>, balance: int, k: int): (i: nat)
    requires Tiles(parts, balance) && 0 <= k < balance
    ensures i < |parts| && parts[i].from <= k < parts[i].to
  {
    CoveringUpTo(parts, balance, k, |parts| - 1)
  }

  ghost function CoveringUpTo(parts: seq<Part>, balance: int, k: int, n: nat): (i: nat)
    requires Tiles(parts, balance) && n < |parts| && 0 <= k < parts[n].to
    ensures i < |parts| && parts[i].from <= k < parts[i].to
  {
    if parts[n].from <= k then n else CoveringUpTo(parts, balance, k, n - 1)
  }

  /** `Programme.Quote`. */
  method QuoteOn(p: Programme, h: Holding, day: Day, balance: int, keyOn: KeyOn, met: Conditions)
    returns (r: Result<Quote>)
    ensures Answer(p, h, day, balance, keyOn, met) == if r.Ok? then Some(r.value.percent) else None
    ensures r.Ok? ==>
              TermsOn(p, h, day, balance, keyOn, met).Ok?
              && Sound(TermsOn(p, h, day, balance, keyOn, met).value, r.value, met)
  {
    hide Sound, FirstFailure, KopeckPercent, PeriodOn, EditionOn, VariantOf, KeyDay;
    var first := EditionOn(p.editions, if p.kind == DepositKind then h.openedOn else day);
    if first.None? {
      return Fail(NoEdition);
    }
    var chosen := VariantOf(first.value.variants, h.variant);
    if chosen.None? {
      return Fail(NoVariant);
    }
    var v := chosen.value;
    if p.kind == DepositKind && v.floating {
      var now := EditionOn(p.editions, day);
      if now.None? {
        return Fail(NoEdition);
      }
      chosen := VariantOf(now.value.variants, h.variant);
      if chosen.None? {
        return Fail(NoVariant);
      }
      v := chosen.value;
    }
    if !Admits(v, h.openedOn) {
      return Fail(Opened);
    }
    var period := FindPeriod(v.schedule, h.openedOn, day, met);
    var t := Terms(p.kind, v, period, h.term, h.amount, Max(balance, 0), MonthOf(day), keyOn(KeyDay(day, v.lag)));
    r := Sweep(t, met);
    if r.Ok? {
      SweepIsPerKopeck(t, r.value, met);
      forall error ensures !FirstFailure(t, error, met) {
        SoundNeverFails(t, r.value, met, error);
      }
    }
  }
}
