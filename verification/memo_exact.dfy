/** Exactly when the memo of rates changes nothing. */
module MemoExact {
  import opened Calendar
  import opened Rounding
  import opened DepositRate
  import opened DepositQuote
  import opened DepositProgramme
  import opened Interest
  import opened Earn

  // ---- What is enough ----

  predicate ReadsKey(grid: seq<Cell>) {
    exists c :: c in grid && c.rate.Tied?
  }

  predicate VariantReadsKey(v: Variant) {
    ReadsKey(v.grid) || exists s :: s in v.schedule && ReadsKey(s.grid)
  }

  /** Over the stretch from `lo` to `hi`, within a month neither the variant in force changes nor, if
      it reads the key rate, the key rate that counts, and the schedule is the one whose boundaries
      the memo keeps. */
  ghost predicate Steady(s: Setting, schedule: seq<Period>, lo: Day, hi: Day) {
    && Advances(schedule) && s.bounds == Boundaries(schedule, s.h.openedOn)
    && (forall a :: lo <= a <= hi && ChosenOn(s.p, s.h, a).Ok? ==> ChosenOn(s.p, s.h, a).value.schedule == schedule)
    && (forall a, b :: lo <= a <= hi && lo <= b <= hi && MonthOf(a) == MonthOf(b) ==>
        ChosenOn(s.p, s.h, a) == ChosenOn(s.p, s.h, b))
    && (forall a, b ::
          lo <= a <= hi && lo <= b <= hi && MonthOf(a) == MonthOf(b) && ChosenOn(s.p, s.h, a).Ok?
          && VariantReadsKey(ChosenOn(s.p, s.h, a).value) ==>
            CountedKey(s, ChosenOn(s.p, s.h, a).value, a) == CountedKey(s, ChosenOn(s.p, s.h, a).value, b))
  }

  /** The key rate that counts on a day. */
  function CountedKey(s: Setting, v: Variant, day: Day): Option<real> { s.keyOn(KeyDay(day, v.lag)) }

  /** A flat key rate and one edition over the stretch are steady. */
  lemma FlatKeyIsSteady(s: Setting, v: Variant, lo: Day, hi: Day)
    requires lo <= hi && Advances(v.schedule) && s.bounds == Boundaries(v.schedule, s.h.openedOn)
    requires forall a, b :: s.keyOn(a) == s.keyOn(b)
    requires forall a :: lo <= a <= hi ==> EditionOn(s.p.editions, a) == EditionOn(s.p.editions, lo)
    requires ChosenOn(s.p, s.h, lo) == Ok(v)
    ensures Steady(s, v.schedule, lo, hi)
  {
    hide EditionOn, KeyDay, MonthOf, VariantReadsKey, Advances, VariantOf;
    forall a | lo <= a <= hi ensures ChosenOn(s.p, s.h, a) == Ok(v) {
      assert EditionOn(s.p.editions, a) == EditionOn(s.p.editions, lo);
    }
  }

  lemma CellIsOfGrid(grid: seq<Cell>, kind: Kind, term: int, amount: int)
    ensures CellFor(grid, kind, term, amount).Some? ==> CellFor(grid, kind, term, amount).value in grid
  {
  }

  lemma FixedGrid(grid: seq<Cell>, split: bool, kind: Kind, term: int, whole: int, from: int, a: Option<real>,
            b: Option<real>)
    requires !ReadsKey(grid)
    ensures RateOf(grid, split, kind, term, whole, from, a) == RateOf(grid, split, kind, term, whole, from, b)
  {
    hide CellFor;
    CellIsOfGrid(grid, kind, term, if split then from else whole);
  }

  lemma {:induction false} PeriodIsOfSchedule(schedule: seq<Period>, start: Day, openedOn: Day, day: Day,
            met: Conditions)
    ensures var p := PeriodOn(schedule, start, openedOn, day, met); p.Some? ==> p.value in schedule
    decreases |schedule|
  {
    hide PeriodEnd;
    if schedule != [] && PeriodEnd(schedule[0], start) <= day {
      PeriodIsOfSchedule(schedule[1..], PeriodEnd(schedule[0], start), openedOn, day, met);
    }
  }

  /** Terms that read no key rate give a kopeck one rate whatever the key. */
  lemma NoKeyRead(t: Terms, key: Option<real>, k: int, met: Conditions)
    requires !VariantReadsKey(t.v) && (t.period.Some? ==> t.period.value in t.v.schedule)
    ensures RateAt(t, k, met) == RateAt(t.(key := key), k, met)
  {
    hide RateOf, BestOf, SumOfBest, ReadsKey;
    FixedGrid(t.v.grid, t.v.split, t.kind, t.term, t.Whole(), k, t.key, key);
    if t.period.Some? {
      FixedGrid(t.period.value.grid, t.v.split, t.kind, t.term, t.Whole(), k, t.key, key);
    }
  }

  lemma {:induction false} SameSums(t: Terms, u: Terms, n: nat, met: Conditions)
    requires forall k :: 0 <= k < n ==> RateAt(t, k, met) == RateAt(u, k, met)
    ensures SumOfKopecks(t, n, met) == SumOfKopecks(u, n, met)
    decreases n
  {
    hide RateAt;
    if n > 0 {
      SameSums(t, u, n - 1, met);
    }
  }

  /** What is answered follows from the kopecks' rates. */
  lemma SameKopecks(t: Terms, u: Terms, met: Conditions)
    requires t.balance == u.balance && 0 <= t.balance && forall k :: RateAt(t, k, met) == RateAt(u, k, met)
    ensures KopeckPercent(t, met) == KopeckPercent(u, met)
    ensures forall error :: FirstFailure(t, error, met) <==> FirstFailure(u, error, met)
  {
    hide RateAt, SixDecimals;
    SameSums(t, u, t.balance, met);
  }

  /** Where the terms are steady a rate struck holds to the end of its month and stage. */
  lemma SteadyIsEnough(s: Setting, schedule: seq<Period>, lo: Day, hi: Day)
    requires Steady(s, schedule, lo, hi)
    ensures OneRateAKey(s, lo, hi)
  {
    hide Steady, Setting.Rate, MonthOf, Stage, Boundaries;
    forall a, b, balance | lo <= a <= b <= hi && s.Key(a, balance) == s.Key(b, balance)
      ensures s.Rate(a, balance) == s.Rate(b, balance)
    {
      KeyDecides(s, schedule, lo, hi, a, b, balance);
    }
  }

  lemma KeyDecides(s: Setting, schedule: seq<Period>, lo: Day, hi: Day, a: Day, b: Day, balance: int)
    requires Steady(s, schedule, lo, hi) && lo <= a <= hi && lo <= b <= hi && s.Key(a, balance) == s.Key(b, balance)
    ensures s.Rate(a, balance) == s.Rate(b, balance)
  {
    hide ChosenOn, KeyDay, FirstFailure, KopeckPercent, MonthOf, Stage, Boundaries, PeriodOn, PeriodIndex, Advances,
         RateAt, VariantReadsKey;
    StageIsPeriodIndex(schedule, s.h.openedOn, a);
    StageIsPeriodIndex(schedule, s.h.openedOn, b);
    PeriodByIndex(schedule, s.h.openedOn, s.h.openedOn, a, s.met);
    PeriodByIndex(schedule, s.h.openedOn, s.h.openedOn, b, s.met);
    PeriodIsOfSchedule(schedule, s.h.openedOn, s.h.openedOn, a, s.met);
    var x, y := TermsOn(s.p, s.h, a, balance, s.keyOn, s.met), TermsOn(s.p, s.h, b, balance, s.keyOn, s.met);
    if x.Ok? {
      assert y == Ok(x.value.(key := y.value.key));
      if !VariantReadsKey(x.value.v) {
        forall k ensures RateAt(x.value, k, s.met)
          == RateAt(y.value, k, s.met) { NoKeyRead(x.value, y.value.key, k, s.met); }
        SameKopecks(x.value, y.value, s.met);
      }
    }
  }

  // ---- What is needed ----

  /** The memo gives every account of interest the rate of each day: whatever the marks of the balance
      and the way of paying, from the stretch's first day to any of its days. */
  ghost predicate MemoChangesNothing(s: Setting, lo: Day, hi: Day) {
    forall points, pays, day :: day <= hi ==>
      TellTo(s, points, pays, map[], lo, day).account == EarnedTo(points, Daily(s), pays, lo, day)
  }

  /** It does exactly where a rate struck holds to the end of its month and stage. */
  lemma MemoIsExact(s: Setting, lo: Day, hi: Day)
    ensures MemoChangesNothing(s, lo, hi) <==> OneRateAKey(s, lo, hi)
  {
    hide OneRateAKey, Setting.Rate, TellTo, EarnedTo, Kept;
    if OneRateAKey(s, lo, hi) {
      forall points, pays, day | day <= hi
        ensures TellTo(s, points, pays, map[], lo, day).account == EarnedTo(points, Daily(s), pays, lo, day)
      {
        MemoIsPlain(s, points, pays, lo, day, hi);
      }
    }
    if MemoChangesNothing(s, lo, hi) {
      ToldTwice(s, lo, hi);
    }
  }

  const NEVER := Pays(false, false, None)

  /** A balance held on two days only, a before b. */
  function TwoDays(a: Day, b: Day, balance: int): seq<Point> {
    [Point(a, balance), Point(a + 1, 0), Point(b, balance)]
  }

  lemma ToldTwice(s: Setting, lo: Day, hi: Day)
    requires MemoChangesNothing(s, lo, hi)
    ensures OneRateAKey(s, lo, hi)
  {
    hide Setting.Rate, TellTo, EarnedTo, KeyOf;
    forall a, b, balance | lo <= a <= b <= hi && 0 < balance && s.Key(a, balance) == s.Key(b, balance)
      && s.Rate(a, balance).Some?
      ensures s.Rate(b, balance) == s.Rate(a, balance)
    {
      if a < b {
        SecondRate(s, lo, a, b, balance);
        assert TellTo(s, TwoDays(a, b, balance), NEVER, map[], lo, b).account
               == EarnedTo(TwoDays(a, b, balance), Daily(s), NEVER, lo, b);
      }
    }
  }

  /** Held on the two days, the balance earns twice the first day's rate with the memo, and each
      day's without. */
  lemma SecondRate(s: Setting, lo: Day, a: Day, b: Day, balance: int)
    requires lo <= a < b && 0 < balance && s.Key(a, balance) == s.Key(b, balance) && s.Rate(a, balance).Some?
    ensures TellTo(s, TwoDays(a, b, balance), NEVER, map[], lo, b).account
            == EarnedTo(TwoDays(a, b, balance), Daily(s), NEVER, lo, b)
        ==> s.Rate(b, balance) == s.Rate(a, balance)
  {
    hide Setting.Rate, TellTo, EarnedTo, Setting.Key, DayInterest, Marked;
    var points, ra := TwoDays(a, b, balance), s.Rate(a, balance).value;
    var accrued := DayInterest(balance, ra, a);
    var eve := HeldOn(a, b - 1, balance, accrued);
    ToldBefore(s, lo, a, b, balance, b - 1);
    TellOn(s, points, lo, b);
    EarnOn(s, points, lo, b);
    MarkedOn(a, b, b, balance, accrued);
    if s.Rate(b, balance).Some? && DayInterest(balance, ra, b) == DayInterest(balance, s.Rate(b, balance).value, b) {
      InterestTells(balance, ra, s.Rate(b, balance).value, b);
    }
  }

  /** The account of a balance held on the two days, up to the eve of the second. */
  function HeldOn(a: Day, day: Day, balance: int, accrued: real): Account {
    if day < a then OPENED
    else if day == a then Account(accrued, balance, 0, 1, [], None)
    else Account(accrued, 0, 0, 2, [], None)
  }

  /** A day's marks of it, on any day up to the second. */
  lemma MarkedOn(a: Day, b: Day, day: Day, balance: int, accrued: real)
    requires a < b && day <= b
    ensures Marked(TwoDays(a, b, balance), HeldOn(a, day - 1, balance, accrued), day)
         == if day < a then OPENED
            else if day == a then OPENED.(base := balance, next := 1)
            else Account(accrued, if day == b then balance else 0, 0, if day == b then 3 else 2, [], None)
  {
    var points, s := TwoDays(a, b, balance), HeldOn(a, day - 1, balance, accrued);
    var off := Account(accrued, 0, 0, 2, [], None);
    if a < day {
      assert day == a + 1 ==> Marked(points, s, day) == Marked(points, off, day);
      assert day == b ==> Marked(points, off, day) == Marked(points, off.(base := balance, next := 3), day);
    }
  }

  lemma {:induction false} ToldBefore(s: Setting, lo: Day, a: Day, b: Day, balance: int, day: Day)
    requires lo <= a < b && 0 < balance && s.Rate(a, balance).Some? && lo - 1 <= day < b
    ensures var accrued := DayInterest(balance, s.Rate(a, balance).value, a);
            && TellTo(s, TwoDays(a, b, balance), NEVER, map[], lo, day)
               == Told(if day < a then map[]
                       else map[s.Key(a, balance) := s.Rate(a, balance).value], HeldOn(a, day, balance, accrued))
            && EarnedTo(TwoDays(a, b, balance), Daily(s), NEVER, lo, day) == HeldOn(a, day, balance, accrued)
    decreases day - lo
  {
    hide Setting.Rate, TellTo, EarnedTo, Setting.Key, DayInterest, Marked;
    var points, accrued := TwoDays(a, b, balance), DayInterest(balance, s.Rate(a, balance).value, a);
    if day < lo {
      NothingTold(s, points, lo, day);
    } else {
      ToldBefore(s, lo, a, b, balance, day - 1);
      TellOn(s, points, lo, day);
      EarnOn(s, points, lo, day);
      MarkedOn(a, b, day, balance, accrued);
    }
  }

  lemma NothingTold(s: Setting, points: seq<Point>, lo: Day, day: Day)
    requires day < lo
    ensures TellTo(s, points, NEVER, map[], lo, day) == Told(map[], OPENED)
    ensures EarnedTo(points, Daily(s), NEVER, lo, day) == OPENED
  {
  }

  lemma TellOn(s: Setting, points: seq<Point>, lo: Day, day: Day)
    requires lo <= day
    ensures TellTo(s, points, NEVER, map[], lo, day)
            == TellDay(s, points, NEVER, TellTo(s, points, NEVER, map[], lo, day - 1), day)
  {
  }

  lemma EarnOn(s: Setting, points: seq<Point>, lo: Day, day: Day)
    requires lo <= day
    ensures EarnedTo(points, Daily(s), NEVER, lo, day)
            == DayStep(points, Daily(s), NEVER, EarnedTo(points, Daily(s), NEVER, lo, day - 1), day)
  {
  }

  /** Different rates earn a balance different sums. */
  lemma InterestTells(balance: int, x: real, y: real, day: Day)
    requires 0 < balance && DayInterest(balance, x, day) == DayInterest(balance, y, day)
    ensures x == y
  {
  }

  // ---- In terms of the key rate ----

  /** A variant with one rate for the whole balance: by its grid, with bonuses but with no split, cap
      or schedule. */
  predicate OneRated(v: Variant) {
    !v.split && v.cap.None? && v.schedule == [] && forall b :: b in v.bonuses ==> b.cap <= 0
  }

  /** What a cell's rate comes to under a key rate, the bonuses added: to six decimals, none when the
      key rate it is tied to is not known. */
  function Struck(rate: Rate, key: Option<real>, margin: real): Option<real> {
    match RateValue(rate, key)
    case Ok(x) => Some(SixDecimals(DepositRate.NotNegative(x + margin)))
    case Fail(_) => None
  }

  ghost function Margin(s: Setting, v: Variant, month: int): real {
    SumOfBest(BestOf(v.bonuses, month, 0, s.h.term, s.met))
  }

  /** The cell of the grid a balance reaches: a deposit's by its own sum. */
  function CellOf(s: Setting, v: Variant, balance: int): Option<Cell> {
    CellFor(v.grid, s.p.kind, s.h.term, if s.p.kind == SavingsKind then balance else s.h.amount)
  }

  ghost predicate Reached(s: Setting, v: Variant, c: Cell) {
    exists balance :: 0 < balance && CellOf(s, v, balance) == Some(c)
  }

  /** A balance with no threshold inside it earns its first kopeck's rate to six decimals, and nothing
      when that kopeck has none. */
  lemma OnePart(t: Terms, met: Conditions)
    requires 0 < t.balance && forall x :: x in Thresholds(t) ==> x <= 0 || t.balance <= x
    ensures RateAt(t, 0, met).Ok? ==>
              KopeckPercent(t, met) == SixDecimals(RateAt(t, 0, met).value)
                && forall error :: !FirstFailure(t, error, met)
    ensures RateAt(t, 0, met).Fail? ==> FirstFailure(t, RateAt(t, 0, met).error, met)
  {
    hide RateAt, Thresholds, SixDecimals;
    forall k | 0 <= k < t.balance ensures RateAt(t, k, met) == RateAt(t, 0, met) { SameRate(t, 0, k, met); }
    if RateAt(t, 0, met).Ok? {
      var rate := RateAt(t, 0, met).value;
      StretchSum(t, 0, t.balance, rate, met);
      assert SumOfKopecks(t, 0, met) == 0.0;
      assert SumOfKopecks(t, t.balance, met) == rate * t.balance as real;
      Cancelled(rate, t.balance as real, SumOfKopecks(t, t.balance, met));
    }
  }

  lemma Cancelled(x: real, b: real, y: real)
    requires b != 0.0 && y == x * b
    ensures y / b == x
  {
  }

  lemma NoThreshold(t: Terms)
    requires OneRated(t.v) && t.period.None?
    ensures forall x :: x in Thresholds(t) ==> x <= 0
  {
  }

  lemma RateByCell(s: Setting, v: Variant, day: Day, balance: int)
    requires ChosenOn(s.p, s.h, day) == Ok(v) && OneRated(v) && 0 < balance
    ensures s.Rate(day, balance)
         == if CellOf(s, v, balance).None? then None
            else Struck(CellOf(s, v, balance).value.rate, CountedKey(s, v, day), Margin(s, v, MonthOf(day)))
  {
    hide MonthOf, ChosenOn, KeyDay, BestOf, SumOfBest, SixDecimals, CellFor, Thresholds, FirstFailure, KopeckPercent;
    var t := TermsOn(s.p, s.h, day, balance, s.keyOn, s.met).value;
    assert t.period.None?;
    NoThreshold(t);
    OnePart(t, s.met);
    if RateAt(t, 0, s.met).Fail? {
      assert FirstFailure(t, RateAt(t, 0, s.met).error, s.met);
    }
  }

  /** The key rate that counts, once known, keeps to the end of each month what every cell reached
      comes to. */
  ghost predicate KeyHolds(s: Setting, v: Variant, lo: Day, hi: Day) {
    forall c, a, b ::
      Reached(s, v, c) && lo <= a <= b <= hi && MonthOf(a) == MonthOf(b) && StruckOn(s, v, c, a).Some? ==>
        StruckOn(s, v, c, b) == StruckOn(s, v, c, a)
  }

  ghost function StruckOn(s: Setting, v: Variant, c: Cell, day: Day): Option<real> {
    Struck(c.rate, CountedKey(s, v, day), Margin(s, v, MonthOf(day)))
  }

  /** One such variant in force over a stretch, with the memo's boundaries its own. */
  ghost predicate InForce(s: Setting, v: Variant, lo: Day, hi: Day) {
    OneRated(v) && s.bounds == Boundaries(v.schedule, s.h.openedOn) && forall day :: lo <= day <= hi ==>
      ChosenOn(s.p, s.h, day) == Ok(v)
  }

  lemma KeyHoldsExactly(s: Setting, v: Variant, lo: Day, hi: Day)
    requires InForce(s, v, lo, hi)
    ensures OneRateAKey(s, lo, hi) <==> KeyHolds(s, v, lo, hi)
  {
    hide MonthOf, ChosenOn, Struck, Margin, CountedKey, CellOf, Setting.Rate, OneRated;
    assert s.bounds == [] by { NoBoundaries(v, s.h.openedOn); }
    if KeyHolds(s, v, lo, hi) {
      forall a, b, balance | lo <= a <= b <= hi && 0 < balance && s.Key(a, balance) == s.Key(b, balance)
        && s.Rate(a, balance).Some?
        ensures s.Rate(b, balance) == s.Rate(a, balance)
      {
        RateByCell(s, v, a, balance);
        RateByCell(s, v, b, balance);
        assert Reached(s, v, CellOf(s, v, balance).value);
      }
    }
    if OneRateAKey(s, lo, hi) {
      forall c, a, b | Reached(s, v, c) && lo <= a <= b <= hi && MonthOf(a) == MonthOf(b) && StruckOn(s, v, c, a).Some?
        ensures StruckOn(s, v, c, b) == StruckOn(s, v, c, a)
      {
        var balance :| 0 < balance && CellOf(s, v, balance) == Some(c);
        RateByCell(s, v, a, balance);
        RateByCell(s, v, b, balance);
        assert s.Key(a, balance) == s.Key(b, balance);
      }
    }
  }

  lemma NoBoundaries(v: Variant, openedOn: Day)
    requires OneRated(v)
    ensures Boundaries(v.schedule, openedOn) == []
  {
  }

  /** The memo changes nothing exactly while within each month the key rate that counts leaves every
      cell reached at its rate. */
  lemma MemoIsExactWhileKeyHolds(s: Setting, v: Variant, lo: Day, hi: Day)
    requires InForce(s, v, lo, hi)
    ensures MemoChangesNothing(s, lo, hi) <==> KeyHolds(s, v, lo, hi)
  {
    hide InForce, MemoChangesNothing, OneRateAKey, KeyHolds;
    MemoIsExact(s, lo, hi);
    KeyHoldsExactly(s, v, lo, hi);
  }

  /** An account that earns the key rate itself. */
  predicate EarnsTheKey(v: Variant) {
    v.bonuses == [] && forall c :: c in v.grid ==> c.rate == Tied(1.0, 0.0, None)
  }

  /** For it that is exactly while the key rate that counts, never below nought and once known, is the
      same to six decimals to the end of each month. */
  lemma KeyAccountMemoIsExact(s: Setting, v: Variant, lo: Day, hi: Day)
    requires InForce(s, v, lo, hi) && EarnsTheKey(v) && exists c :: Reached(s, v, c)
    requires forall day :: s.keyOn(day).Some? ==> 0.0 <= s.keyOn(day).value
    ensures MemoChangesNothing(s, lo, hi) <==>
            forall a, b :: lo <= a <= b <= hi && MonthOf(a) == MonthOf(b) && CountedKey(s, v, a).Some? ==>
              CountedKey(s, v, b).Some?
                && SixDecimals(CountedKey(s, v, b).value) == SixDecimals(CountedKey(s, v, a).value)
  {
    hide InForce, MemoChangesNothing, MonthOf, KeyDay, SixDecimals, Reached, EarnsTheKey;
    MemoIsExactWhileKeyHolds(s, v, lo, hi);
    forall c, day | Reached(s, v, c)
      ensures StruckOn(s, v, c, day) == KeyStruck(CountedKey(s, v, day))
    {
      StruckByKey(s, v, c, day);
    }
    var c :| Reached(s, v, c);
    hide StruckOn, CountedKey;
    if KeyHolds(s, v, lo, hi) {
      forall a, b | lo <= a <= b <= hi && MonthOf(a) == MonthOf(b) && CountedKey(s, v, a).Some?
        ensures CountedKey(s, v, b).Some?
                && SixDecimals(CountedKey(s, v, b).value) == SixDecimals(CountedKey(s, v, a).value)
      {
        assert StruckOn(s, v, c, b) == StruckOn(s, v, c, a);
      }
    }
  }

  function KeyStruck(key: Option<real>): Option<real> {
    if key.Some? then Some(SixDecimals(key.value)) else None
  }

  lemma StruckByKey(s: Setting, v: Variant, c: Cell, day: Day)
    requires Reached(s, v, c) && EarnsTheKey(v) && forall day :: s.keyOn(day).Some? ==> 0.0 <= s.keyOn(day).value
    ensures StruckOn(s, v, c, day) == KeyStruck(CountedKey(s, v, day))
  {
    hide MonthOf, KeyDay, SixDecimals, CellFor;
    var balance :| 0 < balance && CellOf(s, v, balance) == Some(c);
    CellIsOfGrid(v.grid, s.p.kind, s.h.term, if s.p.kind == SavingsKind then balance else s.h.amount);
    SumOfNone();
  }

  // ---- A run the memo changes ----

  const TIED := Variant("tied", [Cell(0, 0, 0, Tied(1.0, 0.0, None))], false, None, [], [], None, false, SameDay)

  /** A savings account tied to the key rate, opened on the first day of a month whose key rate rises
      from 10 to 20 percent on its third day. */
  ghost function RisingKey(): Setting {
    Setting(Programme(SavingsKind, [Edition(0, None, [TIED])]), Holding("tied", 0, 0, 0),
            day => if day < 2 then Some(10.0) else Some(20.0),
            (_, _) => None, [])
  }

  const TO_THE_THIRD := Pays(true, true, Some(2))

  /** Held to that day it is paid 20 kopecks with the memo, its first day's rate twice, and 30 with
      each day's own. */
  lemma KeyRateMovesUnderTheMemo()
    ensures RisingKey().bounds == Boundaries(TIED.schedule, RisingKey().h.openedOn)
    ensures RunTo(RisingKey(), 36_600, 2, TO_THE_THIRD).out == [Payment(2, 20)]
    ensures PlainRunTo(RisingKey(), 36_600, 2, TO_THE_THIRD).out == [Payment(2, 30)]
  {
    hide Setting.Rate, MonthOf, TellDay, DayStep;
    var s, points := RisingKey(), [Point(0, 36_600)];
    RisingRate(1);
    RisingRate(2);
    FirstMonth(1);
    FirstMonth(2);
    FirstMonth(3);
    FirstDay(s, points);
    SecondDay(s, points);
    assert TellTo(s, points, TO_THE_THIRD, map[], 1, 0) == Told(map[], OPENED);
    assert TellTo(s, points, TO_THE_THIRD, map[], 1, 1) == TellDay(s, points, TO_THE_THIRD, Told(map[], OPENED), 1);
    assert EarnedTo(points, Daily(s), TO_THE_THIRD, 1, 0) == OPENED;
    assert EarnedTo(points, Daily(s), TO_THE_THIRD, 1, 1) == DayStep(points, Daily(s), TO_THE_THIRD, OPENED, 1);
  }

  lemma FirstMonth(day: Day)
    requires 0 <= day < 31
    ensures MonthOf(day) == 0
  {
    MonthsTile(0);
    MonthIs(day, 0);
  }

  lemma RisingRate(day: Day)
    requires 0 <= day
    ensures RisingKey().Rate(day, 36_600) == Some(if day < 2 then 10.0 else 20.0)
  {
    hide MonthOf, Setting.Rate, BestOf;
    var s := RisingKey();
    assert ChosenOn(s.p, s.h, day) == Ok(TIED);
    RateByCell(s, TIED, day, 36_600);
    assert TIED.grid[..0] == [];
    assert CellOf(s, TIED, 36_600) == Some(TIED.grid[0]);
    NoMargin(s, MonthOf(day));
    assert SixDecimals(10.0) == 10.0 && SixDecimals(20.0) == 20.0;
  }

  lemma NoMargin(s: Setting, month: int)
    ensures Margin(s, TIED, month) == 0.0
  {
    SumOfNone();
  }

  /** Ten kopecks accrued on the first day. */
  const ONE_DAY := Account(10.0, 36_600, 0, 1, [], None)

  lemma FirstDay(s: Setting, points: seq<Point>)
    requires s == RisingKey() && points == [Point(0, 36_600)] && s.Rate(1, 36_600) == Some(10.0)
             && MonthOf(1) == MonthOf(2) == 0
    ensures DayStep(points, Daily(s), TO_THE_THIRD, OPENED, 1) == ONE_DAY
    ensures TellDay(s, points, TO_THE_THIRD, Told(map[], OPENED), 1) == Told(map[s.Key(1, 36_600) := 10.0], ONE_DAY)
  {
    hide Setting.Rate, MonthOf;
    MarkedOnce(points, OPENED, 1);
    assert DayInterest(36_600, 10.0, 1) == 10.0;
  }

  lemma MarkedOnce(points: seq<Point>, s: Account, day: Day)
    requires points == [Point(0, 36_600)] && 0 <= day && (s == OPENED || s == ONE_DAY)
    ensures Marked(points, s, day) == s.(base := 36_600, added := 0, next := 1)
  {
    if s == OPENED {
      assert Marked(points, s, day) == Marked(points, s.(base := 36_600, added := 0, next := 1), day);
    }
  }

  lemma SecondDay(s: Setting, points: seq<Point>)
    requires s == RisingKey() && points == [Point(0, 36_600)] && s.Rate(2, 36_600) == Some(20.0)
             && MonthOf(1) == MonthOf(2) == MonthOf(3) == 0
    ensures DayStep(points, Daily(s), TO_THE_THIRD, ONE_DAY, 2).out == [Payment(2, 30)]
    ensures TellDay(s, points, TO_THE_THIRD, Told(map[s.Key(1, 36_600) := 10.0], ONE_DAY), 2).account.out
            == [Payment(2, 20)]
  {
    hide Setting.Rate, MonthOf;
    MarkedOnce(points, ONE_DAY, 2);
    assert DayInterest(36_600, 10.0, 2) == 10.0 && DayInterest(36_600, 20.0, 2) == 20.0;
    assert Round(20.0) == 20 && Round(30.0) == 30;
  }
}
