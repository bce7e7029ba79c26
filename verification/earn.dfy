/** The memo of `compare.run`, which asks a quote once for a month, a stage and a balance, and the
    condition under which nothing is lost by it. */
module Earn {
  import opened Calendar
  import opened Rounding
  import opened DepositRate
  import opened DepositQuote
  import opened DepositProgramme
  import opened Interest

  // ---- The stages of a schedule ----

  /** Where each period of the schedule ends. */
  function Boundaries(schedule: seq<Period>, start: Day): seq<Day> {
    if schedule == [] then []
    else [PeriodEnd(schedule[0], start)] + Boundaries(schedule[1..], PeriodEnd(schedule[0], start))
  }

  /** How many of the boundaries a day has reached. */
  function Stage(bounds: seq<Day>, day: Day): nat {
    if bounds == [] then 0 else Stage(bounds[..|bounds| - 1], day) + (if bounds[|bounds| - 1] <= day then 1 else 0)
  }

  /** The index of the period a day falls in; the schedule's length past the last. */
  function PeriodIndex(schedule: seq<Period>, start: Day, day: Day): nat {
    if schedule == [] || day < PeriodEnd(schedule[0], start) then 0
    else 1 + PeriodIndex(schedule[1..], PeriodEnd(schedule[0], start), day)
  }

  /** Each period is of some months or some days, as the catalog asks. */
  predicate Advances(schedule: seq<Period>) {
    forall i :: 0 <= i < |schedule| ==> schedule[i].months > 0 || schedule[i].days > 0
  }

  lemma PeriodLasts(s: Period, start: Day)
    requires s.months > 0 || s.days > 0
    ensures start < PeriodEnd(s, start)
  {
    hide FirstOf;
    if s.months > 0 {
      MonthsApart(MonthOf(start) + 1, MonthOf(start) + s.months);
    }
  }

  lemma {:induction false} StageHead(bounds: seq<Day>, day: Day)
    requires bounds != []
    ensures Stage(bounds, day) == (if bounds[0] <= day then 1 else 0) + Stage(bounds[1..], day)
    decreases |bounds|
  {
    if |bounds| > 1 {
      var n := |bounds| - 1;
      StageHead(bounds[..n], day);
      assert bounds[..n][1..] == bounds[1..][..n - 1];
    }
  }

  lemma {:induction false} NoneReached(schedule: seq<Period>, start: Day, day: Day)
    requires Advances(schedule) && day < start
    ensures Stage(Boundaries(schedule, start), day) == 0
    decreases |schedule|
  {
    hide PeriodEnd;
    if schedule != [] {
      PeriodLasts(schedule[0], start);
      var end := PeriodEnd(schedule[0], start);
      NoneReached(schedule[1..], end, day);
      StageHead(Boundaries(schedule, start), day);
      assert Boundaries(schedule, start)[1..] == Boundaries(schedule[1..], end);
    }
  }

  /** The stage over the boundaries is the index of the period the day falls in. */
  lemma {:induction false} StageIsPeriodIndex(schedule: seq<Period>, start: Day, day: Day)
    requires Advances(schedule)
    ensures Stage(Boundaries(schedule, start), day) == PeriodIndex(schedule, start, day)
    decreases |schedule|
  {
    hide PeriodEnd;
    if schedule != [] {
      var end := PeriodEnd(schedule[0], start);
      StageHead(Boundaries(schedule, start), day);
      assert Boundaries(schedule, start)[1..] == Boundaries(schedule[1..], end);
      if day < end {
        NoneReached(schedule[1..], end, day);
      } else {
        StageIsPeriodIndex(schedule[1..], end, day);
      }
    }
  }

  /** The period a day falls in is its index's, unless its requirement was not met at opening. */
  lemma {:induction false} PeriodByIndex(schedule: seq<Period>, start: Day, openedOn: Day, day: Day, met: Conditions)
    ensures var i := PeriodIndex(schedule, start, day);
            && i <= |schedule|
            && PeriodOn(schedule, start, openedOn, day, met)
               == (if i == |schedule| || (schedule[i].needs != "" && met(schedule[i].needs, MonthOf(openedOn)).None?)
                   then None
                   else Some(schedule[i]))
    decreases |schedule|
  {
    hide PeriodEnd;
    if schedule != [] && PeriodEnd(schedule[0], start) <= day {
      PeriodByIndex(schedule[1..], PeriodEnd(schedule[0], start), openedOn, day, met);
    }
  }

  // ---- The memo ----

  /** What the memo is asked under: the month, the stage and the balance. */
  type Key = (int, nat, int)
  type Memo = map<Key, real>

  function KeyOf(bounds: seq<Day>, day: Day, balance: int): Key {
    (MonthOf(day), Stage(bounds, day), balance)
  }

  /** Whose rate the memo keeps: a holding of a programme, with the boundaries of its schedule. */
  datatype Setting = Setting(p: Programme, h: Holding, keyOn: KeyOn, met: Conditions, bounds: seq<Day>) {
    ghost function Rate(day: Day, balance: int): Option<real> { Answer(p, h, day, balance, keyOn, met) }

    function Key(day: Day, balance: int): Key { KeyOf(bounds, day, balance) }
  }

  /** The rate asked anew every day. */
  ghost function Daily(s: Setting): RateOn {
    (day, balance) => s.Rate(day, balance)
  }

  /** One question to the memo: the rate kept under its key, else the one struck now, kept when
      there is one. */
  ghost function Ask(s: Setting, memo: Memo, day: Day, balance: int): (Memo, Option<real>) {
    var key := s.Key(day, balance);
    if key in memo then (memo, Some(memo[key]))
    else
      var rate := s.Rate(day, balance);
      (if rate.Some? then memo[key := rate.value] else memo, rate)
  }

  /** The account after each day with its rates asked of the memo. */
  datatype Told = Told(memo: Memo, account: Account)

  ghost function TellDay(s: Setting, points: seq<Point>, pays: Pays, t: Told, day: Day): Told {
    if t.account.unrated.Some? then t
    else
      var m := Marked(points, t.account, day);
      var balance := m.base + m.added;
      var (memo, rate) := if balance > 0 then Ask(s, t.memo, day, balance) else (t.memo, None);
      Told(memo, DayStep(points, (_, _) => rate, pays, t.account, day))
  }

  ghost function TellTo(s: Setting, points: seq<Point>, pays: Pays, memo: Memo, from: Day, day: Day): Told
    decreases day - from
  {
    if day < from then Told(memo, OPENED)
    else TellDay(s, points, pays, TellTo(s, points, pays, memo, from, day - 1), day)
  }

  /** The rates struck so far, by month, stage and balance. */
  class RateBook {
    const p: Programme
    const h: Holding
    const keyOn: KeyOn
    const met: Conditions
    const bounds: seq<Day>
    var memo: Memo

    ghost const setting := Setting(p, h, keyOn, met, bounds)

    constructor (p: Programme, h: Holding, keyOn: KeyOn, met: Conditions, bounds: seq<Day>)
      ensures setting == Setting(p, h, keyOn, met, bounds)
      ensures memo == map[]
    {
      this.p, this.h, this.keyOn, this.met, this.bounds := p, h, keyOn, met, bounds;
      memo := map[];
    }

    /** The rate of a day, out of the memo or struck and kept. */
    method Rate(day: Day, balance: int) returns (r: Option<real>)
      modifies this`memo
      ensures (memo, r) == Ask(setting, old(memo), day, balance)
    {
      hide Answer, KeyOf;
      var key := KeyOf(bounds, day, balance);
      if key in memo {
        return Some(memo[key]);
      }
      var q := QuoteOn(p, h, day, balance, keyOn, met);
      if q.Fail? {
        return None;
      }
      memo := memo[key := q.value.percent];
      return Some(q.value.percent);
    }
  }

  // ---- The day loop over the memo ----

  lemma {:induction false} UnratedStays(s: Setting, points: seq<Point>, pays: Pays, memo: Memo, from: Day, day: Day,
            later: Day)
    requires day <= later && TellTo(s, points, pays, memo, from, day).account.unrated.Some?
    ensures TellTo(s, points, pays, memo, from, later) == TellTo(s, points, pays, memo, from, day)
    decreases later - day
  {
    hide Marked, DayStep, Ask;
    if day < later {
      UnratedStays(s, points, pays, memo, from, day, later - 1);
    }
  }

  method MarkUpTo(points: seq<Point>, s: Account, day: Day) returns (r: Account)
    requires s.next <= |points|
    ensures r == Marked(points, s, day)
    ensures r.next <= |points|
  {
    r := s;
    while r.next < |points| && points[r.next].on <= day
      invariant r.next <= |points|
      invariant Marked(points, s, day) == Marked(points, r, day)
      decreases |points| - r.next
    {
      r := r.(base := points[r.next].minor, added := 0, next := r.next + 1);
    }
  }

  /** One day of the loop. */
  method EarnDay(points: seq<Point>, book: RateBook, pays: Pays, s: Account, day: Day) returns (r: Account)
    requires s.unrated.None? && s.next <= |points|
    modifies book`memo
    ensures Told(book.memo, r) == TellDay(book.setting, points, pays, Told(old(book.memo), s), day)
    ensures r.next <= |points|
  {
    hide Ask, Marked, PayDay, DayInterest, Round;
    r := MarkUpTo(points, s, day);
    var balance := r.base + r.added;
    if balance > 0 {
      var percent := book.Rate(day, balance);
      if percent.None? {
        return r.(unrated := Some(day));
      }
      r := r.(accrued := r.accrued + DayInterest(balance, percent.value, day));
    }
    if PayDay(pays, day) {
      var paid := Round(r.accrued);
      if paid > 0 {
        r := r.(out := r.out + [Payment(day, paid)]);
        if pays.capitalize {
          r := r.(added := r.added + paid);
        }
      }
      r := r.(accrued := 0.0);
    }
  }

  /** `interest.Earned`, its rate asked of the book. */
  method Earned(points: seq<Point>, book: RateBook, pays: Pays, from: Day, until: Day)
    returns (out: seq<Payment>, unrated: Option<Day>)
    modifies book`memo
    ensures var end :=
            TellTo(book.setting, points, pays, old(book.memo), from, Max(LastDay(pays, until), from - 1)).account;
            out == end.out && unrated == end.unrated
  {
    hide TellDay, LastDay;
    var last := LastDay(pays, until);
    ghost var kept := book.memo;
    var s := OPENED;
    var day := from;
    while day <= last
      invariant from <= day <= Max(last, from - 1) + 1
      invariant Told(book.memo, s) == TellTo(book.setting, points, pays, kept, from, day - 1) && s.unrated.None?
                && s.next <= |points|
      decreases last + 1 - day
    {
      s := EarnDay(points, book, pays, s, day);
      if s.unrated.Some? {
        UnratedStays(book.setting, points, pays, kept, from, day, last);
        return s.out, s.unrated;
      }
      day := day + 1;
    }
    return s.out, s.unrated;
  }

  /** The account of one holding from the day after its opening, its rates asked of a new memo. */
  ghost function RunTo(s: Setting, amount: int, end: Day, pays: Pays): Account {
    TellTo(s, [Point(s.h.openedOn, amount)], pays, map[], s.h.openedOn + 1,
           Max(LastDay(pays, end), s.h.openedOn)).account
  }

  /** The same with the rate asked anew every day. */
  ghost function PlainRunTo(s: Setting, amount: int, end: Day, pays: Pays): Account {
    EarnedTo([Point(s.h.openedOn, amount)], Daily(s), pays, s.h.openedOn + 1, Max(LastDay(pays, end), s.h.openedOn))
  }

  /** `compare.run`, whatever moves while it runs. */
  method Run(p: Programme, v: Variant, h: Holding, amount: int, end: Day, pays: Pays, keyOn: KeyOn, met: Conditions)
    returns (paid: Option<seq<Payment>>)
    ensures var told := RunTo(Setting(p, h, keyOn, met, Boundaries(v.schedule, h.openedOn)), amount, end, pays);
            paid == if told.unrated.Some? then None else Some(told.out)
  {
    hide TellTo, LastDay;
    var bounds := FindBoundaries(v.schedule, h.openedOn);
    var book := new RateBook(p, h, keyOn, met, bounds);
    var out, unrated := Earned([Point(h.openedOn, amount)], book, pays, h.openedOn + 1, end);
    paid := if unrated.Some? then None else Some(out);
  }

  method FindBoundaries(schedule: seq<Period>, openedOn: Day) returns (bounds: seq<Day>)
    ensures bounds == Boundaries(schedule, openedOn)
  {
    hide PeriodEnd;
    bounds := [];
    var at := openedOn;
    for i := 0 to |schedule|
      invariant bounds + Boundaries(schedule[i..], at) == Boundaries(schedule, openedOn)
    {
      assert schedule[i..][1..] == schedule[i + 1..];
      var next := PeriodEnd(schedule[i], at);
      assert bounds + ([next] + Boundaries(schedule[i + 1..], next))
             == bounds + [next] + Boundaries(schedule[i + 1..], next);
      bounds := bounds + [next];
      at := next;
    }
  }

  // ---- When the memo changes nothing ----

  /** As the days from `lo` to `hi` go on, a rate struck for a balance stays that balance's rate to
      the end of its month and stage. */
  ghost predicate OneRateAKey(s: Setting, lo: Day, hi: Day) {
    forall a, b, balance ::
      lo <= a <= b <= hi && 0 < balance && s.Key(a, balance) == s.Key(b, balance) && s.Rate(a, balance).Some? ==>
        s.Rate(b, balance) == s.Rate(a, balance)
  }

  /** Every rate kept is the one any later day of its key would strike. */
  ghost predicate Kept(s: Setting, memo: Memo, from: Day, hi: Day) {
    forall day, balance :: from <= day <= hi && 0 < balance && s.Key(day, balance) in memo ==>
      s.Rate(day, balance) == Some(memo[s.Key(day, balance)])
  }

  lemma AskKeeps(s: Setting, memo: Memo, lo: Day, day: Day, hi: Day, balance: int)
    requires OneRateAKey(s, lo, hi) && lo <= day <= hi && 0 < balance && Kept(s, memo, day, hi)
    ensures var (kept, rate) := Ask(s, memo, day, balance); rate == s.Rate(day, balance) && Kept(s, kept, day, hi)
  {
    hide Setting.Rate, KeyOf;
    var (kept, rate) := Ask(s, memo, day, balance);
    forall d, b | day <= d <= hi && 0 < b && s.Key(d, b) in kept ensures s.Rate(d, b) == Some(kept[s.Key(d, b)]) {
      if s.Key(d, b) == s.Key(day, balance) {
        KeyBalance(s, d, b, day, balance);
      }
    }
  }

  lemma KeyBalance(s: Setting, a: Day, x: int, b: Day, y: int)
    requires s.Key(a, x) == s.Key(b, y)
    ensures x == y
  {
  }

  lemma TellDayIsPlain(s: Setting, points: seq<Point>, pays: Pays, t: Told, lo: Day, day: Day, hi: Day)
    requires OneRateAKey(s, lo, hi) && lo <= day <= hi && Kept(s, t.memo, day, hi)
    ensures var told := TellDay(s, points, pays, t, day);
            told.account == DayStep(points, Daily(s), pays, t.account, day) && Kept(s, told.memo, day, hi)
  {
    hide Setting.Rate, Ask, Kept, OneRateAKey, Marked, Settle, DayInterest;
    var m := Marked(points, t.account, day);
    if m.base + m.added > 0 {
      AskKeeps(s, t.memo, lo, day, hi, m.base + m.added);
    }
  }

  /** There the account with the memo is day by day the account with the rate asked every day,
      whatever the marks and the way of paying. */
  lemma {:induction false} MemoIsPlain(s: Setting, points: seq<Point>, pays: Pays, from: Day, day: Day, hi: Day)
    requires OneRateAKey(s, from, hi) && day <= hi
    ensures var told := TellTo(s, points, pays, map[], from, day);
            told.account == EarnedTo(points, Daily(s), pays, from, day) && Kept(s, told.memo, day, hi)
    decreases day - from
  {
    hide OneRateAKey, Kept, TellDay, DayStep;
    if day < from {
      NothingKept(s, day, hi);
    } else {
      MemoIsPlain(s, points, pays, from, day - 1, hi);
      KeptOn(s, TellTo(s, points, pays, map[], from, day - 1).memo, day - 1, hi);
      TellDayIsPlain(s, points, pays, TellTo(s, points, pays, map[], from, day - 1), from, day, hi);
    }
  }

  lemma NothingKept(s: Setting, from: Day, hi: Day)
    ensures Kept(s, map[], from, hi)
  {
  }

  lemma KeptOn(s: Setting, memo: Memo, from: Day, hi: Day)
    requires Kept(s, memo, from, hi)
    ensures Kept(s, memo, from + 1, hi)
  {
  }

  /** So one holding earns with the memo what it earns without. */
  lemma RunIsPlain(s: Setting, amount: int, end: Day, pays: Pays)
    requires OneRateAKey(s, s.h.openedOn + 1, LastDay(pays, end))
    ensures RunTo(s, amount, end, pays) == PlainRunTo(s, amount, end, pays)
  {
    hide OneRateAKey, Kept, LastDay;
    var from, last := s.h.openedOn + 1, LastDay(pays, end);
    if from <= last {
      MemoIsPlain(s, [Point(s.h.openedOn, amount)], pays, from, last, last);
    }
  }
}
