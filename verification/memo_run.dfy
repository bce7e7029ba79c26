/** Exactly when the memo changes nothing of the runs it is made for, each of one mark. */
module MemoRun {
  import opened Calendar
  import opened Rounding
  import opened DepositProgramme
  import opened Interest
  import opened Earn
  import opened MemoExact

  /** A run earns from the day after its opening. */
  function First(s: Setting): Day { s.h.openedOn + 1 }

  function Mark(s: Setting, amount: int): seq<Point> { [Point(s.h.openedOn, amount)] }

  /** Every day of the run before `day` has a rate on the amount. */
  ghost predicate RatedTo(s: Setting, amount: int, day: Day) {
    forall d :: First(s) <= d < day ==> s.Rate(d, amount).Some?
  }

  /** Up to `hi`, and to the first day with no rate, each day earns on the amount what the earlier
      days of its month and stage did. */
  ghost predicate OneRateHeld(s: Setting, amount: int, hi: Day) {
    forall a, b :: First(s) <= a <= b <= hi && RatedTo(s, amount, b) && s.Key(a, amount) == s.Key(b, amount) ==>
      s.Rate(b, amount) == s.Rate(a, amount)
  }

  /** The runs of an amount paid out, however often and to whatever day up to `hi`, are those with the
      rate asked every day. */
  ghost predicate RunsAlike(s: Setting, amount: int, hi: Day) {
    forall pays: Pays, end :: !pays.capitalize && LastDay(pays, end) <= hi ==>
      RunTo(s, amount, end, pays) == PlainRunTo(s, amount, end, pays)
  }

  /** The memo after the run's days to `day`: the rate of each under its key, and nothing else. */
  ghost predicate Holds(s: Setting, amount: int, memo: Memo, day: Day) {
    && (forall d :: First(s) <= d <= day ==>
        s.Key(d, amount) in memo && s.Rate(d, amount) == Some(memo[s.Key(d, amount)]))
    && (forall key :: key in memo ==> exists d :: First(s) <= d <= day && s.Key(d, amount) == key)
  }

  /** The amount is what is held. */
  predicate Holding(s: Setting, amount: int, account: Account, day: Day) {
    && account.unrated.None?
    && if day < First(s) then account == OPENED else account.base == amount && account.added == 0 && account.next == 1
  }

  lemma MarkedByOne(s: Setting, amount: int, account: Account, day: Day)
    requires First(s) <= day && Holding(s, amount, account, day - 1)
    ensures Marked(Mark(s, amount), account, day) == account.(base := amount, added := 0, next := 1)
  {
    if account.next == 0 {
      var m := account.(base := amount, added := 0, next := 1);
      assert Marked(Mark(s, amount), account, day) == Marked(Mark(s, amount), m, day);
    }
  }

  /** What is told of a day is the rate asked, where its key's earlier days had that rate. */
  lemma AskedRight(s: Setting, amount: int, memo: Memo, day: Day)
    requires First(s) <= day && Holds(s, amount, memo, day - 1)
    requires OneRateHeld(s, amount, day) && RatedTo(s, amount, day)
    ensures var (kept, rate) := Ask(s, memo, day, amount);
            rate == s.Rate(day, amount) && (rate.Some? ==> Holds(s, amount, kept, day))
  {
    hide Setting.Rate, Setting.Key, RatedTo;
  }

  /** Where the days keep to their rates the two runs go together day by day. */
  lemma {:induction false} GoTogether(s: Setting, amount: int, pays: Pays, day: Day, hi: Day)
    requires 0 < amount && !pays.capitalize && day <= hi && OneRateHeld(s, amount, hi)
    ensures var told := TellTo(s, Mark(s, amount), pays, map[], First(s), day);
            && told.account == EarnedTo(Mark(s, amount), Daily(s), pays, First(s), day)
            && (if RatedTo(s, amount, day + 1)
                then Holds(s, amount, told.memo, day) && Holding(s, amount, told.account, day)
                else told.account.unrated.Some?)
    decreases day - First(s)
  {
    hide Setting.Rate, TellDay, DayStep, OneRateHeld, Holds;
    if First(s) <= day {
      GoTogether(s, amount, pays, day - 1, hi);
      var before := TellTo(s, Mark(s, amount), pays, map[], First(s), day - 1);
      if RatedTo(s, amount, day) {
        TogetherOn(s, amount, pays, before, day, hi);
      } else {
        UnratedOn(s, Mark(s, amount), pays, before, day);
      }
    } else {
      NothingHeld(s, amount, day);
    }
  }

  lemma NothingHeld(s: Setting, amount: int, day: Day)
    requires day < First(s)
    ensures Holds(s, amount, map[], day)
  {
  }

  lemma UnratedOn(s: Setting, points: seq<Point>, pays: Pays, before: Told, day: Day)
    requires before.account.unrated.Some?
    ensures TellDay(s, points, pays, before, day) == before
    ensures DayStep(points, Daily(s), pays, before.account, day) == before.account
  {
  }

  lemma TogetherOn(s: Setting, amount: int, pays: Pays, before: Told, day: Day, hi: Day)
    requires 0 < amount && !pays.capitalize && First(s) <= day <= hi && OneRateHeld(s, amount, hi)
             && RatedTo(s, amount, day)
    requires Holds(s, amount, before.memo, day - 1) && Holding(s, amount, before.account, day - 1)
    ensures var told := TellDay(s, Mark(s, amount), pays, before, day);
            && told.account == DayStep(Mark(s, amount), Daily(s), pays, before.account, day)
            && (if s.Rate(day, amount).Some?
                then Holds(s, amount, told.memo, day) && Holding(s, amount, told.account, day)
                else told.account.unrated.Some?)
  {
    hide Setting.Rate, Setting.Key, Ask, Marked, DayInterest, PayDay, Round, Holds, RatedTo;
    MarkedByOne(s, amount, before.account, day);
    AskedRight(s, amount, before.memo, day);
  }

  /** A day whose run is told as it is earned earns what its key's earlier days did. */
  lemma ToldAsEarned(s: Setting, amount: int, a: Day, b: Day)
    requires 0 < amount && First(s) <= a < b && s.Key(a, amount) == s.Key(b, amount)
    requires OneRateHeld(s, amount, b - 1) && RatedTo(s, amount, b)
    requires TellTo(s, Mark(s, amount), NEVER, map[], First(s), b).account
             == EarnedTo(Mark(s, amount), Daily(s), NEVER, First(s), b)
    ensures s.Rate(b, amount) == s.Rate(a, amount)
  {
    hide Setting.Rate, Setting.Key, Marked, DayInterest, TellTo, EarnedTo, RatedTo;
    GoTogether(s, amount, NEVER, b - 1, b - 1);
    var before := TellTo(s, Mark(s, amount), NEVER, map[], First(s), b - 1);
    TellOn(s, Mark(s, amount), First(s), b);
    EarnOn(s, Mark(s, amount), First(s), b);
    MarkedByOne(s, amount, before.account, b);
    var ra := s.Rate(a, amount).value;
    if s.Rate(b, amount).Some? && DayInterest(amount, ra, b) == DayInterest(amount, s.Rate(b, amount).value, b) {
      InterestTells(amount, ra, s.Rate(b, amount).value, b);
    }
  }

  lemma {:induction false} AlikeHolds(s: Setting, amount: int, hi: Day, day: Day)
    requires 0 < amount && RunsAlike(s, amount, hi) && day <= hi
    ensures OneRateHeld(s, amount, day)
    decreases day - First(s)
  {
    hide Setting.Rate, Setting.Key, TellTo, EarnedTo, RatedTo;
    if First(s) <= day {
      AlikeHolds(s, amount, hi, day - 1);
      forall a | First(s) <= a < day && RatedTo(s, amount, day) && s.Key(a, amount) == s.Key(day, amount)
        ensures s.Rate(day, amount) == s.Rate(a, amount)
      {
        assert RunTo(s, amount, day, NEVER) == PlainRunTo(s, amount, day, NEVER);
        ToldAsEarned(s, amount, a, day);
      }
    }
  }

  /** Paid out, an amount earns with the memo what it earns without, whatever the way of paying and
      the end, exactly where to the first day with no rate each day earns on it what the earlier days
      of its month and stage did. */
  lemma RunIsExact(s: Setting, amount: int, hi: Day)
    requires 0 < amount
    ensures RunsAlike(s, amount, hi) <==> OneRateHeld(s, amount, hi)
  {
    hide OneRateHeld, TellTo, EarnedTo, LastDay;
    if OneRateHeld(s, amount, hi) {
      forall pays: Pays, end | !pays.capitalize && LastDay(pays, end) <= hi
        ensures RunTo(s, amount, end, pays) == PlainRunTo(s, amount, end, pays)
      {
        if First(s) <= LastDay(pays, end) {
          GoTogether(s, amount, pays, LastDay(pays, end), hi);
        } else {
          NoDays(s, amount, pays);
        }
      }
    }
    if RunsAlike(s, amount, hi) {
      AlikeHolds(s, amount, hi, hi);
    }
  }

  lemma NoDays(s: Setting, amount: int, pays: Pays)
    ensures TellTo(s, Mark(s, amount), pays, map[], First(s), s.h.openedOn).account == OPENED
    ensures EarnedTo(Mark(s, amount), Daily(s), pays, First(s), s.h.openedOn) == OPENED
  {
  }

  /** Where every day has a rate on every sum held, all the runs, capitalizing or not, earn with the
      memo what they earn without exactly where a rate struck holds to the end of its month and
      stage. */
  lemma RunsAreExact(s: Setting, hi: Day)
    requires forall day, amount :: First(s) <= day <= hi && 0 < amount ==> s.Rate(day, amount).Some?
    ensures (forall amount, end, pays :: 0 < amount && LastDay(pays, end) <= hi ==>
               RunTo(s, amount, end, pays) == PlainRunTo(s, amount, end, pays))
       <==> OneRateAKey(s, First(s), hi)
  {
    hide Setting.Rate, RunTo, PlainRunTo, Setting.Key, LastDay;
    if OneRateAKey(s, First(s), hi) {
      forall amount, end, pays | 0 < amount && LastDay(pays, end) <= hi
        ensures RunTo(s, amount, end, pays) == PlainRunTo(s, amount, end, pays)
      {
        RunIsPlain(s, amount, end, pays);
      }
    }
    if forall amount, end, pays :: 0 < amount && LastDay(pays, end) <= hi ==>
      RunTo(s, amount, end, pays) == PlainRunTo(s, amount, end, pays) {
      forall a, b, amount | First(s) <= a <= b <= hi && 0 < amount && s.Key(a, amount) == s.Key(b, amount)
        ensures s.Rate(b, amount) == s.Rate(a, amount)
      {
        RunIsExact(s, amount, hi);
        assert RatedTo(s, amount, b);
      }
    }
  }
}
