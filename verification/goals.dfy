/** Savings goals: what a plan comes to, what contribution it needs, and when it gets there. */
module Goals {
  import Calendar
  import opened Rounding

  datatype Goal = Goal(target: Option<int>, targetOn: Option<int>, monthly: Option<int>, growth: real)

  datatype Status = Done | Ahead | OnTrack | AtRisk | NoStatus

  datatype Progress = Progress(
    saved: int, percent: int, status: Status, projected: Option<int>, short: Option<int>, needed: Option<int>,
    reachOn: Option<int>, months: int)

  /** What a goal must be to be kept: its sums above nought, its growth not below. */
  predicate Kept(g: Goal) {
    (g.target.Some? ==> g.target.value > 0) && (g.monthly.Some? ==> g.monthly.value > 0) && 0.0 <= g.growth
  }

  /** The whole months between two days, one not yet full not counted. */
  function MonthsBetween(from: int, upTo: int): (n: int)
    ensures 0 <= n
  {
    var n := Calendar.MonthOf(upTo) - Calendar.MonthOf(from);
    Max(if Calendar.DayOfMonth(upTo) < Calendar.DayOfMonth(from) then n - 1 else n, 0)
  }

  function RateOf(growth: real): real { growth / 100.0 / 12.0 }

  function Power(x: real, n: nat): real {
    if n == 0 then 1.0 else Power(x, n - 1) * x
  }

  /** What contributions of so much a month grow to at a rate a month, which grows a unit by `d`. */
  function Contributed(monthly: real, d: real, r: real): real
    requires r != 0.0
  {
    monthly * d / r
  }

  /** The contribution a month that grows to so much. */
  function ToGrowTo(left: real, r: real, d: real): real
    requires d != 0.0
  {
    left * r / d
  }

  function PutBy(saved: real, monthly: real, n: real): real { saved + monthly * n }

  /** What the saved and the contributions come to once a unit has grown to `g`. */
  function GrownBy(saved: real, monthly: real, r: real, g: real): real
    requires r != 0.0
  {
    saved * g + Contributed(monthly, g - 1.0, r)
  }

  /** What is still to be grown to once the saved has grown. */
  function LeftToGrow(saved: real, target: real, g: real): real { target - saved * g }

  /** The plan after n months, in closed form. */
  function Future(saved: int, monthly: int, n: nat, growth: real): real {
    var r := RateOf(growth);
    if r == 0.0 then PutBy(saved as real, monthly as real, n as real)
    else GrownBy(saved as real, monthly as real, r, Power(r + 1.0, n))
  }

  /** The least contribution a month, in closed form. */
  function NeededMonthly(saved: int, target: int, n: nat, growth: real): int
    requires 0.0 <= growth
  {
    if n == 0 then Max(target - saved, 0)
    else
      var r := RateOf(growth);
      if r == 0.0 then Max(Ceil((target as real - saved as real) / n as real), 0)
      else
        var g := Power(r + 1.0, n);
        var left := LeftToGrow(saved as real, target as real, g);
        GrowthAboveOne(r, n);
        if left <= 0.0 then 0 else Ceil(ToGrowTo(left, r, g - 1.0))
  }

  // ---- The closed form is the month-by-month growth ----

  /** Month by month: what there is grows, then the contribution comes. */
  function Grown(saved: int, monthly: int, n: nat, growth: real): real {
    if n == 0 then saved as real else Grown(saved, monthly, n - 1, growth) * (1.0 + RateOf(growth)) + monthly as real
  }

  lemma {:induction false} FutureIsGrowth(saved: int, monthly: int, n: nat, growth: real)
    ensures Future(saved, monthly, n, growth) == Grown(saved, monthly, n, growth)
    decreases n
  {
    hide RateOf, Future;
    if n > 0 {
      FutureIsGrowth(saved, monthly, n - 1, growth);
      FutureGrows(saved, monthly, n, growth);
    } else {
      FutureOfNoMonths(saved, monthly, growth);
    }
  }

  lemma FutureOfNoMonths(saved: int, monthly: int, growth: real)
    ensures Future(saved, monthly, 0, growth) == saved as real
  {
    hide RateOf, Contributed;
    var r := RateOf(growth);
    if r != 0.0 {
      NothingContributed(monthly as real, r);
    }
  }

  lemma NothingContributed(m: real, r: real)
    requires r != 0.0
    ensures Contributed(m, 0.0, r) == 0.0
  {
  }

  lemma FutureGrows(saved: int, monthly: int, n: nat, growth: real)
    requires 0 < n
    ensures Future(saved, monthly, n, growth)
            == Future(saved, monthly, n - 1, growth) * (1.0 + RateOf(growth)) + monthly as real
  {
    hide RateOf, GrownBy, PutBy;
    var r := RateOf(growth);
    if r != 0.0 {
      var g := Power(r + 1.0, n - 1);
      assert Power(r + 1.0, n) == g * (r + 1.0);
      OneMoreMonth(saved as real, monthly as real, r, g);
    } else {
      OneMorePutBy(saved as real, monthly as real, n as real);
    }
  }

  lemma OneMorePutBy(s: real, m: real, n: real)
    ensures PutBy(s, m, n) == PutBy(s, m, n - 1.0) * 1.0 + m
  {
  }

  lemma OneMoreMonth(s: real, m: real, r: real, g: real)
    requires r != 0.0
    ensures GrownBy(s, m, r, g * (r + 1.0)) == GrownBy(s, m, r, g) * (1.0 + r) + m
  {
    var q := Contributed(m, g - 1.0, r);
    assert q * r == m * (g - 1.0);
    var next := q * (1.0 + r) + m;
    assert next * r == m * (g * (r + 1.0) - 1.0);
    Divided(next, r, m * (g * (r + 1.0) - 1.0));
    assert s * g * (1.0 + r) == s * (g * (r + 1.0));
  }

  lemma Divided(x: real, r: real, y: real)
    requires r != 0.0 && x * r == y
    ensures y / r == x
  {
  }

  // ---- The needed contribution inverts it ----

  lemma {:induction false} GrowthAboveOne(r: real, n: nat)
    requires 0.0 < r
    ensures 1.0 <= Power(r + 1.0, n) && (0 < n ==> 1.0 < Power(r + 1.0, n))
    decreases n
  {
    if n > 0 {
      GrowthAboveOne(r, n - 1);
      var g := Power(r + 1.0, n - 1);
      assert g * (r + 1.0) == g + g * r;
      assert g * r > 0.0;
    }
  }

  lemma AtLeastCeil(m: int, x: real)
    ensures m >= Ceil(x) <==> m as real >= x
  {
  }

  lemma TimesAtLeast(m: real, d: real, left: real)
    requires 0.0 < d
    ensures m >= left / d <==> m * d >= left
  {
    var q := left / d;
    assert q * d == left;
    assert (m - q) * d == m * d - left;
    assert m - q >= 0.0 ==> (m - q) * d >= 0.0;
    assert m - q < 0.0 ==> (m - q) * d < 0.0;
  }

  /** With a month or more left, a whole contribution not below nought reaches the target exactly
      when it is at least the needed one: that is the least that does. */
  lemma NeededIsLeast(saved: int, target: int, n: nat, growth: real, m: nat)
    requires 1 <= n && 0.0 <= growth
    ensures Future(saved, m, n, growth) >= target as real <==> m >= NeededMonthly(saved, target, n, growth)
  {
    hide RateOf, Future, NeededMonthly;
    RateNotBelow(growth);
    if RateOf(growth) == 0.0 {
      NeededPlainly(saved, target, n, growth, m);
    } else {
      NeededAtRate(saved, target, n, growth, m);
    }
  }

  lemma NeededPlainly(saved: int, target: int, n: nat, growth: real, m: nat)
    requires 1 <= n && 0.0 <= growth && RateOf(growth) == 0.0
    ensures Future(saved, m, n, growth) >= target as real <==> m >= NeededMonthly(saved, target, n, growth)
  {
    hide RateOf, PutBy;
    NeededPlain(saved as real, target as real, n as real, m);
  }

  lemma NeededAtRate(saved: int, target: int, n: nat, growth: real, m: nat)
    requires 1 <= n && 0.0 <= growth && 0.0 < RateOf(growth)
    ensures Future(saved, m, n, growth) >= target as real <==> m >= NeededMonthly(saved, target, n, growth)
  {
    hide RateOf, GrownBy, LeftToGrow, ToGrowTo, Power;
    var r := RateOf(growth);
    GrowthAboveOne(r, n);
    var g := Power(r + 1.0, n);
    NeededGrowing(LeftToGrow(saved as real, target as real, g), r, g - 1.0, m);
    GrownReaches(saved as real, m as real, r, g, target as real);
  }

  lemma RateNotBelow(growth: real)
    requires 0.0 <= growth
    ensures 0.0 <= RateOf(growth)
  {
  }

  lemma NeededPlain(s: real, t: real, n: real, m: nat)
    requires 0.0 < n
    ensures PutBy(s, m as real, n) >= t <==> m >= Max(Ceil((t - s) / n), 0)
  {
    AtLeastCeil(m, (t - s) / n);
    TimesAtLeast(m as real, n, t - s);
  }

  lemma GrownReaches(s: real, m: real, r: real, g: real, t: real)
    requires r != 0.0
    ensures GrownBy(s, m, r, g) >= t <==> Contributed(m, g - 1.0, r) >= LeftToGrow(s, t, g)
  {
    hide Contributed;
  }

  lemma NeededGrowing(left: real, r: real, d: real, m: nat)
    requires 0.0 < r && 0.0 < d
    ensures Contributed(m as real, d, r) >= left <==> m >= (if left <= 0.0 then 0 else Ceil(ToGrowTo(left, r, d)))
  {
    hide Contributed, ToGrowTo;
    ContributedAtLeast(m as real, d, r, left);
    AtLeastCeil(m, ToGrowTo(left, r, d));
    ToGrowToAtMost(m as real, d, r, left);
    NotBelowNought(m as real, d);
    BelowNought(left, r);
  }

  lemma ContributedAtLeast(m: real, d: real, r: real, left: real)
    requires 0.0 < r
    ensures Contributed(m, d, r) >= left <==> m * d >= left * r
  {
    AtMostQuotient(left, r, m * d);
  }

  lemma ToGrowToAtMost(m: real, d: real, r: real, left: real)
    requires 0.0 < d
    ensures m >= ToGrowTo(left, r, d) <==> m * d >= left * r
  {
    TimesAtLeast(m, d, left * r);
  }

  lemma NotBelowNought(a: real, b: real)
    requires 0.0 <= a && 0.0 <= b
    ensures 0.0 <= a * b
  {
  }

  lemma BelowNought(a: real, b: real)
    requires 0.0 < b
    ensures a <= 0.0 ==> a * b <= 0.0
  {
  }

  lemma AtMostQuotient(left: real, r: real, grown: real)
    requires 0.0 < r
    ensures grown / r >= left <==> grown >= left * r
  {
    var q := grown / r;
    assert q * r == grown;
    assert (q - left) * r == grown - left * r;
    assert q - left >= 0.0 ==> (q - left) * r >= 0.0;
    assert q - left < 0.0 ==> (q - left) * r < 0.0;
  }

  // ---- When the target is reached ----

  const REACH_MONTHS := 600

  predicate ReachesIn(saved: int, monthly: int, target: int, growth: real, n: nat) {
    Future(saved, monthly, n, growth) >= target as real
  }

  /** The first month from the n-th on by which the target is reached, up to fifty years. */
  function FirstReach(saved: int, monthly: int, target: int, growth: real, n: nat): (r: Option<nat>)
    requires n <= REACH_MONTHS + 1
    ensures r.Some? ==> n <= r.value <= REACH_MONTHS && ReachesIn(saved, monthly, target, growth, r.value)
    ensures forall k: nat :: n <= k < (if r.Some? then r.value else REACH_MONTHS + 1) ==>
              !ReachesIn(saved, monthly, target, growth, k)
    decreases REACH_MONTHS + 1 - n
  {
    hide ReachesIn;
    if n > REACH_MONTHS then None
    else if ReachesIn(saved, monthly, target, growth, n) then Some(n)
    else FirstReach(saved, monthly, target, growth, n + 1)
  }

  /** The first of a month so many whole months off, the next one when today is not a first. */
  function ReachDay(today: int, n: nat): int {
    Calendar.FirstOf(Calendar.MonthOf(today) + n + (if Calendar.DayOfMonth(today) != 1 then 1 else 0))
  }

  method Reach(saved: int, monthly: int, target: int, growth: real, today: int) returns (on: Option<int>, months: nat)
    ensures var n := FirstReach(saved, monthly, target, growth, 1);
            on == (if n.Some? then Some(ReachDay(today, n.value)) else None) && months == if n.Some? then n.value else 0
  {
    hide ReachesIn, Future;
    var n := 1;
    while n <= REACH_MONTHS
      invariant 1 <= n <= REACH_MONTHS + 1
      invariant FirstReach(saved, monthly, target, growth, 1) == FirstReach(saved, monthly, target, growth, n)
    {
      ReachesInIs(saved, monthly, target, growth, n);
      if Future(saved, monthly, n, growth) >= target as real {
        var day := Calendar.FirstOf(Calendar.MonthOf(today) + n);
        if Calendar.DayOfMonth(today) != 1 {
          day := Calendar.FirstOf(Calendar.MonthOf(today) + n + 1);
        }
        return Some(day), n;
      }
      n := n + 1;
    }
    return None, 0;
  }

  lemma ReachesInIs(saved: int, monthly: int, target: int, growth: real, n: nat)
    ensures ReachesIn(saved, monthly, target, growth, n) <==> Future(saved, monthly, n, growth) >= target as real
  {
    hide Future;
  }

  /** A date so many months off by `ReachDay` is that many whole months off. */
  lemma ReachDayIsMonthsOff(today: int, n: nat)
    ensures MonthsBetween(today, ReachDay(today, n)) == n
    ensures Calendar.DayOfMonth(ReachDay(today, n)) == 1
  {
    hide Calendar.FirstOf, Calendar.MonthOf, Calendar.DayOfMonth, Calendar.MonthLen;
    Calendar.DateIs(Calendar.MonthOf(today) + n + (if Calendar.DayOfMonth(today) != 1 then 1 else 0), 1);
  }

  // ---- Progress ----

  function Monthly(g: Goal): int { if g.monthly.Some? then g.monthly.value else 0 }

  /** What the plan comes to, to whole minor units. */
  function Projected(g: Goal, saved: int, n: nat): int { Round(Future(saved, Monthly(g), n, g.growth)) }

  function Judged(projected: int, target: int): Status {
    if projected as real >= target as real * 1.05 then Ahead
    else if projected >= target then OnTrack
    else AtRisk
  }

  function ReachOn(g: Goal, saved: int, today: int): (Option<int>, nat)
    requires g.target.Some?
  {
    var n := FirstReach(saved, Monthly(g), g.target.value, g.growth, 1);
    if Monthly(g) > 0 && n.Some? then (Some(ReachDay(today, n.value)), n.value) else (None, 0)
  }

  function ProgressOf(g: Goal, saved: int, today: int): Progress
    requires Kept(g)
  {
    if g.target.None? then Progress(saved, 0, NoStatus, None, None, None, None, 0)
    else if saved >= g.target.value then Progress(saved, 100, Done, None, None, None, None, 0)
    else
      var target, percent := g.target.value, Max(saved, 0) * 100 / g.target.value;
      if g.targetOn.None?
      then Progress(saved, percent, NoStatus, None, None, None, ReachOn(g, saved, today).0, ReachOn(g, saved, today).1)
      else
        var n := MonthsBetween(today, g.targetOn.value);
        var projected := Projected(g, saved, n);
        var status := Judged(projected, target);
        var atRisk := status == AtRisk;
        Progress(saved, percent, status, Some(projected), if atRisk then Some(target - projected) else None,
                 Some(NeededMonthly(saved, target, n, g.growth)), if atRisk then ReachOn(g, saved, today).0 else None,
                   n)
  }

  method MakeProgress(g: Goal, saved: int, today: int) returns (out: Progress)
    requires Kept(g)
    ensures out == ProgressOf(g, saved, today)
  {
    hide Future, NeededMonthly, FirstReach, MonthsBetween, ReachDay, Round;
    out := Progress(saved, 0, NoStatus, None, None, None, None, 0);
    if g.target.None? {
      return;
    }
    var target := g.target.value;
    if saved >= target {
      out := out.(status := Done, percent := 100);
      return;
    }
    out := out.(percent := Max(saved, 0) * 100 / target);
    var monthly := if g.monthly.Some? then g.monthly.value else 0;
    if g.targetOn.None? {
      if monthly > 0 {
        var on, months := Reach(saved, monthly, target, g.growth, today);
        out := out.(reachOn := on, months := months);
      }
      return;
    }
    var n := MonthsBetween(today, g.targetOn.value);
    var fv := Round(Future(saved, monthly, n, g.growth));
    out := out.(months := n, projected := Some(fv), needed := Some(NeededMonthly(saved, target, n, g.growth)));
    if fv as real >= target as real * 1.05 {
      out := out.(status := Ahead);
    } else if fv >= target {
      out := out.(status := OnTrack);
    } else {
      out := out.(status := AtRisk, short := Some(target - fv));
      if monthly > 0 {
        var on, _ := Reach(saved, monthly, target, g.growth, today);
        out := out.(reachOn := on);
      }
    }
  }

  /** A dated goal not yet reached. */
  ghost predicate Open(g: Goal, saved: int) {
    Kept(g) && g.target.Some? && g.targetOn.Some? && saved < g.target.value
  }

  lemma RoundReaches(x: real, target: int)
    requires 0 < target
    ensures Round(x) >= target <==> x >= target as real - 0.5
  {
  }

  lemma AheadIsPast(projected: int, target: int)
    requires 0 < target
    ensures Judged(projected, target) == AtRisk <==> projected < target
  {
  }

  /** A goal is at risk exactly when its plan falls short of the target by more than half a minor
      unit. */
  lemma AtRiskExactly(g: Goal, saved: int, today: int)
    requires Open(g, saved)
    ensures ProgressOf(g, saved, today).status == AtRisk
       <==> Future(saved, Monthly(g), MonthsBetween(today, g.targetOn.value), g.growth) < g.target.value as real - 0.5
  {
    hide Future, NeededMonthly, ReachOn, MonthsBetween, Round, Judged;
    RoundReaches(Future(saved, Monthly(g), MonthsBetween(today, g.targetOn.value), g.growth), g.target.value);
    AheadIsPast(Projected(g, saved, MonthsBetween(today, g.targetOn.value)), g.target.value);
  }

  /** Contributing what is needed, or more, is never at risk, with a month or more left; with none
      left the goal is at risk whatever is contributed. */
  lemma NeededIsNeverAtRisk(g: Goal, saved: int, today: int)
    requires Open(g, saved)
    ensures var n, p := MonthsBetween(today, g.targetOn.value), ProgressOf(g, saved, today);
            && p.needed == Some(NeededMonthly(saved, g.target.value, n, g.growth))
            && (1 <= n && Monthly(g) >= p.needed.value ==> p.status != AtRisk)
            && (n == 0 ==> p.status == AtRisk && p.needed.value == g.target.value - saved)
  {
    hide Future, MonthsBetween, Round, ReachOn, Judged, FirstReach;
    var n := MonthsBetween(today, g.targetOn.value);
    AtRiskExactly(g, saved, today);
    if n == 0 {
      FutureIsGrowth(saved, Monthly(g), 0, g.growth);
    } else {
      NeededIsLeast(saved, g.target.value, n, g.growth, Monthly(g));
    }
  }

  /** The reach day, taken as the goal's date, gives back the same months and is not at risk; any
      first of a month before it falls short, and is at risk unless by no more than half a unit. */
  lemma ReachDayIsOnTrack(g: Goal, saved: int, today: int, n: nat, m: nat)
    requires Kept(g) && g.target.Some? && saved < g.target.value && Monthly(g) > 0
    requires FirstReach(saved, Monthly(g), g.target.value, g.growth, 1) == Some(n)
    requires m < n
    ensures var on := ProgressOf(g.(targetOn := Some(ReachDay(today, n))), saved, today);
            on.months == n && on.status != AtRisk
    ensures var early := ProgressOf(g.(targetOn := Some(ReachDay(today, m))), saved, today);
            var comesTo := Future(saved, Monthly(g), m, g.growth);
            && early.months == m && comesTo < g.target.value as real
            && (early.status == AtRisk <==> comesTo < g.target.value as real - 0.5)
  {
    hide Future, MonthsBetween, NeededMonthly, Round, ReachOn, Judged, ReachDay;
    var late, soon := g.(targetOn := Some(ReachDay(today, n))), g.(targetOn := Some(ReachDay(today, m)));
    ReachDayIsMonthsOff(today, n);
    ReachDayIsMonthsOff(today, m);
    AtRiskExactly(late, saved, today);
    AtRiskExactly(soon, saved, today);
    if m == 0 {
      FutureIsGrowth(saved, Monthly(g), 0, g.growth);
    } else {
      assert !ReachesIn(saved, Monthly(g), g.target.value, g.growth, m);
    }
  }

  /** So the reach day is not always the earliest first of a month on track: rounding may count the
      month before. */
  lemma EarlierMayBeOnTrack(today: int)
    ensures var g := Goal(Some(102), None, Some(1), 6.0);
            && FirstReach(100, 1, 102, 6.0, 1) == Some(2)
            && ProgressOf(g.(targetOn := Some(ReachDay(today, 1))), 100, today).status == OnTrack
  {
    hide MonthsBetween, ReachDay;
    assert RateOf(6.0) == 0.005;
    FutureIsGrowth(100, 1, 1, 6.0);
    FutureIsGrowth(100, 1, 2, 6.0);
    assert Grown(100, 1, 1, 6.0) == 101.5 && Grown(100, 1, 2, 6.0) == 103.0075;
    ReachDayIsMonthsOff(today, 1);
  }
}
