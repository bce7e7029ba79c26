/** `Programme.Quote`: the balance swept from breakpoint to breakpoint, one rate a part, and the
    proof that it is the per-kopeck rate. */
module DepositQuote {
  import opened Calendar
  import opened Rounding
  import opened DepositRate

  /** A part of the balance, from a kopeck up to another, and its rate. */
  datatype Part = Part(from: int, to: int, percent: real)
  datatype Quote = Quote(percent: real, parts: seq<Part>, ids: set<string>)

  // ---- The lookups as the program loops them ----

  method FindRate(grid: seq<Cell>, split: bool, kind: Kind, term: int, whole: int, from: int, key: Option<real>)
    returns (r: Result<real>)
    ensures r == RateOf(grid, split, kind, term, whole, from, key)
  {
    var amount := if split then from else whole;
    var cell: Option<Cell> := None;
    for i := 0 to |grid|
      invariant cell == CellFor(grid[..i], kind, term, amount)
    {
      assert grid[..i + 1][..i] == grid[..i];
      var c := grid[i];
      if kind == DepositKind && (term < c.from || term > c.to) {
        continue;
      }
      if c.amountFrom <= amount && (cell.None? || c.amountFrom >= cell.value.amountFrom) {
        cell := Some(c);
      }
    }
    assert grid[..|grid|] == grid;
    if cell.None? {
      return Fail(NoCell);
    }
    return RateValue(cell.value.rate, key);
  }

  /** What the bonuses add: the greatest of each group, gathered by group and added up. */
  method FindBonuses(bonuses: seq<Bonus>, month: int, from: int, term: int, met: Conditions)
    returns (sum: real, ids: set<string>)
    ensures sum == SumOfBest(BestOf(bonuses, month, from, term, met))
    ensures var best := BestOf(bonuses, month, from, term, met);
            forall id :: id in ids <==> exists g :: g in best && best[g].id == id
  {
    hide BestOf, SumOfBest;
    var best := GatherBest(bonuses, month, from, term, met);
    sum, ids := AddUp(best);
  }

  method GatherBest(bonuses: seq<Bonus>, month: int, from: int, term: int, met: Conditions)
    returns (best: map<string, Best>)
    ensures best == BestOf(bonuses, month, from, term, met)
  {
    best := map[];
    for i := 0 to |bonuses|
      invariant best == BestOf(bonuses[..i], month, from, term, met)
    {
      hide PlusFor, GroupOf, BestOf;
      OneMoreBonus(bonuses, i, month, from, term, met);
      var b := bonuses[i];
      if b.cap > 0 && from >= b.cap {
        continue;
      }
      var level := met(b.id, if b.nextMonth then month - 1 else month);
      if level.None? {
        continue;
      }
      var plus := PlusFor(b, level.value, term);
      if plus.None? {
        continue;
      }
      var group := GroupOf(b);
      if group !in best || plus.value > best[group].plus {
        best := best[group := Best(plus.value, b.id)];
      }
    }
    assert bonuses[..|bonuses|] == bonuses;
  }

  lemma OneMoreBonus(bonuses: seq<Bonus>, i: nat, month: int, from: int, term: int, met: Conditions)
    requires i < |bonuses|
    ensures var best, b := BestOf(bonuses[..i], month, from, term, met), bonuses[i];
            var plus := Counted(b, month, from, term, met);
            BestOf(bonuses[..i + 1], month, from, term, met)
            == if plus.Some? && (GroupOf(b) !in best || plus.value > best[GroupOf(b)].plus)
               then best[GroupOf(b) := Best(plus.value, b.id)]
               else best
  {
    hide Counted, GroupOf;
    assert bonuses[..i + 1][..i] == bonuses[..i];
  }

  method AddUp(best: map<string, Best>) returns (sum: real, ids: set<string>)
    ensures sum == SumOfBest(best)
    ensures forall id :: id in ids <==> exists g :: g in best && best[g].id == id
  {
    hide SumOfBest;
    sum, ids := 0.0, {};
    var left := best;
    while left != map[]
      invariant forall g :: g in left ==> g in best && left[g] == best[g]
      invariant SumOfBest(best) == sum + SumOfBest(left)
      invariant forall id :: id in ids ==> exists g :: g in best && best[g].id == id
      invariant forall g :: g in best && g !in left ==> best[g].id in ids
      decreases left.Keys
    {
      var g :| g in left;
      SumTakesAny(left, g);
      sum := sum + left[g].plus;
      ids := ids + {left[g].id};
      left := left - {g};
    }
    assert SumOfBest(left) == 0.0 by { SumOfNone(); }
  }

  lemma SumOfNone()
    ensures SumOfBest(map[]) == 0.0
  {
  }

  method FindPeriod(schedule: seq<Period>, openedOn: Day, day: Day, met: Conditions) returns (r: Option<Period>)
    ensures r == PeriodOn(schedule, openedOn, openedOn, day, met)
  {
    var start := openedOn;
    for i := 0 to |schedule|
      invariant PeriodOn(schedule, openedOn, openedOn, day, met) == PeriodOn(schedule[i..], start, openedOn, day, met)
    {
      assert schedule[i..][0] == schedule[i] && schedule[i..][1..] == schedule[i + 1..];
      var s := schedule[i];
      var end := PeriodEnd(s, start);
      if day < end {
        if s.needs != "" {
          if met(s.needs, MonthOf(openedOn)).None? {
            return None;
          }
        }
        return Some(s);
      }
      start := end;
    }
    return None;
  }

  // ---- The breakpoints ----

  /** The breakpoints of a balance: from nought, each a threshold inside it, in order, and none
      missing. */
  predicate IsBounds(t: Terms, bounds: seq<int>) {
    && |bounds| > 0 && bounds[0] == 0
    && Rising(bounds)
    && (forall i :: 0 < i < |bounds| ==> bounds[i] < t.balance && bounds[i] in Thresholds(t))
    && (forall x :: x in Thresholds(t) && 0 < x < t.balance ==> x in bounds)
  }

  function Inserted(sorted: seq<int>, x: int): seq<int> {
    if sorted == [] || sorted[|sorted| - 1] < x then sorted + [x]
    else Inserted(sorted[..|sorted| - 1], x) + [sorted[|sorted| - 1]]
  }

  predicate Rising(xs: seq<int>) {
    forall i, j :: 0 <= i < j < |xs| ==> xs[i] < xs[j]
  }

  lemma RisingPush(xs: seq<int>, x: int)
    requires Rising(xs) && forall y :: y in xs ==> y < x
    ensures Rising(xs + [x])
  {
    forall i, j | 0 <= i < j < |xs + [x]| ensures (xs + [x])[i] < (xs + [x])[j] {
      if j == |xs| {
        assert xs[i] in xs;
      }
    }
  }

  lemma RisingLast(xs: seq<int>)
    requires Rising(xs) && xs != []
    ensures Rising(xs[..|xs| - 1])
    ensures var before := xs[..|xs| - 1]; forall y :: y in before ==> y < xs[|xs| - 1]
    ensures xs[|xs| - 1] in xs && xs == xs[..|xs| - 1] + [xs[|xs| - 1]]
  {
  }

  lemma {:induction false} InsertedRises(sorted: seq<int>, x: int)
    requires Rising(sorted) && x !in sorted
    ensures Rising(Inserted(sorted, x))
    ensures forall y :: y in Inserted(sorted, x) <==> y in sorted || y == x
    ensures sorted != [] && sorted[0] < x ==> Inserted(sorted, x)[0] == sorted[0]
    decreases |sorted|
  {
    hide Rising;
    if sorted == [] {
      RisingPush(sorted, x);
    } else {
      var n := |sorted| - 1;
      RisingLast(sorted);
      if sorted[n] < x {
        RisingPush(sorted, x);
      } else {
        InsertedRises(sorted[..n], x);
        RisingPush(Inserted(sorted[..n], x), sorted[n]);
      }
    }
  }

  method AddBound(bounds: seq<int>, at: int, balance: int) returns (r: seq<int>)
    requires Rising(bounds) && |bounds| > 0 && bounds[0] == 0
    ensures Rising(r) && |r| > 0 && r[0] == 0
    ensures forall y :: y in r <==> y in bounds || (y == at && 0 < at < balance)
  {
    r := bounds;
    if at > 0 && at < balance && at !in bounds {
      InsertedRises(bounds, at);
      r := Inserted(bounds, at);
    }
  }

  method AddSteps(bounds: seq<int>, grid: seq<Cell>, balance: int) returns (r: seq<int>)
    requires Rising(bounds) && |bounds| > 0 && bounds[0] == 0
    ensures Rising(r) && |r| > 0 && r[0] == 0
    ensures forall y :: y in r <==> y in bounds || (y in Steps(grid) && 0 < y < balance)
  {
    r := bounds;
    for i := 0 to |grid|
      invariant Rising(r) && |r| > 0 && r[0] == 0
      invariant forall y :: y in r <==> y in bounds || (y in Steps(grid[..i]) && 0 < y < balance)
    {
      assert grid[..i + 1] == grid[..i] + [grid[i]];
      StepsNext(grid[..i], grid[i]);
      r := AddBound(r, grid[i].amountFrom, balance);
    }
    assert grid[..|grid|] == grid;
  }

  lemma StepsNext(grid: seq<Cell>, c: Cell)
    ensures Steps(grid + [c]) == Steps(grid) + {c.amountFrom}
  {
  }

  method AddCaps(bounds: seq<int>, bonuses: seq<Bonus>, balance: int) returns (r: seq<int>)
    requires Rising(bounds) && |bounds| > 0 && bounds[0] == 0
    ensures Rising(r) && |r| > 0 && r[0] == 0
    ensures forall y :: y in r <==> y in bounds || ((exists b :: b in bonuses && b.cap == y) && 0 < y < balance)
  {
    r := bounds;
    for i := 0 to |bonuses|
      invariant Rising(r) && |r| > 0 && r[0] == 0
      invariant forall y ::
                  y in r
                  <==> y in bounds || ((exists b :: b in bonuses[..i] && b.cap == y) && 0 < y < balance)
    {
      assert bonuses[..i + 1] == bonuses[..i] + [bonuses[i]];
      r := AddBound(r, bonuses[i].cap, balance);
    }
    assert bonuses[..|bonuses|] == bonuses;
  }

  /** `bounds`: every threshold inside the balance, after nought. The list is kept rising as it grows;
      the program sorts it once at the end. */
  method FindBounds(t: Terms) returns (bounds: seq<int>)
    ensures IsBounds(t, bounds)
  {
    bounds := [0];
    if t.v.split {
      bounds := AddSteps(bounds, t.v.grid, t.balance);
      if t.period.Some? {
        bounds := AddSteps(bounds, t.period.value.grid, t.balance);
      }
    }
    if t.period.Some? {
      bounds := AddBound(bounds, t.period.value.cap, t.balance);
    }
    bounds := AddCaps(bounds, t.v.bonuses, t.balance);
    if t.v.cap.Some? {
      bounds := AddBound(bounds, t.v.cap.value.amount, t.balance);
    }
    forall i | 0 < i < |bounds| ensures bounds[i] < t.balance && bounds[i] in Thresholds(t) {
      assert bounds[i] in bounds;
    }
  }

  lemma BoundAt(bounds: seq<int>, j: nat, x: int)
    requires Rising(bounds) && j < |bounds| && x in bounds
    ensures x <= bounds[j] || (j + 1 < |bounds| && bounds[j + 1] <= x)
  {
    var i :| 0 <= i < |bounds| && bounds[i] == x;
  }

  /** No threshold lies inside a part. */
  lemma NoneInside(t: Terms, bounds: seq<int>, j: nat, k: int)
    requires IsBounds(t, bounds) && j < |bounds|
    requires bounds[j] <= k < (if j + 1 < |bounds| then bounds[j + 1] else Max(t.balance, 1))
    ensures SameSide(t, bounds[j], k)
  {
    hide Thresholds;
    assert j + 1 < |bounds| ==> bounds[j + 1] < t.balance;
    forall x | x in Thresholds(t) && 0 < x ensures x <= bounds[j] <==> x <= k {
      if x < t.balance {
        BoundAt(bounds, j, x);
      }
    }
  }

  // ---- The sweep ----

  function PartEnd(bounds: seq<int>, j: nat, balance: int): int
    requires j < |bounds|
  {
    if j + 1 < |bounds| then bounds[j + 1] else balance
  }

  /** The parts tile the balance from nought, with no gap or overlap. */
  predicate Tiles(parts: seq<Part>, balance: int) {
    && |parts| > 0 && parts[0].from == 0 && parts[|parts| - 1].to == balance
    && (forall i :: 0 <= i < |parts| - 1 ==> parts[i].to == parts[i + 1].from)
    && (forall i :: 0 <= i < |parts| ==> parts[i].from <= parts[i].to && (0 < balance ==> parts[i].from < parts[i].to))
  }

  /** Every kopeck of a part would get that rate asked on its own. */
  ghost predicate EachKopeck(t: Terms, parts: seq<Part>, met: Conditions) {
    forall i, k :: 0 <= i < |parts| && parts[i].from <= k < parts[i].to ==> RateAt(t, k, met) == Ok(parts[i].percent)
  }

  ghost function Weighed(parts: seq<Part>): real {
    if parts == [] then 0.0
    else
      Weighed(parts[..|parts| - 1])
      + parts[|parts| - 1].percent * (parts[|parts| - 1].to - parts[|parts| - 1].from) as real
  }

  /** A figure rounded to six decimals. */
  function SixDecimals(x: real): real {
    Round(x * 1000000.0) as real / 1000000.0
  }

  /** The bounds walked so far, each with its rate. */
  ghost predicate Swept(t: Terms, bounds: seq<int>, parts: seq<Part>, met: Conditions) {
    && |parts| <= |bounds|
    && forall i :: 0 <= i < |parts| ==>
         && parts[i].from == bounds[i] && parts[i].to == PartEnd(bounds, i, t.balance)
         && RateAt(t, bounds[i], met) == Ok(parts[i].percent)
  }

  /** The rate of one part, as the sweep strikes it. */
  method RatePart(t: Terms, from: int, met: Conditions) returns (r: Result<real>, ids: set<string>)
    ensures r == RateAt(t, from, met)
  {
    hide RateOf, SumOfBest, BestOf;
    ids := {};
    r := FindRate(t.v.grid, t.v.split, t.kind, t.term, t.Whole(), from, t.key);
    if r.Fail? {
      return;
    }
    var rate, bonuses := r.value, true;
    if t.period.Some? && (t.period.value.cap == 0 || from < t.period.value.cap) {
      bonuses := t.period.value.bonuses;
      if |t.period.value.grid| > 0 {
        r := FindRate(t.period.value.grid, t.v.split, t.kind, t.term, t.Whole(), from, t.key);
        if r.Fail? {
          return;
        }
        rate := r.value;
      } else {
        rate := rate + t.period.value.plus;
      }
    }
    assert BaseRate(t, from) == Ok(rate);
    var plus := 0.0;
    if bonuses {
      plus, ids := FindBonuses(t.v.bonuses, t.month, from, t.term, met);
    }
    rate := Capped(t.v.cap, from, rate + plus);
    r := Ok(NotNegative(rate));
  }

  /** The sweep: a rate for the part from each breakpoint to the next, up to one that has none. */
  method SweepParts(t: Terms, bounds: seq<int>, met: Conditions)
    returns (parts: seq<Part>, weighed: real, ids: set<string>, error: Option<Error>)
    ensures Swept(t, bounds, parts, met) && weighed == Weighed(parts)
    ensures error.None? ==> |parts| == |bounds|
    ensures error.Some? ==> |parts| < |bounds| && RateAt(t, bounds[|parts|], met) == Fail(error.value)
  {
    hide RateAt;
    parts, weighed, ids, error := [], 0.0, {}, None;
    for j := 0 to |bounds|
      invariant |parts| == j && Swept(t, bounds, parts, met)
      invariant weighed == Weighed(parts)
    {
      var from, to := bounds[j], PartEnd(bounds, j, t.balance);
      var rate, counted := RatePart(t, from, met);
      if rate.Fail? {
        error := Some(rate.error);
        return;
      }
      assert (parts + [Part(from, to, rate.value)])[..j] == parts;
      parts := parts + [Part(from, to, rate.value)];
      weighed := weighed + rate.value * (to - from) as real;
      ids := ids + counted;
    }
  }

  /** A quote sound for the terms: its parts tile the balance, every kopeck of a part would get
      the part's rate on its own, and the percent is the parts' rates weighed. */
  ghost predicate Sound(t: Terms, q: Quote, met: Conditions) {
    && Tiles(q.parts, t.balance)
    && EachKopeck(t, q.parts, met)
    && RateAt(t, 0, met) == Ok(q.parts[0].percent)
    && q.percent == (if t.balance > 0 then SixDecimals(Weighed(q.parts) / t.balance as real) else q.parts[0].percent)
  }

  /** The error is the first kopeck's that has no rate. */
  ghost predicate FirstFailure(t: Terms, error: Error, met: Conditions) {
    exists k :: 0 <= k < Max(t.balance, 1) && RateAt(t, k, met) == Fail(error) && forall i :: 0 <= i < k ==>
      RateAt(t, i, met).Ok?
  }

  method Sweep(t: Terms, met: Conditions) returns (r: Result<Quote>)
    requires 0 <= t.balance
    ensures r.Ok? ==> Sound(t, r.value, met)
    ensures r.Fail? ==> FirstFailure(t, r.error, met)
  {
    hide IsBounds, RateAt, Tiles, EachKopeck, FirstFailure;
    var bounds := FindBounds(t);
    BoundsShape(t, bounds);
    var parts, weighed, ids, error := SweepParts(t, bounds, met);
    if error.Some? {
      FirstFails(t, bounds, parts, met, |parts|, error.value);
      return Fail(error.value);
    }
    SweptTiles(t, bounds, parts, met);
    var percent := if t.balance > 0 then SixDecimals(weighed / t.balance as real) else parts[0].percent;
    r := Ok(Quote(percent, parts, ids));
  }

  lemma BoundsShape(t: Terms, bounds: seq<int>)
    requires IsBounds(t, bounds)
    ensures |bounds| > 0 && bounds[0] == 0 && forall i :: 0 <= i < |bounds| ==> 0 <= bounds[i] < Max(t.balance, 1)
  {
    hide Thresholds;
  }

  lemma SweptTiles(t: Terms, bounds: seq<int>, parts: seq<Part>, met: Conditions)
    requires IsBounds(t, bounds) && Swept(t, bounds, parts, met) && |parts| == |bounds| && 0 <= t.balance
    ensures Tiles(parts, t.balance) && EachKopeck(t, parts, met)
  {
    hide RateAt, Thresholds;
    SweptTile(t, bounds, parts, met);
    forall i, k | 0 <= i < |parts| && parts[i].from <= k < parts[i].to
      ensures RateAt(t, k, met) == Ok(parts[i].percent)
    {
      KopeckSwept(t, bounds, i, k, met);
    }
  }

  lemma SweptTile(t: Terms, bounds: seq<int>, parts: seq<Part>, met: Conditions)
    requires IsBounds(t, bounds) && Swept(t, bounds, parts, met) && |parts| == |bounds| && 0 <= t.balance
    ensures Tiles(parts, t.balance)
  {
    hide RateAt, Thresholds;
    forall i | 0 <= i < |parts|
      ensures parts[i].from <= parts[i].to && (0 < t.balance ==> parts[i].from < parts[i].to)
    {
      assert i + 1 < |bounds| ==> bounds[i] < bounds[i + 1];
    }
  }

  lemma KopeckSwept(t: Terms, bounds: seq<int>, j: nat, k: int, met: Conditions)
    requires IsBounds(t, bounds) && j < |bounds|
    requires bounds[j] <= k < (if j + 1 < |bounds| then bounds[j + 1] else Max(t.balance, 1))
    ensures RateAt(t, k, met) == RateAt(t, bounds[j], met)
  {
    hide RateAt, IsBounds, SameSide;
    BoundsShape(t, bounds);
    NoneInside(t, bounds, j, k);
    SameRate(t, bounds[j], k, met);
  }

  lemma FirstFails(t: Terms, bounds: seq<int>, parts: seq<Part>, met: Conditions, j: nat, error: Error)
    requires IsBounds(t, bounds) && Swept(t, bounds, parts, met) && |parts| == j < |bounds| && 0 <= t.balance
    requires RateAt(t, bounds[j], met) == Fail(error)
    ensures FirstFailure(t, error, met)
  {
    hide RateAt, IsBounds;
    BoundsShape(t, bounds);
    forall k | 0 <= k < bounds[j] ensures RateAt(t, k, met).Ok? {
      var i := PartOf(bounds, k, j);
      KopeckSwept(t, bounds, i, k, met);
    }
  }

  /** The part a kopeck below the j-th bound is in. */
  ghost function PartOf(bounds: seq<int>, k: int, j: nat): (i: nat)
    requires 0 < j < |bounds| && bounds[0] <= k < bounds[j]
    ensures i < j && bounds[i] <= k < bounds[i + 1]
  {
    if bounds[j - 1] <= k then j - 1 else PartOf(bounds, k, j - 1)
  }

  // ---- The percent is the kopeck-by-kopeck sum ----

  /** What the first n kopecks earn a year, each asked on its own. */
  ghost function SumOfKopecks(t: Terms, n: nat, met: Conditions): real {
    if n == 0 then 0.0
    else SumOfKopecks(t, n - 1, met) + (match RateAt(t, n - 1, met) case Ok(rate) => rate case Fail(_) => 0.0)
  }

  lemma {:induction false} StretchSum(t: Terms, lo: nat, hi: nat, rate: real, met: Conditions)
    requires lo <= hi && forall k :: lo <= k < hi ==> RateAt(t, k, met) == Ok(rate)
    ensures SumOfKopecks(t, hi, met) == SumOfKopecks(t, lo, met) + rate * (hi - lo) as real
    decreases hi
  {
    hide RateAt;
    if lo < hi {
      StretchSum(t, lo, hi - 1, rate, met);
      assert RateAt(t, hi - 1, met) == Ok(rate);
      assert rate * (hi - lo) as real == rate * (hi - 1 - lo) as real + rate;
    }
  }

  lemma {:induction false} WeighedSum(t: Terms, parts: seq<Part>, n: nat, met: Conditions)
    requires Tiles(parts, t.balance) && EachKopeck(t, parts, met) && n <= |parts|
    ensures 0 <= SweptTo(parts, n)
    ensures Weighed(parts[..n]) == SumOfKopecks(t, SweptTo(parts, n), met)
    decreases n
  {
    hide RateAt, Weighed, SumOfKopecks;
    if n == 0 {
      NothingWeighed(t, parts, met);
    } else {
      WeighedSum(t, parts, n - 1, met);
      WeighedStep(parts, n);
      assert parts[n - 1].from == SweptTo(parts, n - 1);
      StretchSum(t, parts[n - 1].from, parts[n - 1].to, parts[n - 1].percent, met);
    }
  }

  lemma NothingWeighed(t: Terms, parts: seq<Part>, met: Conditions)
    ensures Weighed(parts[..0]) == 0.0 && SumOfKopecks(t, 0, met) == 0.0
  {
  }

  lemma WeighedStep(parts: seq<Part>, n: nat)
    requires 0 < n <= |parts|
    ensures Weighed(parts[..n])
            == Weighed(parts[..n - 1]) + parts[n - 1].percent * (parts[n - 1].to - parts[n - 1].from) as real
  {
    assert parts[..n][..n - 1] == parts[..n - 1];
  }

  /** Where the first n parts end. */
  function SweptTo(parts: seq<Part>, n: nat): int
    requires n <= |parts|
  {
    if n == 0 then 0 else parts[n - 1].to
  }

  /** The percent on the whole balance, from the kopecks alone. */
  ghost function KopeckPercent(t: Terms, met: Conditions): real {
    if t.balance > 0 then SixDecimals(SumOfKopecks(t, t.balance, met) / t.balance as real)
    else match RateAt(t, 0, met) case Ok(rate) => rate case Fail(_) => 0.0
  }

  /** The sweep's percent is the one struck kopeck by kopeck. */
  lemma SweepIsPerKopeck(t: Terms, q: Quote, met: Conditions)
    requires 0 <= t.balance && Sound(t, q, met)
    ensures q.percent == KopeckPercent(t, met)
  {
    hide RateAt, EachKopeck, SixDecimals, SumOfKopecks, Weighed;
    if t.balance > 0 {
      assert q.parts[..|q.parts|] == q.parts;
      WeighedSum(t, q.parts, |q.parts|, met);
    }
  }

  /** The percent times the balance is what the kopecks earn, each asked on its own, to within half
      a millionth of a percent a kopeck. */
  lemma PercentIsKopeckSum(t: Terms, q: Quote, met: Conditions)
    requires 0 < t.balance && Sound(t, q, met)
    ensures var off := q.percent * t.balance as real - SumOfKopecks(t, t.balance, met);
            -(0.0000005 * t.balance as real) <= off <= 0.0000005 * t.balance as real
  {
    hide RateAt, SixDecimals, SumOfKopecks, Sound;
    SweepIsPerKopeck(t, q, met);
    var sum, b := SumOfKopecks(t, t.balance, met), t.balance as real;
    SixDecimalsNear(sum / b);
    QuotientBack(sum, b);
    NearbyProduct(b, sum / b, q.percent, 0.0000005);
  }

  lemma QuotientBack(x: real, b: real)
    requires b != 0.0
    ensures x / b * b == x
  {
  }

  lemma NearbyProduct(b: real, q: real, r: real, c: real)
    requires 0.0 < b && -c <= r - q <= c
    ensures -(c * b) <= r * b - q * b <= c * b
  {
    assert (r - q + c) * b >= 0.0;
    assert (c - (r - q)) * b >= 0.0;
  }

  lemma SixDecimalsNear(x: real)
    ensures -0.0000005 <= SixDecimals(x) - x <= 0.0000005
  {
    var y := x * 1000000.0;
    var n := Round(y) as real;
    var r := n / 1000000.0;
    assert r * 1000000.0 == n;
    assert -0.5 <= (r - x) * 1000000.0 <= 0.5;
    assert SixDecimals(x) == r;
  }
}
