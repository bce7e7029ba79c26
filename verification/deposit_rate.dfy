/** The rate a year an account of a deposit programme earns on a day: the breakpoint sweep over
    the balance, and the rate each kopeck of it would get asked on its own. */
module DepositRate {
  import opened Calendar
  import opened Rounding

  datatype Error = NoEdition | NoVariant | NoCell | NoKeyRate | Opened
  datatype Result<+T> = Ok(value: T) | Fail(error: Error)

  datatype Kind = DepositKind | SavingsKind

  /** A fixed percent, or a line in the key rate with a least value. */
  datatype Rate = Fixed(percent: real) | Tied(keyTimes: real, keyPlus: real, floor: Option<real>)
  datatype Cell = Cell(from: int, to: int, amountFrom: int, rate: Rate)
  datatype Cap = CapPercent(amount: int, percent: real) | CapShare(amount: int, share: real)
  datatype Period = Period(name: string, months: int, days: int, grid: seq<Cell>, plus: real, cap: int, needs: string,
                           bonuses: bool)
  datatype TermPlus = TermPlus(from: int, to: int, plus: Option<real>)
  datatype Bonus = Bonus(id: string, plus: real, levels: seq<real>, terms: seq<TermPlus>, group: string, cap: int,
                         nextMonth: bool)
  datatype Variant = Variant(id: string, grid: seq<Cell>, split: bool, cap: Option<Cap>, schedule: seq<Period>,
                             bonuses: seq<Bonus>, openedFrom: Option<Day>, floating: bool, lag: KeyLag)
  /** How far behind the day its key rate is taken. */
  datatype KeyLag = SameDay | NextWorkday | ByMonth(cutoff: int, workday: int, lateWorkday: int)

  datatype Edition = Edition(from: Day, until: Option<Day>, variants: seq<Variant>)
  datatype Programme = Programme(kind: Kind, editions: seq<Edition>)
  datatype Holding = Holding(variant: string, openedOn: Day, term: int, amount: int)

  /** What the family met: a bonus's or a requirement's level in a month, none when not met. */
  type Conditions = (string, int) -> Option<int>

  // ---- The edition, the variant and the period in force ----

  /** The newest edition begun by the day; none once that one has ended. */
  function EditionOn(editions: seq<Edition>, day: Day): Option<Edition> {
    if editions == [] then None
    else
      var e := editions[|editions| - 1];
      if e.from <= day then (if e.until.Some? && e.until.value < day then None else Some(e))
      else EditionOn(editions[..|editions| - 1], day)
  }

  function VariantOf(variants: seq<Variant>, id: string): Option<Variant> {
    if variants == [] then None
    else if variants[0].id == id then Some(variants[0]) else VariantOf(variants[1..], id)
  }

  /** Where a period of the schedule that starts on a day ends. */
  function PeriodEnd(s: Period, start: Day): Day {
    if s.months > 0 then FirstOf(MonthOf(start) + s.months) else start + s.days
  }

  /** The period holding a day when the first starts on `start`; none when that period needs something
      the family did not meet at opening. */
  function PeriodOn(schedule: seq<Period>, start: Day, openedOn: Day, day: Day, met: Conditions): Option<Period> {
    if schedule == [] then None
    else if day < PeriodEnd(schedule[0], start) then
      if schedule[0].needs != "" && met(schedule[0].needs, MonthOf(openedOn)).None? then None else Some(schedule[0])
    else PeriodOn(schedule[1..], PeriodEnd(schedule[0], start), openedOn, day, met)
  }

  // ---- The rate of the part of the balance from a kopeck ----

  predicate Fits(c: Cell, kind: Kind, term: int, amount: int) {
    (kind == DepositKind ==> c.from <= term <= c.to) && c.amountFrom <= amount
  }

  /** The cell of the highest step the amount reaches, the last of equals. */
  function CellFor(grid: seq<Cell>, kind: Kind, term: int, amount: int): Option<Cell> {
    if grid == [] then None
    else
      var c := grid[|grid| - 1];
      var before := CellFor(grid[..|grid| - 1], kind, term, amount);
      if Fits(c, kind, term, amount) && (before.None? || before.value.amountFrom <= c.amountFrom) then Some(c)
      else before
  }

  function RateValue(r: Rate, key: Option<real>): Result<real> {
    match r
    case Fixed(percent) => Ok(percent)
    case Tied(times, plus, floor) =>
      if key.None? then Fail(NoKeyRate)
      else
        var at := key.value * times + plus;
        Ok(if floor.Some? && at < floor.value then floor.value else at)
  }

  function RateOf(grid: seq<Cell>, split: bool, kind: Kind, term: int, whole: int, from: int,
            key: Option<real>): Result<real> {
    var cell := CellFor(grid, kind, term, if split then from else whole);
    if cell.None? then Fail(NoCell) else RateValue(cell.value.rate, key)
  }

  /** A bonus by level, then by the term it is for. */
  function PlusFor(b: Bonus, level: int, term: int): Option<real> {
    var plus := if |b.levels| > 0 then b.levels[Min(Max(level, 0), |b.levels| - 1)] else b.plus;
    if b.terms == [] then Some(plus) else TermPlusFor(b.terms, term, plus)
  }

  function TermPlusFor(terms: seq<TermPlus>, term: int, plus: real): Option<real> {
    if terms == [] then None
    else if terms[0].from <= term <= terms[0].to then Some(if terms[0].plus.Some? then terms[0].plus.value else plus)
    else TermPlusFor(terms[1..], term, plus)
  }

  function GroupOf(b: Bonus): string {
    if b.group == "" then "#" + b.id else b.group
  }

  /** A met bonus the kopeck at `from` is still under the cap of. */
  function Counted(b: Bonus, month: int, from: int, term: int, met: Conditions): Option<real> {
    if b.cap > 0 && from >= b.cap then None
    else
      var level := met(b.id, if b.nextMonth then month - 1 else month);
      if level.None? then None else PlusFor(b, level.value, term)
  }

  datatype Best = Best(plus: real, id: string)

  /** The greatest of each group, the first of equals. */
  function BestOf(bonuses: seq<Bonus>, month: int, from: int, term: int, met: Conditions): map<string, Best> {
    if bonuses == [] then map[]
    else
      var b := bonuses[|bonuses| - 1];
      var best := BestOf(bonuses[..|bonuses| - 1], month, from, term, met);
      var plus := Counted(b, month, from, term, met);
      if plus.Some? && (GroupOf(b) !in best || plus.value > best[GroupOf(b)].plus)
      then best[GroupOf(b) := Best(plus.value, b.id)]
      else best
  }

  ghost function SumOfBest(best: map<string, Best>): real
    decreases |best|
  {
    if best == map[] then 0.0
    else
      var g :| g in best;
      best[g].plus + SumOfBest(best - {g})
  }

  /** Taken out in any order the bonuses add up to the same. */
  lemma {:induction false} SumTakesAny(best: map<string, Best>, g: string)
    requires g in best
    ensures SumOfBest(best) == best[g].plus + SumOfBest(best - {g})
    decreases |best|
  {
    var h :| h in best && SumOfBest(best) == best[h].plus + SumOfBest(best - {h});
    if h != g {
      SumTakesAny(best - {h}, g);
      assert (best - {h}) - {g} == (best - {g}) - {h};
      assert |best - {g}| < |best| by { assert (best - {g}).Keys < best.Keys; SmallerMap(best - {g}, best); }
      SumTakesAny(best - {g}, h);
    }
  }

  lemma SmallerMap(a: map<string, Best>, b: map<string, Best>)
    requires a.Keys < b.Keys
    ensures |a| < |b|
  {
    var k :| k in b.Keys && k !in a.Keys;
    assert a.Keys <= b.Keys - {k};
    SubsetSize(a.Keys, b.Keys - {k});
  }

  lemma {:induction false} SubsetSize(a: set<string>, b: set<string>)
    requires a <= b
    ensures |a| <= |b|
    decreases |a|
  {
    if a != {} {
      var x :| x in a;
      SubsetSize(a - {x}, b - {x});
    }
  }

  /** Each group counts the greatest of its bonuses met, and only a group with one. */
  lemma {:induction false} BestIsGreatest(bonuses: seq<Bonus>, month: int, from: int, term: int, met: Conditions,
            group: string)
    ensures var best := BestOf(bonuses, month, from, term, met);
            && (group in best <==>
                  exists i :: 0 <= i < |bonuses| && GroupOf(bonuses[i]) == group
                              && Counted(bonuses[i], month, from, term, met).Some?)
            && (group in best ==>
                 && (forall i :: 0 <= i < |bonuses| && GroupOf(bonuses[i]) == group
                                 && Counted(bonuses[i], month, from, term, met).Some?
                       ==> Counted(bonuses[i], month, from, term, met).value <= best[group].plus)
                 && (exists i :: 0 <= i < |bonuses| && GroupOf(bonuses[i]) == group && bonuses[i].id == best[group].id
                       && Counted(bonuses[i], month, from, term, met) == Some(best[group].plus)))
    decreases |bonuses|
  {
    hide Counted, GroupOf;
    if bonuses != [] {
      var n := |bonuses| - 1;
      BestIsGreatest(bonuses[..n], month, from, term, met, group);
      var before := BestOf(bonuses[..n], month, from, term, met);
      var best := BestOf(bonuses, month, from, term, met);
      if exists i :: 0 <= i < n && GroupOf(bonuses[..n][i]) == group
                     && Counted(bonuses[..n][i], month, from, term, met).Some? {
        var i :| 0 <= i < n && GroupOf(bonuses[..n][i]) == group && bonuses[..n][i].id == before[group].id
                 && Counted(bonuses[..n][i], month, from, term, met) == Some(before[group].plus);
        assert bonuses[i] == bonuses[..n][i];
      }
      forall i | 0 <= i < n && GroupOf(bonuses[i]) == group && Counted(bonuses[i], month, from, term, met).Some?
        ensures group in before && Counted(bonuses[i], month, from, term, met).value <= before[group].plus
      {
        assert bonuses[i] == bonuses[..n][i];
      }
    }
  }

  /** What a day's rate is struck from. */
  datatype Terms = Terms(kind: Kind, v: Variant, period: Option<Period>, term: int, amount: int, balance: int,
                         month: int,
                         key: Option<real>)
  {
    function Whole(): int {
      if kind == SavingsKind then balance else amount
    }

    predicate InPeriod(from: int) {
      period.Some? && (period.value.cap == 0 || from < period.value.cap)
    }
  }

  /** The rate before the bonuses: the grid's, the period's instead of it, or with its addition. */
  function BaseRate(t: Terms, from: int): Result<real> {
    var rate := RateOf(t.v.grid, t.v.split, t.kind, t.term, t.Whole(), from, t.key);
    if rate.Fail? || !t.InPeriod(from) then rate
    else if |t.period.value.grid| > 0
    then RateOf(t.period.value.grid, t.v.split, t.kind, t.term, t.Whole(), from, t.key)
    else Ok(rate.value + t.period.value.plus)
  }

  function Capped(cap: Option<Cap>, from: int, rate: real): real {
    if cap.None? || from < cap.value.amount then rate
    else match cap.value
      case CapPercent(_, percent) => percent
      case CapShare(_, share) => rate * share
  }

  function NotNegative(x: real): real {
    if x < 0.0 then 0.0 else x
  }

  predicate BonusesCount(t: Terms, from: int) {
    t.InPeriod(from) ==> t.period.value.bonuses
  }

  /** The rate of the kopeck at `from`, asked on its own. */
  ghost function RateAt(t: Terms, from: int, met: Conditions): Result<real> {
    var base := BaseRate(t, from);
    if base.Fail? then base
    else
      var plus := if BonusesCount(t, from) then SumOfBest(BestOf(t.v.bonuses, t.month, from, t.term, met)) else 0.0;
      Ok(NotNegative(Capped(t.v.cap, from, base.value + plus)))
  }

  // ---- Where the rate may change ----

  function Steps(grid: seq<Cell>): set<int> {
    set c | c in grid :: c.amountFrom
  }

  /** The sums the rate of a part may change at. */
  function Thresholds(t: Terms): set<int> {
    (if t.v.split then Steps(t.v.grid) + (if t.period.Some? then Steps(t.period.value.grid) else {}) else {})
    + (if t.period.Some? then {t.period.value.cap} else {})
    + (set b | b in t.v.bonuses :: b.cap)
    + (if t.v.cap.Some? then {t.v.cap.value.amount} else {})
  }

  /** No step, cap or bound lies between two sums: above the lower one and not above the upper. */
  predicate SameSide(t: Terms, from: int, k: int) {
    forall x :: x in Thresholds(t) && 0 < x ==> (x <= from <==> x <= k)
  }

  lemma {:induction false} SameCell(grid: seq<Cell>, kind: Kind, term: int, a: int, b: int)
    requires 0 <= a && 0 <= b && forall c :: c in grid && 0 < c.amountFrom ==>
               (c.amountFrom <= a <==> c.amountFrom <= b)
    ensures CellFor(grid, kind, term, a) == CellFor(grid, kind, term, b)
    decreases |grid|
  {
    if grid != [] {
      assert grid[|grid| - 1] in grid;
      SameCell(grid[..|grid| - 1], kind, term, a, b);
    }
  }

  lemma {:induction false} SameBonuses(bonuses: seq<Bonus>, month: int, term: int, met: Conditions, a: int, b: int)
    requires forall x :: x in bonuses && 0 < x.cap ==> (x.cap <= a <==> x.cap <= b)
    ensures BestOf(bonuses, month, a, term, met) == BestOf(bonuses, month, b, term, met)
    decreases |bonuses|
  {
    hide PlusFor, GroupOf;
    if bonuses != [] {
      assert bonuses[|bonuses| - 1] in bonuses;
      SameBonuses(bonuses[..|bonuses| - 1], month, term, met, a, b);
    }
  }

  lemma SameCap(t: Terms, from: int, k: int)
    requires 0 <= from && 0 <= k && SameSide(t, from, k) && t.v.cap.Some?
    ensures t.v.cap.value.amount <= from <==> t.v.cap.value.amount <= k
  {
    assert t.v.cap.value.amount in Thresholds(t);
  }

  lemma SamePeriod(t: Terms, from: int, k: int)
    requires 0 <= from && 0 <= k && SameSide(t, from, k)
    ensures t.InPeriod(from) == t.InPeriod(k)
  {
    assert t.period.Some? ==> t.period.value.cap in Thresholds(t);
  }

  lemma SameBase(t: Terms, from: int, k: int)
    requires 0 <= from && 0 <= k && SameSide(t, from, k)
    ensures BaseRate(t, from) == BaseRate(t, k)
  {
    hide CellFor, RateValue, Terms.InPeriod;
    SamePeriod(t, from, k);
    if t.v.split {
      forall c | c in t.v.grid ensures c.amountFrom in Thresholds(t) {
      }
      SameCell(t.v.grid, t.kind, t.term, from, k);
      if t.period.Some? {
        forall c | c in t.period.value.grid ensures c.amountFrom in Thresholds(t) {
        }
        SameCell(t.period.value.grid, t.kind, t.term, from, k);
      }
    }
    assert t.InPeriod(from) ==> t.period.Some? by { PeriodThere(t, from); }
  }

  lemma PeriodThere(t: Terms, from: int)
    ensures t.InPeriod(from) ==> t.period.Some?
  {
  }

  /** Kopecks with no threshold between them earn one rate. */
  lemma SameRate(t: Terms, from: int, k: int, met: Conditions)
    requires 0 <= from && 0 <= k && SameSide(t, from, k)
    ensures RateAt(t, from, met) == RateAt(t, k, met)
  {
    hide BestOf, SumOfBest, BaseRate, Thresholds, Terms.InPeriod;
    forall b | b in t.v.bonuses ensures b.cap in Thresholds(t) {
      BonusThreshold(t, b);
    }
    SameBonuses(t.v.bonuses, t.month, t.term, met, from, k);
    SameBase(t, from, k);
    SamePeriod(t, from, k);
    PeriodThere(t, from);
    PeriodThere(t, k);
    assert BonusesCount(t, from) == BonusesCount(t, k);
    forall rate ensures Capped(t.v.cap, from, rate) == Capped(t.v.cap, k, rate) {
      if t.v.cap.Some? {
        SameCap(t, from, k);
      }
    }
  }

  lemma BonusThreshold(t: Terms, b: Bonus)
    requires b in t.v.bonuses
    ensures b.cap in Thresholds(t)
  {
  }
}
