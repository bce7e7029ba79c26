/** The progressive tax on a year's income, and what interest adds to it. */
module BandedTax {
  import Calendar
  import opened Rounding
  import Tally

  /** A basis-point rate, for the minor units below `upTo` that no earlier band took; an `upTo` of
      nought is open-ended. */
  datatype Band = Band(upTo: int, bp: int)

  const RU_INVESTMENT := [Band(2_400_000_00, 1300), Band(0, 1500)]
  const RU_MAIN :=
      [Band(2_400_000_00, 1300), Band(5_000_000_00, 1500), Band(20_000_000_00, 1800), Band(50_000_000_00, 2000),
       Band(0, 2200)]
  const RU_UNIT := 100

  /** The rate on one minor unit, the one with so many below it: that of the first band past it. */
  function RateOn(bands: seq<Band>, k: int): int {
    if bands == [] then 0
    else if bands[0].upTo == 0 || bands[0].upTo > k then bands[0].bp
    else RateOn(bands[1..], k)
  }

  /** Each minor unit of a stretch at its own rate, in ten-thousandths. */
  function UnitByUnit(bands: seq<Band>, from: int, upTo: int): int
    decreases upTo - from
  {
    if upTo <= from then 0 else UnitByUnit(bands, from, upTo - 1) + RateOn(bands, upTo - 1)
  }

  function UnitOf(unit: int): (u: int)
    ensures 1 <= u
  {
    Max(unit, 1)
  }

  /** Rounded once, half up, to whole units. */
  function RoundedTo(hundredths: int, unit: int): int {
    var step := 10_000 * UnitOf(unit);
    Calendar.Quo(hundredths + step / 2, step) * UnitOf(unit)
  }

  function Tax(bands: seq<Band>, sum: int, unit: int): int {
    if sum <= 0 then 0 else RoundedTo(UnitByUnit(bands, 0, sum), unit)
  }

  ghost predicate NoneBelow(bands: seq<Band>) {
    forall i :: 0 <= i < |bands| ==> 0 <= bands[i].bp
  }

  lemma {:induction false} StretchAtOneRate(bands: seq<Band>, from: int, upTo: int, bp: int)
    requires from <= upTo && forall k :: from <= k < upTo ==> RateOn(bands, k) == bp
    ensures UnitByUnit(bands, from, upTo) == (upTo - from) * bp
    decreases upTo - from
  {
    if from < upTo {
      StretchAtOneRate(bands, from, upTo - 1, bp);
    }
  }

  lemma {:induction false} StretchesJoin(bands: seq<Band>, a: int, b: int, c: int)
    requires a <= b <= c
    ensures UnitByUnit(bands, a, c) == UnitByUnit(bands, a, b) + UnitByUnit(bands, b, c)
    decreases c - b
  {
    if b < c {
      StretchesJoin(bands, a, b, c - 1);
    }
  }

  /** A band takes the units below its end that no band before it took. */
  lemma {:induction false} PastBands(bands: seq<Band>, i: nat, k: int)
    requires i <= |bands| && forall j :: 0 <= j < i ==> bands[j].upTo != 0 && bands[j].upTo <= k
    ensures RateOn(bands, k) == RateOn(bands[i..], k)
    decreases i
  {
    if i > 0 {
      PastBands(bands[1..], i - 1, k);
      assert bands[1..][i - 1..] == bands[i..];
    }
  }

  /** `Banded`: the bands are gone through once, each taking its own part of the sum. */
  method Banded(bands: seq<Band>, sum: int, unit: int) returns (tax: int)
    ensures tax == Tax(bands, sum, unit)
  {
    if sum <= 0 {
      return 0;
    }
    var from, hundredths, i := 0, 0, 0;
    while i < |bands|
      invariant 0 <= i <= |bands| && 0 <= from <= sum
      invariant hundredths == UnitByUnit(bands, 0, from)
      invariant from < sum ==> forall j :: 0 <= j < i ==> bands[j].upTo != 0 && bands[j].upTo <= from
    {
      if from >= sum {
        break;
      }
      var b := bands[i];
      var upTo := b.upTo;
      if upTo == 0 || upTo > sum {
        upTo := sum;
      }
      if upTo > from {
        BandTakes(bands, i, from, upTo);
        hundredths := hundredths + (upTo - from) * b.bp;
        from := upTo;
      }
      i := i + 1;
    }
    if from < sum {
      NoBandLeft(bands, from, sum);
    }
    var u := Max(unit, 1);
    var step := 10_000 * u;
    return Calendar.Quo(hundredths + step / 2, step) * u;
  }

  lemma BandTakes(bands: seq<Band>, i: nat, from: int, upTo: int)
    requires i < |bands| && 0 <= from < upTo && (bands[i].upTo == 0 || upTo <= bands[i].upTo)
    requires forall j :: 0 <= j < i ==> bands[j].upTo != 0 && bands[j].upTo <= from
    ensures UnitByUnit(bands, 0, upTo) == UnitByUnit(bands, 0, from) + (upTo - from) * bands[i].bp
  {
    forall k | from <= k < upTo ensures RateOn(bands, k) == bands[i].bp {
      PastBands(bands, i, k);
    }
    StretchAtOneRate(bands, from, upTo, bands[i].bp);
    StretchesJoin(bands, 0, from, upTo);
  }

  lemma NoBandLeft(bands: seq<Band>, from: int, sum: int)
    requires 0 <= from <= sum && forall j :: 0 <= j < |bands| ==> bands[j].upTo != 0 && bands[j].upTo <= from
    ensures UnitByUnit(bands, 0, sum) == UnitByUnit(bands, 0, from)
  {
    forall k | from <= k < sum ensures RateOn(bands, k) == 0 {
      PastBands(bands, |bands|, k);
    }
    StretchAtOneRate(bands, from, sum, 0);
    StretchesJoin(bands, 0, from, sum);
  }

  lemma {:induction false} UnitsNotBelow(bands: seq<Band>, from: int, upTo: int)
    requires NoneBelow(bands)
    ensures 0 <= UnitByUnit(bands, from, upTo)
    decreases upTo - from
  {
    if from < upTo {
      UnitsNotBelow(bands, from, upTo - 1);
      RateNotBelow(bands, upTo - 1);
    }
  }

  lemma {:induction false} RateNotBelow(bands: seq<Band>, k: int)
    requires NoneBelow(bands)
    ensures 0 <= RateOn(bands, k)
    decreases |bands|
  {
    if bands != [] {
      RateNotBelow(bands[1..], k);
    }
  }

  /** The tax is each minor unit at its own band's rate, to within half a unit of rounding, in whole
      units. */
  lemma TaxIsUnitByUnit(bands: seq<Band>, sum: int, unit: int)
    requires NoneBelow(bands)
    ensures var step := 10_000 * UnitOf(unit);
            -step < 2 * (10_000 * Tax(bands, sum, unit) - UnitByUnit(bands, 0, sum)) <= step
    ensures Tax(bands, sum, unit) % UnitOf(unit) == 0
  {
    hide RoundedTo, UnitOf;
    UnitsNotBelow(bands, 0, sum);
    RoundedNear(UnitByUnit(bands, 0, sum), unit);
    Calendar.DivIs(0, UnitOf(unit), 0, 0);
  }

  lemma RoundedNear(hundredths: int, unit: int)
    requires 0 <= hundredths
    ensures var step := 10_000 * UnitOf(unit);
            -step < 2 * (10_000 * RoundedTo(hundredths, unit) - hundredths) <= step
    ensures RoundedTo(hundredths, unit) % UnitOf(unit) == 0
  {
    hide UnitOf;
    var u := UnitOf(unit);
    var step := 10_000 * u;
    var q, r := (hundredths + step / 2) / step, (hundredths + step / 2) % step;
    Regroup(q, u);
    Calendar.DivIs(q * u, u, q, 0);
  }

  lemma Regroup(q: int, u: int)
    ensures 10_000 * (q * u) == q * (10_000 * u)
  {
  }

  lemma RoundedMonotone(a: int, b: int, unit: int)
    requires 0 <= a <= b
    ensures RoundedTo(a, unit) <= RoundedTo(b, unit)
  {
    hide UnitOf;
    var u := UnitOf(unit);
    var step := 10_000 * u;
    var p, q := (a + step / 2) / step, (b + step / 2) / step;
    QuotientsInOrder(a + step / 2, b + step / 2, step);
    assert (q - p) * u >= 0;
  }

  lemma QuotientsInOrder(a: int, b: int, d: int)
    requires a <= b && 0 < d
    ensures a / d <= b / d
  {
    QuotientHolds(a, d);
    QuotientHolds(b, d);
    LessByMultiple(a / d, b / d, d);
  }

  lemma QuotientHolds(a: int, d: int)
    requires 0 < d
    ensures a / d * d <= a < a / d * d + d
  {
  }

  lemma LessByMultiple(p: int, q: int, d: int)
    requires 0 < d && p * d < q * d + d
    ensures p <= q
  {
    Calendar.MultipleAtLeast(p - q, d);
    assert (p - q) * d == p * d - q * d;
  }

  /** The tax never falls as the sum grows. */
  lemma TaxNeverFalls(bands: seq<Band>, a: int, b: int, unit: int)
    requires NoneBelow(bands) && a <= b
    ensures 0 <= Tax(bands, a, unit) <= Tax(bands, b, unit)
  {
    hide RoundedTo;
    RoundedOfNought(unit);
    if 0 < a {
      UnitsNotBelow(bands, 0, a);
      UnitsNotBelow(bands, a, b);
      StretchesJoin(bands, 0, a, b);
      RoundedMonotone(0, UnitByUnit(bands, 0, a), unit);
      RoundedMonotone(UnitByUnit(bands, 0, a), UnitByUnit(bands, 0, b), unit);
    } else if 0 < b {
      UnitsNotBelow(bands, 0, b);
      RoundedMonotone(0, UnitByUnit(bands, 0, b), unit);
    }
  }

  lemma RoundedOfNought(unit: int)
    ensures RoundedTo(0, unit) == 0
  {
    hide UnitOf;
    var step := 10_000 * UnitOf(unit);
    Calendar.DivIs(step / 2, step, 0, step / 2);
  }

  ghost predicate AtMost(bands: seq<Band>, top: int) {
    0 <= top && forall i :: 0 <= i < |bands| ==> bands[i].bp <= top
  }

  lemma {:induction false} UnitsAtMost(bands: seq<Band>, from: int, upTo: int, top: int)
    requires AtMost(bands, top) && from <= upTo
    ensures UnitByUnit(bands, from, upTo) <= (upTo - from) * top
    decreases upTo - from
  {
    if from < upTo {
      UnitsAtMost(bands, from, upTo - 1, top);
      RateAtMost(bands, upTo - 1, top);
    }
  }

  lemma {:induction false} RateAtMost(bands: seq<Band>, k: int, top: int)
    requires AtMost(bands, top)
    ensures RateOn(bands, k) <= top
    decreases |bands|
  {
    if bands != [] {
      RateAtMost(bands[1..], k, top);
    }
  }

  /** A growing sum adds no more tax than the top rate on what it grew by, and one unit. */
  lemma TaxGrowsBySoMuch(bands: seq<Band>, a: int, b: int, unit: int, top: int)
    requires NoneBelow(bands) && AtMost(bands, top) && a <= b
    ensures 10_000 * (Tax(bands, b, unit) - Tax(bands, a, unit)) < (b - a) * top + 10_000 * UnitOf(unit)
  {
    hide Tax, UnitOf;
    TaxIsUnitByUnit(bands, a, unit);
    TaxIsUnitByUnit(bands, b, unit);
    GrownBy(bands, a, b, top);
  }

  lemma GrownBy(bands: seq<Band>, a: int, b: int, top: int)
    requires AtMost(bands, top) && a <= b
    ensures UnitByUnit(bands, 0, b) - UnitByUnit(bands, 0, a) <= (b - a) * top
  {
    if 0 <= a {
      UnitsAtMost(bands, a, b, top);
      StretchesJoin(bands, 0, a, b);
    } else if 0 <= b {
      UnitsAtMost(bands, 0, b, top);
      assert (b - a) * top == b * top + (-a) * top;
    } else {
      assert (b - a) * top >= 0;
    }
  }

  // ---- The tax that interest adds ----

  /** The person's year: their interest without the new payments, other investment incomes, and the
      interest free of tax this year and by the scenario's key rate. */
  datatype Year = Year(known: bool, bands: seq<Band>, unit: int, year: int, other: int, invested: int, freeNow: int,
                       freeIn: int -> int)

  datatype Payment = Payment(on: int, minor: int)

  function YearOf(day: int): int { Calendar.MonthOf(day) / 12 }

  function FreeOf(t: Year, year: int): int {
    if year == t.year then Max(t.freeNow, t.freeIn(year)) else t.freeIn(year)
  }

  /** What is taxed of a year's interest, with the other incomes under it. */
  function Taxed(t: Year, year: int, interest: int): int {
    t.invested + Max(interest - FreeOf(t, year), 0)
  }

  function AddedIn(t: Year, year: int, x: int): int {
    Tax(t.bands, Taxed(t, year, t.other + x), t.unit) - Tax(t.bands, Taxed(t, year, t.other), t.unit)
  }

  function PaidByYear(payments: seq<Payment>): map<int, int> {
    if payments == [] then map[]
    else
      var p := payments[|payments| - 1];
      Tally.Add(PaidByYear(payments[..|payments| - 1]), YearOf(p.on), p.minor)
  }

  function AddedOver(t: Year, years: seq<int>, paid: map<int, int>): int {
    if years == [] then 0
    else
      var year := years[|years| - 1];
      AddedOver(t, years[..|years| - 1], paid) + AddedIn(t, year, Tally.Value(paid, year))
  }

  /** The years in some order, each once. */
  ghost predicate Lists(years: seq<int>, paid: map<int, int>) {
    Tally.Distinct(years) && forall y :: y in paid <==> y in years
  }

  /** `added`: None when the person's year is not known; the years in whatever order the map gives. */
  method Added(t: Year, payments: seq<Payment>) returns (tax: Option<int>, ghost years: seq<int>)
    ensures t.known ==> Lists(years, PaidByYear(payments)) && tax == Some(AddedOver(t, years, PaidByYear(payments)))
    ensures !t.known ==> tax.None?
  {
    if !t.known {
      return None, [];
    }
    var byYear := GatherByYear(payments);
    var out;
    out, years := AddUp(t, byYear);
    return Some(out), years;
  }

  method GatherByYear(payments: seq<Payment>) returns (byYear: map<int, int>)
    ensures byYear == PaidByYear(payments)
  {
    hide YearOf;
    byYear := map[];
    for i := 0 to |payments|
      invariant byYear == PaidByYear(payments[..i])
    {
      assert payments[..i + 1][..i] == payments[..i];
      var year := YearOf(payments[i].on);
      byYear := byYear[year := (if year in byYear then byYear[year] else 0) + payments[i].minor];
    }
    assert payments[..|payments|] == payments;
  }

  method AddUp(t: Year, byYear: map<int, int>) returns (out: int, ghost years: seq<int>)
    ensures Lists(years, byYear)
    ensures out == AddedOver(t, years, byYear)
  {
    hide AddedIn;
    out, years := 0, [];
    var left := byYear.Keys;
    while left != {}
      invariant left <= byYear.Keys
      invariant Lists(years, byYear - left) && out == AddedOver(t, years, byYear)
      decreases |left|
    {
      assert (forall y :: y !in left) ==> left == {};
      var year :| year in left;
      assert year !in byYear - left;
      left := left - {year};
      assert (years + [year])[..|years|] == years;
      years := years + [year];
      out := out + AddedIn(t, year, byYear[year]);
    }
  }

  ghost predicate NoneTakenBack(payments: seq<Payment>) {
    forall i :: 0 <= i < |payments| ==> 0 <= payments[i].minor
  }

  function PaidIn(payments: seq<Payment>): int {
    if payments == [] then 0 else PaidIn(payments[..|payments| - 1]) + payments[|payments| - 1].minor
  }

  lemma {:induction false} PaidAddsUp(payments: seq<Payment>, years: seq<int>)
    requires Tally.Distinct(years) && NoneTakenBack(payments)
    ensures forall y :: y in PaidByYear(payments) ==> 0 <= PaidByYear(payments)[y]
    ensures (forall y :: y in PaidByYear(payments) ==> y in years) ==>
              Tally.Total(years, PaidByYear(payments)) == PaidIn(payments)
    decreases |payments|
  {
    hide YearOf;
    Tally.TotalOfNone(years);
    if payments != [] {
      var before, p := payments[..|payments| - 1], payments[|payments| - 1];
      PaidAddsUp(before, years);
      Tally.AddCounts(years, PaidByYear(before), YearOf(p.on), p.minor);
    }
  }

  lemma AddedInBounds(t: Year, year: int, x: int, top: int)
    requires NoneBelow(t.bands) && AtMost(t.bands, top) && 0 <= x
    ensures 0 <= AddedIn(t, year, x)
    ensures 10_000 * AddedIn(t, year, x) <= x * top + 10_000 * UnitOf(t.unit)
  {
    hide Tax, FreeOf, UnitOf, AtMost, NoneBelow;
    var a, b := Taxed(t, year, t.other), Taxed(t, year, t.other + x);
    TaxNeverFalls(t.bands, a, b, t.unit);
    TaxGrowsBySoMuch(t.bands, a, b, t.unit, top);
    TopIsNotBelow(t.bands, top);
    assert (x - (b - a)) * top >= 0;
  }

  lemma TopIsNotBelow(bands: seq<Band>, top: int)
    requires AtMost(bands, top)
    ensures 0 <= top
  {
  }

  lemma {:induction false} AddedOverBounds(t: Year, years: seq<int>, paid: map<int, int>, top: int)
    requires NoneBelow(t.bands) && AtMost(t.bands, top) && forall y :: y in paid ==> 0 <= paid[y]
    ensures 0 <= AddedOver(t, years, paid)
    ensures 10_000 * AddedOver(t, years, paid) <= Tally.Total(years, paid) * top + |years| * (10_000 * UnitOf(t.unit))
    decreases |years|
  {
    hide AddedIn, UnitOf, AtMost, NoneBelow;
    if years != [] {
      var n := |years| - 1;
      AddedOverBounds(t, years[..n], paid, top);
      AddedInBounds(t, years[n], Tally.Value(paid, years[n]), top);
      OneMore(Tally.Total(years[..n], paid), Tally.Value(paid, years[n]), top, n, 10_000 * UnitOf(t.unit));
    }
  }

  lemma OneMore(total: int, x: int, top: int, n: int, step: int)
    ensures (total + x) * top == total * top + x * top
    ensures (n + 1) * step == n * step + step
  {
  }

  /** New interest never lowers the tax, and adds to it at most the top rate on the interest and one
      unit a year it falls in. */
  lemma AddedTaxBounds(t: Year, payments: seq<Payment>, years: seq<int>, top: int)
    requires NoneBelow(t.bands) && AtMost(t.bands, top) && NoneTakenBack(payments) && Lists(years, PaidByYear(payments))
    ensures 0 <= AddedOver(t, years, PaidByYear(payments))
    ensures 10_000 * AddedOver(t, years, PaidByYear(payments))
            <= PaidIn(payments) * top + |years| * (10_000 * UnitOf(t.unit))
  {
    hide AddedOver, UnitOf, AtMost, NoneBelow, PaidByYear;
    PaidAddsUp(payments, years);
    AddedOverBounds(t, years, PaidByYear(payments), top);
  }

  /** Russia's tax on the investment incomes: 13 % up to 2.4 million roubles and 15 % above, in
      kopecks, to the nearest whole rouble. */
  lemma RussianInvestmentTax(sum: int)
    requires 0 <= sum
    ensures UnitByUnit(RU_INVESTMENT, 0, sum) == 1300 * Min(sum, 240_000_000) + 1500 * Max(sum - 240_000_000, 0)
    ensures NoneBelow(RU_INVESTMENT) && AtMost(RU_INVESTMENT, 1500)
    ensures Tax(RU_INVESTMENT, sum, RU_UNIT) % 100 == 0
  {
    var cut := Min(sum, 240_000_000);
    forall k | 0 <= k < cut ensures RateOn(RU_INVESTMENT, k) == 1300 {}
    forall k | cut <= k < sum ensures RateOn(RU_INVESTMENT, k) == 1500 {
      assert RU_INVESTMENT[1..] == [Band(0, 1500)];
    }
    StretchAtOneRate(RU_INVESTMENT, 0, cut, 1300);
    StretchAtOneRate(RU_INVESTMENT, cut, sum, 1500);
    StretchesJoin(RU_INVESTMENT, 0, cut, sum);
    TaxIsUnitByUnit(RU_INVESTMENT, sum, RU_UNIT);
  }

  /** What of a sum lies in a band. */
  function Within(sum: int, from: int, upTo: int): int { Max(Min(sum, upTo) - from, 0) }

  lemma BandInSum(bands: seq<Band>, i: nat, sum: int, from: int, upTo: int)
    requires i < |bands| && 0 <= from < upTo && (bands[i].upTo == 0 || upTo <= bands[i].upTo)
    requires forall j :: 0 <= j < i ==> bands[j].upTo != 0 && bands[j].upTo <= from
    ensures UnitByUnit(bands, 0, Min(sum, upTo))
            == UnitByUnit(bands, 0, Min(sum, from)) + Within(sum, from, upTo) * bands[i].bp
  {
    hide RateOn, UnitByUnit;
    if from < sum {
      BandTakes(bands, i, from, Min(sum, upTo));
    }
  }

  /** A scale of rising bands with the last one open-ended takes from each band what of the sum lies
      in it. */
  lemma FiveBands(bands: seq<Band>, sum: int)
    requires |bands| == 5 && 0 < bands[0].upTo < bands[1].upTo < bands[2].upTo < bands[3].upTo && bands[4].upTo == 0
    ensures UnitByUnit(bands, 0, sum)
         == Within(sum, 0, bands[0].upTo) * bands[0].bp + Within(sum, bands[0].upTo, bands[1].upTo) * bands[1].bp
          + Within(sum, bands[1].upTo, bands[2].upTo) * bands[2].bp
            + Within(sum, bands[2].upTo, bands[3].upTo) * bands[3].bp
          + Max(sum - bands[3].upTo, 0) * bands[4].bp
  {
    hide RateOn, UnitByUnit, Within;
    var top := bands[3].upTo;
    BandInSum(bands, 0, sum, 0, bands[0].upTo);
    BandInSum(bands, 1, sum, bands[0].upTo, bands[1].upTo);
    BandInSum(bands, 2, sum, bands[1].upTo, bands[2].upTo);
    BandInSum(bands, 3, sum, bands[2].upTo, top);
    BandInSum(bands, 4, sum, top, Max(sum, top) + 1);
    AboveAll(sum, top);
    NoUnitsBelowNought(bands, sum);
  }

  lemma AboveAll(sum: int, top: int)
    ensures Within(sum, top, Max(sum, top) + 1) == Max(sum - top, 0)
  {
  }

  lemma NoUnitsBelowNought(bands: seq<Band>, sum: int)
    ensures UnitByUnit(bands, 0, Min(sum, 0)) == 0
  {
  }

  /** Russia's tax on wages and the like: 13, 15, 18, 20 and 22 % up to 2.4, 5, 20 and 50 million
      roubles and above, in kopecks, to the nearest whole rouble. */
  lemma RussianMainTax(sum: int)
    ensures UnitByUnit(RU_MAIN, 0, sum)
         == 1300 * Within(sum, 0, 240_000_000) + 1500 * Within(sum, 240_000_000, 500_000_000)
          + 1800 * Within(sum, 500_000_000, 2_000_000_000) + 2000 * Within(sum, 2_000_000_000, 5_000_000_000)
          + 2200 * Max(sum - 5_000_000_000, 0)
    ensures NoneBelow(RU_MAIN) && AtMost(RU_MAIN, 2200)
    ensures Tax(RU_MAIN, sum, RU_UNIT) % 100 == 0
  {
    hide RateOn, Tax, UnitOf, UnitByUnit, Within;
    FiveBands(RU_MAIN, sum);
    RoubleUnit();
    TaxIsUnitByUnit(RU_MAIN, sum, RU_UNIT);
  }

  lemma RoubleUnit()
    ensures UnitOf(RU_UNIT) == 100
  {
  }
}
