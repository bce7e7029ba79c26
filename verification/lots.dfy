/** What selling a part of a paper's lots gains, the earliest first. */
module Lots {
  import opened Rounding

  /** A lot still held: how much of it, and what it cost in the base currency when that is known. */
  datatype Lot = Lot(quantity: real, cost: real, costKnown: bool, acquiredOn: Option<int>)
  datatype Holding = Holding(quantity: real, worth: Option<real>, lots: seq<Lot>) {
    function Amount(part: real): real { quantity * part }

    function PerUnit(): real
      requires worth.Some? && quantity > 0.0
    {
      worth.value / quantity
    }
  }

  /** Gains on lots got before a day are free of tax, when the rules free any. */
  datatype Rules = Rules(longHoldingYears: int, longAgo: int)

  datatype Sale = Sale(gain: real, free: real, taxable: real, known: bool) {
    function Plus(other: Sale): Sale {
      Sale(gain + other.gain, free + other.free, taxable + other.taxable, known && other.known)
    }
  }

  const NOTHING := Sale(0.0, 0.0, 0.0, true)

  predicate HeldLong(l: Lot, rules: Rules) {
    rules.longHoldingYears > 0 && l.acquiredOn.Some? && l.acquiredOn.value < rules.longAgo
  }

  function CostOf(l: Lot, take: real): real {
    if l.quantity > 0.0 then l.cost * take / l.quantity else 0.0
  }

  function Worth(perUnit: real, quantity: real): real { perUnit * quantity }

  function GainOn(l: Lot, take: real, perUnit: real): real { Worth(perUnit, take) - CostOf(l, take) }

  function LotSale(l: Lot, take: real, perUnit: real, rules: Rules): Sale {
    if !l.costKnown then NOTHING.(known := false)
    else
      var g := GainOn(l, take, perUnit);
      if g > 0.0 && HeldLong(l, rules) then Sale(g, g, 0.0, true) else Sale(g, 0.0, g, true)
  }

  function Least(a: real, b: real): real { if a <= b then a else b }

  /** Selling so much of the lots, the earliest first; lots past the last one needed do not count. */
  function Sell(lots: seq<Lot>, left: real, perUnit: real, rules: Rules): Sale {
    if lots == [] || left <= 0.0 then NOTHING
    else
      var take := Least(left, lots[0].quantity);
      LotSale(lots[0], take, perUnit, rules).Plus(Sell(lots[1..], left - take, perUnit, rules))
  }

  /** `lotsGain`: nothing known of a paper with no price or no quantity. */
  function Gain(h: Holding, part: real, rules: Rules): Sale {
    if h.worth.None? || h.quantity <= 0.0 then NOTHING.(known := false)
    else Sell(h.lots, h.Amount(part), h.PerUnit(), rules)
  }

  method LotsGain(h: Holding, part: real, rules: Rules) returns (gain: real, free: real, taxable: real, known: bool)
    ensures Sale(gain, free, taxable, known) == Gain(h, part, rules)
  {
    if h.worth.None? || h.quantity <= 0.0 {
      return 0.0, 0.0, 0.0, false;
    }
    gain, free, taxable, known := SellLots(h.lots, h.Amount(part), h.PerUnit(), rules);
  }

  /** `lotsGain`'s loop over the lots. */
  method SellLots(lots: seq<Lot>, amount: real, perUnit: real, rules: Rules)
    returns (gain: real, free: real, taxable: real, known: bool)
    ensures Sale(gain, free, taxable, known) == Sell(lots, amount, perUnit, rules)
  {
    hide GainOn, Sell, LotSale, HeldLong, Sale.Plus;
    gain, free, taxable, known := 0.0, 0.0, 0.0, true;
    var left := amount;
    PlusNothing(Sell(lots, left, perUnit, rules));
    assert lots[0..] == lots;
    var i := 0;
    while i < |lots|
      invariant 0 <= i <= |lots|
      invariant Sale(gain, free, taxable, known).Plus(Sell(lots[i..], left, perUnit, rules))
                == Sell(lots, amount, perUnit, rules)
    {
      SellStep(lots, i, left, perUnit, rules);
      if left <= 0.0 {
        break;
      }
      var l := lots[i];
      var take := Least(left, l.quantity);
      TakeIn(Sale(gain, free, taxable, known), l, take, perUnit, rules,
             Sell(lots[i + 1..], left - take, perUnit, rules));
      left := left - take;
      i := i + 1;
      if !l.costKnown {
        known := false;
        continue;
      }
      var g := GainOn(l, take, perUnit);
      gain := gain + g;
      if g > 0.0 && HeldLong(l, rules) {
        free := free + g;
        continue;
      }
      taxable := taxable + g;
    }
    SellStep(lots, i, left, perUnit, rules);
    PlusNothing(Sale(gain, free, taxable, known));
  }

  lemma PlusNothing(s: Sale)
    ensures NOTHING.Plus(s) == s.Plus(NOTHING) == s
  {
  }

  lemma PlusPlus(x: Sale, y: Sale, z: Sale)
    ensures x.Plus(y).Plus(z) == x.Plus(y.Plus(z))
  {
  }

  /** One lot taken into the sums so far. */
  lemma TakeIn(sums: Sale, l: Lot, take: real, perUnit: real, rules: Rules, rest: Sale)
    ensures var g := GainOn(l, take, perUnit);
            var next := if !l.costKnown then sums.(known := false)
                        else if g > 0.0 && HeldLong(l, rules) then sums.(gain := sums.gain + g, free := sums.free + g)
                        else sums.(gain := sums.gain + g, taxable := sums.taxable + g);
            sums.Plus(LotSale(l, take, perUnit, rules).Plus(rest)) == next.Plus(rest)
  {
    hide GainOn;
  }

  lemma SellStep(lots: seq<Lot>, i: nat, left: real, perUnit: real, rules: Rules)
    requires i <= |lots|
    ensures Sell(lots[i..], left, perUnit, rules)
         == if i == |lots| || left <= 0.0 then NOTHING
            else var take := Least(left, lots[i].quantity);
                 LotSale(lots[i], take, perUnit, rules).Plus(Sell(lots[i + 1..], left - take, perUnit, rules))
  {
    hide LotSale;
    if i < |lots| {
      assert lots[i..][1..] == lots[i + 1..];
    }
  }

  // ---- The gain is the free and the taxed ----

  lemma {:induction false} SoldGainSplits(lots: seq<Lot>, left: real, perUnit: real, rules: Rules)
    ensures var s := Sell(lots, left, perUnit, rules); s.gain == s.free + s.taxable && 0.0 <= s.free
    decreases |lots|
  {
    hide GainOn;
    if lots != [] && left > 0.0 {
      SoldGainSplits(lots[1..], left - Least(left, lots[0].quantity), perUnit, rules);
    }
  }

  /** Whatever is sold, the gain is the part free of tax, never a loss, and the part taxed. */
  lemma GainSplits(h: Holding, part: real, rules: Rules)
    ensures var s := Gain(h, part, rules); s.gain == s.free + s.taxable && 0.0 <= s.free
  {
    hide Sell, Holding.Amount, Holding.PerUnit;
    if h.worth.Some? && h.quantity > 0.0 {
      SoldGainSplits(h.lots, h.Amount(part), h.PerUnit(), rules);
    }
  }

  // ---- A full sale ----

  ghost predicate NoneBelow(lots: seq<Lot>) {
    forall i :: 0 <= i < |lots| ==> 0.0 <= lots[i].quantity
  }

  ghost predicate CostsKnown(lots: seq<Lot>) {
    forall i :: 0 <= i < |lots| ==> lots[i].costKnown
  }

  function Quantity(lots: seq<Lot>): real {
    if lots == [] then 0.0 else lots[0].quantity + Quantity(lots[1..])
  }

  /** The lots' cost: that of a lot with nothing left in it is not counted. */
  function Cost(lots: seq<Lot>): real {
    if lots == [] then 0.0 else (if lots[0].quantity > 0.0 then lots[0].cost else 0.0) + Cost(lots[1..])
  }

  lemma {:induction false} EmptyLots(lots: seq<Lot>)
    requires NoneBelow(lots)
    ensures 0.0 <= Quantity(lots) && (Quantity(lots) <= 0.0 ==> Cost(lots) == 0.0)
    decreases |lots|
  {
    if lots != [] {
      EmptyLots(lots[1..]);
    }
  }

  lemma WholeCost(l: Lot)
    requires l.quantity > 0.0
    ensures CostOf(l, l.quantity) == l.cost
  {
  }

  lemma {:induction false} SellingAll(lots: seq<Lot>, left: real, perUnit: real, rules: Rules)
    requires NoneBelow(lots) && CostsKnown(lots) && Quantity(lots) <= left
    ensures var s := Sell(lots, left, perUnit, rules);
            s.known && s.gain == Worth(perUnit, Quantity(lots)) - Cost(lots)
    decreases |lots|
  {
    hide GainOn, Worth;
    Spread(perUnit, 0.0, 0.0);
    EmptyLots(lots);
    if lots != [] && left > 0.0 {
      var l := lots[0];
      EmptyLots(lots[1..]);
      SellingAll(lots[1..], left - l.quantity, perUnit, rules);
      WholeLot(l, perUnit);
      Spread(perUnit, l.quantity, Quantity(lots[1..]));
    }
  }

  lemma WholeLot(l: Lot, perUnit: real)
    requires 0.0 <= l.quantity
    ensures GainOn(l, l.quantity, perUnit) == Worth(perUnit, l.quantity) - (if l.quantity > 0.0 then l.cost else 0.0)
  {
  }

  lemma Spread(p: real, a: real, b: real)
    ensures Worth(p, a + b) == Worth(p, a) + Worth(p, b)
  {
  }

  /** A full sale with every cost known gains the worth less what the lots cost. */
  lemma FullSaleGainsWorthLessCost(h: Holding, rules: Rules)
    requires h.worth.Some? && h.quantity > 0.0 && Quantity(h.lots) == h.quantity
    requires NoneBelow(h.lots) && CostsKnown(h.lots)
    ensures var s := Gain(h, 1.0, rules); s.known && s.gain == h.worth.value - Cost(h.lots)
  {
    hide Sell, Quantity, Cost;
    assert h.Amount(1.0) == h.quantity;
    SellingAll(h.lots, h.quantity, h.PerUnit(), rules);
    assert Worth(h.PerUnit(), h.quantity) == h.worth.value;
  }

  function AllCosts(lots: seq<Lot>): real {
    if lots == [] then 0.0 else lots[0].cost + AllCosts(lots[1..])
  }

  /** So it gains the worth less all the costs exactly when the lots with nothing left come to no
      cost together. */
  lemma FullSaleCountsAllCosts(h: Holding, rules: Rules)
    requires h.worth.Some? && h.quantity > 0.0 && Quantity(h.lots) == h.quantity
    requires NoneBelow(h.lots) && CostsKnown(h.lots)
    ensures Gain(h, 1.0, rules).gain == h.worth.value - AllCosts(h.lots) <==> EmptyCost(h.lots) == 0.0
  {
    hide Gain, Cost, AllCosts, EmptyCost;
    FullSaleGainsWorthLessCost(h, rules);
    CostsSplit(h.lots);
  }

  /** A paper worth 100 whose two lots cost 60 and, with nothing left in it, 5. */
  const EMPTIED := Holding(1.0, Some(100.0), [Lot(0.0, 5.0, true, None), Lot(1.0, 60.0, true, None)])

  /** Sold in full it gains 40, not 35: what the emptied lot cost is left out. */
  lemma EmptiedLotIsNotCounted(rules: Rules)
    ensures Gain(EMPTIED, 1.0, rules).gain == 40.0
    ensures EMPTIED.worth.value - AllCosts(EMPTIED.lots) == 35.0
  {
    hide Gain;
    var rest := EMPTIED.lots[1..];
    assert rest == [Lot(1.0, 60.0, true, None)] && rest[1..] == [];
    assert Quantity(rest) == 1.0 && Cost(rest) == 60.0 && AllCosts(rest) == 60.0;
    FullSaleGainsWorthLessCost(EMPTIED, rules);
  }

  /** What the lots with nothing left in them cost. */
  function EmptyCost(lots: seq<Lot>): real {
    if lots == [] then 0.0 else (if lots[0].quantity > 0.0 then 0.0 else lots[0].cost) + EmptyCost(lots[1..])
  }

  lemma {:induction false} CostsSplit(lots: seq<Lot>)
    ensures AllCosts(lots) == Cost(lots) + EmptyCost(lots)
    decreases |lots|
  {
    if lots != [] {
      CostsSplit(lots[1..]);
    }
  }

  // ---- Two sales are one ----

  /** A lot less what was sold of it, its cost going with it. */
  function Rest(l: Lot, take: real): Lot {
    l.(quantity := l.quantity - take, cost := l.cost - CostOf(l, take))
  }

  /** The lots left after a sale. */
  function Remaining(lots: seq<Lot>, sold: real): seq<Lot> {
    if lots == [] || sold <= 0.0 then lots
    else if lots[0].quantity <= sold then Remaining(lots[1..], sold - lots[0].quantity)
    else [Rest(lots[0], sold)] + lots[1..]
  }

  lemma CostsAdd(l: Lot, a: real, b: real)
    requires 0.0 < a < l.quantity
    ensures CostOf(Rest(l, a), b) + CostOf(l, a) == CostOf(l, a + b)
  {
    var q, c := l.quantity, l.cost;
    var u := c / q;
    assert c == u * q;
    UnitCost(c, q, u, a);
    UnitCost(c, q, u, b);
    UnitCost(c, q, u, a + b);
    assert c - u * a == u * (q - a);
    UnitCost(c - u * a, q - a, u, b);
    assert u * (a + b) == u * a + u * b;
  }

  lemma UnitCost(c: real, q: real, u: real, t: real)
    requires q > 0.0 && c == u * q
    ensures c * t / q == u * t
  {
    assert c * t == (u * t) * q;
  }

  /** What one unit of a lot gains has one sign, whatever part of it is sold. */
  lemma GainSign(l: Lot, take: real, perUnit: real)
    requires 0.0 < take && 0.0 < l.quantity
    ensures GainOn(l, take, perUnit) > 0.0 <==> perUnit * l.quantity - l.cost > 0.0
  {
    var u := l.cost / l.quantity;
    assert l.cost == u * l.quantity;
    UnitCost(l.cost, l.quantity, u, take);
    var d := perUnit - u;
    assert perUnit * take - u * take == d * take;
    assert perUnit * l.quantity - u * l.quantity == d * l.quantity;
    SameSign(d, take, l.quantity);
  }

  lemma SameSign(d: real, a: real, b: real)
    requires 0.0 < a && 0.0 < b
    ensures d * a > 0.0 <==> d * b > 0.0
  {
    assert d > 0.0 ==> d * a > 0.0 && d * b > 0.0;
    assert d <= 0.0 ==> d * a <= 0.0 && d * b <= 0.0;
  }

  lemma LotInTwo(l: Lot, a: real, b: real, perUnit: real, rules: Rules)
    requires 0.0 < a && 0.0 < b && a + b <= l.quantity
    ensures LotSale(l, a, perUnit, rules).Plus(LotSale(Rest(l, a), b, perUnit, rules))
            == LotSale(l, a + b, perUnit, rules)
  {
    hide GainOn, Rest;
    GainsAdd(l, a, b, perUnit);
    RestQuantity(l, a);
    GainSign(l, a, perUnit);
    GainSign(l, a + b, perUnit);
    RestGains(l, a, perUnit);
    GainSign(Rest(l, a), b, perUnit);
  }

  lemma GainsAdd(l: Lot, a: real, b: real, perUnit: real)
    requires 0.0 < a < l.quantity
    ensures GainOn(l, a, perUnit) + GainOn(Rest(l, a), b, perUnit) == GainOn(l, a + b, perUnit)
  {
    hide CostOf, Worth;
    CostsAdd(l, a, b);
    Spread(perUnit, a, b);
  }

  lemma RestGains(l: Lot, a: real, perUnit: real)
    requires 0.0 < a < l.quantity
    ensures perUnit * Rest(l, a).quantity - Rest(l, a).cost > 0.0 <==> perUnit * l.quantity - l.cost > 0.0
  {
    CostsAdd(l, a, l.quantity - a);
    WholeCost(l);
    WholeCost(Rest(l, a));
    GainSign(l, l.quantity - a, perUnit);
    var u := l.cost / l.quantity;
    assert l.cost == u * l.quantity;
    UnitCost(l.cost, l.quantity, u, a);
    UnitCost(l.cost, l.quantity, u, l.quantity - a);
    assert u * (l.quantity - a) == l.cost - u * a;
  }

  lemma {:induction false} SellInTwo(lots: seq<Lot>, a: real, b: real, perUnit: real, rules: Rules)
    requires NoneBelow(lots) && 0.0 <= a && 0.0 <= b
    ensures Sell(lots, a, perUnit, rules).Plus(Sell(Remaining(lots, a), b, perUnit, rules))
            == Sell(lots, a + b, perUnit, rules)
    decreases |lots|
  {
    hide LotSale, Rest, Sell, Sale.Plus;
    PlusNothing(Sell(lots, a + b, perUnit, rules));
    if lots == [] {
      NoLots(a, perUnit, rules);
      NoLots(b, perUnit, rules);
      NoLots(a + b, perUnit, rules);
    } else if a <= 0.0 {
      NothingLeft(lots, perUnit, rules);
    } else if lots[0].quantity <= a {
      SellFirst(lots, a, perUnit, rules);
      SellFirst(lots, a + b, perUnit, rules);
      var q := lots[0].quantity;
      SellInTwo(lots[1..], a - q, b, perUnit, rules);
      assert a + b - q == a - q + b;
      PlusPlus(LotSale(lots[0], q, perUnit, rules), Sell(lots[1..], a - q, perUnit, rules),
               Sell(Remaining(lots, a), b, perUnit, rules));
    } else {
      SellWithinLot(lots, a, b, perUnit, rules);
    }
  }

  lemma SellWithinLot(lots: seq<Lot>, a: real, b: real, perUnit: real, rules: Rules)
    requires lots != [] && 0.0 < a < lots[0].quantity && 0.0 <= b
    ensures Sell(lots, a, perUnit, rules).Plus(Sell(Remaining(lots, a), b, perUnit, rules))
            == Sell(lots, a + b, perUnit, rules)
  {
    hide LotSale, Rest, Sell;
    var l, after := lots[0], Remaining(lots, a);
    SellFirst(lots, a, perUnit, rules);
    SellFirst(lots, a + b, perUnit, rules);
    SellFirst(after, b, perUnit, rules);
    NothingLeft(lots[1..], perUnit, rules);
    if b > 0.0 {
      RestQuantity(l, a);
      LotInTwo(l, a, Least(b, l.quantity - a), perUnit, rules);
      assert after[1..] == lots[1..];
    }
  }

  lemma SellFirst(lots: seq<Lot>, left: real, perUnit: real, rules: Rules)
    requires lots != []
    ensures Sell(lots, left, perUnit, rules)
         == if left <= 0.0 then NOTHING
            else var take := Least(left, lots[0].quantity);
                 LotSale(lots[0], take, perUnit, rules).Plus(Sell(lots[1..], left - take, perUnit, rules))
  {
    hide LotSale;
  }

  lemma RestQuantity(l: Lot, a: real)
    ensures Rest(l, a) == l.(quantity := l.quantity - a, cost := l.cost - CostOf(l, a))
  {
  }

  lemma NothingLeft(lots: seq<Lot>, perUnit: real, rules: Rules)
    ensures Sell(lots, 0.0, perUnit, rules) == NOTHING
  {
  }

  lemma NoLots(left: real, perUnit: real, rules: Rules)
    ensures Sell([], left, perUnit, rules) == NOTHING
  {
  }

  /** What is held after selling a part of it, each unit worth what it was. */
  function AfterSale(h: Holding, part: real): Holding {
    Holding(h.quantity * (1.0 - part),
            if h.worth.Some? then Some(h.worth.value * (1.0 - part)) else None,
            Remaining(h.lots, h.Amount(part)))
  }

  /** Selling a part, then a part of what remains, gains, frees and taxes what one sale of both
      does, and is known exactly when it is. */
  lemma TwoSalesAreOne(h: Holding, p: real, q: real, rules: Rules)
    requires NoneBelow(h.lots) && 0.0 <= p < 1.0 && 0.0 <= q && h.worth.Some? && h.quantity > 0.0
    ensures Gain(h, p, rules).Plus(Gain(AfterSale(h, p), q, rules)) == Gain(h, p + (1.0 - p) * q, rules)
  {
    hide Sell, Remaining, Holding.Amount, Holding.PerUnit;
    var after := AfterSale(h, p);
    Parts(h, p, q);
    SellInTwo(h.lots, h.Amount(p), after.Amount(q), h.PerUnit(), rules);
  }

  lemma Parts(h: Holding, p: real, q: real)
    requires 0.0 <= p < 1.0 && 0.0 <= q && h.worth.Some? && h.quantity > 0.0
    ensures var after := AfterSale(h, p);
            && 0.0 <= h.Amount(p) && after.quantity > 0.0 && 0.0 <= after.Amount(q)
            && h.Amount(p + (1.0 - p) * q) == h.Amount(p) + after.Amount(q)
            && after.PerUnit() == h.PerUnit()
  {
    hide Remaining;
    Product(h.quantity, p);
    Product(h.quantity, 1.0 - p);
    Product(h.quantity * (1.0 - p), q);
    SameUnitValue(h.worth.value, h.quantity, 1.0 - p);
    assert h.quantity * (p + (1.0 - p) * q) == h.quantity * p + h.quantity * (1.0 - p) * q;
  }

  lemma Product(a: real, b: real)
    requires 0.0 < a
    ensures 0.0 <= b ==> 0.0 <= a * b
    ensures 0.0 < b ==> 0.0 < a * b
  {
  }

  lemma SameUnitValue(w: real, q: real, r: real)
    requires 0.0 < q && 0.0 < r && 0.0 < q * r
    ensures (w * r) / (q * r) == w / q
  {
    var u := w / q;
    assert w == u * q;
    assert w * r == u * (q * r);
  }
}
