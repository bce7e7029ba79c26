/** Whole money shared by weights with no unit lost. */
module Share {
  import opened Rounding

  function Sum(xs: seq<int>): int {
    if xs == [] then 0 else Sum(xs[..|xs| - 1]) + xs[|xs| - 1]
  }

  predicate NoneBelow(xs: seq<int>) {
    forall i :: 0 <= i < |xs| ==> 0 <= xs[i]
  }

  /** How many of the weights are above nought. */
  function Positives(weights: seq<int>): nat {
    if weights == [] then 0
    else Positives(weights[..|weights| - 1]) + (if weights[|weights| - 1] > 0 then 1 else 0)
  }

  /** The first of the heaviest weights above nought; -1 when there is none. */
  function Heaviest(weights: seq<int>): (h: int)
    ensures -1 <= h < |weights|
    ensures h >= 0 ==> weights[h] > 0 && forall i :: 0 <= i < |weights| ==> weights[i] <= weights[h]
    ensures h < 0 ==> forall i :: 0 <= i < |weights| ==> weights[i] <= 0
  {
    if weights == [] then -1
    else
      var n := |weights| - 1;
      var h := Heaviest(weights[..n]);
      if weights[n] > 0 && (h < 0 || weights[n] > weights[h]) then n else h
  }

  /** The floor of the amount's part by a weight. */
  function Part(amount: int, w: int, total: int): int
    requires 0 < total
  {
    amount * w / total
  }

  function Parts(weights: seq<int>, amount: int, total: int): int
    requires 0 < total
  {
    if weights == [] then 0
    else Parts(weights[..|weights| - 1], amount, total) + Part(amount, weights[|weights| - 1], total)
  }

  /** What each weight gets of the amount; nothing when the weights are all nought. */
  function Shares(weights: seq<int>, amount: int): (r: seq<int>)
    ensures |r| == |weights|
  {
    var total := Sum(weights);
    var heaviest := Heaviest(weights);
    if total <= 0 || heaviest < 0 then seq(|weights|, i => 0)
    else
      var over := amount - Parts(weights, amount, total);
      seq(|weights|, i requires 0 <= i < |weights| =>
          Part(amount, weights[i], total) + (if i == heaviest then over else 0))
  }

  method WeighUp(weights: seq<int>) returns (total: int, heaviest: int)
    ensures total == Sum(weights) && heaviest == Heaviest(weights)
  {
    total, heaviest := 0, -1;
    for i := 0 to |weights|
      invariant total == Sum(weights[..i]) && heaviest == Heaviest(weights[..i])
    {
      assert weights[..i + 1][..i] == weights[..i];
      var w := weights[i];
      total := total + w;
      if w > 0 && (heaviest < 0 || w > weights[heaviest]) {
        heaviest := i;
      }
    }
    assert weights[..|weights|] == weights;
  }

  /** `share`: adds to what is there. */
  method ShareInto(into: array<int>, weights: seq<int>, amount: int)
    requires into.Length == |weights| && NoneBelow(weights)
    modifies into
    ensures forall i :: 0 <= i < |weights| ==> into[i] == old(into[i]) + Shares(weights, amount)[i]
  {
    hide Part, Sum, Heaviest;
    var total, heaviest := WeighUp(weights);
    TotalOfNone(weights);
    if total == 0 {
      return;
    }
    var given := 0;
    for i := 0 to |weights|
      invariant given == Parts(weights[..i], amount, total)
      invariant forall j :: 0 <= j < |weights| ==>
                  into[j] == old(into[j]) + (if j < i then Part(amount, weights[j], total) else 0)
    {
      assert weights[..i + 1][..i] == weights[..i];
      var part := Part(amount, weights[i], total);
      into[i] := into[i] + part;
      given := given + part;
    }
    assert weights[..|weights|] == weights;
    into[heaviest] := into[heaviest] + amount - given;
  }

  lemma {:induction false} TotalOfNone(weights: seq<int>)
    requires NoneBelow(weights)
    ensures 0 <= Sum(weights)
    ensures Sum(weights) == 0 <==> Heaviest(weights) < 0
    ensures forall i :: 0 <= i < |weights| ==> weights[i] <= Sum(weights)
    decreases |weights|
  {
    if weights != [] {
      TotalOfNone(weights[..|weights| - 1]);
    }
  }

  // ---- The decimal division ----

  const SCALE := 10_000_000_000_000_000

  /** decimal's Div: the quotient rounded to sixteen decimals. */
  function Div16(a: int, b: int): real
    requires 0 < b
  {
    Round(a as real * SCALE as real / b as real) as real / SCALE as real
  }

  /** With a total under 2 * 10^16 minor units, the floor of the decimal quotient is the whole
      quotient: rounding the seventeenth decimal never carries it over. */
  lemma Div16Floors(a: int, b: int)
    requires 0 <= a && 0 < b < 2 * SCALE
    ensures Div16(a, b).Floor == a / b
  {
    var q, r := a / b, a % b;
    var y, s := b as real, SCALE as real;
    var x := a as real * s / y;
    assert a == q * b + r;
    WholeProduct(q, b, r);
    WholeProduct(q, SCALE, 0);
    WholeProduct(q + 1, SCALE, 0);
    assert 0 <= q * SCALE;
    assert x * y == a as real * s;
    ScaledBounds(q as real, r as real, y, x, s);
    RoundedBetween(x, q * SCALE, (q + 1) * SCALE);
    QuotientFloor(Round(x), q);
  }

  lemma WholeProduct(q: int, b: int, r: int)
    ensures (q * b + r) as real == q as real * b as real + r as real
  {
  }

  lemma ScaledBounds(q: real, r: real, y: real, x: real, s: real)
    requires 0.0 <= r <= y - 1.0 && 0.0 < y < 2.0 * s
    requires x * y == (q * y + r) * s
    ensures q * s <= x < (q + 1.0) * s - 0.5
  {
    var past, room := x - q * s, (q + 1.0) * s - 0.5 - x;
    NotBelowProduct(r, s);
    assert past * y == r * s;
    NotBelow(past, y);
    NotBelowProduct(y - r - 1.0, s);
    Above(room, y, (y - r - 1.0) * s, s - 0.5 * y);
  }

  lemma NotBelow(d: real, y: real)
    requires 0.0 < y && 0.0 <= d * y
    ensures 0.0 <= d
  {
  }

  lemma NotBelowProduct(a: real, b: real)
    requires 0.0 <= a && 0.0 <= b
    ensures 0.0 <= a * b
  {
  }

  lemma Above(d: real, y: real, a: real, b: real)
    requires 0.0 < y && d * y == a + b && 0.0 <= a && 0.0 < b
    ensures 0.0 < d
  {
    NotBelowUnless(d, y);
  }

  lemma NotBelowUnless(d: real, y: real)
    requires 0.0 < y
    ensures d <= 0.0 ==> d * y <= 0.0
  {
  }

  lemma RoundedBetween(x: real, lo: int, hi: int)
    requires 0 <= lo && lo as real <= x < hi as real - 0.5
    ensures lo <= Round(x) < hi
  {
  }

  lemma QuotientFloor(n: int, q: int)
    requires q * SCALE <= n < (q + 1) * SCALE
    ensures (n as real / SCALE as real).Floor == q
  {
    var x := n as real / SCALE as real;
    assert x * SCALE as real == n as real;
  }

  // ---- What sharing keeps ----

  lemma {:induction false} SharesSum(weights: seq<int>, amount: int, total: int, heaviest: int, over: int, k: nat)
    requires 0 < total && k <= |weights|
    ensures var shares :=
            seq(|weights|, i requires 0 <= i < |weights| =>
                Part(amount, weights[i], total) + (if i == heaviest then over else 0));
            Sum(shares[..k]) == Parts(weights[..k], amount, total) + (if 0 <= heaviest < k then over else 0)
    decreases k
  {
    hide Part;
    if k > 0 {
      SharesSum(weights, amount, total, heaviest, over, k - 1);
      var shares :=
        seq(|weights|, i requires 0 <= i < |weights| =>
            Part(amount, weights[i], total) + (if i == heaviest then over else 0));
      assert shares[..k][..k - 1] == shares[..k - 1];
      assert weights[..k][..k - 1] == weights[..k - 1];
    }
  }

  lemma {:induction false} SumOfNoughts(n: nat)
    ensures Sum(seq(n, i => 0)) == 0
    decreases n
  {
    if n > 0 {
      assert seq(n, i => 0)[..n - 1] == seq(n - 1, i => 0);
      SumOfNoughts(n - 1);
    }
  }

  /** The whole amount is shared whenever any weight is above nought, and none of it otherwise. */
  lemma ShareConserves(weights: seq<int>, amount: int)
    requires NoneBelow(weights)
    ensures Sum(Shares(weights, amount)) == if Sum(weights) > 0 then amount else 0
  {
    hide Part, Parts;
    TotalOfNone(weights);
    if Sum(weights) > 0 {
      var total, heaviest := Sum(weights), Heaviest(weights);
      SharesSum(weights, amount, total, heaviest, amount - Parts(weights, amount, total), |weights|);
      assert weights[..|weights|] == weights;
      assert Shares(weights, amount)[..|weights|] == Shares(weights, amount);
    } else {
      SumOfNoughts(|weights|);
    }
  }

  lemma PartBounds(amount: int, w: int, total: int)
    requires 0 < total && 0 <= w && 0 <= amount
    ensures amount * w - (if w > 0 then total - 1 else 0) <= Part(amount, w, total) * total <= amount * w
    ensures 0 <= Part(amount, w, total)
  {
    var x := amount * w;
    assert 0 <= x;
    assert x == x / total * total + x % total;
    if w == 0 {
      assert x == 0;
    }
  }

  /** What the floors leave: less than one unit a weight above nought, and never below nought. */
  lemma {:induction false} FloorsLeave(weights: seq<int>, amount: int, total: int)
    requires NoneBelow(weights) && 0 < total && 0 <= amount
    ensures amount * Sum(weights) - Positives(weights) * (total - 1) <= Parts(weights, amount, total) * total
            <= amount * Sum(weights)
    decreases |weights|
  {
    hide Part;
    if weights != [] {
      var n := |weights| - 1;
      var w := weights[n];
      FloorsLeave(weights[..n], amount, total);
      PartBounds(amount, w, total);
      var before := Parts(weights[..n], amount, total);
      assert (before + Part(amount, w, total)) * total == before * total + Part(amount, w, total) * total;
      assert amount * (Sum(weights[..n]) + w) == amount * Sum(weights[..n]) + amount * w;
      assert (Positives(weights[..n]) + 1) * (total - 1) == Positives(weights[..n]) * (total - 1) + (total - 1);
    }
  }

  lemma RemainderBounds(weights: seq<int>, amount: int)
    requires NoneBelow(weights) && 0 < Sum(weights) && 0 <= amount
    ensures 0 <= amount - Parts(weights, amount, Sum(weights)) < Positives(weights)
  {
    hide Parts, Positives;
    var total := Sum(weights);
    var over := amount - Parts(weights, amount, total);
    var n := Positives(weights);
    FloorsLeave(weights, amount, total);
    assert over * total == amount * total - Parts(weights, amount, total) * total;
    assert n * (total - 1) == n * total - n;
    SomePositive(weights);
    Unscale(over, total);
    assert (n - over) * total >= n;
    Unscale(n - over - 1, total);
  }

  lemma {:induction false} SomePositive(weights: seq<int>)
    requires NoneBelow(weights) && 0 < Sum(weights)
    ensures 0 < Positives(weights)
    decreases |weights|
  {
    var n := |weights| - 1;
    if weights[n] == 0 {
      SomePositive(weights[..n]);
    }
  }

  lemma Unscale(x: int, b: int)
    requires 0 < b && -b < x * b
    ensures 0 <= x
  {
    assert x <= -1 ==> (-x - 1) * b >= 0;
  }

  lemma ShareAt(weights: seq<int>, amount: int, i: nat)
    requires NoneBelow(weights) && 0 < Sum(weights) && i < |weights|
    ensures var over := amount - Parts(weights, amount, Sum(weights));
            Shares(weights, amount)[i]
              == Part(amount, weights[i], Sum(weights)) + (if i == Heaviest(weights) then over else 0)
  {
    hide Part, Parts, Sum, Heaviest;
    TotalOfNone(weights);
  }

  /** No weight's share is below nought, none is past its exact proportion by as much as a unit a
      weight above nought, none short of it by a unit, and a weight of nought gets nothing. */
  lemma ShareBounds(weights: seq<int>, amount: int, i: nat)
    requires NoneBelow(weights) && 0 < Sum(weights) && 0 <= amount && i < |weights|
    ensures var share, total := Shares(weights, amount)[i], Sum(weights);
            && 0 <= share
            && (share - Positives(weights)) * total < amount * weights[i] < (share + 1) * total
            && (weights[i] == 0 ==> share == 0)
  {
    hide Part, Parts, Shares, Sum, Heaviest, Positives;
    var total, n := Sum(weights), Positives(weights);
    var part, share := Part(amount, weights[i], total), Shares(weights, amount)[i];
    TotalOfNone(weights);
    HeaviestIsHeavy(weights);
    RemainderBounds(weights, amount);
    PartBounds(amount, weights[i], total);
    ShareAt(weights, amount, i);
    ScaledShare(part, share, n, total, amount * weights[i]);
    NoShareOfNought(part, total, amount, weights[i]);
  }

  lemma HeaviestIsHeavy(weights: seq<int>)
    requires NoneBelow(weights) && 0 < Sum(weights)
    ensures 0 <= Heaviest(weights) && 0 < weights[Heaviest(weights)]
  {
    hide Sum;
    TotalOfNone(weights);
  }

  lemma ScaledShare(part: int, share: int, n: int, total: int, exact: int)
    requires 0 < total && part <= share < part + n && exact - (total - 1) <= part * total <= exact
    ensures (share - n) * total < exact < (share + 1) * total
  {
    assert (share - n) * total == part * total - (part + n - share) * total;
    assert (part + n - share) * total > 0;
    assert (share + 1) * total == part * total + (share - part) * total + total;
  }

  lemma NoShareOfNought(part: int, total: int, amount: int, w: int)
    requires 0 < total && 0 <= part && part * total <= amount * w
    ensures w == 0 ==> part == 0
  {
    assert w == 0 ==> amount * w == 0;
    assert part >= 1 ==> part * total >= total;
  }
}
