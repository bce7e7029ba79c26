/** Selling down what is over its target and buying what is under it. */
module Rebalance {
  import opened Allocation
  import opened Rounding
  import Share

  /** What is done to a kind: bought or sold now, to be taken out of deposits as they end, above the
      target but not to be sold now, and the kind's share once done. */
  datatype Move = Move(key: string, minor: int, later: int, kept: int, shareAfter: real)

  function Minors(kinds: seq<Kind>): (r: seq<int>)
    ensures |r| == |kinds| && forall i :: 0 <= i < |kinds| ==> r[i] == kinds[i].minor
  {
    seq(|kinds|, i requires 0 <= i < |kinds| => kinds[i].minor)
  }

  /** What of a kind cannot be sold now. */
  function Frozen(v: View, key: string): int {
    if key in v.unsellable then v.unsellable[key] else 0
  }

  function Sold(v: View, k: Kind, after: int): int {
    var over := Over(k, k.minor, after);
    if over == 0 || k.key == DEPOSITS then 0 else Min(over, k.minor - Frozen(v, k.key))
  }

  /** A kind's move before anything is bought. */
  function Sale(v: View, k: Kind, after: int): Move {
    var over := Over(k, k.minor, after);
    if k.key == DEPOSITS then Move(k.key, 0, over, 0, 0.0)
    else Move(k.key, -Sold(v, k, after), 0, over - Sold(v, k, after), 0.0)
  }

  function SoldIn(v: View, after: int, n: nat): int
    requires n <= |v.kinds|
  {
    if n == 0 then 0 else SoldIn(v, after, n - 1) + Sold(v, v.kinds[n - 1], after)
  }

  /** What is above the targets and stays: in deposits until they end, and in what cannot be sold. */
  function HeldBack(v: View, after: int, n: nat): int
    requires n <= |v.kinds|
  {
    if n == 0 then 0
    else
      var sale := Sale(v, v.kinds[n - 1], after);
      HeldBack(v, after, n - 1) + sale.later + sale.kept
  }

  function Money(v: View, added: int): int { added + SoldIn(v, v.worth + added, |v.kinds|) }

  function KindLacks(v: View, added: int): (r: seq<int>)
    ensures |r| == |v.kinds| && Share.NoneBelow(r)
  {
    Lacks(v.kinds, Minors(v.kinds), v.worth + added, |v.kinds|)
  }

  /** A part's share of the worth in percent, to hundredths. */
  function SharePercent(minor: int, after: int): real {
    if after > 0 then Round(minor as real * 10000.0 / after as real) as real / 100.0 else 0.0
  }

  function Moved(v: View, added: int, i: nat): Move
    requires i < |v.kinds|
  {
    var after, k := v.worth + added, v.kinds[i];
    var sale := Sale(v, k, after);
    var minor := sale.minor + Share.Shares(KindLacks(v, added), Money(v, added))[i];
    sale.(minor := minor, shareAfter := SharePercent(k.minor + minor, after))
  }

  ghost predicate AreMoves(v: View, added: int, moves: seq<Move>) {
    |moves| == |v.kinds| && forall i :: 0 <= i < |moves| ==> moves[i] == Moved(v, added, i)
  }

  method AnyTarget(kinds: seq<Kind>) returns (targeted: bool)
    ensures targeted == Targeted(kinds)
  {
    targeted := false;
    for i := 0 to |kinds|
      invariant targeted == exists j :: 0 <= j < i && kinds[j].target.Some?
    {
      targeted := targeted || kinds[i].target.Some?;
    }
  }

  /** The first pass over the kinds: what each lacks, what is sold of the others, and the money. */
  method SellDown(v: View, added: int, moves: array<Move>, lacks: array<int>) returns (money: int)
    requires moves.Length == lacks.Length == |v.kinds|
    requires forall i :: 0 <= i < lacks.Length ==> lacks[i] == 0
    modifies moves, lacks
    ensures money == Money(v, added) && lacks[..] == KindLacks(v, added)
    ensures forall i :: 0 <= i < |v.kinds| ==> moves[i] == Sale(v, v.kinds[i], v.worth + added)
  {
    hide Want;
    var after := v.worth + added;
    money := added;
    for i := 0 to |v.kinds|
      invariant money == added + SoldIn(v, after, i)
      invariant forall j :: 0 <= j < |v.kinds| ==>
                  lacks[j] == if j < i then Lack(v.kinds[j], v.kinds[j].minor, after) else 0
      invariant forall j :: 0 <= j < i ==> moves[j] == Sale(v, v.kinds[j], after)
    {
      var k := v.kinds[i];
      moves[i] := Move(k.key, 0, 0, 0, 0.0);
      if k.target.Some? {
        var want := Want(after, k.target.value);
        var gap := want - k.minor;
        if gap > 0 {
          lacks[i] := gap;
        } else if gap < 0 && k.key == DEPOSITS {
          moves[i] := moves[i].(later := -gap);
        } else if gap < 0 {
          var sold := Min(-gap, k.minor - Frozen(v, k.key));
          moves[i] := moves[i].(minor := -sold, kept := -gap - sold);
          money := money + sold;
        }
      }
    }
  }

  /** `Rebalance`: refused for money below nought and when no kind has a target. */
  method Rebalance(v: View, added: int) returns (r: Result<seq<Move>>)
    ensures added < 0 ==> r == Err(MoneyBelowZero)
    ensures added >= 0 && !Targeted(v.kinds) ==> r == Err(NoTargets)
    ensures added >= 0 && Targeted(v.kinds) ==> r.Ok? && AreMoves(v, added, r.value)
  {
    hide Share.Shares, KindLacks, Money, Sale, SharePercent, Targeted;
    if added < 0 {
      return Err(MoneyBelowZero);
    }
    var targeted := AnyTarget(v.kinds);
    if !targeted {
      return Err(NoTargets);
    }
    var after, n := v.worth + added, |v.kinds|;
    var moves := new Move[n](_ => Move("", 0, 0, 0, 0.0));
    var lacks := new int[n](_ => 0);
    var money := SellDown(v, added, moves, lacks);
    var bought := new int[n](_ => 0);
    Share.ShareInto(bought, lacks[..], money);
    for i := 0 to n
      invariant forall j :: 0 <= j < n ==> bought[j] == Share.Shares(KindLacks(v, added), Money(v, added))[j]
      invariant forall j :: 0 <= j < n ==> moves[j] == if j < i then Moved(v, added, j) else Sale(v, v.kinds[j], after)
    {
      var minor := moves[i].minor + bought[i];
      moves[i] := moves[i].(minor := minor, shareAfter := SharePercent(v.kinds[i].minor + minor, after));
    }
    return Ok(moves[..]);
  }

  // ---- What the moves keep ----

  /** A whole view: the targets add up to 100, the kinds to the worth, no kind without a target is
      below nought, and what cannot be sold is a part of what is held. */
  ghost predicate Whole(v: View) {
    && TargetsAddUp(v.kinds)
    && Share.Sum(Minors(v.kinds)) == v.worth
    && NoneBelowUntargeted(v.kinds, Minors(v.kinds))
    && (forall i :: 0 <= i < |v.kinds| && v.kinds[i].target.Some? ==> Sellable(v, v.kinds[i]))
  }

  predicate Sellable(v: View, k: Kind) { 0 <= Frozen(v, k.key) <= k.minor }

  lemma WholeIsSellable(v: View, i: nat)
    requires Whole(v) && i < |v.kinds|
    ensures v.kinds[i].target.Some? ==> Sellable(v, v.kinds[i])
  {
  }

  lemma {:induction false} OversSplit(v: View, after: int, n: nat)
    requires n <= |v.kinds|
    ensures Overs(v.kinds, Minors(v.kinds), after, n) == SoldIn(v, after, n) + HeldBack(v, after, n)
    decreases n
  {
    hide Want;
    if n > 0 {
      OversSplit(v, after, n - 1);
    }
  }

  lemma {:induction false} SalesNotBelow(v: View, after: int, n: nat)
    requires n <= |v.kinds| && Whole(v)
    ensures 0 <= SoldIn(v, after, n) && 0 <= HeldBack(v, after, n)
    decreases n
  {
    hide Want, TargetsAddUp, Share.Sum, NoneBelowUntargeted;
    if n > 0 {
      SalesNotBelow(v, after, n - 1);
      assert v.kinds[n - 1].target.Some? ==> Sellable(v, v.kinds[n - 1]);
    }
  }

  /** The lacks come to the money, all that stays above its target, what the untargeted kinds hold and
      the rounding of the targets. They reach the money exactly when the last three together are not
      below nought, and fall short of it by at most half a minor unit a target. */
  lemma LacksCoverTheMoney(v: View, added: int)
    requires Whole(v) && 0 <= added
    ensures var lacks, after, n := Share.Sum(KindLacks(v, added)), v.worth + added, |v.kinds|;
            && lacks == Money(v, added) + HeldBack(v, after, n) + Untargeted(v.kinds, Minors(v.kinds), n)
               + Slip(v.kinds, after)
            && (Money(v, added) <= lacks
                <==> 0 <= HeldBack(v, after, n) + Untargeted(v.kinds, Minors(v.kinds), n) + Slip(v.kinds, after))
            && 2 * Money(v, added) <= 2 * lacks + TargetedCount(v.kinds, n)
            && 0 <= Money(v, added)
  {
    hide Overs, SoldIn, HeldBack, Untargeted, TargetedCount, Slip, Lacks, Minors;
    var after, n := v.worth + added, |v.kinds|;
    var minors := Minors(v.kinds);
    LacksBalance(v.kinds, minors, after);
    OversSplit(v, after, n);
    SalesNotBelow(v, after, n);
    UntargetedNotBelow(v.kinds, minors, n);
    SlipIsSmall(v.kinds, after);
  }

  function MinorsMoved(moves: seq<Move>, n: nat): int
    requires n <= |moves|
  {
    if n == 0 then 0 else MinorsMoved(moves, n - 1) + moves[n - 1].minor
  }

  lemma {:induction false} MovedIsBoughtLessSold(v: View, added: int, moves: seq<Move>, n: nat)
    requires AreMoves(v, added, moves) && n <= |moves|
    ensures MinorsMoved(moves, n)
            == Share.Sum(Share.Shares(KindLacks(v, added), Money(v, added))[..n]) - SoldIn(v, v.worth + added, n)
    decreases n
  {
    hide Share.Shares, KindLacks, Money, Sold;
    if n > 0 {
      MovedIsBoughtLessSold(v, added, moves, n - 1);
      var bought := Share.Shares(KindLacks(v, added), Money(v, added));
      assert bought[..n][..n - 1] == bought[..n - 1];
      SaleSells(v, v.kinds[n - 1], v.worth + added);
    }
  }

  lemma SaleSells(v: View, k: Kind, after: int)
    ensures Sale(v, k, after).minor == -Sold(v, k, after)
  {
  }

  /** The moves come to the new money exactly whenever some kind lacks anything; when none does,
      what was sold is not placed either. */
  lemma MovesConserveMoney(v: View, added: int, moves: seq<Move>)
    requires AreMoves(v, added, moves)
    ensures MinorsMoved(moves, |moves|)
         == if Share.Sum(KindLacks(v, added)) > 0 then added else -SoldIn(v, v.worth + added, |moves|)
  {
    hide SoldIn, KindLacks, Share.Shares, Moved;
    var bought := Share.Shares(KindLacks(v, added), Money(v, added));
    MovedIsBoughtLessSold(v, added, moves, |moves|);
    assert bought[..|moves|] == bought;
    Share.ShareConserves(KindLacks(v, added), Money(v, added));
  }

  /** A kind's move, exactly: with no target it is left alone; above its target it is sold down to it
      less what is held back, deposits never; below it, it is only bought. */
  lemma MoveFollowsTarget(v: View, added: int, i: nat)
    requires Whole(v) && 0 <= added && i < |v.kinds|
    ensures var k, m, after := v.kinds[i], Moved(v, added, i), v.worth + added;
            && 0 <= m.later && 0 <= m.kept
            && (k.target.None? ==> m.minor == m.later == m.kept == 0)
            && (k.target.Some? && Gap(k, k.minor, after) <= 0 ==>
                k.minor + m.minor - m.later - m.kept == Want(after, k.target.value) && m.minor <= 0)
            && (k.target.Some? && Gap(k, k.minor, after) > 0 ==> 0 <= m.minor && m.later == m.kept == 0)
            && (k.key == DEPOSITS ==> 0 <= m.minor)
  {
    hide Want, Whole, Share.Shares, Money;
    BoughtFor(v, added, i);
    WholeIsSellable(v, i);
  }

  /** No sale goes below the target or into what cannot be sold. */
  lemma NoSaleBelowTarget(v: View, added: int, i: nat)
    requires Whole(v) && 0 <= added && i < |v.kinds| && Moved(v, added, i).minor < 0
    ensures var k, m := v.kinds[i], Moved(v, added, i);
            && k.target.Some? && k.key != DEPOSITS
            && Want(v.worth + added, k.target.value) <= k.minor + m.minor
            && Frozen(v, k.key) <= k.minor + m.minor
            && (0 < m.kept ==> k.minor + m.minor == Frozen(v, k.key))
  {
    hide Want, Whole, Share.Shares, Money;
    BoughtFor(v, added, i);
    WholeIsSellable(v, i);
  }

  lemma BoughtFor(v: View, added: int, i: nat)
    requires Whole(v) && 0 <= added && i < |v.kinds|
    ensures var bought, lack, n := Share.Shares(KindLacks(v, added), Money(v, added))[i], KindLacks(v, added)[i],
            TargetedCount(v.kinds, |v.kinds|);
            && lack == Lack(v.kinds[i], v.kinds[i].minor, v.worth + added)
            && 0 <= bought && 2 * bought <= 2 * lack + 3 * n && (lack == 0 ==> bought == 0)
  {
    hide Whole, Share.Shares, Money, TargetedCount, Share.Sum, Share.Positives, Lack;
    LacksCoverTheMoney(v, added);
    LackingAreTargeted(v.kinds, Minors(v.kinds), v.worth + added, |v.kinds|);
    BoughtIsNearLack(KindLacks(v, added), Money(v, added), TargetedCount(v.kinds, |v.kinds|), i);
  }

  /** No kind that lacks anything ends past its exact target by more than two minor units a target. */
  lemma NoKindPastTarget(v: View, added: int, i: nat)
    requires Whole(v) && 0 <= added && i < |v.kinds|
    requires v.kinds[i].target.Some? && 0 < Gap(v.kinds[i], v.kinds[i].minor, v.worth + added)
    ensures var k := v.kinds[i];
            (k.minor + Moved(v, added, i).minor) as real
              <= Exact(v.worth + added, k.target.value) + 2.0 * TargetedCount(v.kinds, |v.kinds|) as real
  {
    hide Want, Exact, Whole, Share.Shares, Money, TargetedCount;
    BoughtFor(v, added, i);
    WantNear(v.worth + added, v.kinds[i].target.value);
    SomeTargeted(v.kinds, i, |v.kinds|);
  }

  lemma {:induction false} SomeTargeted(kinds: seq<Kind>, i: nat, n: nat)
    requires i < n <= |kinds| && kinds[i].target.Some?
    ensures 1 <= TargetedCount(kinds, n)
    decreases n
  {
    if i < n - 1 {
      SomeTargeted(kinds, i, n - 1);
    }
  }

  /** When nothing lacks, the money is only what rounding the targets left: under half a minor unit
      a target. */
  lemma UnplacedIsRounding(v: View, added: int)
    requires Whole(v) && 0 <= added && Share.Sum(KindLacks(v, added)) == 0
    ensures 2 * Money(v, added) <= TargetedCount(v.kinds, |v.kinds|)
  {
    hide Whole, Money, TargetedCount, KindLacks, HeldBack, Untargeted, Slip;
    LacksCoverTheMoney(v, added);
  }

  const THIRDS := [Kind("shares", 0, Some(33.33)), Kind("bonds", 0, Some(33.33)), Kind("funds", 0, Some(33.34))]

  /** The lacks can fall short of the money: a kopeck over three near thirds lacks nothing, and the
      moves come to nothing. */
  lemma KopeckOverThirds(moves: seq<Move>)
    requires AreMoves(View(0, THIRDS, map[]), 1, moves)
    ensures var v := View(0, THIRDS, map[]);
            Whole(v) && Money(v, 1) == 1 && Share.Sum(KindLacks(v, 1)) == 0
    ensures MinorsMoved(moves, |moves|) == 0
  {
    hide Gap, Whole, SoldIn, Lacks, AreMoves, Share.Sum;
    assert |moves| == 3 by { MovesAsMany(View(0, THIRDS, map[]), 1, moves); }
    MovesConserveMoney(View(0, THIRDS, map[]), 1, moves);
    var v := View(0, THIRDS, map[]);
    forall k | k in THIRDS ensures Gap(k, k.minor, 1) == 0 { NoThirdOfAKopeck(k); }
    NoGapNoMoney(v, 1, 3);
    ThirdsAreWhole(v);
  }

  lemma MovesAsMany(v: View, added: int, moves: seq<Move>)
    requires AreMoves(v, added, moves)
    ensures |moves| == |v.kinds|
  {
    hide Moved;
  }

  lemma {:induction false} NoGapNoMoney(v: View, after: int, n: nat)
    requires n <= |v.kinds| && forall k :: k in v.kinds ==> Gap(k, k.minor, after) == 0
    ensures SoldIn(v, after, n) == 0 && Share.Sum(Lacks(v.kinds, Minors(v.kinds), after, n)) == 0
    decreases n
  {
    hide Gap;
    if n > 0 {
      NoGapNoMoney(v, after, n - 1);
      assert Gap(v.kinds[n - 1], v.kinds[n - 1].minor, after) == 0;
      assert Lacks(v.kinds, Minors(v.kinds), after, n)[..n - 1] == Lacks(v.kinds, Minors(v.kinds), after, n - 1);
    }
  }

  lemma NoThirdOfAKopeck(k: Kind)
    requires k in THIRDS
    ensures Gap(k, k.minor, 1) == 0
  {
  }

  lemma ThirdsAreWhole(v: View)
    requires v == View(0, THIRDS, map[])
    ensures Whole(v)
  {
    assert Percents(THIRDS, 1) == 33.33 && Percents(THIRDS, 2) == 66.66 && Percents(THIRDS, 3) == 100.0;
    assert Minors(THIRDS) == [0, 0, 0] && [0, 0, 0][..2] == [0, 0] && [0, 0][..1] == [0];
  }
}
