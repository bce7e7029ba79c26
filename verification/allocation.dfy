/** Bringing what the family owns to its target shares: by new money alone, and by selling too. */
module Allocation {
  import opened Rounding
  import Share

  const DEPOSITS := "deposits"
  const BROKER_CASH := "broker_cash"

  /** A kind of asset: what it is worth in minor units and its target in percent, when it has one. */
  datatype Kind = Kind(key: string, minor: int, target: Option<real>)
  datatype View = View(worth: int, kinds: seq<Kind>, unsellable: map<string, int>)

  datatype Refusal = MoneyBelowZero | NothingToPutIn | NoTargets | BrokersHoldLess
  datatype Result<+T> = Ok(value: T) | Err(refusal: Refusal)

  predicate Targeted(kinds: seq<Kind>) {
    exists i :: 0 <= i < |kinds| && kinds[i].target.Some?
  }

  // ---- What each kind lacks and has over ----

  /** A kind's target in minor units, to the nearest whole. */
  function Want(after: int, target: real): int {
    Round(Exact(after, target))
  }

  /** So many percent of the worth, unrounded. */
  function Exact(after: int, percent: real): real { after as real * percent / 100.0 }

  function Gap(k: Kind, held: int, after: int): int {
    if k.target.None? then 0 else Want(after, k.target.value) - held
  }

  function Lack(k: Kind, held: int, after: int): int { Max(Gap(k, held, after), 0) }

  function Over(k: Kind, held: int, after: int): int { Max(-Gap(k, held, after), 0) }

  /** What the first kinds lack, each in its place. */
  function Lacks(kinds: seq<Kind>, held: seq<int>, after: int, n: nat): (r: seq<int>)
    requires n <= |kinds| == |held|
    ensures |r| == n && Share.NoneBelow(r)
    ensures forall i :: 0 <= i < n ==> r[i] == Lack(kinds[i], held[i], after)
  {
    if n == 0 then [] else Lacks(kinds, held, after, n - 1) + [Lack(kinds[n - 1], held[n - 1], after)]
  }

  function Overs(kinds: seq<Kind>, held: seq<int>, after: int, n: nat): (r: int)
    requires n <= |kinds| == |held|
    ensures 0 <= r
  {
    if n == 0 then 0 else Overs(kinds, held, after, n - 1) + Over(kinds[n - 1], held[n - 1], after)
  }

  function Wants(kinds: seq<Kind>, after: int, n: nat): int
    requires n <= |kinds|
  {
    if n == 0 then 0
    else
      var k := kinds[n - 1];
      Wants(kinds, after, n - 1) + (if k.target.Some? then Want(after, k.target.value) else 0)
  }

  function Percents(kinds: seq<Kind>, n: nat): real
    requires n <= |kinds|
  {
    if n == 0 then 0.0
    else
      var k := kinds[n - 1];
      Percents(kinds, n - 1) + (if k.target.Some? then k.target.value else 0.0)
  }

  /** How many of the kinds have a target. */
  function TargetedCount(kinds: seq<Kind>, n: nat): nat
    requires n <= |kinds|
  {
    if n == 0 then 0 else TargetedCount(kinds, n - 1) + (if kinds[n - 1].target.Some? then 1 else 0)
  }

  /** What is held in kinds with no target. */
  function Untargeted(kinds: seq<Kind>, held: seq<int>, n: nat): int
    requires n <= |kinds| == |held|
  {
    if n == 0 then 0 else Untargeted(kinds, held, n - 1) + (if kinds[n - 1].target.None? then held[n - 1] else 0)
  }

  /** What rounding each target to whole minor units adds over all of them. */
  function Slip(kinds: seq<Kind>, after: int): int { Wants(kinds, after, |kinds|) - after }

  predicate TargetsAddUp(kinds: seq<Kind>) { Percents(kinds, |kinds|) == 100.0 }

  predicate NoneBelowUntargeted(kinds: seq<Kind>, held: seq<int>)
    requires |kinds| == |held|
  {
    forall i :: 0 <= i < |kinds| && kinds[i].target.None? ==> 0 <= held[i]
  }

  /** What the kinds lack is what they have over, the money put in, what the untargeted kinds hold,
      and the rounding of the targets: nothing else. */
  lemma {:induction false} LacksTo(kinds: seq<Kind>, held: seq<int>, after: int, n: nat)
    requires n <= |kinds| == |held|
    ensures Share.Sum(Lacks(kinds, held, after, n))
         == Overs(kinds, held, after, n) + Wants(kinds, after, n) - Share.Sum(held[..n]) + Untargeted(kinds, held, n)
    decreases n
  {
    hide Want, Lacks, Lack, Over;
    if n > 0 {
      LacksTo(kinds, held, after, n - 1);
      OneMoreLack(kinds, held, after, n);
      LackLessOver(kinds[n - 1], held[n - 1], after);
      assert held[..n][..n - 1] == held[..n - 1];
    } else {
      assert Lacks(kinds, held, after, 0) == [];
    }
  }

  lemma LackLessOver(k: Kind, held: int, after: int)
    ensures Lack(k, held, after) - Over(k, held, after) == Gap(k, held, after)
  {
  }

  lemma OneMoreLack(kinds: seq<Kind>, held: seq<int>, after: int, n: nat)
    requires 0 < n <= |kinds| == |held|
    ensures var fewer, last := Lacks(kinds, held, after, n - 1), Lack(kinds[n - 1], held[n - 1], after);
            && Share.Sum(Lacks(kinds, held, after, n)) == Share.Sum(fewer) + last
            && Share.Positives(Lacks(kinds, held, after, n)) == Share.Positives(fewer) + if last > 0 then 1 else 0
  {
    hide Lack;
    var fewer, last := Lacks(kinds, held, after, n - 1), Lack(kinds[n - 1], held[n - 1], after);
    var lacks := Lacks(kinds, held, after, n);
    assert lacks == fewer + [last];
    assert lacks[..n - 1] == fewer;
  }

  lemma LacksBalance(kinds: seq<Kind>, held: seq<int>, after: int)
    requires |kinds| == |held|
    ensures Share.Sum(Lacks(kinds, held, after, |kinds|))
         == Overs(kinds, held, after, |kinds|) + (after - Share.Sum(held)) + Untargeted(kinds, held, |kinds|)
            + Slip(kinds, after)
  {
    LacksTo(kinds, held, after, |kinds|);
    assert held[..|kinds|] == held;
  }

  lemma {:induction false} WantsNear(kinds: seq<Kind>, after: int, n: nat)
    requires n <= |kinds|
    ensures var exact, targets := Exact(after, Percents(kinds, n)), TargetedCount(kinds, n) as real;
            2.0 * exact - targets <= 2.0 * Wants(kinds, after, n) as real <= 2.0 * exact + targets
    decreases n
  {
    hide Exact, Want;
    ExactAdds(after, 0.0, 0.0);
    if n > 0 {
      WantsNear(kinds, after, n - 1);
      var k := kinds[n - 1];
      if k.target.Some? {
        WantNear(after, k.target.value);
        ExactAdds(after, Percents(kinds, n - 1), k.target.value);
      }
    }
  }

  lemma WantNear(after: int, target: real)
    ensures 2.0 * Exact(after, target) - 1.0 <= 2.0 * Want(after, target) as real <= 2.0 * Exact(after, target) + 1.0
  {
    hide Exact;
  }

  lemma ExactAdds(after: int, a: real, b: real)
    ensures Exact(after, a + b) == Exact(after, a) + Exact(after, b)
  {
  }

  /** With targets adding up to 100 the rounding is at most half a minor unit a target. */
  lemma SlipIsSmall(kinds: seq<Kind>, after: int)
    requires TargetsAddUp(kinds)
    ensures var targets: int := TargetedCount(kinds, |kinds|);
            -targets <= 2 * Slip(kinds, after) <= targets
  {
    hide Wants, Percents, TargetedCount;
    WantsNear(kinds, after, |kinds|);
    assert Exact(after, 100.0) == after as real;
  }

  lemma {:induction false} UntargetedNotBelow(kinds: seq<Kind>, held: seq<int>, n: nat)
    requires n <= |kinds| == |held| && NoneBelowUntargeted(kinds, held)
    ensures 0 <= Untargeted(kinds, held, n)
    decreases n
  {
    if n > 0 {
      UntargetedNotBelow(kinds, held, n - 1);
    }
  }

  lemma {:induction false} LackingAreTargeted(kinds: seq<Kind>, held: seq<int>, after: int, n: nat)
    requires n <= |kinds| == |held|
    ensures Share.Positives(Lacks(kinds, held, after, n)) <= TargetedCount(kinds, n)
    decreases n
  {
    hide Want, Lacks, Lack;
    if n > 0 {
      LackingAreTargeted(kinds, held, after, n - 1);
      OneMoreLack(kinds, held, after, n);
      OnlyTargetedLack(kinds[n - 1], held[n - 1], after);
    } else {
      assert Lacks(kinds, held, after, 0) == [];
    }
  }

  lemma OnlyTargetedLack(k: Kind, held: int, after: int)
    ensures k.target.None? ==> Lack(k, held, after) == 0
  {
  }

  /** Money that passes what is lacking by at most half a unit a target buys no kind more than three
      halves of a unit a target past what it lacks, and nothing for a kind that lacks nothing. */
  lemma BoughtIsNearLack(lacks: seq<int>, money: int, targets: nat, i: nat)
    requires Share.NoneBelow(lacks) && i < |lacks| && 0 <= money
    requires Share.Positives(lacks) <= targets && 2 * money <= 2 * Share.Sum(lacks) + targets
    ensures var bought := Share.Shares(lacks, money)[i];
            0 <= bought && 2 * bought <= 2 * lacks[i] + 3 * targets && (lacks[i] == 0 ==> bought == 0)
  {
    hide Share.Sum, Share.Positives;
    Share.TotalOfNone(lacks);
    if Share.Sum(lacks) > 0 {
      hide Share.Shares;
      Share.ShareBounds(lacks, money, i);
      NearLack(Share.Shares(lacks, money)[i], Share.Positives(lacks), Share.Sum(lacks), money, lacks[i], targets);
    }
  }

  lemma NearLack(bought: int, n: int, total: int, money: int, lack: int, targets: nat)
    requires 0 < total && 0 <= lack <= total && n <= targets
    requires (bought - n) * total < money * lack && 2 * money <= 2 * total + targets
    ensures 2 * bought <= 2 * lack + 3 * targets
  {
    assert (2 * total + targets - 2 * money) * lack >= 0;
    assert targets * (total - lack) >= 0;
    assert 2 * ((bought - n) * total) == (2 * (bought - n)) * total;
    assert 2 * (money * lack) == (2 * money) * lack;
    assert (2 * total + targets - 2 * money) * lack == 2 * (total * lack) + targets * lack - (2 * money) * lack;
    assert targets * (total - lack) == targets * total - targets * lack;
    var d := 2 * lack + targets - 2 * (bought - n);
    assert d * total == 2 * (total * lack) + targets * total - (2 * (bought - n)) * total;
    assert d * total > 0;
    Share.Unscale(d, total);
  }
}
