/** Laying new money, and the brokers' free money, over the kinds below their targets. */
module TopUp {
  import opened Allocation
  import opened Rounding
  import Rebalance
  import Share

  datatype Change = Change(key: string, minor: int, shareAfter: real)

  /** What each key holds: of two rows with one key the later. */
  function HeldByKey(kinds: seq<Kind>, n: nat): (m: map<string, int>)
    requires n <= |kinds|
    ensures forall i :: 0 <= i < n ==> kinds[i].key in m
  {
    if n == 0 then map[] else HeldByKey(kinds, n - 1)[kinds[n - 1].key := kinds[n - 1].minor]
  }

  function FreeOf(m: map<string, int>): int { if BROKER_CASH in m then m[BROKER_CASH] else 0 }

  /** What the brokers hold free. */
  function Free(v: View): int { FreeOf(HeldByKey(v.kinds, |v.kinds|)) }

  /** What each kind holds once the brokers' money has left its place. */
  function Left(v: View, fromBrokers: int): (r: seq<int>)
    ensures |r| == |v.kinds|
  {
    var m := HeldByKey(v.kinds, |v.kinds|);
    seq(|v.kinds|, i requires 0 <= i < |v.kinds| =>
        if v.kinds[i].key == BROKER_CASH then Free(v) - fromBrokers else m[v.kinds[i].key])
  }

  function KindLacks(v: View, added: int, fromBrokers: int): (r: seq<int>)
    ensures |r| == |v.kinds| && Share.NoneBelow(r)
  {
    Lacks(v.kinds, Left(v, fromBrokers), v.worth + added, |v.kinds|)
  }

  function Taken(k: Kind, fromBrokers: int): int { if k.key == BROKER_CASH then fromBrokers else 0 }

  function Changed(v: View, added: int, fromBrokers: int, i: nat): Change
    requires i < |v.kinds|
  {
    var k := v.kinds[i];
    var minor := Share.Shares(KindLacks(v, added, fromBrokers), added + fromBrokers)[i] - Taken(k, fromBrokers);
    Change(k.key, minor, Rebalance.SharePercent(k.minor + minor, v.worth + added))
  }

  ghost predicate AreChanges(v: View, added: int, fromBrokers: int, changes: seq<Change>) {
    |changes| == |v.kinds| && forall i :: 0 <= i < |changes| ==> changes[i] == Changed(v, added, fromBrokers, i)
  }

  predicate NothingPutIn(added: int, fromBrokers: int) { added < 0 || fromBrokers < 0 || added + fromBrokers == 0 }

  /** `TopUp`, its refusals in the order they are made. */
  method TopUp(v: View, added: int, fromBrokers: int) returns (r: Result<seq<Change>>)
    ensures NothingPutIn(added, fromBrokers) ==> r == Err(NothingToPutIn)
    ensures !NothingPutIn(added, fromBrokers) && !Targeted(v.kinds) ==> r == Err(NoTargets)
    ensures !NothingPutIn(added, fromBrokers) && Targeted(v.kinds) && fromBrokers > Free(v) ==>
              r == Err(BrokersHoldLess)
    ensures !NothingPutIn(added, fromBrokers) && Targeted(v.kinds) && fromBrokers <= Free(v) ==>
              r.Ok? && AreChanges(v, added, fromBrokers, r.value)
  {
    hide Share.Shares, Rebalance.SharePercent, Want, HeldByKey, Changed, Targeted;
    if added < 0 || fromBrokers < 0 || added + fromBrokers == 0 {
      return Err(NothingToPutIn);
    }
    var targeted, held := ReadKinds(v.kinds);
    if !targeted {
      return Err(NoTargets);
    }
    if fromBrokers > FreeOf(held) {
      return Err(BrokersHoldLess);
    }
    held := held[BROKER_CASH := FreeOf(held) - fromBrokers];
    var lacks := WeighLacks(v, added, fromBrokers, held);
    var changes := MoveMoney(v, added, fromBrokers, lacks);
    return Ok(changes);
  }

  method ReadKinds(kinds: seq<Kind>) returns (targeted: bool, held: map<string, int>)
    ensures targeted == Targeted(kinds) && held == HeldByKey(kinds, |kinds|)
  {
    targeted, held := false, map[];
    for i := 0 to |kinds|
      invariant targeted == exists j :: 0 <= j < i && kinds[j].target.Some?
      invariant held == HeldByKey(kinds, i)
    {
      targeted := targeted || kinds[i].target.Some?;
      held := held[kinds[i].key := kinds[i].minor];
    }
  }

  method WeighLacks(v: View, added: int, fromBrokers: int, held: map<string, int>) returns (lacks: seq<int>)
    requires held == HeldByKey(v.kinds, |v.kinds|)[BROKER_CASH := Free(v) - fromBrokers]
    ensures lacks == KindLacks(v, added, fromBrokers)
  {
    hide KindLacks, HeldByKey, Want;
    var after, n := v.worth + added, |v.kinds|;
    var weights := new int[n](_ => 0);
    for i := 0 to n
      invariant forall j :: 0 <= j < n ==> weights[j] == if j < i then KindLacks(v, added, fromBrokers)[j] else 0
    {
      var k := v.kinds[i];
      LackAt(v, added, fromBrokers, held, i);
      if k.target.Some? {
        var want := Want(after, k.target.value);
        var gap := want - held[k.key];
        if gap > 0 {
          weights[i] := gap;
        }
      }
    }
    return weights[..];
  }

  lemma LackAt(v: View, added: int, fromBrokers: int, held: map<string, int>, i: nat)
    requires held == HeldByKey(v.kinds, |v.kinds|)[BROKER_CASH := Free(v) - fromBrokers] && i < |v.kinds|
    ensures var k := v.kinds[i];
            && k.key in held
            && KindLacks(v, added, fromBrokers)[i]
               == if k.target.None? then 0 else Max(Want(v.worth + added, k.target.value) - held[k.key], 0)
  {
    hide Want, HeldByKey;
  }

  method MoveMoney(v: View, added: int, fromBrokers: int, lacks: seq<int>) returns (out: seq<Change>)
    requires lacks == KindLacks(v, added, fromBrokers)
    ensures AreChanges(v, added, fromBrokers, out)
  {
    hide Share.Shares, Rebalance.SharePercent, KindLacks;
    var after, n := v.worth + added, |v.kinds|;
    var moves := new int[n](_ => 0);
    Share.ShareInto(moves, lacks, added + fromBrokers);
    out := [];
    for i := 0 to n
      invariant |out| == i && forall j :: 0 <= j < i ==> out[j] == Changed(v, added, fromBrokers, j)
      invariant forall j :: i <= j < n ==> moves[j] == Share.Shares(lacks, added + fromBrokers)[j]
    {
      var k := v.kinds[i];
      if k.key == BROKER_CASH {
        moves[i] := moves[i] - fromBrokers;
      }
      out := out + [Change(k.key, moves[i], Rebalance.SharePercent(k.minor + moves[i], after))];
    }
  }

  // ---- What the changes keep ----

  predicate DistinctKeys(kinds: seq<Kind>) {
    forall i, j :: 0 <= i < j < |kinds| ==> kinds[i].key != kinds[j].key
  }

  /** A view as the program builds it, and money there is: each key once, the targets adding up to
      100, the kinds to the worth, none below nought, and the brokers holding what is taken. */
  ghost predicate Whole(v: View, added: int, fromBrokers: int) {
    && DistinctKeys(v.kinds) && TargetsAddUp(v.kinds)
    && Share.Sum(Rebalance.Minors(v.kinds)) == v.worth
    && NoneBelowUntargeted(v.kinds, Rebalance.Minors(v.kinds))
    && 0 <= added && 0 <= fromBrokers <= Free(v)
  }

  lemma WholeIsDistinct(v: View, added: int, fromBrokers: int)
    requires Whole(v, added, fromBrokers)
    ensures DistinctKeys(v.kinds)
  {
  }

  lemma {:induction false} HeldAt(kinds: seq<Kind>, i: nat, n: nat)
    requires DistinctKeys(kinds) && i < n <= |kinds|
    ensures HeldByKey(kinds, n)[kinds[i].key] == kinds[i].minor
    decreases n
  {
    if i < n - 1 {
      HeldAt(kinds, i, n - 1);
    }
  }

  lemma LeftAt(v: View, fromBrokers: int, i: nat)
    requires DistinctKeys(v.kinds) && i < |v.kinds|
    ensures Left(v, fromBrokers)[i] == v.kinds[i].minor - Taken(v.kinds[i], fromBrokers)
  {
    hide HeldByKey;
    HeldAt(v.kinds, i, |v.kinds|);
  }

  function TakenIn(kinds: seq<Kind>, fromBrokers: int, n: nat): int
    requires n <= |kinds|
  {
    if n == 0 then 0 else TakenIn(kinds, fromBrokers, n - 1) + Taken(kinds[n - 1], fromBrokers)
  }

  ghost predicate HasBrokerCash(kinds: seq<Kind>, n: nat)
    requires n <= |kinds|
  {
    exists i :: 0 <= i < n && kinds[i].key == BROKER_CASH
  }

  lemma {:induction false} TakenOnce(kinds: seq<Kind>, fromBrokers: int, n: nat)
    requires n <= |kinds| && DistinctKeys(kinds)
    ensures TakenIn(kinds, fromBrokers, n) == if HasBrokerCash(kinds, n) then fromBrokers else 0
    decreases n
  {
    if n > 0 {
      TakenOnce(kinds, fromBrokers, n - 1);
    }
  }

  lemma {:induction false} HeldIsOfAKind(kinds: seq<Kind>, n: nat)
    requires n <= |kinds|
    ensures BROKER_CASH in HeldByKey(kinds, n) ==> HasBrokerCash(kinds, n)
    decreases n
  {
    if n > 0 {
      HeldIsOfAKind(kinds, n - 1);
      assert kinds[n - 1].key == BROKER_CASH ==> HasBrokerCash(kinds, n);
    }
  }

  lemma TakenIsFromBrokers(v: View, fromBrokers: int)
    requires DistinctKeys(v.kinds) && 0 <= fromBrokers <= Free(v)
    ensures TakenIn(v.kinds, fromBrokers, |v.kinds|) == fromBrokers
  {
    TakenOnce(v.kinds, fromBrokers, |v.kinds|);
    HeldIsOfAKind(v.kinds, |v.kinds|);
  }

  lemma {:induction false} LeftSum(v: View, fromBrokers: int, n: nat)
    requires DistinctKeys(v.kinds) && n <= |v.kinds|
    ensures Share.Sum(Left(v, fromBrokers)[..n])
            == Share.Sum(Rebalance.Minors(v.kinds)[..n]) - TakenIn(v.kinds, fromBrokers, n)
    decreases n
  {
    hide Left, Taken;
    if n > 0 {
      LeftSum(v, fromBrokers, n - 1);
      LeftAt(v, fromBrokers, n - 1);
      var left, minors := Left(v, fromBrokers), Rebalance.Minors(v.kinds);
      assert left[..n][..n - 1] == left[..n - 1] && minors[..n][..n - 1] == minors[..n - 1];
    }
  }

  /** The lacks come to the money put in, what is over its target, what the untargeted kinds hold and
      the rounding of the targets. They reach that money exactly when the last three together are not
      below nought. */
  lemma LacksCoverTheMoney(v: View, added: int, fromBrokers: int)
    requires Whole(v, added, fromBrokers)
    ensures var lacks, left, after, n := Share.Sum(KindLacks(v, added, fromBrokers)), Left(v, fromBrokers),
            v.worth + added, |v.kinds|;
            && lacks == added + fromBrokers + Overs(v.kinds, left, after, n) + Untargeted(v.kinds, left, n)
               + Slip(v.kinds, after)
            && (added + fromBrokers <= lacks
                <==> 0 <= Overs(v.kinds, left, after, n) + Untargeted(v.kinds, left, n) + Slip(v.kinds, after))
            && 2 * (added + fromBrokers) <= 2 * lacks + TargetedCount(v.kinds, n)
  {
    hide Left, Free, Overs, Untargeted, TargetedCount, Slip, Lacks, TargetsAddUp, DistinctKeys, TakenIn;
    var after, n := v.worth + added, |v.kinds|;
    var left, minors := Left(v, fromBrokers), Rebalance.Minors(v.kinds);
    LeftSum(v, fromBrokers, n);
    assert left[..n] == left && minors[..n] == minors;
    TakenIsFromBrokers(v, fromBrokers);
    LacksBalance(v.kinds, left, after);
    forall i | 0 <= i < n && v.kinds[i].target.None? ensures 0 <= left[i] { LeftNotBelow(v, added, fromBrokers, i); }
    UntargetedNotBelow(v.kinds, left, n);
    SlipIsSmall(v.kinds, after);
  }

  lemma LeftNotBelow(v: View, added: int, fromBrokers: int, i: nat)
    requires Whole(v, added, fromBrokers) && i < |v.kinds|
    ensures v.kinds[i].target.None? || v.kinds[i].key == BROKER_CASH ==> 0 <= Left(v, fromBrokers)[i]
  {
    hide TargetsAddUp, Share.Sum, HeldByKey;
    LeftAt(v, fromBrokers, i);
  }

  function ChangesSum(changes: seq<Change>, n: nat): int
    requires n <= |changes|
  {
    if n == 0 then 0 else ChangesSum(changes, n - 1) + changes[n - 1].minor
  }

  lemma {:induction false} ChangesAreSharesLessTaken(v: View, added: int, fromBrokers: int, changes: seq<Change>,
            n: nat)
    requires AreChanges(v, added, fromBrokers, changes) && n <= |changes|
    ensures ChangesSum(changes, n)
         == Share.Sum(Share.Shares(KindLacks(v, added, fromBrokers), added + fromBrokers)[..n])
            - TakenIn(v.kinds, fromBrokers, n)
    decreases n
  {
    hide Share.Shares, KindLacks, Taken;
    if n > 0 {
      ChangesAreSharesLessTaken(v, added, fromBrokers, changes, n - 1);
      var bought := Share.Shares(KindLacks(v, added, fromBrokers), added + fromBrokers);
      assert bought[..n][..n - 1] == bought[..n - 1];
    }
  }

  /** The changes come to the new money exactly whenever some kind lacks anything: the brokers'
      money only moves. When none does, nothing is put in, and the brokers' money still leaves. */
  lemma ChangesConserveMoney(v: View, added: int, fromBrokers: int, changes: seq<Change>)
    requires Whole(v, added, fromBrokers) && AreChanges(v, added, fromBrokers, changes)
    ensures ChangesSum(changes, |changes|)
         == if Share.Sum(KindLacks(v, added, fromBrokers)) > 0 then added else -fromBrokers
  {
    hide KindLacks, Share.Shares, Free, TakenIn, TargetsAddUp, DistinctKeys;
    var bought := Share.Shares(KindLacks(v, added, fromBrokers), added + fromBrokers);
    ChangesAreSharesLessTaken(v, added, fromBrokers, changes, |changes|);
    assert bought[..|changes|] == bought;
    TakenIsFromBrokers(v, fromBrokers);
    Share.ShareConserves(KindLacks(v, added, fromBrokers), added + fromBrokers);
  }

  /** Nothing is sold, what is at or above its target gets nothing, and the brokers' money goes down
      by no more than what is taken, never below nought. */
  lemma NothingIsSold(v: View, added: int, fromBrokers: int, i: nat)
    requires Whole(v, added, fromBrokers) && i < |v.kinds|
    ensures var k, left, change := v.kinds[i], Left(v, fromBrokers)[i], Changed(v, added, fromBrokers, i).minor;
            && (k.key != BROKER_CASH ==> 0 <= change)
            && (k.key == BROKER_CASH ==> -fromBrokers <= change && 0 <= k.minor + change)
            && (Gap(k, left, v.worth + added) <= 0 ==> k.minor + change == left)
  {
    hide Want, Share.Shares, TargetsAddUp, Share.Sum, Free, Left, DistinctKeys;
    BoughtFor(v, added, fromBrokers, i);
    LeftAt(v, fromBrokers, i);
    LeftNotBelow(v, added, fromBrokers, i);
  }

  lemma BoughtFor(v: View, added: int, fromBrokers: int, i: nat)
    requires Whole(v, added, fromBrokers) && i < |v.kinds|
    ensures var lacks, n := KindLacks(v, added, fromBrokers), TargetedCount(v.kinds, |v.kinds|);
            var bought := Share.Shares(lacks, added + fromBrokers)[i];
            && lacks[i] == Lack(v.kinds[i], Left(v, fromBrokers)[i], v.worth + added)
            && 0 <= bought && 2 * bought <= 2 * lacks[i] + 3 * n && (lacks[i] == 0 ==> bought == 0)
  {
    hide Share.Shares, TargetedCount, Share.Sum, Share.Positives, Lack, Left, TargetsAddUp, DistinctKeys, Free;
    LacksCoverTheMoney(v, added, fromBrokers);
    LackingAreTargeted(v.kinds, Left(v, fromBrokers), v.worth + added, |v.kinds|);
    BoughtIsNearLack(KindLacks(v, added, fromBrokers), added + fromBrokers, TargetedCount(v.kinds, |v.kinds|), i);
  }

  /** No kind that lacks anything is topped up past its exact target by more than two minor units a
      target. */
  lemma NoKindPastTarget(v: View, added: int, fromBrokers: int, i: nat)
    requires Whole(v, added, fromBrokers) && i < |v.kinds|
    requires v.kinds[i].target.Some? && 0 < Gap(v.kinds[i], Left(v, fromBrokers)[i], v.worth + added)
    ensures var k := v.kinds[i];
            (k.minor + Changed(v, added, fromBrokers, i).minor) as real
              <= Exact(v.worth + added, k.target.value) + 2.0 * TargetedCount(v.kinds, |v.kinds|) as real
  {
    hide Want, Exact, Whole, Share.Shares, TargetedCount, Left, KindLacks;
    BoughtFor(v, added, fromBrokers, i);
    WholeIsDistinct(v, added, fromBrokers);
    LeftAt(v, fromBrokers, i);
    WantNear(v.worth + added, v.kinds[i].target.value);
    Rebalance.SomeTargeted(v.kinds, i, |v.kinds|);
  }

  /** So here too: a new kopeck over three near thirds lacks nothing, and the changes come to nothing. */
  lemma KopeckOverThirds(changes: seq<Change>)
    requires AreChanges(View(0, Rebalance.THIRDS, map[]), 1, 0, changes)
    ensures var v := View(0, Rebalance.THIRDS, map[]);
            Whole(v, 1, 0) && Share.Sum(KindLacks(v, 1, 0)) == 0
    ensures ChangesSum(changes, |changes|) == 0
  {
    hide Gap, Lacks, Share.Sum, AreChanges, HeldByKey, Rebalance.Whole;
    var v := View(0, Rebalance.THIRDS, map[]);
    Rebalance.ThirdsAreWhole(v);
    ThirdsAreWhole(v);
    forall i | 0 <= i < 3 ensures KindLacks(v, 1, 0)[i] == 0 {
      LeftAt(v, 0, i);
      Rebalance.NoThirdOfAKopeck(v.kinds[i]);
    }
    NothingSums(KindLacks(v, 1, 0));
    ChangesConserveMoney(v, 1, 0, changes);
  }

  lemma ThirdsAreWhole(v: View)
    requires v == View(0, Rebalance.THIRDS, map[]) && Rebalance.Whole(v)
    ensures Whole(v, 1, 0)
  {
    hide TargetsAddUp, Share.Sum;
    assert HeldByKey(v.kinds, 1).Keys == {"shares"} && HeldByKey(v.kinds, 2).Keys == {"shares", "bonds"};
    assert HeldByKey(v.kinds, 3).Keys == {"shares", "bonds", "funds"};
  }

  lemma {:induction false} NothingSums(xs: seq<int>)
    requires forall i :: 0 <= i < |xs| ==> xs[i] == 0
    ensures Share.Sum(xs) == 0
    decreases |xs|
  {
    if xs != [] {
      NothingSums(xs[..|xs| - 1]);
    }
  }
}
