/** A category's limit in force, and the pot it carries from month to month. */
module Pot {
  import opened Rounding

  /** A limit a month, from a month's first day until a later limit. */
  datatype Limit = Limit(since: int, amount: int, rollover: bool) {
    predicate TakesOff() { amount == 0 && !rollover }
  }

  datatype Line = Line(limit: int, rollover: bool, since: int, carried: int, spent: int, left: int)

  predicate Reaches(l: Limit, m: int) { l.since <= m }

  /** The place of the latest limit from a month or before, the first of equals; -1 for none. */
  function Latest(limits: seq<Limit>, m: int): (b: int)
    ensures -1 <= b < |limits|
    ensures b < 0 ==> forall i :: 0 <= i < |limits| ==> !Reaches(limits[i], m)
    ensures b >= 0 ==> Reaches(limits[b], m) && forall i :: 0 <= i < |limits| && Reaches(limits[i], m) ==>
              limits[i].since <= limits[b].since
  {
    if limits == [] then -1
    else
      var n := |limits| - 1;
      var b := Latest(limits[..n], m);
      if Reaches(limits[n], m) && (b < 0 || limits[n].since > limits[b].since) then n else b
  }

  /** The limit in force: the latest one, unless it takes the limit off. */
  function InForce(limits: seq<Limit>, m: int): Option<Limit> {
    var b := Latest(limits, m);
    if b < 0 || limits[b].TakesOff() then None else Some(limits[b])
  }

  method FindInForce(limits: seq<Limit>, m: int) returns (l: Option<Limit>)
    ensures l == InForce(limits, m)
  {
    var best: Option<Limit> := None;
    for i := 0 to |limits|
      invariant var b := Latest(limits[..i], m); best == if b < 0 then None else Some(limits[b])
    {
      assert limits[..i + 1][..i] == limits[..i];
      if limits[i].since <= m && (best.None? || limits[i].since > best.value.since) {
        best := Some(limits[i]);
      }
    }
    assert limits[..|limits|] == limits;
    return if best.Some? && !best.value.TakesOff() then best else None;
  }

  // ---- The pot ----

  /** A limit with a pot is in force that month. */
  predicate Rolls(limits: seq<Limit>, month: int) {
    InForce(limits, month).Some? && InForce(limits, month).value.rollover
  }

  /** What a month leaves over: its limit less what was spent, below nought when overspent. */
  function Over(limits: seq<Limit>, months: seq<int>, spent: seq<int>, i: nat): int
    requires i < |months| == |spent|
  {
    if Rolls(limits, months[i]) then InForce(limits, months[i]).value.amount - spent[i] else 0
  }

  /** What the pot holds when the month comes. */
  function Carried(limits: seq<Limit>, months: seq<int>, spent: seq<int>, k: nat): (pot: int)
    requires k <= |months| == |spent|
    ensures 0 <= pot
  {
    if k == 0 || !Rolls(limits, months[k - 1]) then 0
    else Max(Carried(limits, months, spent, k - 1) + Over(limits, months, spent, k - 1), 0)
  }

  ghost predicate Increasing(months: seq<int>) {
    forall i, j :: 0 <= i < j < |months| ==> months[i] < months[j]
  }

  /** The line of a month of the report: the k-th. */
  function LineAt(limits: seq<Limit>, months: seq<int>, spent: seq<int>, k: nat): Option<Line>
    requires k < |months| == |spent|
  {
    var l := InForce(limits, months[k]);
    if l.None? then None
    else
      var carried := if l.value.rollover then Carried(limits, months, spent, k) else 0;
      Some(Line(l.value.amount, l.value.rollover, l.value.since, carried, spent[k],
                carried + l.value.amount - spent[k]))
  }

  method MonthLine(limits: seq<Limit>, months: seq<int>, spent: seq<int>, m: int) returns (r: Option<Line>)
    requires |months| == |spent| && Increasing(months)
    ensures r.Some? <==> InForce(limits, m).Some?
    ensures forall k :: 0 <= k < |months| && months[k] == m ==> r == LineAt(limits, months, spent, k)
    ensures m !in months && r.Some? ==> r.value.carried == r.value.spent == 0 && r.value.left == r.value.limit
  {
    hide InForce;
    var l := FindInForce(limits, m);
    if l.None? {
      return None;
    }
    var carried, spentNow, pot, i := 0, 0, 0, 0;
    while i < |months|
      invariant 0 <= i <= |months|
      invariant pot == Carried(limits, months, spent, i)
      invariant m !in months[..i] ==> carried == spentNow == 0
      invariant forall k :: 0 <= k < i && months[k] == m ==> !Rolls(limits, m) && carried == 0 && spentNow == spent[k]
    {
      if months[i] > m {
        break;
      }
      var cur := FindInForce(limits, months[i]);
      if cur.None? || !cur.value.rollover {
        pot := 0;
        if months[i] == m {
          spentNow := spent[i];
        }
        i := i + 1;
        continue;
      }
      if months[i] == m {
        carried, spentNow := pot, spent[i];
        break;
      }
      pot := Max(pot + cur.value.amount - spent[i], 0);
      i := i + 1;
    }
    return Some(Line(l.value.amount, l.value.rollover, l.value.since, carried, spentNow,
                     carried + l.value.amount - spentNow));
  }

  // ---- Its closed form ----

  /** A limit with a pot is in force in each of the months from the i-th up to before the k-th. */
  ghost predicate Unbroken(limits: seq<Limit>, months: seq<int>, i: nat, k: nat)
    requires k <= |months|
  {
    i <= k && forall j :: i <= j < k ==> Rolls(limits, months[j])
  }

  /** The limits less the spending of those months. */
  function OverFrom(limits: seq<Limit>, months: seq<int>, spent: seq<int>, i: nat, k: nat): int
    requires i <= k <= |months| == |spent|
    decreases k
  {
    if i == k then 0 else OverFrom(limits, months, spent, i, k - 1) + Over(limits, months, spent, k - 1)
  }

  lemma {:induction false} CarriedAtLeast(limits: seq<Limit>, months: seq<int>, spent: seq<int>, i: nat, k: nat)
    requires k <= |months| == |spent| && Unbroken(limits, months, i, k)
    ensures OverFrom(limits, months, spent, i, k) <= Carried(limits, months, spent, k)
    decreases k
  {
    hide Rolls, Over;
    if i < k {
      CarriedAtLeast(limits, months, spent, i, k - 1);
      assert Rolls(limits, months[k - 1]);
    }
  }

  lemma {:induction false} CarriedFrom(limits: seq<Limit>, months: seq<int>, spent: seq<int>, k: nat) returns (i: nat)
    requires k <= |months| == |spent|
    ensures i <= k && Unbroken(limits, months, i, k)
            && Carried(limits, months, spent, k) == OverFrom(limits, months, spent, i, k)
    decreases k
  {
    hide Rolls, Over;
    if Carried(limits, months, spent, k) == 0 {
      i := k;
    } else {
      i := CarriedFrom(limits, months, spent, k - 1);
    }
  }

  /** What a category carries into a month is the greatest of nought and every sum of limits less
      spending over the months just before it within the unbroken stretch of months with a pot. */
  lemma CarriedIsGreatestSum(limits: seq<Limit>, months: seq<int>, spent: seq<int>, k: nat)
    requires k <= |months| == |spent|
    ensures forall i: nat :: i <= k && Unbroken(limits, months, i, k) ==>
              OverFrom(limits, months, spent, i, k) <= Carried(limits, months, spent, k)
    ensures exists i: nat ::
              i <= k && Unbroken(limits, months, i, k)
              && Carried(limits, months, spent, k) == OverFrom(limits, months, spent, i, k)
  {
    hide Unbroken, OverFrom, Carried;
    forall i: nat | i <= k
      && Unbroken(limits, months, i, k) ensures OverFrom(limits, months, spent, i, k)
         <= Carried(limits, months, spent, k) {
      CarriedAtLeast(limits, months, spent, i, k);
    }
    var i := CarriedFrom(limits, months, spent, k);
  }

  /** A month without a limit or without a pot empties it: what came before no longer counts. */
  lemma {:induction false} BreakForgets(limits: seq<Limit>, months: seq<int>, spent: seq<int>, earlier: seq<int>,
            j: nat, k: nat)
    requires j < k <= |months| == |spent| == |earlier| && !Rolls(limits, months[j])
    requires forall i :: j < i < k ==> spent[i] == earlier[i]
    ensures Carried(limits, months, spent, k) == Carried(limits, months, earlier, k)
    decreases k
  {
    hide Rolls;
    if j < k - 1 {
      BreakForgets(limits, months, spent, earlier, j, k - 1);
    }
  }
}
