/** The spending the limits stand for, this month and later. */
module Expected {
  import opened CashFlow
  import opened CashLines
  import opened Covers
  import opened Ordered
  import opened Rounding
  import Pot
  import Tally

  datatype Expectation = Expectation(month: int, category: Id, covers: seq<Id>, amount: int)

  /** What a limit expects: in the first month what is left of it, in a later one all of it. */
  function AmountOf(l: Pot.Limit, spent: map<Id, int>, id: Id, first: bool): int {
    if first then Max(l.amount - Tally.Value(spent, id), 0) else l.amount
  }

  /** The ids of the first categories in order that are limited. */
  ghost function LimitedIn(order: seq<Category>, limits: Limits, m: int, k: nat): set<Id>
    requires k <= |order|
  {
    set i | 0 <= i < k && Limited(limits, m, order[i].id) :: order[i].id
  }

  /** A month's entries of the first categories in order. */
  function MonthEntries(categories: seq<Category>, order: seq<Category>, limits: Limits, spent: map<Id, int>, m: int,
            first: bool, k: nat): seq<Expectation>
    requires Tree(categories) && k <= |order|
  {
    if k == 0 then []
    else
      var before, c := MonthEntries(categories, order, limits, spent, m, first, k - 1), order[k - 1];
      if !Counted(limits, m, c) then before
      else
        var amount := AmountOf(Pot.InForce(LimitsOf(limits, c.id), m).value, spent, c.id, first);
        if amount > 0 then before + [Expectation(m, c.id, CoversOf(categories, c.id), amount)] else before
  }

  /** The entries of the months from the first up to before another. */
  function Entries(categories: seq<Category>, limits: Limits, spent: map<Id, int>, from: int,
            upTo: int): seq<Expectation>
    requires Tree(categories)
    decreases upTo - from
  {
    if upTo <= from then []
    else
      Entries(categories, limits, spent, from, upTo - 1)
      + MonthEntries(categories, InOrder(categories), limits, spent, upTo - 1, upTo - 1 == from, |InOrder(categories)|)
  }

  lemma LimitedParent(order: seq<Category>, categories: seq<Category>, limits: Limits, m: int, k: nat)
    requires Lists(order, categories) && k < |order| && order[k].parent.Some?
    ensures order[k].parent.value in LimitedIn(order, limits, m, k) <==> Limited(limits, m, order[k].parent.value)
  {
    hide Limited;
    var i :| 0 <= i < k && order[i].id == order[k].parent.value;
    assert Limited(limits, m, order[i].id) ==> order[i].id in LimitedIn(order, limits, m, k);
  }

  method MonthOf(categories: seq<Category>, order: seq<Category>, limits: Limits, spent: map<Id, int>, m: int,
            first: bool)
    returns (out: seq<Expectation>)
    requires Tree(categories) && Lists(order, categories)
    ensures out == MonthEntries(categories, order, limits, spent, m, first, |order|)
  {
    hide Tree, Lists, AmountOf, CoversOf, Pot.InForce;
    out := [];
    var limited: set<Id> := {};
    for k := 0 to |order|
      invariant limited == LimitedIn(order, limits, m, k)
      invariant out == MonthEntries(categories, order, limits, spent, m, first, k)
    {
      var c := order[k];
      if c.parent.Some? {
        LimitedParent(order, categories, limits, m, k);
      }
      assert LimitedIn(order, limits, m, k + 1)
          == LimitedIn(order, limits, m, k) + if Limited(limits, m, c.id) then {c.id} else {};
      var l := Pot.FindInForce(LimitsOf(limits, c.id), m);
      if l.None? {
        continue;
      }
      var parentLimited := c.parent.Some? && c.parent.value in limited;
      limited := limited + {c.id};
      if parentLimited {
        continue;
      }
      var amount := AmountOf(l.value, spent, c.id, first);
      if amount > 0 {
        out := out + [Expectation(m, c.id, CoversOf(categories, c.id), amount)];
      }
    }
  }

  /** `expect`: the months from this one through the last. */
  method Expect(categories: seq<Category>, limits: Limits, spent: map<Id, int>, current: int, last: int)
    returns (out: seq<Expectation>)
    requires Tree(categories)
    ensures out == Entries(categories, limits, spent, current, last + 1)
  {
    hide Tree, Lists, MonthEntries;
    OrderLists(categories);
    out := [];
    var m := current;
    while m <= last
      invariant current <= m && (m <= last + 1 || m == current)
      invariant out == Entries(categories, limits, spent, current, m)
    {
      var order := Order(categories);
      var entries := MonthOf(categories, order, limits, spent, m, m == current);
      out := out + entries;
      m := m + 1;
    }
  }

  // ---- No two entries cover one category in a month ----

  /** How many of the entries cover a category in a month. */
  function Covering(entries: seq<Expectation>, m: int, x: Id): nat {
    if entries == [] then 0
    else
      var e := entries[|entries| - 1];
      Covering(entries[..|entries| - 1], m, x) + if e.month == m && x in e.covers then 1 else 0
  }

  lemma {:induction false} CoveringJoins(a: seq<Expectation>, b: seq<Expectation>, m: int, x: Id)
    ensures Covering(a + b, m, x) == Covering(a, m, x) + Covering(b, m, x)
    decreases |b|
  {
    if b == [] {
      assert a + b == a;
    } else {
      assert (a + b)[..|a + b| - 1] == a + b[..|b| - 1];
      CoveringJoins(a, b[..|b| - 1], m, x);
    }
  }

  lemma CoveringPush(entries: seq<Expectation>, e: Expectation, m: int, x: Id)
    ensures Covering(entries + [e], m, x) == Covering(entries, m, x) + if e.month == m && x in e.covers then 1 else 0
  {
    assert (entries + [e])[..|entries|] == entries;
  }

  /** In one month an id is covered only by its coverer, once that is reached. */
  lemma {:induction false} MonthCovers(categories: seq<Category>, order: seq<Category>, limits: Limits,
            spent: map<Id, int>, m: int, first: bool, k: nat, x: Id)
    requires Tree(categories) && Lists(order, categories) && k <= |order|
    ensures var c := Coverer(categories, limits, m, x);
            Covering(MonthEntries(categories, order, limits, spent, m, first, k), m, x)
            <= if c.Some? && c.value in order[..k] then 1 else 0
    decreases k
  {
    hide Tree, AmountOf, CoversOf, Coverer, Limited, ParentBefore, Covering;
    if k == 0 {
      NoneCovering(m, x);
    } else {
      MonthCovers(categories, order, limits, spent, m, first, k - 1, x);
      var c, before := order[k - 1], MonthEntries(categories, order, limits, spent, m, first, k - 1);
      assert order[..k] == order[..k - 1] + [c];
      if Counted(limits, m, c) {
        var i :| 0 <= i < |categories| && categories[i] == c by { assert c in order && c in categories; }
        CoveredByItsCoverer(categories, limits, m, i, x);
        CountedIsLimited(limits, m, c);
        var amount := AmountOf(Pot.InForce(LimitsOf(limits, c.id), m).value, spent, c.id, first);
        CoveringPush(before, Expectation(m, c.id, CoversOf(categories, c.id), amount), m, x);
      }
    }
  }

  lemma NoneCovering(m: int, x: Id)
    ensures Covering([], m, x) == 0
  {
  }

  lemma {:induction false} OtherMonthsCover(categories: seq<Category>, order: seq<Category>, limits: Limits,
            spent: map<Id, int>, m: int, first: bool, k: nat, other: int, x: Id)
    requires Tree(categories) && k <= |order| && other != m
    ensures Covering(MonthEntries(categories, order, limits, spent, m, first, k), other, x) == 0
    decreases k
  {
    hide Tree, AmountOf, CoversOf, Counted, Limited, Covering;
    if k == 0 {
      NoneCovering(other, x);
    } else {
      OtherMonthsCover(categories, order, limits, spent, m, first, k - 1, other, x);
      var c, before := order[k - 1], MonthEntries(categories, order, limits, spent, m, first, k - 1);
      if Counted(limits, m, c) {
        CountedIsLimited(limits, m, c);
        var amount := AmountOf(Pot.InForce(LimitsOf(limits, c.id), m).value, spent, c.id, first);
        CoveringPush(before, Expectation(m, c.id, CoversOf(categories, c.id), amount), other, x);
      }
    }
  }

  lemma CountedIsLimited(limits: Limits, m: int, c: Category)
    requires Counted(limits, m, c)
    ensures Pot.InForce(LimitsOf(limits, c.id), m).Some?
  {
  }

  /** In no month do two expected entries cover the same category. */
  lemma {:induction false} CoveredOnce(categories: seq<Category>, limits: Limits, spent: map<Id, int>, from: int,
            upTo: int, m: int, x: Id)
    requires Tree(categories)
    ensures Covering(Entries(categories, limits, spent, from, upTo), m, x) <= if from <= m < upTo then 1 else 0
    decreases upTo - from
  {
    hide Tree, MonthEntries, InOrder, Covering;
    if upTo <= from {
      NoneCovering(m, x);
    } else {
      CoveredOnce(categories, limits, spent, from, upTo - 1, m, x);
      var order, last := InOrder(categories), upTo - 1;
      OrderLists(categories);
      CoveringJoins(Entries(categories, limits, spent, from, last),
                    MonthEntries(categories, order, limits, spent, last, last == from, |order|), m, x);
      if last == m {
        MonthCovers(categories, order, limits, spent, m, last == from, |order|, x);
      } else {
        OtherMonthsCover(categories, order, limits, spent, last, last == from, |order|, m, x);
      }
    }
  }

  /** An entry covers no category twice. */
  lemma CoversDistinct(categories: seq<Category>, i: nat)
    requires Tree(categories) && i < |categories|
    ensures Tally.Distinct(CoversOf(categories, categories[i].id))
  {
    hide Tree, ChildIds, Tally.Distinct, Place;
    var id := categories[i].id;
    TreeIsDistinct(categories);
    CoversAre(categories, id);
    ChildIdsDistinct(categories, id, |categories|);
    CoversHave(categories, i, id);
    NoChildOfItself(categories, i);
    DistinctOne(id, ChildIds(categories, id, |categories|));
  }

  lemma TreeIsDistinct(categories: seq<Category>)
    requires Tree(categories)
    ensures DistinctIds(categories)
  {
  }

  lemma NoChildOfItself(categories: seq<Category>, i: nat)
    requires Tree(categories) && i < |categories|
    ensures categories[i].id !in ChildIds(categories, categories[i].id, |categories|)
  {
    hide ChildIds, Place, HasTop;
    ChildIdsHave(categories, categories[i].id, |categories|, categories[i].id);
    PlaceOf(categories, i);
    if categories[i].parent.Some? {
      TreeParent(categories, i);
    }
  }
}
