/** The month's spending outside the limits, got by taking the counted away, is the direct sum. */
module Unlimited {
  import opened Budget
  import opened CashFlow
  import opened CashLines
  import CashSections
  import opened Covers
  import opened Ordered
  import opened Rounding
  import opened Spending
  import Tally

  // ---- What the counted lines took ----

  /** The spending ids under the counted ones of the first categories in order. */
  function CountedIds(categories: seq<Category>, limits: Limits, m: int, order: seq<Category>, k: nat): seq<Id>
    requires Tree(categories) && k <= |order|
  {
    if k == 0 then []
    else
      var before, c := CountedIds(categories, limits, m, order, k - 1), order[k - 1];
      if c.kind == Expense && Counted(limits, m, c) then before + CoversOf(categories, c.id) else before
  }

  lemma {:induction false} CountedIdsHave(categories: seq<Category>, limits: Limits, m: int, order: seq<Category>,
            k: nat, x: Id)
    requires Tree(categories) && k <= |order| && Lists(order, categories)
    ensures var c := Coverer(categories, limits, m, x);
            x in CountedIds(categories, limits, m, order, k)
            <==> c.Some? && c.value.kind == Expense && c.value in order[..k]
    decreases k
  {
    hide Tree, Coverer, CoversOf, Counted, Tally.Distinct, ParentBefore;
    if k > 0 {
      CountedIdsHave(categories, limits, m, order, k - 1, x);
      var c := order[k - 1];
      assert order[..k] == order[..k - 1] + [c];
      var i := PlaceIn(categories, order, k - 1);
      CovererIsCounted(categories, limits, m, x);
      if Counted(limits, m, c) {
        CoveredByItsCoverer(categories, limits, m, i, x);
      }
    }
  }

  lemma PlaceIn(categories: seq<Category>, order: seq<Category>, k: nat) returns (i: nat)
    requires Lists(order, categories) && k < |order|
    ensures i < |categories| && categories[i] == order[k]
  {
    hide Tally.Distinct, ParentBefore;
    assert order[k] in order && order[k] in categories;
    i :| 0 <= i < |categories| && categories[i] == order[k];
  }

  lemma {:induction false} CountedIdsDistinct(categories: seq<Category>, limits: Limits, m: int, order: seq<Category>,
            k: nat)
    requires Tree(categories) && k <= |order| && Lists(order, categories)
    ensures Tally.Distinct(CountedIds(categories, limits, m, order, k))
    decreases k
  {
    hide Tree, Coverer, CoversOf, Counted, Tally.Distinct, ParentBefore, Lists;
    NoneDistinct();
    if k > 0 {
      CountedIdsDistinct(categories, limits, m, order, k - 1);
      var c, before := order[k - 1], CountedIds(categories, limits, m, order, k - 1);
      if c.kind == Expense && Counted(limits, m, c) {
        var i := PlaceIn(categories, order, k - 1);
        Expected.CoversDistinct(categories, i);
        forall x | x in CoversOf(categories, c.id) ensures x !in before {
          CoveredByItsCoverer(categories, limits, m, i, x);
          CountedIdsHave(categories, limits, m, order, k - 1, x);
          NotBefore(order, categories, k - 1);
        }
        Tally.DistinctJoin(before, CoversOf(categories, c.id));
      }
    }
  }

  lemma NotBefore(order: seq<Category>, categories: seq<Category>, k: nat)
    requires Lists(order, categories) && k < |order|
    ensures order[k] !in order[..k]
  {
    hide ParentBefore;
  }

  /** What the counted lines took is what is filed under the ids they cover. */
  lemma {:induction false} CountedIsFiled(b: Book, s: Money, order: seq<Category>, k: nat)
    requires b.Fits() && s.Valid(|b.months|) && Tree(b.categories) && Lists(order, b.categories) && k <= |order|
    requires b.lines == ExpenseLines(b.categories, s, |b.months|)
    requires NoneOwnsItself(order)
    ensures Gathered(b, Walked(b.lines, map[]), order, k).spent
         == FiledAt(CountedIds(b.categories, b.limits, b.Now(), order, k), s.filed, |b.months|, b.Last())
    decreases k
  {
    hide Tree, Walked, CoversOf, Tally.Distinct, ParentBefore, Limited, SpentAt, FiledAt, LineFor, ExpenseLines,
         DeepLong, Lists;
    var n, last, spent := |b.months|, b.Last(), Walked(b.lines, map[]);
    NothingAt(s.filed, n, last);
    if k > 0 {
      CountedIsFiled(b, s, order, k - 1);
      var c, ids := order[k - 1], CountedIds(b.categories, b.limits, b.Now(), order, k - 1);
      GatheredKeeps(b, spent, order, k - 1);
      LineForIs(b, spent, c);
      if c.parent.Some? {
        Expected.LimitedParent(order, b.categories, b.limits, b.Now(), k - 1);
      }
      var i := PlaceIn(b.categories, order, k - 1);
      SpentIsCovered(b.categories, s, n, i, last);
      FiledJoins(ids, CoversOf(b.categories, c.id), s.filed, n, last);
    }
  }

  lemma NothingAt(filed: map<Id, Flow>, n: nat, m: nat)
    requires Sized(filed, n) && m < n
    ensures FiledAt([], filed, n, m) == 0
  {
  }

  lemma SpentIsCovered(categories: seq<Category>, s: Money, n: nat, i: nat, m: nat)
    requires Tree(categories) && s.Valid(n) && i < |categories| && m < n
    ensures var c := categories[i];
            SpentAt(Walked(ExpenseLines(categories, s, n), map[]), c.id, m)
            == if c.kind == Expense then FiledAt(CoversOf(categories, c.id), s.filed, n, m) else 0
  {
    hide Walked, SpentAt, ExpenseLines, Place, ChildIds, FiledAt, AtOf, CoversOf, HasTop;
    var id := categories[i].id;
    ExpenseWalked(categories, s, n, i, m);
    CoversAre(categories, id);
    FiledJoins([id], ChildIds(categories, id, |categories|), s.filed, n, m);
    OneFiled(id, s.filed, n, m);
    PlaceOf(categories, i);
    if categories[i].parent.Some? {
      LeafCovers(categories, id);
      NothingAt(s.filed, n, m);
    }
  }

  // ---- Sums over the same ids ----

  lemma {:induction false} SameIdsSameSum(a: seq<Id>, b: seq<Id>, filed: map<Id, Flow>, n: nat, m: nat)
    requires Tally.Distinct(a) && Tally.Distinct(b) && Sized(filed, n) && m < n
    requires forall x :: x in a <==> x in b
    ensures FiledAt(a, filed, n, m) == FiledAt(b, filed, n, m)
    decreases |a|
  {
    hide AtOf, FiledAt;
    if a == [] {
      assert forall x :: x in b ==> x in a;
      if b != [] {
        HasAnId(b);
      }
    } else {
      var rest, x := a[..|a| - 1], a[|a| - 1];
      LastAside(a, filed, n, m);
      assert x in a && x in b;
      var j :| 0 <= j < |b| && b[j] == x;
      LessOne(b, j);
      OneAside(b, j, filed, n, m);
      SameIdsSameSum(rest, b[..j] + b[j + 1..], filed, n, m);
    }
  }

  lemma HasAnId(b: seq<Id>)
    requires b != []
    ensures exists x :: x in b
  {
    var y := b[0];
    assert y in b;
  }

  lemma LastAside(a: seq<Id>, filed: map<Id, Flow>, n: nat, m: nat)
    requires a != [] && Tally.Distinct(a) && Sized(filed, n) && m < n
    ensures var rest, x := a[..|a| - 1], a[|a| - 1];
            && FiledAt(a, filed, n, m) == FiledAt(rest, filed, n, m) + AtOf(filed, x, m)
            && Tally.Distinct(rest) && forall y :: y in rest <==> y in a && y != x
  {
    hide AtOf;
    assert a == a[..|a| - 1] + [a[|a| - 1]];
  }

  lemma OneAside(b: seq<Id>, j: nat, filed: map<Id, Flow>, n: nat, m: nat)
    requires j < |b| && Sized(filed, n) && m < n
    ensures FiledAt(b, filed, n, m) == FiledAt(b[..j] + b[j + 1..], filed, n, m) + AtOf(filed, b[j], m)
  {
    hide AtOf, FiledAt;
    assert b == b[..j] + ([b[j]] + b[j + 1..]);
    FiledJoins(b[..j], [b[j]] + b[j + 1..], filed, n, m);
    FiledJoins([b[j]], b[j + 1..], filed, n, m);
    FiledJoins(b[..j], b[j + 1..], filed, n, m);
    OneFiled(b[j], filed, n, m);
  }

  lemma LessOne(b: seq<Id>, j: nat)
    requires Tally.Distinct(b) && j < |b|
    ensures var less := b[..j] + b[j + 1..];
            Tally.Distinct(less) && forall x :: x in less <==> x in b && x != b[j]
  {
    var less := b[..j] + b[j + 1..];
    forall x ensures x in less <==> x in b && x != b[j] {
      assert b == b[..j] + ([b[j]] + b[j + 1..]);
    }
    assert forall i :: 0 <= i < |less| ==> less[i] == if i < j then b[i] else b[i + 1];
  }

  /** The ids whose spending a limit counts, or none does. */
  function Taken(categories: seq<Category>, limits: Limits, m: int, ids: seq<Id>, taken: bool): seq<Id> {
    if ids == [] then []
    else
      var rest, x := Taken(categories, limits, m, ids[..|ids| - 1], taken), ids[|ids| - 1];
      if Coverer(categories, limits, m, x).Some? == taken then rest + [x] else rest
  }

  lemma {:induction false} TakenAre(categories: seq<Category>, limits: Limits, m: int, ids: seq<Id>, taken: bool)
    requires Tally.Distinct(ids)
    ensures forall x ::
              x in Taken(categories, limits, m, ids, taken)
              <==> x in ids && Coverer(categories, limits, m, x).Some? == taken
    ensures Tally.Distinct(Taken(categories, limits, m, ids, taken))
    decreases |ids|
  {
    hide Coverer;
    if ids != [] {
      var rest, x := ids[..|ids| - 1], ids[|ids| - 1];
      TakenAre(categories, limits, m, rest, taken);
      assert ids == rest + [x];
    }
  }

  lemma {:induction false} TakenSplits(categories: seq<Category>, limits: Limits, m: int, ids: seq<Id>,
            filed: map<Id, Flow>, n: nat, at: nat)
    requires Sized(filed, n) && at < n
    ensures FiledAt(ids, filed, n, at)
         == FiledAt(Taken(categories, limits, m, ids, true), filed, n, at)
            + FiledAt(Taken(categories, limits, m, ids, false), filed, n, at)
    decreases |ids|
  {
    hide Coverer, AtOf;
    if ids != [] {
      var rest, x := ids[..|ids| - 1], ids[|ids| - 1];
      TakenSplits(categories, limits, m, rest, filed, n, at);
      OneFiled(x, filed, n, at);
      FiledJoins(Taken(categories, limits, m, rest, true), [x], filed, n, at);
      FiledJoins(Taken(categories, limits, m, rest, false), [x], filed, n, at);
    }
  }

  /** The spending categories with neither a limit of their own nor their parent's. */
  function FreeIds(categories: seq<Category>, limits: Limits, m: int): seq<Id> {
    Taken(categories, limits, m, CashSections.ExpenseIds(categories), false)
  }

  /** Those are the spending categories that are free, each once. */
  lemma FreeIdsAre(categories: seq<Category>, limits: Limits, m: int, i: nat)
    requires Tree(categories) && i < |categories|
    ensures Tally.Distinct(FreeIds(categories, limits, m))
    ensures categories[i].id in FreeIds(categories, limits, m)
            <==> categories[i].kind == Expense && Free(limits, m, categories[i])
  {
    hide Coverer, Tally.Distinct, Spread, Place, Taken, HasTop, Limited;
    SpreadDistinct(categories, Expense, |categories|);
    TakenAre(categories, limits, m, CashSections.ExpenseIds(categories), false);
    TreeSpreads(categories, Expense, i);
    CovererIsCounted(categories, limits, m, categories[i].id);
    PlaceOf(categories, i);
  }

  lemma CountedAreTaken(categories: seq<Category>, limits: Limits, m: int, order: seq<Category>, filed: map<Id, Flow>,
            n: nat, at: nat)
    requires Tree(categories) && Lists(order, categories) && Sized(filed, n) && at < n
    ensures FiledAt(CountedIds(categories, limits, m, order, |order|), filed, n, at)
         == FiledAt(Taken(categories, limits, m, CashSections.ExpenseIds(categories), true), filed, n, at)
  {
    hide Coverer, Tally.Distinct, Spread, Place, Taken, CountedIds, Limited, Tree, Lists;
    var ids := CashSections.ExpenseIds(categories);
    var counted, taken := CountedIds(categories, limits, m, order, |order|), Taken(categories, limits, m, ids, true);
    Expected.TreeIsDistinct(categories);
    SpreadDistinct(categories, Expense, |categories|);
    TakenAre(categories, limits, m, ids, true);
    CountedIdsDistinct(categories, limits, m, order, |order|);
    forall x ensures x in counted <==> x in taken { CountedIsTaken(categories, limits, m, order, x); }
    SameIdsSameSum(counted, taken, filed, n, at);
  }

  lemma CountedIsTaken(categories: seq<Category>, limits: Limits, m: int, order: seq<Category>, x: Id)
    requires Tree(categories) && Lists(order, categories)
    ensures x in CountedIds(categories, limits, m, order, |order|)
       <==> x in Taken(categories, limits, m, CashSections.ExpenseIds(categories), true)
  {
    hide Coverer, Spread, Taken, CountedIds, Limited, HasTop, ParentBefore, Place;
    CountedIdsHave(categories, limits, m, order, |order|, x);
    assert order[..|order|] == order;
    CovererIsCounted(categories, limits, m, x);
    SpreadDistinct(categories, Expense, |categories|);
    TakenAre(categories, limits, m, CashSections.ExpenseIds(categories), true);
    SpreadHas(categories, Expense, |categories|, x);
    var p := Place(categories, x);
    if p < |categories| {
      PlaceOf(categories, p);
      TreeSpreads(categories, Expense, p);
    }
  }

  /** Over any rows of a report, the month's unlimited spending is what is filed that month under the
      spending categories with neither their own nor a parent's limit, and the fees and taxes no
      category names. */
  lemma UnlimitedIsDirect(b: Book, scope: Scope, entries: seq<Entry>)
    requires b.Fits() && Tree(b.categories) && AllInPeriod(scope, entries)
    requires scope.categories == b.categories && scope.n == |b.months|
    requires b.expense == RowsTaken(scope, entries).expense
    requires b.lines == ExpenseLines(b.categories, RowsTaken(scope, entries), scope.n)
    ensures var s, last := RowsTaken(scope, entries), b.Last();
            MonthOf(b).unlimited
            == FiledAt(FreeIds(b.categories, b.limits, b.Now()), s.filed, scope.n, last)
             + AtOf(s.groups, FeeGroup, last) + AtOf(s.groups, TaxGroup, last)
  {
    hide RowsTaken, InOrder, Walked, Gathered, Lists, Tree, Taken, CountedIds, FiledAt, AtOf, Spread, ExpenseLines,
         ById, DeepLong;
    var s, n, last, order, ids := RowsTaken(scope, entries), scope.n, b.Last(), InOrder(b.categories),
      CashSections.ExpenseIds(b.categories);
    OrderLists(b.categories);
    TreeOwnsNoSelf(b.categories, order);
    CountedIsFiled(b, s, order, |order|);
    CountedAreTaken(b.categories, b.limits, b.Now(), order, s.filed, n, last);
    TakenSplits(b.categories, b.limits, b.Now(), ids, s.filed, n, last);
    CashSections.TreeSorts(b.categories);
    CashSections.RowsSections(scope, entries, CashSections.IncomeIds(b.categories), ids, last);
  }
}
