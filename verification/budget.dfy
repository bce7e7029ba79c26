/** A month's limits held against the money report, each rouble of spending counted once. */
module Budget {
  import opened CashFlow
  import opened CashLines
  import CashSections
  import opened Covers
  import opened Ordered
  import opened Rounding
  import opened Spending
  import Expected
  import Pot
  import Tally

  datatype CategoryLine = CategoryLine(category: Id, line: Pot.Line)
  datatype Month = Month(lines: seq<CategoryLine>, planned: int, spent: int, left: int, unlimited: int)

  /** The report up to the month, which is its last, and the limits. */
  datatype Book = Book(months: seq<int>, expense: Flow, lines: seq<Line>, categories: seq<Category>, limits: Limits) {
    ghost predicate Fits() {
      && months != [] && Pot.Increasing(months)
      && |expense.byMonth| == |months| && DeepLong(lines, |months|)
    }

    function Last(): nat
      requires months != []
    {
      |months| - 1
    }

    function Now(): int
      requires months != []
    {
      months[Last()]
    }
  }

  function SpentBy(spent: ByCategory, id: Id, n: nat): (r: seq<int>)
    requires Long(spent, n)
    ensures |r| == n
  {
    if id in spent then spent[id] else seq(n, i => 0)
  }

  function LineFor(b: Book, spent: ByCategory, c: Category): Option<Pot.Line>
    requires b.months != [] && Long(spent, |b.months|)
  {
    Pot.LineAt(LimitsOf(b.limits, c.id), b.months, SpentBy(spent, c.id, |b.months|), b.Last())
  }

  datatype Sums = Sums(limited: set<Id>, lines: seq<CategoryLine>, planned: int, spent: int)

  /** The first categories in order gone through: a line for each limited one, its figures added
      unless its parent is among those limited before it. */
  function Gathered(b: Book, spent: ByCategory, order: seq<Category>, k: nat): Sums
    requires b.months != [] && Long(spent, |b.months|) && k <= |order|
  {
    if k == 0 then Sums({}, [], 0, 0)
    else
      var s, c := Gathered(b, spent, order, k - 1), order[k - 1];
      var l := LineFor(b, spent, c);
      if l.None? then s
      else
        var noted := s.(limited := s.limited + {c.id}, lines := s.lines + [CategoryLine(c.id, l.value)]);
        if c.parent.Some? && c.parent.value in noted.limited then noted
        else noted.(planned := s.planned + l.value.carried + l.value.limit, spent := s.spent + l.value.spent)
  }

  function MonthOf(b: Book): Month
    requires b.Fits()
  {
    var order := InOrder(b.categories);
    var s := Gathered(b, Walked(b.lines, map[]), order, |order|);
    Month(s.lines, s.planned, s.spent, s.planned - s.spent, b.expense.byMonth[b.Last()] - s.spent)
  }

  /** `assemble` of the budget. */
  method Assemble(b: Book) returns (out: Month)
    requires b.Fits()
    ensures out == MonthOf(b)
  {
    hide Walked, InOrder, Pot.LineAt, DeepLong;
    var spent := Walk(b.lines, map[]);
    var last, zero := |b.months| - 1, seq(|b.months|, i => 0);
    var order := Order(b.categories);
    var limited: set<Id> := {};
    var lines: seq<CategoryLine> := [];
    var planned, total, counted := 0, 0, 0;
    for k := 0 to |order|
      invariant counted == total
      invariant Sums(limited, lines, planned, total) == Gathered(b, spent, order, k)
    {
      var c := order[k];
      var byMonth := if c.id in spent then spent[c.id] else zero;
      assert byMonth == SpentBy(spent, c.id, |b.months|);
      var l := Pot.MonthLine(LimitsOf(b.limits, c.id), b.months, byMonth, b.months[last]);
      assert l == LineFor(b, spent, c);
      if l.None? {
        continue;
      }
      limited := limited + {c.id};
      lines := lines + [CategoryLine(c.id, l.value)];
      if c.parent.Some? && c.parent.value in limited {
        continue;
      }
      planned := planned + l.value.carried + l.value.limit;
      total := total + l.value.spent;
      counted := counted + l.value.spent;
    }
    out := Month(lines, planned, total, planned - total, b.expense.byMonth[last] - counted);
  }

  // ---- What is left ----

  ghost predicate NoneOwnsItself(order: seq<Category>) {
    forall i :: 0 <= i < |order| ==> order[i].parent != Some(order[i].id)
  }

  /** The sum of the counted lines' leftovers. */
  function LeftOf(b: Book, spent: ByCategory, order: seq<Category>, k: nat): int
    requires b.months != [] && Long(spent, |b.months|) && k <= |order|
  {
    if k == 0 then 0
    else
      var c := order[k - 1];
      LeftOf(b, spent, order, k - 1)
      + if Counted(b.limits, b.Now(), c) then LineFor(b, spent, c).value.left else 0
  }

  lemma {:induction false} GatheredKeeps(b: Book, spent: ByCategory, order: seq<Category>, k: nat)
    requires b.months != [] && Long(spent, |b.months|) && k <= |order|
    requires Lists(order, b.categories) && NoneOwnsItself(order)
    ensures Gathered(b, spent, order, k).limited == Expected.LimitedIn(order, b.limits, b.Now(), k)
    ensures var s := Gathered(b, spent, order, k); s.planned - s.spent == LeftOf(b, spent, order, k)
    decreases k
  {
    hide Lists, Limited, Pot.InForce, Pot.Carried, SpentBy;
    if k > 0 {
      GatheredKeeps(b, spent, order, k - 1);
      var c := order[k - 1];
      LineForIs(b, spent, c);
      NextLimited(order, b.limits, b.Now(), k - 1);
      if c.parent.Some? {
        Expected.LimitedParent(order, b.categories, b.limits, b.Now(), k - 1);
      }
    }
  }

  lemma LineForIs(b: Book, spent: ByCategory, c: Category)
    requires b.months != [] && Long(spent, |b.months|)
    ensures var l := LineFor(b, spent, c);
            && (l.Some? <==> Limited(b.limits, b.Now(), c.id))
            && (l.Some? ==>
                  l.value.left == l.value.carried + l.value.limit - l.value.spent
                  && l.value.spent == SpentAt(spent, c.id, b.Last()))
  {
    hide Pot.InForce, Pot.Carried;
  }

  lemma NextLimited(order: seq<Category>, limits: Limits, m: int, k: nat)
    requires k < |order|
    ensures Expected.LimitedIn(order, limits, m, k + 1)
         == Expected.LimitedIn(order, limits, m, k) + if Limited(limits, m, order[k].id) then {order[k].id} else {}
  {
    hide Limited;
  }

  lemma TreeOwnsNoSelf(categories: seq<Category>, order: seq<Category>)
    requires Tree(categories) && Lists(order, categories)
    ensures NoneOwnsItself(order)
  {
    hide Place, HasTop, ParentBefore;
    forall i | 0 <= i < |order| ensures order[i].parent != Some(order[i].id) {
      assert order[i] in categories;
      var p :| 0 <= p < |categories| && categories[p] == order[i];
      if categories[p].parent.Some? {
        TreeParent(categories, p);
        PlaceOf(categories, p);
      }
    }
  }

  /** What is left of the month is the sum of the leftovers of the lines counted: of each limited
      category whose parent is not. */
  lemma LeftIsLinesLeft(b: Book)
    requires b.Fits() && Tree(b.categories)
    ensures var order := InOrder(b.categories);
            MonthOf(b).left == LeftOf(b, Walked(b.lines, map[]), order, |order|)
  {
    hide InOrder, Walked, Gathered, LeftOf, Lists, Tree;
    var order := InOrder(b.categories);
    OrderLists(b.categories);
    TreeOwnsNoSelf(b.categories, order);
    GatheredKeeps(b, Walked(b.lines, map[]), order, |order|);
  }
}
