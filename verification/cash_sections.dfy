/** The report's sections are the sums of their lines. */
module CashSections {
  import opened CashFlow
  import opened CashLines
  import opened CashReport
  import opened Rounding
  import Tally

  // ---- What rows file, and where it is counted ----

  /** Each known category is counted among its own kind's ids only. */
  ghost predicate Sorted(known: map<Id, Category>, incomes: seq<Id>, expenses: seq<Id>) {
    && Tally.Distinct(incomes) && Tally.Distinct(expenses)
    && forall id :: id in known ==>
       (id in incomes <==> known[id].kind == Income) && (id in expenses <==> known[id].kind == Expense)
  }

  /** A month's income and spending are what is filed under their kinds and what the groups took. */
  ghost predicate Sections(s: Money, n: nat, incomes: seq<Id>, expenses: seq<Id>, m: nat)
    requires s.Valid(n) && m < n
  {
    && s.income.At(m) == FiledAt(incomes, s.filed, n, m) + AtOf(s.groups, InterestGroup, m)
    && s.expense.At(m) == FiledAt(expenses, s.filed, n, m) + AtOf(s.groups, FeeGroup, m) + AtOf(s.groups, TaxGroup, m)
  }

  lemma IntoAt<K(!new)>(flows: map<K, Flow>, k: K, n: nat, month: nat, amount: int, x: K, m: nat)
    requires Sized(flows, n) && month < n && m < n
    ensures Sized(Into(flows, k, n, month, amount), n)
    ensures AtOf(Into(flows, k, n, month, amount), x, m)
            == AtOf(flows, x, m) + if x == k && m == month then amount else 0
  {
  }

  lemma {:induction false} IntoCounts(ids: seq<Id>, filed: map<Id, Flow>, id: Id, n: nat, month: nat, amount: int,
            m: nat)
    requires Tally.Distinct(ids) && Sized(filed, n) && month < n && m < n
    ensures Sized(Into(filed, id, n, month, amount), n)
    ensures FiledAt(ids, Into(filed, id, n, month, amount), n, m)
         == FiledAt(ids, filed, n, m) + if id in ids && m == month then amount else 0
    decreases |ids|
  {
    hide Into, AtOf;
    IntoAt(filed, id, n, month, amount, id, m);
    if ids != [] {
      var last := |ids| - 1;
      IntoCounts(ids[..last], filed, id, n, month, amount, m);
      IntoAt(filed, id, n, month, amount, ids[last], m);
      assert ids == ids[..last] + [ids[last]];
    }
  }

  lemma FeeSections(s: Money, n: nat, fee: int, broker: bool, month: nat, incomes: seq<Id>, expenses: seq<Id>, m: nat)
    requires s.Valid(n) && month < n && m < n && Sections(s, n, incomes, expenses, m)
    ensures Sections(FeeTaken(s, n, fee, broker, month), n, incomes, expenses, m)
  {
    hide FiledAt, Into, AtOf;
    IntoAt(s.groups, FeeGroup, n, month, fee, FeeGroup, m);
    IntoAt(s.groups, FeeGroup, n, month, fee, TaxGroup, m);
    IntoAt(s.groups, FeeGroup, n, month, fee, InterestGroup, m);
  }

  lemma PartSections(s: Money, n: nat, p: Part, kind: Kind, month: nat, incomes: seq<Id>, expenses: seq<Id>, m: nat)
    requires s.Valid(n) && month < n && m < n && Sections(s, n, incomes, expenses, m)
    requires Tally.Distinct(incomes) && Tally.Distinct(expenses)
    requires (p.category in incomes <==> kind == Income) && (p.category in expenses <==> kind == Expense)
    ensures Sections(PartTaken(s, n, p, kind, month), n, incomes, expenses, m)
  {
    hide FiledAt, Into, AtOf, Tally.Distinct;
    var amount := if kind == Income then p.amount else -p.amount;
    IntoCounts(incomes, s.filed, p.category, n, month, amount, m);
    IntoCounts(expenses, s.filed, p.category, n, month, amount, m);
  }

  lemma {:induction false} PartsSections(s: Money, n: nat, parts: seq<Part>, known: map<Id, Category>, month: nat,
            incomes: seq<Id>, expenses: seq<Id>, m: nat)
    requires s.Valid(n) && month < n && m < n && AllKnown(parts, known) && Sections(s, n, incomes, expenses, m)
    requires Sorted(known, incomes, expenses)
    ensures Sections(PartsTaken(s, n, parts, known, month), n, incomes, expenses, m)
    decreases |parts|
  {
    hide Sections, Money.Valid, PartTaken, Tally.Distinct;
    if parts != [] {
      var before, p := parts[..|parts| - 1], parts[|parts| - 1];
      PartsSections(s, n, before, known, month, incomes, expenses, m);
      PartSections(PartsTaken(s, n, before, known, month), n, p, known[p.category].kind, month, incomes, expenses, m);
    }
  }

  lemma UnfiledSections(s: Money, n: nat, op: OpType, amount: int, broker: bool, month: nat, incomes: seq<Id>,
            expenses: seq<Id>, m: nat)
    requires s.Valid(n) && month < n && m < n && Sections(s, n, incomes, expenses, m)
    ensures Sections(UnfiledTaken(s, n, op, amount, broker, month), n, incomes, expenses, m)
  {
    hide FiledAt, Into, AtOf;
    if op == Interest || op == Fee || op == Tax {
      var g := if op == Interest then InterestGroup else if op == Fee then FeeGroup else TaxGroup;
      var signed := if op == Interest then amount else -amount;
      IntoAt(s.groups, g, n, month, signed, FeeGroup, m);
      IntoAt(s.groups, g, n, month, signed, TaxGroup, m);
      IntoAt(s.groups, g, n, month, signed, InterestGroup, m);
    }
  }

  lemma RowSections(s: Money, scope: Scope, e: Entry, incomes: seq<Id>, expenses: seq<Id>, m: nat)
    requires s.Valid(scope.n) && scope.InPeriod(e) && m < scope.n && Sections(s, scope.n, incomes, expenses, m)
    requires Sorted(ById(scope.categories), incomes, expenses)
    ensures Sections(RowTaken(s, scope, e), scope.n, incomes, expenses, m)
  {
    hide Sections, Money.Valid, FeeTaken, PartsTaken, UnfiledTaken, Sorted, ById, FiledParts, Scope.MonthIndex;
    if scope.Counts(e) {
      var month, broker, known := scope.MonthIndex(e.on), scope.accounts[e.account], ById(scope.categories);
      FeeSections(s, scope.n, e.fee, broker, month, incomes, expenses, m);
      var charged := FeeTaken(s, scope.n, e.fee, broker, month);
      var parts := FiledParts(e, known);
      if parts.Some? {
        PartsSections(charged, scope.n, parts.value, known, month, incomes, expenses, m);
      } else {
        UnfiledSections(charged, scope.n, e.op, e.amount, broker, month, incomes, expenses, m);
      }
    }
  }

  lemma {:induction false} NothingFiled(ids: seq<Id>, n: nat, m: nat)
    requires m < n
    ensures FiledAt(ids, map[], n, m) == 0
    decreases |ids|
  {
    if ids != [] {
      NothingFiled(ids[..|ids| - 1], n, m);
    }
  }

  lemma {:induction false} RowsSections(scope: Scope, entries: seq<Entry>, incomes: seq<Id>, expenses: seq<Id>, m: nat)
    requires AllInPeriod(scope, entries) && m < scope.n && Sorted(ById(scope.categories), incomes, expenses)
    ensures Sections(RowsTaken(scope, entries), scope.n, incomes, expenses, m)
    decreases |entries|
  {
    hide Money.Valid, RowTaken, Sorted, ById, FiledAt;
    if entries == [] {
      NothingFiled(incomes, scope.n, m);
      NothingFiled(expenses, scope.n, m);
    } else {
      hide Sections;
      RowsSections(scope, entries[..|entries| - 1], incomes, expenses, m);
      RowSections(RowsTaken(scope, entries[..|entries| - 1]), scope, entries[|entries| - 1], incomes, expenses, m);
    }
  }

  // ---- The tree counts each category once ----

  lemma {:induction false} KnownIs(categories: seq<Category>, id: Id)
    requires DistinctIds(categories) && id in ById(categories)
    ensures Place(categories, id) < |categories| && ById(categories)[id] == categories[Place(categories, id)]
    decreases |categories|
  {
    if categories != [] {
      var last := |categories| - 1;
      if id != categories[last].id {
        KnownIs(categories[..last], id);
      } else {
        PlaceOf(categories, last);
      }
    }
  }

  function IncomeIds(categories: seq<Category>): seq<Id> { Spread(categories, Income, |categories|) }

  function ExpenseIds(categories: seq<Category>): seq<Id> { Spread(categories, Expense, |categories|) }

  lemma TreeSorts(categories: seq<Category>)
    requires Tree(categories)
    ensures Sorted(ById(categories), IncomeIds(categories), ExpenseIds(categories))
  {
    hide Spread, Tally.Distinct, ById, Place, HasTop;
    var known := ById(categories);
    SpreadDistinct(categories, Income, |categories|);
    SpreadDistinct(categories, Expense, |categories|);
    forall id | id in known
      ensures (id in IncomeIds(categories) <==> known[id].kind == Income)
              && (id in ExpenseIds(categories) <==> known[id].kind == Expense)
    {
      KnownIs(categories, id);
      TreeSpreads(categories, Income, Place(categories, id));
      TreeSpreads(categories, Expense, Place(categories, id));
    }
  }

  lemma GroupsCount(lines: seq<Line>, groups: map<Group, Flow>, g: Group, n: nat, m: nat)
    requires AllLong(lines, n) && Sized(groups, n) && m < n
    ensures LinesAt(WithGroups(lines, groups, [g]), n, m) == LinesAt(lines, n, m) + AtOf(groups, g, m)
  {
    GroupsAppended(lines, groups, g);
    if g in groups {
      assert (lines + [GroupLine(g, groups[g])])[..|lines|] == lines;
    }
  }

  /** In a two-level tree of categories each of one kind with its parent, whatever rows were read,
      income and spending are in every month the sums of their lines, and so is each line of what is
      its own and its children's (`CashLines.TopLineAdds`). */
  lemma SectionsAreTheirLines(scope: Scope, entries: seq<Entry>, m: nat)
    requires AllInPeriod(scope, entries) && m < scope.n && Tree(scope.categories)
    ensures var s, n := RowsTaken(scope, entries), scope.n;
            && LinesAt(IncomeLines(scope.categories, s, n), n, m) == s.income.At(m)
            && LinesAt(ExpenseLines(scope.categories, s, n), n, m) == s.expense.At(m)
  {
    hide RowsTaken, Spread, CategoryLines, WithGroups, LinesAt, AtOf, FiledAt, Tree, Sorted;
    var s, n, cats := RowsTaken(scope, entries), scope.n, scope.categories;
    TreeSorts(cats);
    RowsSections(scope, entries, IncomeIds(cats), ExpenseIds(cats), m);
    LinesAreFiled(cats, Income, s.filed, n, |cats|, m);
    LinesAreFiled(cats, Expense, s.filed, n, |cats|, m);
    GroupsCount(CategoryLines(cats, Income, s.filed, n, |cats|), s.groups, InterestGroup, n, m);
    var spending := CategoryLines(cats, Expense, s.filed, n, |cats|);
    GroupsCount(spending, s.groups, FeeGroup, n, m);
    TwoGroupsCount(spending, s.groups, n, m);
  }

  lemma TwoGroupsCount(lines: seq<Line>, groups: map<Group, Flow>, n: nat, m: nat)
    requires AllLong(lines, n) && Sized(groups, n) && m < n
    ensures LinesAt(WithGroups(lines, groups, [FeeGroup, TaxGroup]), n, m)
         == LinesAt(WithGroups(lines, groups, [FeeGroup]), n, m) + AtOf(groups, TaxGroup, m)
  {
    TwoGroupsAppended(lines, groups);
    var one := WithGroups(lines, groups, [FeeGroup]);
    if TaxGroup in groups {
      assert (one + [GroupLine(TaxGroup, groups[TaxGroup])])[..|one|] == one;
    }
  }
}
