/** The report's totals: every flow's is the sum of its months, and every section's the sum of its
    lines'. */
module CashTotals {
  import opened CashFlow
  import opened CashLines
  import opened CashReport
  import opened CashSections
  import opened Rounding
  import Share

  // ---- A flow's total is the sum of its months ----

  ghost predicate Adds(f: Flow) { f.total == Share.Sum(f.byMonth) }

  ghost predicate AllAdd<K(!new)>(flows: map<K, Flow>) {
    forall k :: k in flows ==> Adds(flows[k])
  }

  ghost predicate MoneyAdds(s: Money) {
    && Adds(s.income) && Adds(s.expense) && Adds(s.unfiledIn) && Adds(s.unfiledOut)
    && Adds(s.deposited) && Adds(s.withdrawn) && Adds(s.payouts) && Adds(s.interest) && Adds(s.costs)
    && AllAdd(s.filed) && AllAdd(s.groups)
  }

  lemma {:induction false} SumUpdated(xs: seq<int>, i: nat, d: int)
    requires i < |xs|
    ensures Share.Sum(xs[i := xs[i] + d]) == Share.Sum(xs) + d
    decreases |xs|
  {
    var n, ys := |xs| - 1, xs[i := xs[i] + d];
    if i == n {
      assert ys[..n] == xs[..n];
    } else {
      SumUpdated(xs[..n], i, d);
      assert ys[..n] == xs[..n][i := xs[i] + d];
    }
  }

  lemma PlusAdds(f: Flow, month: nat, amount: int)
    requires Adds(f) && month < |f.byMonth|
    ensures Adds(f.Plus(month, amount))
  {
    SumUpdated(f.byMonth, month, amount);
  }

  lemma {:induction false} EmptyAdds(n: nat)
    ensures Adds(Empty(n))
    decreases n
  {
    if n > 0 {
      EmptyAdds(n - 1);
      assert Empty(n).byMonth[..n - 1] == Empty(n - 1).byMonth;
    }
  }

  lemma IntoAdds<K(!new)>(flows: map<K, Flow>, k: K, n: nat, month: nat, amount: int)
    requires AllAdd(flows) && Sized(flows, n) && month < n
    ensures AllAdd(Into(flows, k, n, month, amount))
  {
    hide Adds, Empty;
    EmptyAdds(n);
    PlusAdds(if k in flows then flows[k] else Empty(n), month, amount);
  }

  lemma FeeAdds(s: Money, n: nat, fee: int, broker: bool, month: nat)
    requires MoneyAdds(s) && s.Valid(n) && month < n
    ensures MoneyAdds(FeeTaken(s, n, fee, broker, month))
  {
    hide Adds, AllAdd, Into;
    PlusAdds(s.costs, month, fee);
    PlusAdds(s.expense, month, fee);
    IntoAdds(s.groups, FeeGroup, n, month, fee);
  }

  lemma PartAdds(s: Money, n: nat, p: Part, kind: Kind, month: nat)
    requires MoneyAdds(s) && s.Valid(n) && month < n
    ensures MoneyAdds(PartTaken(s, n, p, kind, month))
  {
    hide Adds, AllAdd, Into;
    PlusAdds(s.income, month, p.amount);
    PlusAdds(s.expense, month, -p.amount);
    IntoAdds(s.filed, p.category, n, month, p.amount);
    IntoAdds(s.filed, p.category, n, month, -p.amount);
  }

  lemma {:induction false} PartsAdd(s: Money, n: nat, parts: seq<Part>, known: map<Id, Category>, month: nat)
    requires MoneyAdds(s) && s.Valid(n) && month < n && AllKnown(parts, known)
    ensures MoneyAdds(PartsTaken(s, n, parts, known, month))
    decreases |parts|
  {
    hide MoneyAdds, Money.Valid, PartTaken;
    if parts != [] {
      var before, p := parts[..|parts| - 1], parts[|parts| - 1];
      PartsAdd(s, n, before, known, month);
      PartAdds(PartsTaken(s, n, before, known, month), n, p, known[p.category].kind, month);
    }
  }

  lemma UnfiledAdds(s: Money, n: nat, op: OpType, amount: int, broker: bool, month: nat)
    requires MoneyAdds(s) && s.Valid(n) && month < n
    ensures MoneyAdds(UnfiledTaken(s, n, op, amount, broker, month))
  {
    hide Adds, AllAdd, Into;
    match op {
      case Deposit => PlusAdds(s.deposited, month, amount); PlusAdds(s.unfiledIn, month, amount);
      case Withdrawal => PlusAdds(s.withdrawn, month, -amount); PlusAdds(s.unfiledOut, month, -amount);
      case Dividend | Coupon => PlusAdds(s.payouts, month, amount);
      case Interest =>
        PlusAdds(s.interest, month, amount);
        PlusAdds(s.income, month, amount);
        IntoAdds(s.groups, InterestGroup, n, month, amount);
      case Fee | Tax =>
        PlusAdds(s.costs, month, -amount);
        PlusAdds(s.expense, month, -amount);
        IntoAdds(s.groups, FeeGroup, n, month, -amount);
        IntoAdds(s.groups, TaxGroup, n, month, -amount);
      case Other =>
    }
  }

  /** So it is of every flow the rows are read into. */
  lemma {:induction false} RowsAdd(scope: Scope, entries: seq<Entry>)
    requires AllInPeriod(scope, entries)
    ensures MoneyAdds(RowsTaken(scope, entries))
    decreases |entries|
  {
    hide FeeTaken, PartsTaken, UnfiledTaken, Money.Valid, Scope.MonthIndex, FiledParts, ById, Empty, Adds;
    if entries == [] {
      EmptyAdds(scope.n);
    } else {
      var before, e := entries[..|entries| - 1], entries[|entries| - 1];
      RowsAdd(scope, before);
      hide MoneyAdds;
      var s := RowsTaken(scope, before);
      if scope.Counts(e) {
        var month, broker, known := scope.MonthIndex(e.on), scope.accounts[e.account], ById(scope.categories);
        FeeAdds(s, scope.n, e.fee, broker, month);
        var charged := FeeTaken(s, scope.n, e.fee, broker, month);
        var parts := FiledParts(e, known);
        if parts.Some? {
          PartsAdd(charged, scope.n, parts.value, known, month);
        } else {
          UnfiledAdds(charged, scope.n, e.op, e.amount, broker, month);
        }
      }
    }
  }

  // ---- The lines ----

  lemma {:induction false} SumsJoin(xs: seq<int>, ys: seq<int>, zs: seq<int>)
    requires |xs| == |ys| == |zs| && forall i :: 0 <= i < |xs| ==> zs[i] == xs[i] + ys[i]
    ensures Share.Sum(zs) == Share.Sum(xs) + Share.Sum(ys)
    decreases |xs|
  {
    if xs != [] {
      var n := |xs| - 1;
      SumsJoin(xs[..n], ys[..n], zs[..n]);
    }
  }

  lemma MergedAdds(f: Flow, g: Flow)
    requires Adds(f) && Adds(g) && |f.byMonth| == |g.byMonth|
    ensures Adds(f.Merged(g))
  {
    SumsJoin(f.byMonth, g.byMonth, f.Merged(g).byMonth);
  }

  /** A line's flow adds, and so do its own part and every line under it. */
  ghost predicate LineAdds(l: Line) {
    Adds(l.flow) && Adds(l.direct) && forall i :: 0 <= i < |l.children| ==> LineAdds(l.children[i])
  }

  ghost predicate LinesAdd(lines: seq<Line>) {
    forall i :: 0 <= i < |lines| ==> LineAdds(lines[i])
  }

  lemma {:induction false} TopLineTotals(categories: seq<Category>, id: Id, filed: map<Id, Flow>, n: nat, k: nat)
    requires AllAdd(filed) && Sized(filed, n) && k <= |categories|
    ensures LineAdds(TopLine(categories, id, filed, n, k))
    decreases k
  {
    hide Adds, Empty, Flow.Merged;
    EmptyAdds(n);
    if k == 0 {
      if id in filed {
        MergedAdds(Empty(n), filed[id]);
      }
    } else {
      TopLineTotals(categories, id, filed, n, k - 1);
      var l, c := TopLine(categories, id, filed, n, k - 1), categories[k - 1];
      if IsChild(c, id) && c.id in filed {
        MergedAdds(l.flow, filed[c.id]);
        assert LineAdds(ChildLine(c.id, filed[c.id]));
      }
    }
  }

  lemma {:induction false} CategoryLinesAdd(categories: seq<Category>, kind: Kind, filed: map<Id, Flow>, n: nat, k: nat)
    requires AllAdd(filed) && Sized(filed, n) && k <= |categories|
    ensures LinesAdd(CategoryLines(categories, kind, filed, n, k))
    decreases k
  {
    hide Adds, TopLine, Used;
    if k > 0 {
      CategoryLinesAdd(categories, kind, filed, n, k - 1);
      TopLineTotals(categories, categories[k - 1].id, filed, n, |categories|);
    }
  }

  lemma {:induction false} WithGroupsAdd(lines: seq<Line>, groups: map<Group, Flow>, of: seq<Group>)
    requires LinesAdd(lines) && AllAdd(groups)
    ensures LinesAdd(WithGroups(lines, groups, of))
    decreases |of|
  {
    hide Adds;
    if of != [] {
      WithGroupsAdd(lines, groups, of[..|of| - 1]);
    }
  }

  /** Every flow's total is the sum of its months, whatever rows were read and however the categories
      are nested: the flows of the rows, and those of every line, its own and its children's. */
  lemma TotalsAreMonths(scope: Scope, entries: seq<Entry>)
    requires AllInPeriod(scope, entries)
    ensures var s, n := RowsTaken(scope, entries), scope.n;
            && MoneyAdds(s)
            && LinesAdd(IncomeLines(scope.categories, s, n))
            && LinesAdd(ExpenseLines(scope.categories, s, n))
  {
    hide RowsTaken, CategoryLines, WithGroups, Adds, LinesAdd;
    var s, n, cats := RowsTaken(scope, entries), scope.n, scope.categories;
    RowsAdd(scope, entries);
    CategoryLinesAdd(cats, Income, s.filed, n, |cats|);
    CategoryLinesAdd(cats, Expense, s.filed, n, |cats|);
    WithGroupsAdd(CategoryLines(cats, Income, s.filed, n, |cats|), s.groups, [InterestGroup]);
    WithGroupsAdd(CategoryLines(cats, Expense, s.filed, n, |cats|), s.groups, [FeeGroup, TaxGroup]);
  }

  // ---- A section's total ----

  function LinesTotal(lines: seq<Line>): int {
    if lines == [] then 0 else LinesTotal(lines[..|lines| - 1]) + lines[|lines| - 1].flow.total
  }

  /** What the lines come to in each month. */
  function LinesByMonth(lines: seq<Line>, n: nat): seq<int>
    requires AllLong(lines, n)
  {
    seq(n, m requires 0 <= m < n => LinesAt(lines, n, m))
  }

  lemma {:induction false} NoughtMonths(n: nat)
    ensures Share.Sum(seq(n, m => 0)) == 0
    decreases n
  {
    EmptyAdds(n);
  }

  /** Lines that add come together to the sum of their months. */
  lemma {:induction false} TotalByMonths(lines: seq<Line>, n: nat)
    requires AllLong(lines, n) && LinesAdd(lines)
    ensures LinesTotal(lines) == Share.Sum(LinesByMonth(lines, n))
    decreases |lines|
  {
    if lines == [] {
      NoughtMonths(n);
      assert LinesByMonth(lines, n) == seq(n, m => 0);
    } else {
      var before, last := lines[..|lines| - 1], lines[|lines| - 1];
      TotalByMonths(before, n);
      SumsJoin(LinesByMonth(before, n), last.flow.byMonth, LinesByMonth(lines, n));
    }
  }

  /** In a two-level tree each section's total is the sum of its lines' totals. */
  lemma SectionTotals(scope: Scope, entries: seq<Entry>)
    requires AllInPeriod(scope, entries) && Tree(scope.categories)
    ensures var s, n := RowsTaken(scope, entries), scope.n;
            && s.income.total == LinesTotal(IncomeLines(scope.categories, s, n))
            && s.expense.total == LinesTotal(ExpenseLines(scope.categories, s, n))
  {
    hide RowsTaken, IncomeLines, ExpenseLines, LinesAt, Tree, LinesAdd;
    var s, n, cats := RowsTaken(scope, entries), scope.n, scope.categories;
    TotalsAreMonths(scope, entries);
    TotalByMonths(IncomeLines(cats, s, n), n);
    TotalByMonths(ExpenseLines(cats, s, n), n);
    forall m: nat | m < n
      ensures LinesAt(IncomeLines(cats, s, n), n, m) == s.income.byMonth[m]
      ensures LinesAt(ExpenseLines(cats, s, n), n, m) == s.expense.byMonth[m]
    {
      SectionsAreTheirLines(scope, entries, m);
    }
    assert LinesByMonth(IncomeLines(cats, s, n), n) == s.income.byMonth;
    assert LinesByMonth(ExpenseLines(cats, s, n), n) == s.expense.byMonth;
  }

  /** A top line's total is what is its own and its children's totals. */
  lemma TopTotal(categories: seq<Category>, id: Id, filed: map<Id, Flow>, n: nat)
    requires AllAdd(filed) && Sized(filed, n)
    ensures var l := TopLine(categories, id, filed, n, |categories|);
            l.flow.total == l.direct.total + LinesTotal(l.children)
  {
    hide TopLine, LinesAt, AllAdd;
    var l := TopLine(categories, id, filed, n, |categories|);
    TopLineTotals(categories, id, filed, n, |categories|);
    TotalByMonths(l.children, n);
    forall m: nat | m < n ensures l.flow.byMonth[m] == l.direct.byMonth[m] + LinesAt(l.children, n, m) {
      TopLineAdds(categories, id, filed, n, |categories|, m);
    }
    SumsJoin(l.direct.byMonth, LinesByMonth(l.children, n), l.flow.byMonth);
  }
}
