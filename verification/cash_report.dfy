/** The money report assembled row by row, and what its sections keep. */
module CashReport {
  import opened CashFlow
  import opened CashLines
  import opened Rounding
  import Tally

  class Report {
    var income: Flow
    var expense: Flow
    var unfiledIn: Flow
    var unfiledOut: Flow
    var deposited: Flow
    var withdrawn: Flow
    var payouts: Flow
    var interest: Flow
    var costs: Flow
    var filed: map<Id, Flow>
    var groups: map<Group, Flow>
    var incomeLines: seq<Line>
    var expenseLines: seq<Line>

    ghost function View(): Money
      reads this
    {
      Money(income, expense, unfiledIn, unfiledOut, deposited, withdrawn, payouts, interest, costs, filed, groups)
    }

    constructor (n: nat)
      ensures View() == START(n)
    {
      var f := Empty(n);
      income, expense, unfiledIn, unfiledOut := f, f, f, f;
      deposited, withdrawn, payouts, interest, costs := f, f, f, f, f;
      filed, groups := map[], map[];
      incomeLines, expenseLines := [], [];
    }

    method TakeFee(n: nat, fee: int, broker: bool, month: nat)
      requires View().Valid(n) && month < n
      modifies this
      ensures View() == FeeTaken(old(View()), n, fee, broker, month)
    {
      if fee != 0 {
        if broker {
          costs := costs.Plus(month, fee);
        } else {
          groups := Into(groups, FeeGroup, n, month, fee);
          expense := expense.Plus(month, fee);
        }
      }
    }

    method TakeParts(n: nat, parts: seq<Part>, known: map<Id, Category>, month: nat)
      requires View().Valid(n) && month < n && AllKnown(parts, known)
      modifies this
      ensures View() == PartsTaken(old(View()), n, parts, known, month)
    {
      hide Into, Money.Valid;
      for i := 0 to |parts|
        invariant View().Valid(n) && View() == PartsTaken(old(View()), n, parts[..i], known, month)
      {
        assert parts[..i + 1][..i] == parts[..i];
        TakePart(n, parts[i], known[parts[i].category].kind, month);
      }
      assert parts[..|parts|] == parts;
    }

    method TakePart(n: nat, p: Part, kind: Kind, month: nat)
      requires View().Valid(n) && month < n
      modifies this
      ensures View() == PartTaken(old(View()), n, p, kind, month)
    {
      if kind == Income {
        filed := Into(filed, p.category, n, month, p.amount);
        income := income.Plus(month, p.amount);
      } else {
        filed := Into(filed, p.category, n, month, -p.amount);
        expense := expense.Plus(month, -p.amount);
      }
    }

    method TakeUnfiled(n: nat, op: OpType, amount: int, broker: bool, month: nat)
      requires View().Valid(n) && month < n
      modifies this
      ensures View() == UnfiledTaken(old(View()), n, op, amount, broker, month)
    {
      if broker || op == Dividend || op == Coupon {
        match op {
          case Deposit => deposited := deposited.Plus(month, amount);
          case Withdrawal => withdrawn := withdrawn.Plus(month, -amount);
          case Dividend | Coupon => payouts := payouts.Plus(month, amount);
          case Interest => interest := interest.Plus(month, amount);
          case Fee | Tax => costs := costs.Plus(month, -amount);
          case Other =>
        }
      } else if op == Deposit {
        unfiledIn := unfiledIn.Plus(month, amount);
      } else if op == Withdrawal {
        unfiledOut := unfiledOut.Plus(month, -amount);
      } else if op == Interest {
        groups := Into(groups, InterestGroup, n, month, amount);
        income := income.Plus(month, amount);
      } else if op == Fee {
        groups := Into(groups, FeeGroup, n, month, -amount);
        expense := expense.Plus(month, -amount);
      } else if op == Tax {
        groups := Into(groups, TaxGroup, n, month, -amount);
        expense := expense.Plus(month, -amount);
      }
    }

    method TakeRow(scope: Scope, known: map<Id, Category>, e: Entry)
      requires View().Valid(scope.n) && scope.InPeriod(e) && known == ById(scope.categories)
      modifies this
      ensures View() == RowTaken(old(View()), scope, e)
    {
      hide Money.Valid, FeeTaken, PartsTaken, UnfiledTaken, Scope.MonthIndex, FiledParts, ById;
      if e.account !in scope.accounts {
        return;
      }
      var month, broker := scope.MonthIndex(e.on), scope.accounts[e.account];
      TakeFee(scope.n, e.fee, broker, month);
      var parts := FindParts(e, known);
      if parts.Some? {
        TakeParts(scope.n, parts.value, known, month);
      } else {
        TakeUnfiled(scope.n, e.op, e.amount, broker, month);
      }
    }

    /** `assemble`: the rows in their order, then the lines. */
    method Assemble(scope: Scope, entries: seq<Entry>)
      requires View() == START(scope.n) && AllInPeriod(scope, entries)
      modifies this
      ensures View() == RowsTaken(scope, entries)
      ensures incomeLines == IncomeLines(scope.categories, View(), scope.n)
      ensures expenseLines == ExpenseLines(scope.categories, View(), scope.n)
    {
      hide RowTaken, Scope.InPeriod, CategoryLines, START;
      var known := ReadCategories(scope.categories);
      for i := 0 to |entries|
        invariant View() == RowsTaken(scope, entries[..i])
      {
        assert entries[..i + 1][..i] == entries[..i];
        TakeRow(scope, known, entries[i]);
      }
      assert entries[..|entries|] == entries;
      LayLines(scope);
    }

    method LayLines(scope: Scope)
      requires View().Valid(scope.n)
      modifies this`incomeLines, this`expenseLines
      ensures incomeLines == IncomeLines(scope.categories, View(), scope.n)
      ensures expenseLines == ExpenseLines(scope.categories, View(), scope.n)
    {
      hide CategoryLines;
      incomeLines := Lines(scope.categories, Income, filed, scope.n);
      expenseLines := Lines(scope.categories, Expense, filed, scope.n);
      GroupsAppended(incomeLines, groups, InterestGroup);
      GroupsAppended(expenseLines, groups, FeeGroup);
      TwoGroupsAppended(expenseLines, groups);
      if InterestGroup in groups {
        incomeLines := incomeLines + [GroupLine(InterestGroup, groups[InterestGroup])];
      }
      if FeeGroup in groups {
        expenseLines := expenseLines + [GroupLine(FeeGroup, groups[FeeGroup])];
      }
      if TaxGroup in groups {
        expenseLines := expenseLines + [GroupLine(TaxGroup, groups[TaxGroup])];
      }
    }
  }

  lemma GroupsAppended(lines: seq<Line>, groups: map<Group, Flow>, g: Group)
    ensures WithGroups(lines, groups, [g]) == if g in groups then lines + [GroupLine(g, groups[g])] else lines
  {
    assert [g][..0] == [];
  }

  lemma TwoGroupsAppended(lines: seq<Line>, groups: map<Group, Flow>)
    ensures var one := WithGroups(lines, groups, [FeeGroup]);
            WithGroups(lines, groups, [FeeGroup, TaxGroup])
            == if TaxGroup in groups then one + [GroupLine(TaxGroup, groups[TaxGroup])] else one
  {
    assert [FeeGroup, TaxGroup][..1] == [FeeGroup];
  }

  method ReadCategories(categories: seq<Category>) returns (known: map<Id, Category>)
    ensures known == ById(categories)
  {
    known := map[];
    for i := 0 to |categories|
      invariant known == ById(categories[..i])
    {
      assert categories[..i + 1][..i] == categories[..i];
      known := known[categories[i].id := categories[i]];
    }
    assert categories[..|categories|] == categories;
  }

  /** `filedParts`: the parts when all are known, else the row's own category. */
  method FindParts(e: Entry, known: map<Id, Category>) returns (parts: Option<seq<Part>>)
    ensures parts == FiledParts(e, known)
  {
    if |e.parts| > 0 {
      var all := true;
      for i := 0 to |e.parts|
        invariant all == forall j :: 0 <= j < i ==> e.parts[j].category in known
      {
        all := all && e.parts[i].category in known;
      }
      if all {
        return Some(e.parts);
      }
    }
    if e.category.None? || e.category.value !in known {
      return None;
    }
    return Some([Part(e.category.value, e.amount)]);
  }

  // ---- A row's parts in the base currency ----

  /** A part at the row's rate, signed as the row. */
  function Converted(p: Part, amount: int, rate: real): Part {
    var v := Round(p.amount as real * rate);
    Part(p.category, if amount < 0 then -v else v)
  }

  /** `convertParts`: each part converted, the last taking what rounding left. */
  method ConvertParts(parts: seq<Part>, amount: int, rate: real) returns (out: seq<Part>)
    ensures |out| == |parts| && forall i :: 0 <= i < |out| ==> out[i].category == parts[i].category
    ensures forall i :: 0 <= i < |out| - 1 ==> out[i] == Converted(parts[i], amount, rate)
    ensures parts != [] ==> PartsSum(out) == amount
  {
    out := [];
    if parts == [] {
      return;
    }
    hide Round;
    var sum := 0;
    for i := 0 to |parts|
      invariant |out| == i && forall j :: 0 <= j < i ==> out[j] == Converted(parts[j], amount, rate)
      invariant sum == PartsSum(out)
    {
      var p := Converted(parts[i], amount, rate);
      assert (out + [p])[..i] == out;
      out := out + [p];
      sum := sum + p.amount;
    }
    var last := |out| - 1;
    var p := out[last].(amount := out[last].amount + amount - sum);
    assert out[last := p][..last] == out[..last];
    out := out[last := p];
  }
}
