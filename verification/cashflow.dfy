/** The money report's flows: where each row is counted, and that none is lost. */
module CashFlow {
  import Calendar
  import opened Rounding
  import Tally

  type Id = int

  datatype Kind = Income | Expense
  datatype OpType = Deposit | Withdrawal | Dividend | Coupon | Interest | Fee | Tax | Other
  datatype Group = InterestGroup | FeeGroup | TaxGroup

  datatype Category = Category(id: Id, kind: Kind, parent: Option<Id>, position: int)
  datatype Part = Part(category: Id, amount: int)

  /** A journal row converted: its amount signed, its fee not, its parts summing to the amount. */
  datatype Entry = Entry(account: Id, op: OpType, on: int, category: Option<Id>, amount: int, fee: int,
                         parts: seq<Part>)

  // ---- Flows ----

  datatype Flow = Flow(total: int, byMonth: seq<int>) {
    function Plus(month: nat, amount: int): (f: Flow)
      requires month < |byMonth|
      ensures |f.byMonth| == |byMonth|
    {
      Flow(total + amount, byMonth[month := byMonth[month] + amount])
    }

    function Merged(other: Flow): (f: Flow)
      requires |other.byMonth| == |byMonth|
      ensures |f.byMonth| == |byMonth|
    {
      Flow(total + other.total, seq(|byMonth|, i requires 0 <= i < |byMonth| => byMonth[i] + other.byMonth[i]))
    }

    function At(month: nat): int
      requires month < |byMonth|
    {
      byMonth[month]
    }
  }

  function Empty(n: nat): (f: Flow)
    ensures |f.byMonth| == n
  {
    Flow(0, seq(n, i => 0))
  }

  function AtOf<K>(flows: map<K, Flow>, k: K, month: nat): int
    requires k in flows ==> month < |flows[k].byMonth|
  {
    if k in flows then flows[k].At(month) else 0
  }

  function Into<K>(flows: map<K, Flow>, k: K, n: nat, month: nat, amount: int): map<K, Flow>
    requires month < n && (k in flows ==> |flows[k].byMonth| == n)
  {
    flows[k := (if k in flows then flows[k] else Empty(n)).Plus(month, amount)]
  }

  ghost predicate Sized<K(!new)>(flows: map<K, Flow>, n: nat) {
    forall k :: k in flows ==> |flows[k].byMonth| == n
  }

  // ---- The report as rows are read ----

  datatype Money = Money(
    income: Flow, expense: Flow, unfiledIn: Flow, unfiledOut: Flow,
    deposited: Flow, withdrawn: Flow, payouts: Flow, interest: Flow, costs: Flow,
    filed: map<Id, Flow>, groups: map<Group, Flow>)
  {
    ghost predicate Valid(n: nat) {
      && |income.byMonth| == |expense.byMonth| == |unfiledIn.byMonth| == |unfiledOut.byMonth| == n
      && |deposited.byMonth| == |withdrawn.byMonth| == |payouts.byMonth| == |interest.byMonth| == |costs.byMonth| == n
      && Sized(filed, n) && Sized(groups, n)
    }

    /** A month's income less spending, with what is unfiled and what went to and from the brokers. */
    ghost function Balance(n: nat, m: nat): int
      requires Valid(n) && m < n
    {
      income.At(m) - expense.At(m) + unfiledIn.At(m) - unfiledOut.At(m)
      + deposited.At(m) - withdrawn.At(m) + payouts.At(m) + interest.At(m) - costs.At(m)
    }
  }

  function START(n: nat): Money {
    var f := Empty(n);
    Money(f, f, f, f, f, f, f, f, f, map[], map[])
  }

  function ById(categories: seq<Category>): (m: map<Id, Category>)
    ensures forall i :: 0 <= i < |categories| ==> categories[i].id in m
  {
    if categories == [] then map[]
    else ById(categories[..|categories| - 1])[categories[|categories| - 1].id := categories[|categories| - 1]]
  }

  predicate AllKnown(parts: seq<Part>, known: map<Id, Category>) {
    forall i :: 0 <= i < |parts| ==> parts[i].category in known
  }

  /** The parts a row files: all of its own when each is known, else one part of its own category. */
  function FiledParts(e: Entry, known: map<Id, Category>): (r: Option<seq<Part>>)
    ensures r.Some? ==> AllKnown(r.value, known)
  {
    if e.parts != [] && AllKnown(e.parts, known) then Some(e.parts)
    else if e.category.Some? && e.category.value in known then Some([Part(e.category.value, e.amount)])
    else None
  }

  function FeeTaken(s: Money, n: nat, fee: int, broker: bool, month: nat): (r: Money)
    requires s.Valid(n) && month < n
    ensures r.Valid(n)
  {
    if fee == 0 then s
    else if broker then s.(costs := s.costs.Plus(month, fee))
    else s.(groups := Into(s.groups, FeeGroup, n, month, fee), expense := s.expense.Plus(month, fee))
  }

  function PartTaken(s: Money, n: nat, p: Part, kind: Kind, month: nat): (r: Money)
    requires s.Valid(n) && month < n
    ensures r.Valid(n)
  {
    if kind == Income
    then s.(filed := Into(s.filed, p.category, n, month, p.amount), income := s.income.Plus(month, p.amount))
    else s.(filed := Into(s.filed, p.category, n, month, -p.amount), expense := s.expense.Plus(month, -p.amount))
  }

  function PartsTaken(s: Money, n: nat, parts: seq<Part>, known: map<Id, Category>, month: nat): (r: Money)
    requires s.Valid(n) && month < n && AllKnown(parts, known)
    ensures r.Valid(n)
  {
    if parts == [] then s
    else
      var p := parts[|parts| - 1];
      PartTaken(PartsTaken(s, n, parts[..|parts| - 1], known, month), n, p, known[p.category].kind, month)
  }

  /** A row filed under no category the report knows. */
  function UnfiledTaken(s: Money, n: nat, op: OpType, amount: int, broker: bool, month: nat): (r: Money)
    requires s.Valid(n) && month < n
    ensures r.Valid(n)
  {
    if broker || op == Dividend || op == Coupon then
      match op
      case Deposit => s.(deposited := s.deposited.Plus(month, amount))
      case Withdrawal => s.(withdrawn := s.withdrawn.Plus(month, -amount))
      case Dividend | Coupon => s.(payouts := s.payouts.Plus(month, amount))
      case Interest => s.(interest := s.interest.Plus(month, amount))
      case Fee | Tax => s.(costs := s.costs.Plus(month, -amount))
      case Other => s
    else
      match op
      case Deposit => s.(unfiledIn := s.unfiledIn.Plus(month, amount))
      case Withdrawal => s.(unfiledOut := s.unfiledOut.Plus(month, -amount))
      case Interest =>
        s.(groups := Into(s.groups, InterestGroup, n, month, amount), income := s.income.Plus(month, amount))
      case Fee => s.(groups := Into(s.groups, FeeGroup, n, month, -amount), expense := s.expense.Plus(month, -amount))
      case Tax => s.(groups := Into(s.groups, TaxGroup, n, month, -amount), expense := s.expense.Plus(month, -amount))
      case _ => s
  }

  /** What the report covers: its months, the accounts (a broker's or not) and the categories. */
  datatype Scope = Scope(first: int, n: nat, accounts: map<Id, bool>, categories: seq<Category>) {
    function MonthIndex(day: int): int { Calendar.MonthOf(day) - first }

    predicate Counts(e: Entry) { e.account in accounts }

    /** Rows are read from the report's own months. */
    predicate InPeriod(e: Entry) { 0 <= MonthIndex(e.on) < n }
  }

  function RowTaken(s: Money, scope: Scope, e: Entry): (r: Money)
    requires s.Valid(scope.n) && scope.InPeriod(e)
    ensures r.Valid(scope.n)
  {
    if !scope.Counts(e) then s
    else
      var month, broker, known := scope.MonthIndex(e.on), scope.accounts[e.account], ById(scope.categories);
      var charged := FeeTaken(s, scope.n, e.fee, broker, month);
      var parts := FiledParts(e, known);
      if parts.Some? then PartsTaken(charged, scope.n, parts.value, known, month)
      else UnfiledTaken(charged, scope.n, e.op, e.amount, broker, month)
  }

  predicate AllInPeriod(scope: Scope, entries: seq<Entry>) {
    forall i :: 0 <= i < |entries| ==> scope.InPeriod(entries[i])
  }

  function RowsTaken(scope: Scope, entries: seq<Entry>): (r: Money)
    requires AllInPeriod(scope, entries)
    ensures r.Valid(scope.n)
  {
    if entries == [] then START(scope.n)
    else RowTaken(RowsTaken(scope, entries[..|entries| - 1]), scope, entries[|entries| - 1])
  }

  // ---- Nothing is lost ----

  function PartsSum(parts: seq<Part>): int {
    if parts == [] then 0 else PartsSum(parts[..|parts| - 1]) + parts[|parts| - 1].amount
  }

  /** A row of a type the report reads, its parts adding up to it. */
  predicate Whole(e: Entry) { e.op != Other && (e.parts != [] ==> PartsSum(e.parts) == e.amount) }

  lemma FeeBalances(s: Money, n: nat, fee: int, broker: bool, month: nat, m: nat)
    requires s.Valid(n) && month < n && m < n
    ensures FeeTaken(s, n, fee, broker, month).Balance(n, m) == s.Balance(n, m) - if m == month then fee else 0
  {
  }

  lemma {:induction false} PartsBalance(s: Money, n: nat, parts: seq<Part>, known: map<Id, Category>, month: nat,
            m: nat)
    requires s.Valid(n) && month < n && m < n && AllKnown(parts, known)
    ensures PartsTaken(s, n, parts, known, month).Balance(n, m)
            == s.Balance(n, m) + if m == month then PartsSum(parts) else 0
    decreases |parts|
  {
    hide Money.Valid, Into;
    if parts != [] {
      PartsBalance(s, n, parts[..|parts| - 1], known, month, m);
      var p := parts[|parts| - 1];
      PartBalances(PartsTaken(s, n, parts[..|parts| - 1], known, month), n, p, known[p.category].kind, month, m);
    }
  }

  lemma PartBalances(s: Money, n: nat, p: Part, kind: Kind, month: nat, m: nat)
    requires s.Valid(n) && month < n && m < n
    ensures PartTaken(s, n, p, kind, month).Balance(n, m) == s.Balance(n, m) + if m == month then p.amount else 0
  {
  }

  lemma UnfiledBalances(s: Money, n: nat, op: OpType, amount: int, broker: bool, month: nat, m: nat)
    requires s.Valid(n) && month < n && m < n && op != Other
    ensures UnfiledTaken(s, n, op, amount, broker, month).Balance(n, m)
            == s.Balance(n, m) + if m == month then amount else 0
  {
  }

  lemma RowBalances(s: Money, scope: Scope, e: Entry, m: nat)
    requires s.Valid(scope.n) && scope.InPeriod(e) && m < scope.n && Whole(e)
    ensures RowTaken(s, scope, e).Balance(scope.n, m)
         == s.Balance(scope.n, m) + if scope.Counts(e) && scope.MonthIndex(e.on) == m then e.amount - e.fee else 0
  {
    hide Money.Valid, Money.Balance, FeeTaken, PartsTaken, UnfiledTaken, Scope.MonthIndex;
    if scope.Counts(e) {
      var month, broker, known := scope.MonthIndex(e.on), scope.accounts[e.account], ById(scope.categories);
      FeeBalances(s, scope.n, e.fee, broker, month, m);
      var charged := FeeTaken(s, scope.n, e.fee, broker, month);
      var parts := FiledParts(e, known);
      if parts.Some? {
        OwnPart(e);
        PartsBalance(charged, scope.n, parts.value, known, month, m);
      } else {
        UnfiledBalances(charged, scope.n, e.op, e.amount, broker, month, m);
      }
    }
  }

  lemma OwnPart(e: Entry)
    ensures e.category.Some? ==> PartsSum([Part(e.category.value, e.amount)]) == e.amount
  {
    if e.category.Some? {
      assert [Part(e.category.value, e.amount)][..0] == [];
    }
  }

  /** What the covered rows of a month come to, less their fees. */
  function RowsSum(scope: Scope, entries: seq<Entry>, m: nat): int {
    if entries == [] then 0
    else
      var e := entries[|entries| - 1];
      RowsSum(scope, entries[..|entries| - 1], m)
      + if scope.Counts(e) && scope.MonthIndex(e.on) == m then e.amount - e.fee else 0
  }

  /** In every month income less spending, with what is unfiled and the investments block, is what
      the covered rows come to less their fees. */
  lemma {:induction false} ReportLosesNothing(scope: Scope, entries: seq<Entry>, m: nat)
    requires AllInPeriod(scope, entries) && m < scope.n
    requires forall i :: 0 <= i < |entries| ==> Whole(entries[i])
    ensures RowsTaken(scope, entries).Balance(scope.n, m) == RowsSum(scope, entries, m)
    decreases |entries|
  {
    hide RowTaken, Scope.MonthIndex, Scope.InPeriod, Whole, Scope.Counts, Money.Balance, Money.Valid;
    if entries == [] {
      StartBalances(scope.n, m);
    } else {
      ReportLosesNothing(scope, entries[..|entries| - 1], m);
      RowBalances(RowsTaken(scope, entries[..|entries| - 1]), scope, entries[|entries| - 1], m);
    }
  }

  lemma StartBalances(n: nat, m: nat)
    requires m < n
    ensures START(n).Valid(n) && START(n).Balance(n, m) == 0
  {
  }
}
