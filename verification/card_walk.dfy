/** The credit card's walk through its journal, day by day: what each day does to the debits
    still owed, the money the family keeps on the card, the installments, the minimums and the
    grace. These functions say what one call of each of the walk's closures makes of the state;
    CardMachine runs them in place. */
module CardWalk {
  import opened Calendar
  import opened Rounding
  import opened CardTerms

  datatype OpType = Withdrawal | Deposit | Fee | Tax | Interest | Dividend | Coupon | OtherType

  /** What a row of the card's journal did to its balance; `moved` marks a transfer's leg, whose other
      leg is another account's. */
  datatype Row = Row(id: int, kind: OpType, on: Day, amount: int, currency: string, category: Option<int>, moved: bool)

  /** The card's own sorting of its rows, by category and by row. */
  datatype Kinds = Kinds(charges: set<int>, transfers: set<int>, installments: map<int, Plan>, graces: map<int, int>) {
    predicate Charge(row: Row) {
      && row.amount < 0
      && (row.kind in {Fee, Tax, Interest} || (row.category.Some? && row.category.value in charges))
    }

    /** Spending the grace covers. */
    predicate Purchase(row: Row) {
      && row.kind == Withdrawal && !row.moved && !Charge(row)
      && (row.category.Some? ==> row.category.value !in transfers)
    }

    predicate MovedOff(row: Row) {
      row.kind == Withdrawal && row.moved && row.amount < 0 && !Charge(row)
    }

    /** How a row is split: by a plan named for it, else by the card's standing one, which only spending
        under the grace takes. */
    function PlanOf(t: Terms, row: Row): (p: Option<Plan>)
      ensures p.Some? ==> p.value.months > 0
    {
      if row.kind != Withdrawal || row.moved || Charge(row) then None
      else if row.id in installments && installments[row.id].months > 0 then Some(installments[row.id])
      else if t.installment.months > 0 && Purchase(row) then Some(t.installment)
      else None
    }

    /** How many statements later a purchase is due: its category's own number, or the card's. */
    function PeriodsOf(t: Terms, row: Row): int {
      if row.category.Some? && row.category.value in graces then graces[row.category.value] else t.gracePeriods
    }

    predicate Valid() {
      forall id :: id in installments ==> installments[id].Valid()
    }
  }

  /** One debit still, or no longer, owed. */
  datatype Item = Item(on: Day, left: int, grace: bool, charge: bool, deadline: Day, lost: bool, early: bool,
                       from: Day, to: Day, extended: Option<Day>)
  {
    function LastDay(): Day {
      if extended.Some? then extended.value else deadline
    }

    /** A purchase still owed that has not lost its grace. */
    predicate Covered() {
      grace && !lost && left > 0
    }
  }

  /** A running grace once opened: its stretch and its last days. */
  datatype Run = Run(from: Day, to: Day, deadline: Day, extended: Option<Day>)

  datatype Installment = Installment(id: int, on: Day, amount: int, plan: Plan, billed: int, left: int) {
    /** The next part of the sum: equal parts, the last taking what the division left. */
    function Principal(): int
      requires plan.months > 0
    {
      var equal := Quo(amount, plan.months);
      if billed == plan.months - 1 then amount - equal * (plan.months - 1) else equal
    }

    function PartFee(): int {
      PercentOf(amount, plan.monthlyFeePercent) + (if billed == 0 then plan.fee else 0)
    }

    predicate ToShow(day: Day) {
      billed < plan.months && on < day
    }
  }

  /** Whether the grace is off the whole debt: until the purchases, or `all` the debt, are
      repaid; the day it is off since, and whether a minimum missed took it. */
  datatype Latch = Latch(off: bool, all: bool, since: Option<Day>, byMinimum: bool)

  const HELD := Latch(false, false, None, false)

  /** A stated minimum: its sum, its day, its statement, and the payments counted toward it. */
  datatype Stated = Stated(due: int, on: Option<Day>, from: Day, paid: int)

  /** Lateness: the sum now overdue, that sum added up over penalised days, and how many days late. */
  datatype Late = Late(overdue: int, overdueDays: int, days: int)

  datatype Walk = Walk(
    items: seq<Item>,
    credit: int,
    latch: Latch,
    run: Option<Run>,
    plans: seq<Installment>,
    partsUnpaid: int,
    minimum: Stated,
    late: Late,
    periodLostUntil: Option<Day>,
    restored: bool)

  const START := Walk([], 0, HELD, None, [], 0, Stated(0, None, 0, 0), Late(0, 0, 0), None, false)

  // ---- Sums over the debits ----

  datatype Which = Purchases | Charges | Anything

  predicate Counts(which: Which, it: Item) {
    match which
    case Purchases => it.grace
    case Charges => it.charge
    case Anything => true
  }

  function Owed(items: seq<Item>, which: Which): int {
    if items == [] then 0
    else Owed(items[..|items| - 1], which) + (if Counts(which, items[|items| - 1]) then items[|items| - 1].left else 0)
  }

  // ---- A payment: the oldest debit first, the rest kept on the card ----

  function PayItems(items: seq<Item>, amount: int): (r: (seq<Item>, int))
    ensures |r.0| == |items|
  {
    if items == [] || amount == 0 then (items, amount)
    else
      var take := Min(items[0].left, amount);
      var (rest, over) := PayItems(items[1..], amount - take);
      ([items[0].(left := items[0].left - take)] + rest, over)
  }

  function Pay(s: Walk, amount: int): Walk {
    var (items, over) := PayItems(s.items, amount);
    s.(items := items, credit := s.credit + over)
  }

  // ---- Losing the grace ----

  function LostEarly(it: Item): Item {
    if it.Covered() then it.(lost := true, early := true) else it
  }

  function AllLostEarly(items: seq<Item>): (r: seq<Item>)
    ensures |r| == |items| && forall i :: 0 <= i < |r| ==> r[i] == LostEarly(items[i])
  {
    seq(|items|, i requires 0 <= i < |items| => LostEarly(items[i]))
  }

  /** Sets the latch, keeping the day it was first set, and loses every covered debit; `all` asks for
      the whole debt to be cleared before it is unset. */
  function TakeOff(s: Walk, day: Day, byMinimum: bool, wholeDebt: bool): Walk {
    s.(latch := Latch(true, s.latch.all || byMinimum || wholeDebt, if s.latch.off then s.latch.since else Some(day),
                      s.latch.byMinimum || byMinimum),
       items := AllLostEarly(s.items))
  }

  predicate Misses(it: Item, day: Day) {
    it.Covered() && it.LastDay() < day
  }

  function LostBy(it: Item, day: Day): Item {
    if Misses(it, day) then it.(lost := true) else it
  }

  function AllLostBy(items: seq<Item>, day: Day): (r: seq<Item>)
    ensures |r| == |items| && forall i :: 0 <= i < |r| ==> r[i] == LostBy(items[i], day)
  {
    seq(|items|, i requires 0 <= i < |items| => LostBy(items[i], day))
  }

  /** The earliest last day missed before day. */
  function FirstMissed(items: seq<Item>, day: Day): Option<Day> {
    if items == [] then None
    else
      var it := items[|items| - 1];
      var before := FirstMissed(items[..|items| - 1], day);
      if Misses(it, day) && (before.None? || it.LastDay() < before.value) then Some(it.LastDay()) else before
  }

  /** The purchases whose last day is before day lose their grace; with GraceAllLost, or a
      running grace, one missed takes it off the rest. */
  function Miss(t: Terms, s: Walk, day: Day): Walk {
    var missed := FirstMissed(s.items, day);
    var after := s.(items := AllLostBy(s.items, day));
    if (t.graceAllLost || t.graceKind == Running) && missed.Some?
    then TakeOff(after, missed.value + 1, false, t.graceKind == Running)
    else after
  }

  function LostInPeriod(it: Item, from: Day, until: Day): Item {
    if it.Covered() && from <= it.on < until then it.(lost := true, early := true) else it
  }

  function AllLostInPeriod(items: seq<Item>, from: Day, until: Day): (r: seq<Item>)
    ensures |r| == |items| && forall i :: 0 <= i < |r| ==> r[i] == LostInPeriod(items[i], from, until)
  {
    seq(|items|, i requires 0 <= i < |items| => LostInPeriod(items[i], from, until))
  }

  /** A minimum whose day is before this one: what of it was not paid is overdue, and may take
      the grace off. */
  function CloseMinimum(t: Terms, s: Walk, day: Day): Walk {
    if s.minimum.on.None? || s.minimum.on.value >= day then s
    else
      var closed := s.(minimum := s.minimum.(on := None));
      if s.minimum.paid >= s.minimum.due then closed
      else
        var owing := closed.(late := s.late.(overdue := s.late.overdue + s.minimum.due - s.minimum.paid));
        var taken := if t.graceAllLost then TakeOff(owing, s.minimum.on.value + 1, true, true) else owing;
        if t.missedMinimumPeriod then LosePeriod(taken, t.StatementAfter(s.minimum.from, 1)) else taken
  }

  /** The purchases the statement of the missed minimum's period will show lose their grace. */
  function LosePeriod(s: Walk, until: Day): Walk {
    s.(periodLostUntil := Some(until), items := AllLostInPeriod(s.items, s.minimum.from, until))
  }

  // ---- A statement ----

  function Shown(p: Installment, day: Day): Installment
    requires p.plan.months > 0
  {
    if p.ToShow(day) then p.(billed := p.billed + 1, left := p.left - p.Principal()) else p
  }

  function PartOn(p: Installment, day: Day): int
    requires p.plan.months > 0
  {
    if p.ToShow(day) then p.Principal() + p.PartFee() else 0
  }

  predicate PlansRun(plans: seq<Installment>) {
    forall i :: 0 <= i < |plans| ==> plans[i].plan.months > 0
  }

  function AllShown(plans: seq<Installment>, day: Day): (r: seq<Installment>)
    requires PlansRun(plans)
    ensures |r| == |plans| && forall i :: 0 <= i < |r| ==> r[i] == Shown(plans[i], day)
    ensures PlansRun(r)
  {
    seq(|plans|, i requires 0 <= i < |plans| => Shown(plans[i], day))
  }

  function Parts(plans: seq<Installment>, day: Day): int
    requires PlansRun(plans)
  {
    if plans == [] then 0 else Parts(plans[..|plans| - 1], day) + PartOn(plans[|plans| - 1], day)
  }

  /** A statement shows each installment's next part and states the minimum. */
  function ShowStatement(t: Terms, s: Walk, day: Day): (r: Walk)
    requires t.Valid() && PlansRun(s.plans)
    ensures PlansRun(r.plans)
  {
    if t.Period(day).0 != day then s
    else
      var parts := Parts(s.plans, day);
      s.(plans := AllShown(s.plans, day),
         partsUnpaid := s.partsUnpaid + parts,
         minimum := Stated(t.Minimum(Owed(s.items, Anything) - s.credit, Owed(s.items, Charges)) + parts,
                           Some(t.DueOn(day)), day, 0))
  }

  // ---- The rows of a day ----

  /** Money coming in: to the installments' parts first, then to the oldest debit. */
  function TakeIn(s: Walk, amount: int): Walk {
    var toParts := Min(s.partsUnpaid, amount);
    var paid := Pay(s.(partsUnpaid := s.partsUnpaid - toParts), amount - toParts);
    var toOverdue := Min(s.late.overdue, amount);
    var restore := if s.latch.all then Anything else Purchases;
    paid.(late := s.late.(overdue := s.late.overdue - toOverdue),
          minimum := s.minimum.(paid := s.minimum.paid + amount - toOverdue),
          restored := s.restored || (s.latch.off && Owed(paid.items, restore) == 0),
          run := if Owed(paid.items, Anything) <= paid.credit then None else s.run)
  }

  function NewRun(t: Terms, day: Day): Run {
    var start := t.RunStart(day);
    var end := start + t.graceDays;
    Run(start, end, t.Shifted(t.ToMonthEnd(end - 1)),
        if t.extendDays > 0 then Some(t.Shifted(t.ToMonthEnd(start + t.extendDays - 1))) else None)
  }

  /** The debit a row leaves, without and with the running grace it falls under. */
  function NewItem(t: Terms, kinds: Kinds, s: Walk, row: Row, left: int): Item
    requires t.Valid()
  {
    var grace := kinds.Purchase(row) || (t.graceMoves && kinds.MovedOff(row));
    var (from, to) := t.Group(row.on);
    var plain := Item(row.on, left, grace, kinds.Charge(row),
                      if grace then t.Deadline(row.on, kinds.PeriodsOf(t, row)) else 0, false, false, from, to, None);
    if !grace then plain
    else
      var placed := if t.graceKind == Running && !s.latch.off then
        var run := if s.run.Some? then s.run.value else NewRun(t, row.on);
        plain.(from := run.from, to := run.to, deadline := run.deadline, extended := run.extended)
      else plain;
      var lost := s.latch.off || (s.periodLostUntil.Some? && row.on < s.periodLostUntil.value);
      placed.(lost := lost, early := lost)
  }

  function RunAfter(t: Terms, s: Walk, item: Item): Option<Run> {
    if item.grace && t.graceKind == Running && !s.latch.off && s.run.None? then Some(NewRun(t, item.on)) else s.run
  }

  /** A withdrawal: credit is spent before anything becomes a debit. */
  function TakeOut(t: Terms, kinds: Kinds, s: Walk, row: Row): Walk
    requires t.Valid()
  {
    var take := Min(s.credit, -row.amount);
    var owed := -row.amount - take;
    var spent := s.(credit := s.credit - take);
    var plan := kinds.PlanOf(t, row);
    if owed <= 0 then spent
    else if plan.Some? then
      spent.(plans := s.plans + [Installment(row.id, row.on, owed, plan.value, 0, owed)])
    else
      var item := NewItem(t, kinds, s, row, owed);
      spent.(items := s.items + [item], run := RunAfter(t, s, item))
  }

  function TakeRow(t: Terms, kinds: Kinds, s: Walk, row: Row): Walk
    requires t.Valid()
  {
    if row.amount > 0 then TakeIn(s, row.amount) else TakeOut(t, kinds, s, row)
  }

  function TakeRows(t: Terms, kinds: Kinds, s: Walk, rows: seq<Row>): Walk
    requires t.Valid()
  {
    if rows == [] then s else TakeRow(t, kinds, TakeRows(t, kinds, s, rows[..|rows| - 1]), rows[|rows| - 1])
  }

  /** The evening: the latch is unset when a payment of the day cleared what it asks for, and late
      days are counted. */
  function EndDay(t: Terms, s: Walk): Walk {
    s.(latch := if s.restored then HELD else s.latch,
       run := if s.restored then None else s.run,
       restored := false,
       late := Overnight(t, s.late))
  }

  function Overnight(t: Terms, late: Late): Late {
    if late.overdue <= 0 then late.(overdueDays := 0, days := 0)
    else
      Late(late.overdue, if late.days + 1 >= t.penaltyFromDay then late.overdueDays + late.overdue
           else late.overdueDays,
           late.days + 1)
  }

  // ---- A day, and the days up to one ----

  function Morning(t: Terms, s: Walk, day: Day): (r: Walk)
    requires t.Valid() && PlansRun(s.plans)
    ensures PlansRun(r.plans)
  {
    Miss(t, ShowStatement(t, CloseMinimum(t, s, day), day), day)
  }

  lemma RowsKeepPlansRunning(t: Terms, kinds: Kinds, s: Walk, rows: seq<Row>)
    requires t.Valid() && PlansRun(s.plans)
    ensures PlansRun(TakeRows(t, kinds, s, rows).plans)
  {
    hide Counts, NewItem, RunAfter;
  }

  function DayStep(t: Terms, kinds: Kinds, s: Walk, day: Day, rows: seq<Row>): (r: Walk)
    requires t.Valid() && PlansRun(s.plans)
    ensures PlansRun(r.plans)
  {
    hide Morning, TakeRows;
    RowsKeepPlansRunning(t, kinds, Morning(t, s, day), rows);
    EndDay(t, TakeRows(t, kinds, Morning(t, s, day), rows))
  }

  /** The rows of one day, in the journal's order. */
  function RowsOn(rows: seq<Row>, day: Day): (r: seq<Row>)
    ensures forall x :: x in r <==> x in rows && x.on == day
  {
    if rows == [] then []
    else
      var rest := RowsOn(rows[..|rows| - 1], day);
      assert rows == rows[..|rows| - 1] + [rows[|rows| - 1]];
      if rows[|rows| - 1].on == day then rest + [rows[|rows| - 1]] else rest
  }

  /** The walk from first to the end of day. */
  function WalkTo(t: Terms, kinds: Kinds, rows: seq<Row>, first: Day, day: Day): (r: Walk)
    requires t.Valid()
    ensures PlansRun(r.plans)
    decreases day - first
  {
    hide DayStep;
    if day < first then START
    else DayStep(t, kinds, WalkTo(t, kinds, rows, first, day - 1), day, RowsOn(rows, day))
  }
}
