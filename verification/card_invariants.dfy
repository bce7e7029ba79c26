/** What every run of the credit card's walk keeps: nothing owed below zero, no debit owed while
    the family has money on the card, the grace-off latch and what it covers, installments that
    add up, no purchase past its last day still in grace, no lost grace ever given back, and the
    debt equal to what the journal says. */
module CardInvariants {
  import opened Calendar
  import opened Rounding
  import opened CardTerms
  import opened CardWalk

  // ---- Installments: the parts add up to the sum exactly ----

  /** What the statements have shown of an installment's sum. */
  function ShownOf(p: Installment): int
    requires p.plan.months > 0
  {
    if p.billed == p.plan.months then p.amount else p.billed * Quo(p.amount, p.plan.months)
  }

  function FeesOf(p: Installment): int {
    p.billed * PercentOf(p.amount, p.plan.monthlyFeePercent) + (if p.billed > 0 then p.plan.fee else 0)
  }

  predicate PlanSound(p: Installment) {
    && p.plan.Valid() && p.plan.months > 0 && p.amount > 0
    && 0 <= p.billed <= p.plan.months
    && p.left == p.amount - ShownOf(p)
  }

  lemma EqualParts(amount: int, months: int)
    requires amount > 0 && months > 0
    ensures 0 <= Quo(amount, months) <= amount
    ensures 0 < amount - Quo(amount, months) * (months - 1)
  {
    var equal := Quo(amount, months);
    FloorBounds(amount, months);
    assert equal * (months - 1) == equal * months - equal;
    MultipleAtLeast(equal, months);
    assert equal >= 0;
    AtMostMultiple(equal, months);
  }

  lemma AtMostMultiple(x: int, b: int)
    requires x >= 0 && b > 0
    ensures x <= x * b
  {
    assert 0 <= x * (b - 1);
  }

  /** Showing a part keeps an installment sound, moves the part from what is left, and the fees
      shown grow by the part's. */
  lemma ShownKeepsSound(p: Installment, day: Day)
    requires PlanSound(p)
    ensures PlanSound(Shown(p, day))
    ensures PartOn(p, day) == p.left - Shown(p, day).left + FeesOf(Shown(p, day)) - FeesOf(p)
    ensures 0 <= PartOn(p, day)
  {
    hide PercentOf, Quo;
    EqualParts(p.amount, p.plan.months);
    PercentNear(p.amount, p.plan.monthlyFeePercent);
    var equal := Quo(p.amount, p.plan.months);
    var fee := PercentOf(p.amount, p.plan.monthlyFeePercent);
    if p.ToShow(day) {
      assert (p.billed + 1) * equal == p.billed * equal + equal;
      assert (p.billed + 1) * fee == p.billed * fee + fee;
      assert p.billed == p.plan.months - 1 ==> p.billed * equal == equal * (p.plan.months - 1);
    }
  }

  /** Each plan's parts add up to its sum exactly: something is left to show until the last part
      is shown, and nothing after it. */
  lemma PartsAddUp(p: Installment)
    requires PlanSound(p)
    ensures 0 <= p.left <= p.amount
    ensures p.left == 0 <==> p.billed == p.plan.months
  {
    hide PercentOf, Quo;
    var equal := Quo(p.amount, p.plan.months);
    EqualParts(p.amount, p.plan.months);
    if p.billed < p.plan.months {
      FewerParts(p.billed, p.plan.months - 1, equal);
    }
  }

  lemma FewerParts(few: int, many: int, equal: int)
    requires 0 <= few <= many && 0 <= equal
    ensures 0 <= few * equal <= equal * many
  {
    assert 0 <= (many - few) * equal;
    assert few * equal == equal * many - (many - few) * equal;
    assert 0 <= few * equal;
  }

  // ---- The invariant of the walk ----

  predicate LeftsSound(items: seq<Item>) {
    forall i :: 0 <= i < |items| ==> 0 <= items[i].left
  }

  predicate NothingOwed(items: seq<Item>) {
    forall i :: 0 <= i < |items| ==> items[i].left == 0
  }

  predicate NoneCovered(items: seq<Item>) {
    forall i :: 0 <= i < |items| ==> !items[i].Covered()
  }

  predicate PlansSound(plans: seq<Installment>) {
    forall i :: 0 <= i < |plans| ==> PlanSound(plans[i])
  }

  /** While the grace is off every covered purchase still owed is lost, and the day it is off
      since is set exactly then. */
  predicate Latched(s: Walk) {
    && (s.latch.off <==> s.latch.since.Some?)
    && (s.latch.off ==> NoneCovered(s.items))
  }

  predicate Sound(s: Walk) {
    && LeftsSound(s.items)
    && 0 <= s.credit && (s.credit > 0 ==> NothingOwed(s.items))
    && PlansSound(s.plans)
    && 0 <= s.partsUnpaid && 0 <= s.late.overdue
    && Latched(s)
  }

  /** The purchases made before day that still have their grace are due that day or later. */
  predicate OnTime(items: seq<Item>, day: Day) {
    forall i :: 0 <= i < |items| && items[i].Covered() && items[i].on < day ==> day <= items[i].LastDay()
  }

  /** What a debit is never changes, what is left of it never grows, its grace never comes back,
      and only a purchase the grace covers loses it. */
  predicate Ages(it: Item, later: Item) {
    && later == it.(left := later.left, lost := later.lost, early := later.early)
    && later.left <= it.left
    && (it.lost ==> later.lost)
    && (later.lost && !it.lost ==> it.grace)
  }

  predicate Evolves(items: seq<Item>, later: seq<Item>) {
    |items| <= |later| && forall i :: 0 <= i < |items| ==> Ages(items[i], later[i])
  }

  lemma EvolvesOn(a: seq<Item>, b: seq<Item>, c: seq<Item>)
    requires Evolves(a, b) && Evolves(b, c)
    ensures Evolves(a, c)
  {
  }

  // ---- Payments ----

  lemma {:induction false} PayKeeps(items: seq<Item>, amount: int)
    requires LeftsSound(items) && 0 <= amount
    ensures var (paid, over) := PayItems(items, amount);
            && 0 <= over <= amount
            && |paid| == |items|
            && LeftsSound(paid)
            && (over > 0 ==> NothingOwed(paid))
            && forall i :: 0 <= i < |items| ==>
               paid[i] == items[i].(left := paid[i].left) && paid[i].left <= items[i].left
    decreases |items|
  {
    hide PayItems;
    if items != [] && amount != 0 {
      var take := Min(items[0].left, amount);
      PayKeeps(items[1..], amount - take);
      var rest := PayItems(items[1..], amount - take).0;
      PayHead(items, amount);
      assert forall i :: 1 <= i < |items| ==> items[i] == items[1..][i - 1];
      assert forall i :: 1 <= i < |items| ==> PayItems(items, amount).0[i] == rest[i - 1];
    } else {
      PayNone(items, amount);
    }
  }

  lemma PayHead(items: seq<Item>, amount: int)
    requires items != [] && amount != 0
    ensures var take := Min(items[0].left, amount);
            var (rest, over) := PayItems(items[1..], amount - take);
            PayItems(items, amount) == ([items[0].(left := items[0].left - take)] + rest, over)
  {
  }

  lemma PayNone(items: seq<Item>, amount: int)
    requires items == [] || amount == 0
    ensures PayItems(items, amount) == (items, amount)
  {
  }

  lemma {:induction false} OwedSplit(items: seq<Item>, k: int, which: Which)
    requires 0 <= k <= |items|
    ensures Owed(items, which) == Owed(items[..k], which) + Owed(items[k..], which)
    decreases |items|
  {
    if k == |items| {
      assert items[..k] == items && items[k..] == [];
    } else {
      var n := |items| - 1;
      OwedSplit(items[..n], k, which);
      assert items[..n][..k] == items[..k];
      assert items[..n][k..] == items[k..][..n - k];
      assert items[k..][n - k] == items[n];
    }
  }

  lemma OwedPush(items: seq<Item>, it: Item, which: Which)
    ensures Owed(items + [it], which) == Owed(items, which) + (if Counts(which, it) then it.left else 0)
  {
    assert (items + [it])[..|items|] == items;
  }

  /** A payment takes what it does from the debits and leaves the rest over. */
  lemma {:induction false} PayConserves(items: seq<Item>, amount: int)
    ensures Owed(PayItems(items, amount).0, Anything) == Owed(items, Anything) - amount + PayItems(items, amount).1
    decreases |items|
  {
    if items != [] && amount != 0 {
      var take := Min(items[0].left, amount);
      PayConserves(items[1..], amount - take);
      var (paid, over) := PayItems(items, amount);
      OwedSplit(items, 1, Anything);
      OwedSplit(paid, 1, Anything);
      assert paid[1..] == PayItems(items[1..], amount - take).0;
      OwedPush([], items[0], Anything);
      OwedPush([], paid[0], Anything);
      assert items[..1] == [] + [items[0]] && paid[..1] == [] + [paid[0]];
    }
  }

  lemma {:induction false} OwedIsPointwise(items: seq<Item>, later: seq<Item>, which: Which)
    requires |items| == |later|
    requires forall i :: 0 <= i < |items| ==>
               items[i].left == later[i].left && Counts(which, items[i]) == Counts(which, later[i])
    ensures Owed(items, which) == Owed(later, which)
    decreases |items|
  {
    if items != [] {
      OwedIsPointwise(items[..|items| - 1], later[..|items| - 1], which);
    }
  }

  // ---- The statement ----

  function PlansLeft(plans: seq<Installment>): int {
    if plans == [] then 0 else PlansLeft(plans[..|plans| - 1]) + plans[|plans| - 1].left
  }

  function FeesShown(plans: seq<Installment>): int {
    if plans == [] then 0 else FeesShown(plans[..|plans| - 1]) + FeesOf(plans[|plans| - 1])
  }

  lemma {:induction false} StatementMovesParts(plans: seq<Installment>, day: Day)
    requires PlansSound(plans)
    ensures PlansSound(AllShown(plans, day))
    ensures 0 <= Parts(plans, day)
    ensures Parts(plans, day)
            == PlansLeft(plans) - PlansLeft(AllShown(plans, day)) + FeesShown(AllShown(plans, day)) - FeesShown(plans)
    decreases |plans|
  {
    hide PlanSound, Shown, PartOn, FeesOf;
    if plans != [] {
      var n := |plans| - 1;
      var last := plans[n];
      assert PlansRun(plans)
             by { forall i | 0 <= i < |plans| ensures plans[i].plan.months > 0 { MonthsRun(plans[i]); } }
      StatementMovesParts(plans[..n], day);
      ShownKeepsSound(last, day);
      assert AllShown(plans, day)[..n] == AllShown(plans[..n], day);
    }
  }

  lemma MonthsRun(p: Installment)
    requires PlanSound(p)
    ensures p.plan.months > 0
  {
  }

  // ---- Debt ----

  /** The debt the status tells: what is owed, less the family's own money, with the
      installments' sums still to be shown and their parts not yet paid. */
  function Debt(s: Walk): int {
    Owed(s.items, Anything) - s.credit + PlansLeft(s.plans) + s.partsUnpaid
  }

  /** What a step may do: keep the walk sound, only age the debits, and change the debt, past the
      installment fees shown, by `flow`. */
  ghost predicate Steps(s: Walk, after: Walk, flow: int) {
    && Sound(after)
    && Evolves(s.items, after.items)
    && Debt(after) - FeesShown(after.plans) == Debt(s) - FeesShown(s.plans) + flow
  }

  lemma StepsOn(s: Walk, a: Walk, b: Walk, f: int, g: int)
    requires Steps(s, a, f) && Steps(a, b, g)
    ensures Steps(s, b, f + g)
  {
    hide Sound, Debt, FeesShown;
    EvolvesOn(s.items, a.items, b.items);
  }

  /** A step that only marks debits as lost. */
  lemma MarkingSteps(s: Walk, after: Walk)
    requires Sound(s)
    requires after.credit == s.credit && after.plans == s.plans && after.partsUnpaid == s.partsUnpaid
             && 0 <= after.late.overdue
    requires |after.items| == |s.items|
    requires forall i :: 0 <= i < |s.items| ==>
               Ages(s.items[i], after.items[i]) && after.items[i].left == s.items[i].left
    requires Latched(after)
    ensures Steps(s, after, 0)
  {
    OwedIsPointwise(s.items, after.items, Anything);
  }

  lemma TakeOffSteps(s: Walk, day: Day, byMinimum: bool, wholeDebt: bool)
    requires Sound(s)
    ensures Steps(s, TakeOff(s, day, byMinimum, wholeDebt), 0)
  {
    hide Steps, PlanSound;
    MarkingSteps(s, TakeOff(s, day, byMinimum, wholeDebt));
  }

  lemma MissSteps(t: Terms, s: Walk, day: Day)
    requires Sound(s)
    ensures Steps(s, Miss(t, s, day), 0)
  {
    hide Steps, FirstMissed, PlanSound;
    var after := s.(items := AllLostBy(s.items, day));
    MarkingSteps(s, after);
    var missed := FirstMissed(s.items, day);
    if (t.graceAllLost || t.graceKind == Running) && missed.Some? {
      assert Sound(after) by { StepsSound(s, after, 0); }
      TakeOffSteps(after, missed.value + 1, false, t.graceKind == Running);
      StepsOn(s, after, Miss(t, s, day), 0, 0);
    }
  }

  lemma StepsSound(s: Walk, a: Walk, f: int)
    requires Steps(s, a, f)
    ensures Sound(a)
  {
  }

  /** After `miss` nothing whose last day is before the day still has its grace. */
  lemma MissClears(t: Terms, s: Walk, day: Day)
    ensures forall i :: 0 <= i < |Miss(t, s, day).items| && Miss(t, s, day).items[i].Covered() ==>
              day <= Miss(t, s, day).items[i].LastDay()
  {
    hide FirstMissed;
  }

  lemma LosePeriodSteps(s: Walk, until: Day)
    requires Sound(s)
    ensures Steps(s, LosePeriod(s, until), 0)
  {
    hide Steps, PlanSound;
    MarkingSteps(s, LosePeriod(s, until));
  }

  lemma CloseMinimumSteps(t: Terms, s: Walk, day: Day)
    requires Sound(s)
    ensures Steps(s, CloseMinimum(t, s, day), 0)
  {
    hide Steps, PlanSound, Terms.StatementAfter, LosePeriod, TakeOff;
    if s.minimum.on.Some? && s.minimum.on.value < day && s.minimum.paid < s.minimum.due {
      var owing := s.(minimum := s.minimum.(on := None),
                      late := s.late.(overdue := s.late.overdue + s.minimum.due - s.minimum.paid));
      MarkingSteps(s, owing);
      assert Sound(owing) by { StepsSound(s, owing, 0); }
      var taken := if t.graceAllLost then TakeOff(owing, s.minimum.on.value + 1, true, true) else owing;
      if t.graceAllLost {
        TakeOffSteps(owing, s.minimum.on.value + 1, true, true);
        StepsOn(s, owing, taken, 0, 0);
      }
      assert Sound(taken) by { StepsSound(s, taken, 0); }
      if t.missedMinimumPeriod {
        var lost := LosePeriod(taken, t.StatementAfter(s.minimum.from, 1));
        LosePeriodSteps(taken, t.StatementAfter(s.minimum.from, 1));
        StepsOn(s, taken, lost, 0, 0);
      }
    } else {
      MarkingSteps(s, CloseMinimum(t, s, day));
    }
  }

  lemma StatementSteps(t: Terms, s: Walk, day: Day)
    requires t.Valid() && Sound(s) && PlansRun(s.plans)
    ensures Steps(s, ShowStatement(t, s, day), 0)
  {
    hide Terms.Period, Terms.Minimum, Terms.DueOn, PlanSound, Owed;
    StatementMovesParts(s.plans, day);
  }

  lemma TakeInSteps(s: Walk, amount: int)
    requires Sound(s) && 0 <= amount
    ensures Steps(s, TakeIn(s, amount), -amount)
  {
    hide PlanSound, PayItems, Owed;
    PayKeeps(s.items, amount - Min(s.partsUnpaid, amount));
    PayConserves(s.items, amount - Min(s.partsUnpaid, amount));
  }

  lemma NewPlanSound(row: Row, plan: Plan, owed: int)
    requires plan.Valid() && plan.months > 0 && 0 < owed
    ensures PlanSound(Installment(row.id, row.on, owed, plan, 0, owed))
    ensures FeesOf(Installment(row.id, row.on, owed, plan, 0, owed)) == 0
  {
    hide PercentOf, Quo;
    EqualParts(owed, plan.months);
  }

  lemma NewItemSound(t: Terms, kinds: Kinds, s: Walk, row: Row, left: int)
    requires t.Valid()
    ensures var it := NewItem(t, kinds, s, row, left);
            && it.left == left && it.on == row.on
            && (s.latch.off ==> !it.Covered())
            && (it.grace <==> kinds.Purchase(row) || (t.graceMoves && kinds.MovedOff(row)))
  {
    hide Terms.Group, Terms.Deadline, NewRun, Kinds.PeriodsOf;
  }

  lemma SpendSteps(s: Walk, take: int)
    requires Sound(s) && 0 <= take <= s.credit
    ensures Steps(s, s.(credit := s.credit - take), take)
  {
    hide PlanSound, Owed, PlansLeft, FeesShown;
  }

  lemma AddPlanSteps(s: Walk, p: Installment)
    requires Sound(s) && PlanSound(p) && FeesOf(p) == 0
    ensures Steps(s, s.(plans := s.plans + [p]), p.left)
  {
    hide PlanSound, FeesOf, Owed;
    assert (s.plans + [p])[..|s.plans|] == s.plans;
  }

  lemma AddItemSteps(s: Walk, it: Item, run: Option<Run>)
    requires Sound(s) && s.credit == 0 && 0 <= it.left && (s.latch.off ==> !it.Covered())
    ensures Steps(s, s.(items := s.items + [it], run := run), it.left)
  {
    hide PlanSound, Owed;
    OwedPush(s.items, it, Anything);
  }

  lemma TakeOutSteps(t: Terms, kinds: Kinds, s: Walk, row: Row)
    requires t.Valid() && kinds.Valid() && Sound(s) && row.amount <= 0
    ensures Steps(s, TakeOut(t, kinds, s, row), -row.amount)
  {
    hide Steps, PlanSound, NewItem, RunAfter, FeesOf, LeftsSound, NothingOwed, PlansSound, Latched;
    var take := Min(s.credit, -row.amount);
    var owed := -row.amount - take;
    var spent := s.(credit := s.credit - take);
    SpendSteps(s, take);
    StepsSound(s, spent, take);
    if owed > 0 {
      var plan := kinds.PlanOf(t, row);
      var after := TakeOut(t, kinds, s, row);
      if plan.Some? {
        var p := Installment(row.id, row.on, owed, plan.value, 0, owed);
        NewPlanSound(row, plan.value, owed);
        AddPlanSteps(spent, p);
      } else {
        NewItemSound(t, kinds, s, row, owed);
        var item := NewItem(t, kinds, s, row, owed);
        AddItemSteps(spent, item, RunAfter(t, s, item));
      }
      StepsOn(s, spent, after, take, owed);
    }
  }

  function SumOf(rows: seq<Row>): int {
    if rows == [] then 0 else SumOf(rows[..|rows| - 1]) + rows[|rows| - 1].amount
  }

  lemma {:induction false} TakeRowsSteps(t: Terms, kinds: Kinds, s: Walk, rows: seq<Row>)
    requires t.Valid() && kinds.Valid() && Sound(s)
    ensures Steps(s, TakeRows(t, kinds, s, rows), -SumOf(rows))
    decreases |rows|
  {
    hide Steps, Sound, TakeIn, TakeOut;
    if rows == [] {
      MarkingSame(s);
    } else {
      var before := rows[..|rows| - 1];
      var row := rows[|rows| - 1];
      TakeRowsSteps(t, kinds, s, before);
      var a := TakeRows(t, kinds, s, before);
      StepsSound(s, a, -SumOf(before));
      if row.amount > 0 {
        TakeInSteps(a, row.amount);
      } else {
        TakeOutSteps(t, kinds, a, row);
      }
      StepsOn(s, a, TakeRows(t, kinds, s, rows), -SumOf(before), -row.amount);
    }
  }

  lemma MarkingSame(s: Walk)
    requires Sound(s)
    ensures Steps(s, s, 0)
  {
  }

  lemma EndDaySteps(t: Terms, s: Walk)
    requires Sound(s)
    ensures Steps(s, EndDay(t, s), 0)
  {
    hide PlanSound, Steps;
    MarkingSteps(s, EndDay(t, s));
  }

  lemma MorningSteps(t: Terms, s: Walk, day: Day)
    requires t.Valid() && Sound(s) && PlansRun(s.plans)
    ensures Steps(s, Morning(t, s, day), 0)
  {
    hide Steps, Sound, CloseMinimum, ShowStatement, Miss;
    var a := CloseMinimum(t, s, day);
    CloseMinimumSteps(t, s, day);
    StepsSound(s, a, 0);
    ClosePlans(t, s, day);
    var b := ShowStatement(t, a, day);
    StatementSteps(t, a, day);
    StepsSound(a, b, 0);
    StepsOn(s, a, b, 0, 0);
    MissSteps(t, b, day);
    StepsOn(s, b, Miss(t, b, day), 0, 0);
  }

  lemma ClosePlans(t: Terms, s: Walk, day: Day)
    requires PlansRun(s.plans)
    ensures PlansRun(CloseMinimum(t, s, day).plans)
  {
    hide Terms.StatementAfter;
  }

  lemma DaySteps(t: Terms, kinds: Kinds, s: Walk, day: Day, rows: seq<Row>)
    requires t.Valid() && kinds.Valid() && Sound(s) && PlansRun(s.plans)
    ensures Steps(s, DayStep(t, kinds, s, day, rows), -SumOf(rows))
  {
    hide Steps, Sound, Morning, TakeRows, EndDay;
    var a := Morning(t, s, day);
    MorningSteps(t, s, day);
    StepsSound(s, a, 0);
    var b := TakeRows(t, kinds, a, rows);
    TakeRowsSteps(t, kinds, a, rows);
    StepsSound(a, b, -SumOf(rows));
    EndDaySteps(t, b);
    StepsOn(s, a, b, 0, -SumOf(rows));
    StepsOn(s, b, EndDay(t, b), -SumOf(rows), 0);
  }

  // ---- Over whole runs ----

  /** The journal's rows from first to day, as the walk meets them. */
  function SumTo(rows: seq<Row>, first: Day, day: Day): int
    decreases day - first
  {
    if day < first then 0 else SumTo(rows, first, day - 1) + SumOf(RowsOn(rows, day))
  }

  /** After every day of every journal the walk is sound. */
  lemma {:induction false} WalkIsSound(t: Terms, kinds: Kinds, rows: seq<Row>, first: Day, day: Day)
    requires t.Valid() && kinds.Valid()
    ensures Sound(WalkTo(t, kinds, rows, first, day))
    decreases day - first
  {
    hide DayStep, Sound, Steps;
    if day < first {
      assert Sound(START) by { StartIsSound(); }
    } else {
      var s := WalkTo(t, kinds, rows, first, day - 1);
      WalkIsSound(t, kinds, rows, first, day - 1);
      DaySteps(t, kinds, s, day, RowsOn(rows, day));
      StepsSound(s, WalkTo(t, kinds, rows, first, day), -SumOf(RowsOn(rows, day)));
    }
  }

  lemma StartIsSound()
    ensures Sound(START) && Debt(START) == 0 && FeesShown(START.plans) == 0
  {
  }

  /** Over every journal the debt is minus the sum of its rows plus the installment fees the
      statements have shown. */
  lemma {:induction false} DebtIsConserved(t: Terms, kinds: Kinds, rows: seq<Row>, first: Day, day: Day)
    requires t.Valid() && kinds.Valid()
    ensures var s := WalkTo(t, kinds, rows, first, day);
            Debt(s) == FeesShown(s.plans) - SumTo(rows, first, day)
    decreases day - first
  {
    hide DayStep, Sound, Debt, FeesShown;
    if day < first {
      StartIsSound();
    } else {
      WalkIsSound(t, kinds, rows, first, day - 1);
      DebtIsConserved(t, kinds, rows, first, day - 1);
      DaySteps(t, kinds, WalkTo(t, kinds, rows, first, day - 1), day, RowsOn(rows, day));
    }
  }

  /** As the days go on the debits keep their place, what is left of them never grows, and a
      purchase that lost its grace never has it again. */
  lemma {:induction false} NothingIsUnlost(t: Terms, kinds: Kinds, rows: seq<Row>, first: Day, day: Day, later: Day)
    requires t.Valid() && kinds.Valid() && day <= later
    ensures Evolves(WalkTo(t, kinds, rows, first, day).items, WalkTo(t, kinds, rows, first, later).items)
    decreases later - day
  {
    hide DayStep, Sound, Debt, FeesShown;
    if day < later {
      var s := WalkTo(t, kinds, rows, first, later - 1);
      NothingIsUnlost(t, kinds, rows, first, day, later - 1);
      WalkIsSound(t, kinds, rows, first, later - 1);
      if first <= later {
        DaySteps(t, kinds, s, later, RowsOn(rows, later));
        EvolvesOn(WalkTo(t, kinds, rows, first, day).items, s.items, WalkTo(t, kinds, rows, first, later).items);
      }
    }
  }

  /** Rows of a day add debits dated that day and keep the others as they were, or less. */
  lemma {:induction false} TakeRowsOnTime(t: Terms, kinds: Kinds, s: Walk, rows: seq<Row>, day: Day)
    requires t.Valid() && kinds.Valid() && Sound(s)
    requires forall x :: x in rows ==> x.on == day
    requires OnTime(s.items, day)
    ensures OnTime(TakeRows(t, kinds, s, rows).items, day)
    decreases |rows|
  {
    hide Sound, TakeIn, TakeOut, OnTime;
    if rows != [] {
      var before := rows[..|rows| - 1];
      TakeRowsOnTime(t, kinds, s, before, day);
      TakeRowsSteps(t, kinds, s, before);
      assert rows[|rows| - 1] in rows;
      TakeRowOnTime(t, kinds, TakeRows(t, kinds, s, before), rows[|rows| - 1], day);
    }
  }

  lemma TakeRowOnTime(t: Terms, kinds: Kinds, s: Walk, row: Row, day: Day)
    requires t.Valid() && kinds.Valid() && Sound(s) && row.on == day
    requires OnTime(s.items, day)
    ensures OnTime(TakeRow(t, kinds, s, row).items, day)
  {
    hide Sound, PayItems, NewItem, RunAfter;
    SoundParts(s);
    if row.amount > 0 {
      PayKeeps(s.items, row.amount - Min(s.partsUnpaid, row.amount));
    } else {
      NewItemSound(t, kinds, s, row, -row.amount - Min(s.credit, -row.amount));
    }
  }

  lemma SoundParts(s: Walk)
    requires Sound(s)
    ensures LeftsSound(s.items) && 0 <= s.partsUnpaid
  {
  }

  /** On every day of every run a purchase made before it that still has its grace is due that
      day or later. */
  lemma GraceIsOnTime(t: Terms, kinds: Kinds, rows: seq<Row>, first: Day, day: Day)
    requires t.Valid() && kinds.Valid()
    ensures OnTime(WalkTo(t, kinds, rows, first, day).items, day)
  {
    hide Sound, CloseMinimum, ShowStatement, Miss, TakeRows;
    if first <= day {
      var s := WalkTo(t, kinds, rows, first, day - 1);
      WalkIsSound(t, kinds, rows, first, day - 1);
      MorningSteps(t, s, day);
      ClosePlans(t, s, day);
      MissClears(t, ShowStatement(t, CloseMinimum(t, s, day), day), day);
      TakeRowsOnTime(t, kinds, Morning(t, s, day), RowsOn(rows, day), day);
    }
  }
}
