/** The walk as the program runs it: the debits, the latch and the counters updated in place,
    day by day. Each method leaves exactly the state CardWalk's function of the same step says. */
module CardMachine {
  import opened Calendar
  import opened Rounding
  import opened CardTerms
  import opened CardWalk
  import CardInvariants

  class Walker {
    const t: Terms
    const kinds: Kinds
    var items: seq<Item>
    var credit: int
    var latch: Latch
    var run: Option<Run>
    var plans: seq<Installment>
    var partsUnpaid: int
    var minimum: Stated
    var late: Late
    var periodLostUntil: Option<Day>
    var restored: bool

    ghost function View(): Walk
      reads this
    {
      Walk(items, credit, latch, run, plans, partsUnpaid, minimum, late, periodLostUntil, restored)
    }

    constructor (t: Terms, kinds: Kinds)
      ensures View() == START && this.t == t && this.kinds == kinds
    {
      this.t, this.kinds := t, kinds;
      items, credit, latch, run, plans, partsUnpaid := [], 0, HELD, None, [], 0;
      minimum, late, periodLostUntil, restored := Stated(0, None, 0, 0), Late(0, 0, 0), None, false;
    }

    method Pay(sum: int)
      modifies this`items, this`credit
      ensures View() == CardWalk.Pay(old(View()), sum)
    {
      hide PayItems, PaidTo;
      var amount, i := sum, 0;
      ghost var were := items;
      PaidStart(were, sum);
      while i < |items| && amount != 0
        invariant 0 <= i <= |items| == |were|
        invariant PaidTo(were, sum, items, i, amount)
        modifies this`items
      {
        var take := Min(items[i].left, amount);
        PaidOn(were, sum, items, i, amount);
        items := items[i := items[i].(left := items[i].left - take)];
        amount := amount - take;
        i := i + 1;
      }
      PaidEnd(were, sum, items, i, amount);
      credit := credit + amount;
    }

    method OwedOf(which: Which) returns (sum: int)
      ensures sum == Owed(items, which)
    {
      sum := 0;
      for i := 0 to |items|
        invariant sum == Owed(items[..i], which)
      {
        assert items[..i + 1][..i] == items[..i];
        if Counts(which, items[i]) {
          sum := sum + items[i].left;
        }
      }
      assert items[..|items|] == items;
    }

    method TakeOff(day: Day, byMinimum: bool, wholeDebt: bool)
      modifies this`latch, this`items
      ensures View() == CardWalk.TakeOff(old(View()), day, byMinimum, wholeDebt)
    {
      if !latch.off {
        latch := latch.(off := true, since := Some(day));
      }
      latch := latch.(byMinimum := latch.byMinimum || byMinimum, all := latch.all || byMinimum || wholeDebt);
      ghost var were := items;
      for i := 0 to |items|
        invariant |items| == |were|
        invariant forall j :: 0 <= j < |items| ==> items[j] == if j < i then LostEarly(were[j]) else were[j]
        modifies this`items
      {
        if items[i].grace && !items[i].lost && items[i].left > 0 {
          items := items[i := items[i].(lost := true, early := true)];
        }
      }
      assert items == AllLostEarly(were);
    }

    method Miss(day: Day)
      modifies this`latch, this`items
      ensures View() == CardWalk.Miss(t, old(View()), day)
    {
      var missed := LosePast(day);
      if (t.graceAllLost || t.graceKind == Running) && missed.Some? {
        TakeOff(missed.value + 1, false, t.graceKind == Running);
      }
    }

    /** The purchases past their last day are lost; the earliest such day is told. */
    method LosePast(day: Day) returns (missed: Option<Day>)
      modifies this`items
      ensures items == AllLostBy(old(items), day) && missed == FirstMissed(old(items), day)
    {
      missed := None;
      ghost var were := items;
      for i := 0 to |items|
        invariant |items| == |were|
        invariant forall j :: 0 <= j < |items| ==> items[j] == if j < i then LostBy(were[j], day) else were[j]
        invariant missed == FirstMissed(were[..i], day)
        modifies this`items
      {
        assert were[..i + 1][..i] == were[..i];
        var it := items[i];
        if it.grace && !it.lost && it.left > 0 && it.LastDay() < day {
          items := items[i := it.(lost := true)];
          if missed.None? || it.LastDay() < missed.value {
            missed := Some(it.LastDay());
          }
        }
      }
      assert were[..|were|] == were;
      assert items == AllLostBy(were, day);
    }

    method CloseMinimum(day: Day)
      modifies this
      ensures View() == CardWalk.CloseMinimum(t, old(View()), day)
    {
      if minimum.on.Some? && minimum.on.value < day {
        var dueDay := minimum.on.value;
        minimum := minimum.(on := None);
        if minimum.paid < minimum.due {
          late := late.(overdue := late.overdue + minimum.due - minimum.paid);
          if t.graceAllLost {
            TakeOff(dueDay + 1, true, true);
          }
          if t.missedMinimumPeriod {
            LosePeriod(t.StatementAfter(minimum.from, 1));
          }
        }
      }
    }

    method LosePeriod(until: Day)
      modifies this`periodLostUntil, this`items
      ensures View() == CardWalk.LosePeriod(old(View()), until)
    {
      periodLostUntil := Some(until);
      ghost var were := items;
      for i := 0 to |items|
        invariant |items| == |were|
        invariant forall j :: 0 <= j < |items| ==>
                    items[j] == if j < i then LostInPeriod(were[j], minimum.from, until) else were[j]
        modifies this`items
      {
        var it := items[i];
        if it.grace && !it.lost && it.left > 0 && minimum.from <= it.on && it.on < until {
          items := items[i := it.(lost := true, early := true)];
        }
      }
      assert items == AllLostInPeriod(were, minimum.from, until);
    }

    method ShowStatement(day: Day)
      requires t.Valid() && PlansRun(plans)
      modifies this
      ensures View() == CardWalk.ShowStatement(t, old(View()), day)
    {
      hide Parts, Owed, AllShown, Terms.Minimum, Terms.DueOn, Terms.Period;
      if t.Period(day).0 == day {
        var parts := ShowParts(day);
        partsUnpaid := partsUnpaid + parts;
        var debt := OwedOf(Anything);
        var charges := OwedOf(Charges);
        minimum := Stated(t.Minimum(debt - credit, charges) + parts, Some(t.DueOn(day)), day, 0);
      }
    }

    method ShowParts(day: Day) returns (parts: int)
      requires PlansRun(plans)
      modifies this`plans
      ensures plans == AllShown(old(plans), day)
      ensures parts == Parts(old(plans), day)
    {
      parts := 0;
      ghost var were := plans;
      for i := 0 to |plans|
        invariant |plans| == |were|
        invariant forall j :: 0 <= j < |plans| ==> plans[j] == if j < i then Shown(were[j], day) else were[j]
        invariant parts == Parts(were[..i], day)
        modifies this`plans
      {
        assert were[..i + 1][..i] == were[..i];
        var p := plans[i];
        if p.billed < p.plan.months && p.on < day {
          var principal, fee := p.Principal(), p.PartFee();
          plans := plans[i := p.(billed := p.billed + 1, left := p.left - principal)];
          parts := parts + principal + fee;
        }
      }
      assert were[..|were|] == were;
      assert plans == AllShown(were, day);
    }

    method TakeIn(amount: int)
      modifies this
      ensures View() == CardWalk.TakeIn(old(View()), amount)
    {
      hide PayItems, Owed, CardWalk.Pay;
      var toParts := Min(partsUnpaid, amount);
      partsUnpaid := partsUnpaid - toParts;
      Pay(amount - toParts);
      var toOverdue := Min(late.overdue, amount);
      late := late.(overdue := late.overdue - toOverdue);
      minimum := minimum.(paid := minimum.paid + amount - toOverdue);
      Repaid();
    }

    /** The grace is restored once what restores it is repaid, and a running one ends with the debt. */
    method Repaid()
      modifies this`restored, this`run
      ensures restored == (old(restored) || (latch.off && Owed(items, if latch.all then Anything else Purchases) == 0))
      ensures run == if Owed(items, Anything) <= credit then None else old(run)
    {
      hide Owed;
      var toRestore := OwedOf(if latch.all then Anything else Purchases);
      restored := restored || (latch.off && toRestore == 0);
      var owed := OwedOf(Anything);
      if owed <= credit {
        run := None;
      }
    }

    method TakeOut(row: Row)
      requires t.Valid()
      modifies this
      ensures View() == CardWalk.TakeOut(t, kinds, old(View()), row)
    {
      hide NewItem, RunAfter, Kinds.PlanOf;
      ghost var before := View();
      var owed := -row.amount;
      var take := Min(credit, owed);
      credit := credit - take;
      var plan := kinds.PlanOf(t, row);
      if plan.Some? && owed > take {
        owed := owed - take;
        plans := plans + [Installment(row.id, row.on, owed, plan.value, 0, owed)];
        return;
      }
      owed := owed - take;
      if owed > 0 {
        CreditMakesNoItem(t, kinds, before, row, owed, credit);
        var it := Debit(row, owed);
        items := items + [it];
      }
    }

    /** The debit of a row, and the running grace it may begin. */
    method Debit(row: Row, owed: int) returns (it: Item)
      requires t.Valid()
      modifies this`run
      ensures it == NewItem(t, kinds, old(View()), row, owed)
              && View() == old(View()).(run := RunAfter(t, old(View()), it))
    {
      hide NewRun, Terms.Group, Terms.Deadline, Kinds.PeriodsOf, Kinds.Purchase, Kinds.MovedOff, Kinds.Charge;
      var (from, to) := t.Group(row.on);
      var grace := kinds.Purchase(row) || (t.graceMoves && kinds.MovedOff(row));
      it := Item(row.on, owed, grace, kinds.Charge(row), 0, false, false, from, to, None);
      if it.grace {
        it := it.(deadline := t.Deadline(row.on, kinds.PeriodsOf(t, row)));
        if t.graceKind == Running && !latch.off {
          if run.None? {
            run := Some(NewRun(t, row.on));
          }
          it := it.(from := run.value.from, to := run.value.to, deadline := run.value.deadline,
                    extended := run.value.extended);
        }
        it := it.(lost := latch.off, early := latch.off);
        if periodLostUntil.Some? && row.on < periodLostUntil.value {
          it := it.(lost := true, early := true);
        }
      }
    }

    method EndDay()
      modifies this
      ensures View() == CardWalk.EndDay(t, old(View()))
    {
      if restored {
        latch, run := HELD, None;
      }
      restored := false;
      if late.overdue > 0 {
        late := late.(days := late.days + 1);
        if late.days >= t.penaltyFromDay {
          late := late.(overdueDays := late.overdueDays + late.overdue);
        }
      } else {
        late := late.(overdueDays := 0, days := 0);
      }
    }
  }

  /** A payment has gone over the first i debits, so much of it left. */
  ghost predicate PaidTo(were: seq<Item>, sum: int, items: seq<Item>, i: nat, amount: int)
    requires i <= |items|
  {
    PayItems(were, sum) == (items[..i] + PayItems(items[i..], amount).0, PayItems(items[i..], amount).1)
  }

  lemma PaidStart(were: seq<Item>, sum: int)
    ensures PaidTo(were, sum, were, 0, sum)
  {
    hide PayItems;
    assert were[0..] == were && were[..0] + PayItems(were, sum).0 == PayItems(were, sum).0;
  }

  lemma PaidOn(were: seq<Item>, sum: int, items: seq<Item>, i: nat, amount: int)
    requires i < |items| && amount != 0 && PaidTo(were, sum, items, i, amount)
    ensures var take := Min(items[i].left, amount);
            PaidTo(were, sum, items[i := items[i].(left := items[i].left - take)], i + 1, amount - take)
  {
    hide PayItems;
    PayFront(items, i, amount);
  }

  lemma PaidEnd(were: seq<Item>, sum: int, items: seq<Item>, i: nat, amount: int)
    requires i <= |items| && (i == |items| || amount == 0) && PaidTo(were, sum, items, i, amount)
    ensures PayItems(were, sum) == (items, amount)
  {
    hide PayItems;
    CardInvariants.PayNone(items[i..], amount);
    assert items[..i] + items[i..] == items;
  }

  lemma PayFront(items: seq<Item>, i: nat, amount: int)
    requires i < |items| && amount != 0
    ensures var take := Min(items[i].left, amount);
            var after := items[i := items[i].(left := items[i].left - take)];
            var (rest, over) := PayItems(after[i + 1..], amount - take);
            && items[..i] + PayItems(items[i..], amount).0 == after[..i + 1] + rest
            && PayItems(items[i..], amount).1 == over
  {
    var take := Min(items[i].left, amount);
    var it := items[i].(left := items[i].left - take);
    var after := items[i := it];
    assert items[i..][1..] == items[i + 1..] == after[i + 1..];
    assert after[..i + 1] == items[..i] + [it];
    var rest := PayItems(after[i + 1..], amount - take).0;
    assert PayItems(items[i..], amount).0 == [it] + rest;
    assert items[..i] + ([it] + rest) == (items[..i] + [it]) + rest;
  }

  // ---- The journal ----

  /** The rows the walk reads: of the card's currency, with money, up to today. */
  function Journal(ops: seq<Row>, currency: string, today: Day): seq<Row> {
    if ops == [] then []
    else
      var op := ops[|ops| - 1];
      var rest := Journal(ops[..|ops| - 1], currency, today);
      if op.currency == currency && op.amount != 0 && op.on <= today then rest + [op] else rest
  }

  predicate SortedByDay(rows: seq<Row>) {
    forall i, j :: 0 <= i <= j < |rows| ==> rows[i].on <= rows[j].on
  }

  /** The row after those of its day or earlier. */
  function InsertByDay(rows: seq<Row>, row: Row): seq<Row> {
    if rows == [] || rows[|rows| - 1].on <= row.on then rows + [row]
    else InsertByDay(rows[..|rows| - 1], row) + [rows[|rows| - 1]]
  }

  /** The stable sort by day. */
  function SortByDay(rows: seq<Row>): seq<Row> {
    if rows == [] then [] else InsertByDay(SortByDay(rows[..|rows| - 1]), rows[|rows| - 1])
  }

  lemma RowsOnPush(rows: seq<Row>, row: Row, day: Day)
    ensures RowsOn(rows + [row], day) == RowsOn(rows, day) + (if row.on == day then [row] else [])
  {
    assert (rows + [row])[..|rows|] == rows;
  }

  lemma {:induction false} InsertKeepsOrder(rows: seq<Row>, row: Row)
    requires SortedByDay(rows)
    ensures SortedByDay(InsertByDay(rows, row))
    ensures forall x :: x in InsertByDay(rows, row) <==> x in rows || x == row
    ensures |InsertByDay(rows, row)| == |rows| + 1
    decreases |rows|
  {
    if rows != [] && rows[|rows| - 1].on > row.on {
      var n := |rows| - 1;
      var before := InsertByDay(rows[..n], row);
      InsertKeepsOrder(rows[..n], row);
      assert rows == rows[..n] + [rows[n]];
      forall x | x in before ensures x.on <= rows[n].on {
      }
    }
  }

  lemma {:induction false} InsertIsStable(rows: seq<Row>, row: Row, day: Day)
    ensures RowsOn(InsertByDay(rows, row), day) == RowsOn(rows, day) + (if row.on == day then [row] else [])
    decreases |rows|
  {
    hide RowsOn;
    if rows == [] || rows[|rows| - 1].on <= row.on {
      RowsOnPush(rows, row, day);
    } else {
      var n := |rows| - 1;
      var before, last := rows[..n], rows[n];
      InsertIsStable(before, row, day);
      assert rows == before + [last];
      RowsOnPush(InsertByDay(before, row), last, day);
      RowsOnPush(before, last, day);
      assert last.on == day ==> row.on != day;
      assert RowsOn(before, day) + [] == RowsOn(before, day);
    }
  }

  /** Sorting by day keeps the rows of each day, in their order. */
  lemma {:induction false} SortIsStable(rows: seq<Row>, day: Day)
    ensures SortedByDay(SortByDay(rows))
    ensures forall x :: x in SortByDay(rows) <==> x in rows
    ensures |SortByDay(rows)| == |rows|
    ensures RowsOn(SortByDay(rows), day) == RowsOn(rows, day)
    decreases |rows|
  {
    hide RowsOn, InsertByDay;
    if rows == [] {
      NoneOn(rows, day);
    } else {
      var n := |rows| - 1;
      SortIsStable(rows[..n], day);
      InsertKeepsOrder(SortByDay(rows[..n]), rows[n]);
      InsertIsStable(SortByDay(rows[..n]), rows[n], day);
      assert rows == rows[..n] + [rows[n]];
      RowsOnPush(rows[..n], rows[n], day);
    }
  }

  /** The first day of a journal's rows; today when there are none. */
  function FirstDay(rows: seq<Row>, today: Day): (d: Day)
    ensures rows != [] ==> (forall x :: x in rows ==> d <= x.on) && exists x :: x in rows && x.on == d
  {
    if rows == [] then today
    else if |rows| == 1 then rows[0].on
    else
      assert rows == rows[..|rows| - 1] + [rows[|rows| - 1]];
      Min(FirstDay(rows[..|rows| - 1], today), rows[|rows| - 1].on)
  }

  lemma {:induction false} RowsOnSplit(rows: seq<Row>, k: nat, day: Day)
    requires k <= |rows|
    ensures RowsOn(rows, day) == RowsOn(rows[..k], day) + RowsOn(rows[k..], day)
    decreases |rows|
  {
    if k == |rows| {
      assert rows[..k] == rows && rows[k..] == [];
    } else {
      var n := |rows| - 1;
      RowsOnSplit(rows[..n], k, day);
      assert rows[..n][..k] == rows[..k];
      assert rows[..n][k..] == rows[k..][..n - k];
      assert rows[k..][n - k] == rows[n];
    }
  }

  lemma {:induction false} NoneOn(rows: seq<Row>, day: Day)
    requires forall x :: x in rows ==> x.on != day
    ensures RowsOn(rows, day) == []
  {
    if rows != [] {
      NoneOn(rows[..|rows| - 1], day);
    }
  }

  lemma {:induction false} SameDaysSameWalk(t: Terms, kinds: Kinds, a: seq<Row>, b: seq<Row>, first: Day, day: Day)
    requires t.Valid()
    requires forall d :: d <= day ==> RowsOn(a, d) == RowsOn(b, d)
    ensures WalkTo(t, kinds, a, first, day) == WalkTo(t, kinds, b, first, day)
    decreases day - first
  {
    hide DayStep, RowsOn;
    if first <= day {
      SameDaysSameWalk(t, kinds, a, b, first, day - 1);
    }
  }

  lemma {:induction false} JournalOn(ops: seq<Row>, currency: string, today: Day, later: Day, day: Day)
    requires day <= today <= later
    ensures RowsOn(Journal(ops, currency, today), day) == RowsOn(Journal(ops, currency, later), day)
    decreases |ops|
  {
    if ops != [] {
      var before := ops[..|ops| - 1];
      JournalOn(before, currency, today, later, day);
      var a, b := Journal(before, currency, today), Journal(before, currency, later);
      var op := ops[|ops| - 1];
      assert (a + [op])[..|a|] == a && (b + [op])[..|b|] == b;
    }
  }

  /** The state the walk of a journal ends today in. */
  function Walked(t: Terms, kinds: Kinds, ops: seq<Row>, currency: string, today: Day): (r: Walk)
    requires t.Valid()
    ensures PlansRun(r.plans)
  {
    var rows := Journal(ops, currency, today);
    WalkTo(t, kinds, rows, FirstDay(rows, today), today)
  }

  lemma {:induction false} JournalUpTo(ops: seq<Row>, currency: string, today: Day)
    ensures forall x ::
              x in Journal(ops, currency, today)
              <==> x in ops && x.currency == currency && x.amount != 0 && x.on <= today
    decreases |ops|
  {
    if ops != [] {
      JournalUpTo(ops[..|ops| - 1], currency, today);
      assert ops == ops[..|ops| - 1] + [ops[|ops| - 1]];
    }
  }

  // ---- The loop over the days ----

  /** One day of the walk: the morning's losses and statement, the day's rows, the evening. */
  method WalkDay(w: Walker, rows: seq<Row>, day: Day, from: nat) returns (k: nat)
    requires w.t.Valid() && PlansRun(w.plans)
    requires from <= |rows| && SortedByDay(rows)
    requires forall j :: 0 <= j < from ==> rows[j].on < day
    requires forall j :: from <= j < |rows| ==> day <= rows[j].on
    modifies w
    ensures w.View() == DayStep(w.t, w.kinds, old(w.View()), day, RowsOn(rows, day))
    ensures k <= |rows|
    ensures forall j :: 0 <= j < k ==> rows[j].on <= day
    ensures forall j :: k <= j < |rows| ==> day < rows[j].on
  {
    hide CardWalk.CloseMinimum, CardWalk.ShowStatement, CardWalk.Miss, TakeRows, CardWalk.EndDay, RowsOn;
    w.CloseMinimum(day);
    CardInvariants.ClosePlans(w.t, old(w.View()), day);
    w.ShowStatement(day);
    w.Miss(day);
    k := TakeDay(w, rows, day, from);
    RowsOfDay(rows, from, k, day);
    w.EndDay();
  }

  /** The rows of a day from the index on. */
  method TakeDay(w: Walker, rows: seq<Row>, day: Day, from: nat) returns (k: nat)
    requires w.t.Valid() && from <= |rows| && SortedByDay(rows)
    requires forall j :: from <= j < |rows| ==> day <= rows[j].on
    modifies w
    ensures from <= k <= |rows| && w.View() == TakeRows(w.t, w.kinds, old(w.View()), RowsOn(rows[from..k], day))
    ensures forall j :: from <= j < k ==> rows[j].on == day
    ensures forall j :: k <= j < |rows| ==> day < rows[j].on
  {
    hide CardWalk.TakeIn, CardWalk.TakeOut, RowsOn, TakeRows;
    k := from;
    assert RowsOn(rows[from..k], day) == [] by { NoneOn([], day); assert rows[from..k] == []; }
    TakeNone(w.t, w.kinds, w.View());
    while k < |rows| && rows[k].on == day
      invariant from <= k <= |rows|
      invariant forall j :: from <= j < k ==> rows[j].on == day
      invariant w.View() == TakeRows(w.t, w.kinds, old(w.View()), RowsOn(rows[from..k], day))
    {
      var op := rows[k];
      RowJoins(rows, from, k, day);
      TakeOneMore(w.t, w.kinds, old(w.View()), RowsOn(rows[from..k], day), op);
      if op.amount > 0 {
        w.TakeIn(op.amount);
      } else {
        w.TakeOut(op);
      }
      k := k + 1;
    }
  }

  lemma CreditMakesNoItem(t: Terms, kinds: Kinds, s: Walk, row: Row, left: int, credit: int)
    requires t.Valid()
    ensures var a, b := NewItem(t, kinds, s.(credit := credit), row, left), NewItem(t, kinds, s, row, left);
            a == b && RunAfter(t, s.(credit := credit), a) == RunAfter(t, s, b)
  {
    hide NewRun, Terms.Group, Terms.Deadline, Kinds.PeriodsOf, Kinds.Purchase, Kinds.MovedOff, Kinds.Charge;
  }

  lemma TakeNone(t: Terms, kinds: Kinds, s: Walk)
    requires t.Valid()
    ensures TakeRows(t, kinds, s, []) == s
  {
  }

  lemma TakeOneMore(t: Terms, kinds: Kinds, s: Walk, rows: seq<Row>, row: Row)
    requires t.Valid()
    ensures TakeRows(t, kinds, s, rows + [row]) == TakeRow(t, kinds, TakeRows(t, kinds, s, rows), row)
  {
    hide TakeRow;
    assert (rows + [row])[..|rows|] == rows;
  }

  lemma RowJoins(rows: seq<Row>, from: nat, k: nat, day: Day)
    requires from <= k < |rows| && rows[k].on == day
    ensures RowsOn(rows[from..k + 1], day) == RowsOn(rows[from..k], day) + [rows[k]]
  {
    assert rows[from..k + 1][..k - from] == rows[from..k];
    assert rows[from..k + 1][k - from] == rows[k];
  }

  lemma RowsOfDay(rows: seq<Row>, from: nat, k: nat, day: Day)
    requires from <= k <= |rows|
    requires forall j :: 0 <= j < from ==> rows[j].on < day
    requires forall j :: k <= j < |rows| ==> day < rows[j].on
    ensures RowsOn(rows, day) == RowsOn(rows[from..k], day)
  {
    hide RowsOn;
    RowsOnSplit(rows, k, day);
    RowsOnSplit(rows[..k], from, day);
    assert rows[..k][..from] == rows[..from] && rows[..k][from..] == rows[from..k];
    NoneOn(rows[..from], day);
    NoneOn(rows[k..], day);
  }

  method Select(ops: seq<Row>, currency: string, today: Day) returns (journal: seq<Row>)
    ensures journal == Journal(ops, currency, today)
  {
    journal := [];
    for i := 0 to |ops|
      invariant journal == Journal(ops[..i], currency, today)
    {
      assert ops[..i + 1][..i] == ops[..i];
      if ops[i].currency == currency && ops[i].amount != 0 && ops[i].on <= today {
        journal := journal + [ops[i]];
      }
    }
    assert ops[..|ops|] == ops;
  }

  /** The walk `Work` makes: the journal sorted by day and walked with one index over it. */
  method WalkJournal(t: Terms, kinds: Kinds, ops: seq<Row>, currency: string, today: Day) returns (w: Walker)
    requires t.Valid()
    ensures fresh(w) && w.t == t && w.kinds == kinds
    ensures w.View() == Walked(t, kinds, ops, currency, today)
  {
    hide WalkTo, RowsOn, SortByDay, FirstDay, Journal;
    var journal := Select(ops, currency, today);
    JournalUpTo(ops, currency, today);
    var rows := SortByDay(journal);
    SortIsStable(journal, today);
    FirstIsFirst(journal, today);
    w := WalkSorted(t, kinds, rows, today);
    SortedSameWalk(t, kinds, journal, if |rows| > 0 then rows[0].on else today, today);
  }

  lemma SortedSameWalk(t: Terms, kinds: Kinds, journal: seq<Row>, first: Day, today: Day)
    requires t.Valid()
    ensures WalkTo(t, kinds, SortByDay(journal), first, today) == WalkTo(t, kinds, journal, first, today)
  {
    hide WalkTo, RowsOn, SortByDay;
    forall d | d <= today ensures RowsOn(SortByDay(journal), d) == RowsOn(journal, d) {
      SortIsStable(journal, d);
    }
    SameDaysSameWalk(t, kinds, SortByDay(journal), journal, first, today);
  }

  method WalkSorted(t: Terms, kinds: Kinds, rows: seq<Row>, today: Day) returns (w: Walker)
    requires t.Valid() && SortedByDay(rows) && forall x :: x in rows ==> x.on <= today
    ensures fresh(w) && w.t == t && w.kinds == kinds
    ensures w.View() == WalkTo(t, kinds, rows, if |rows| > 0 then rows[0].on else today, today)
  {
    hide DayStep, RowsOn;
    var first := today;
    if |rows| > 0 {
      first := rows[0].on;
      assert rows[0] in rows;
    }
    w := new Walker(t, kinds);
    var k := 0;
    var day := first;
    while day <= today
      invariant first <= day <= today + 1
      invariant w.t == t && w.kinds == kinds && 0 <= k <= |rows|
      invariant forall j :: 0 <= j < k ==> rows[j].on < day
      invariant forall j :: k <= j < |rows| ==> day <= rows[j].on
      invariant w.View() == WalkTo(t, kinds, rows, first, day - 1)
      decreases today + 1 - day
    {
      assert PlansRun(w.View().plans);
      k := WalkDay(w, rows, day, k);
      day := day + 1;
    }
  }

  lemma FirstIsFirst(journal: seq<Row>, today: Day)
    requires forall x :: x in journal ==> x.on <= today
    ensures var rows := SortByDay(journal);
            && FirstDay(journal, today) == (if |rows| > 0 then rows[0].on else today)
            && FirstDay(journal, today) <= today
            && forall j :: 0 <= j < |rows| ==> FirstDay(journal, today) <= rows[j].on
  {
    hide RowsOn, SortByDay;
    var rows := SortByDay(journal);
    var first := FirstDay(journal, today);
    SortIsStable(journal, today);
    if journal != [] {
      var x :| x in journal && x.on == first;
      assert x in rows;
      assert rows[0] in rows;
      forall j | 0 <= j < |rows| ensures first <= rows[j].on {
        assert rows[j] in rows;
      }
    }
  }
}
