/** Payments clear the oldest debt first: what is left of each debit is a closed form of the
    totals owed and paid. */
module CardFifo {
  import opened Calendar
  import opened Rounding
  import opened CardTerms
  import opened CardWalk
  import opened CardInvariants

  /** What is owed for the first k debits. */
  function Upto(items: seq<Item>, k: nat): int
    requires k <= |items|
  {
    Owed(items[..k], Anything)
  }

  /** A payment is taken off the oldest debits: the first k owe what they did less the payment,
      and never less than nothing. */
  lemma {:induction false} PayTakesOldest(items: seq<Item>, amount: int, k: nat)
    requires LeftsSound(items) && 0 <= amount && k <= |items|
    ensures Upto(PayItems(items, amount).0, k) == Max(0, Upto(items, k) - amount)
    decreases |items|
  {
    hide Counts;
    OwedNotNegative(items[..k]);
    if items == [] || amount == 0 || k == 0 {
    } else {
      var take := Min(items[0].left, amount);
      var (paid, over) := PayItems(items, amount);
      var rest := PayItems(items[1..], amount - take).0;
      PayTakesOldest(items[1..], amount - take, k - 1);
      assert rest == paid[1..];
      OwedHead(items, k);
      OwedHead(paid, k);
      OwedNotNegative(items[1..][..k - 1]);
    }
  }

  lemma OwedHead(items: seq<Item>, k: nat)
    requires 0 < k <= |items|
    ensures Upto(items, k) == items[0].left + Upto(items[1..], k - 1)
  {
    OwedSplit(items[..k], 1, Anything);
    assert items[..k][..1] == [] + [items[0]];
    OwedPush([], items[0], Anything);
    assert items[..k][1..] == items[1..][..k - 1];
  }

  lemma OwedLast(items: seq<Item>, k: nat)
    requires k < |items|
    ensures Upto(items, k + 1) == Upto(items, k) + items[k].left
  {
    assert items[..k + 1] == items[..k] + [items[k]];
    OwedPush(items[..k], items[k], Anything);
  }

  lemma {:induction false} OwedNotNegative(items: seq<Item>)
    requires LeftsSound(items)
    ensures 0 <= Owed(items, Anything)
    ensures NothingOwed(items) ==> Owed(items, Anything) == 0
    decreases |items|
  {
    if items != [] {
      OwedNotNegative(items[..|items| - 1]);
    }
  }

  lemma {:induction false} UptoGrows(items: seq<Item>, k: nat, m: nat)
    requires LeftsSound(items) && k <= m <= |items|
    ensures 0 <= Upto(items, k) <= Upto(items, m)
    decreases m - k
  {
    OwedNotNegative(items[..k]);
    if k < m {
      UptoGrows(items, k, m - 1);
      OwedLast(items, m - 1);
    }
  }

  // ---- The closed form over a journal ----

  /** A debit by the journal: its own size, and all that was ever owed up to and with it. */
  datatype Debit = Debit(upto: int, size: int)

  /** The walk with the journal's totals beside it: `spent` all that was owed through the debits
      and the family's own money, `paid` all that was paid toward them. */
  datatype Trace = Trace(walk: Walk, debits: seq<Debit>, spent: int, paid: int)

  function TraceRow(t: Terms, kinds: Kinds, tr: Trace, row: Row): Trace
    requires t.Valid()
  {
    var after := TakeRow(t, kinds, tr.walk, row);
    if row.amount > 0 then
      Trace(after, tr.debits, tr.spent, tr.paid + row.amount - Min(tr.walk.partsUnpaid, row.amount))
    else if |after.plans| > |tr.walk.plans| then
      Trace(after, tr.debits, tr.spent + Min(tr.walk.credit, -row.amount), tr.paid)
    else
      Trace(after, if |after.items| > |tr.walk.items| then tr.debits + [Debit(tr.spent - row.amount, -row.amount)]
            else tr.debits,
            tr.spent - row.amount, tr.paid)
  }

  function TraceRows(t: Terms, kinds: Kinds, tr: Trace, rows: seq<Row>): (r: Trace)
    requires t.Valid()
    ensures r.walk == TakeRows(t, kinds, tr.walk, rows)
  {
    if rows == [] then tr else TraceRow(t, kinds, TraceRows(t, kinds, tr, rows[..|rows| - 1]), rows[|rows| - 1])
  }

  function TraceTo(t: Terms, kinds: Kinds, rows: seq<Row>, first: Day, day: Day): (r: Trace)
    requires t.Valid()
    ensures r.walk == WalkTo(t, kinds, rows, first, day)
    decreases day - first
  {
    hide Morning, TakeRows, EndDay, TraceRows;
    if day < first then Trace(START, [], 0, 0)
    else
      var tr := TraceTo(t, kinds, rows, first, day - 1);
      var after := TraceRows(t, kinds, tr.(walk := Morning(t, tr.walk, day)), RowsOn(rows, day));
      after.(walk := EndDay(t, after.walk))
  }

  function LastUpto(debits: seq<Debit>): int {
    if debits == [] then 0 else debits[|debits| - 1].upto
  }

  predicate Chained(tr: Trace) {
    && forall i :: 0 <= i < |tr.debits| ==>
        && 0 < tr.debits[i].size
        && LastUpto(tr.debits[..i]) <= tr.debits[i].upto - tr.debits[i].size <= Max(LastUpto(tr.debits[..i]), tr.paid)
  }

  /** What the first debits owe is what was ever owed up to the last of them less what was paid. */
  predicate PaidOldest(tr: Trace) {
    && |tr.debits| == |tr.walk.items|
    && forall k :: 0 <= k < |tr.debits| ==> Upto(tr.walk.items, k + 1) == Max(0, tr.debits[k].upto - tr.paid)
  }

  predicate Balanced(tr: Trace) {
    && 0 <= tr.paid
    && tr.walk.credit == Max(0, tr.paid - tr.spent)
    && LastUpto(tr.debits) <= tr.spent <= Max(LastUpto(tr.debits), tr.paid)
  }

  predicate Fifo(tr: Trace) {
    Chained(tr) && PaidOldest(tr) && Balanced(tr)
  }

  function Clamp(x: int, size: int): int {
    Max(0, Min(x, size))
  }

  lemma FifoClamps(tr: Trace, k: nat)
    requires Fifo(tr) && k < |tr.walk.items|
    ensures tr.walk.items[k].left == Clamp(tr.debits[k].upto - tr.paid, tr.debits[k].size)
  {
    hide Owed;
    OwedLast(tr.walk.items, k);
    if k > 0 {
      assert LastUpto(tr.debits[..k]) == tr.debits[k - 1].upto;
      assert Upto(tr.walk.items, k) == Max(0, tr.debits[k - 1].upto - tr.paid);
    } else {
      assert Upto(tr.walk.items, 0) == 0 by { EmptyOwesNothing(tr.walk.items); }
    }
  }

  lemma EmptyOwesNothing(items: seq<Item>)
    ensures Upto(items, 0) == 0
  {
  }

  /** After a payment the first debits owe what they did less the payment. */
  lemma PaidOldestOn(tr: Trace, amount: int, after: Trace)
    requires PaidOldest(tr) && LeftsSound(tr.walk.items) && 0 <= amount
    requires after.walk.items == PayItems(tr.walk.items, amount).0
    requires after.debits == tr.debits && after.paid == tr.paid + amount
    ensures PaidOldest(after)
  {
    hide Owed, PayItems;
    forall k | 0 <= k < |tr.debits| ensures Upto(after.walk.items, k + 1) == Max(0, tr.debits[k].upto - after.paid) {
      PayTakesOldest(tr.walk.items, amount, k + 1);
      assert Upto(tr.walk.items, k + 1) == Max(0, tr.debits[k].upto - tr.paid);
    }
  }

  lemma OwedInAll(tr: Trace)
    requires PaidOldest(tr)
    ensures Owed(tr.walk.items, Anything) == if tr.debits == [] then 0 else Max(0, LastUpto(tr.debits) - tr.paid)
  {
    AllItems(tr.walk.items);
    if tr.debits != [] {
      assert Upto(tr.walk.items, |tr.debits| - 1 + 1) == Max(0, tr.debits[|tr.debits| - 1].upto - tr.paid);
    }
  }

  lemma BalancedOn(tr: Trace, amount: int, after: Trace)
    requires Balanced(tr) && PaidOldest(tr) && PaidOldest(after) && 0 <= amount
    requires after.walk.items == PayItems(tr.walk.items, amount).0
    requires after.walk.credit == tr.walk.credit + PayItems(tr.walk.items, amount).1
    requires after.debits == tr.debits && after.paid == tr.paid + amount && after.spent == tr.spent
    requires Chained(tr)
    ensures Balanced(after)
  {
    hide Owed, PayItems, PaidOldest, Chained;
    PayConserves(tr.walk.items, amount);
    OwedInAll(tr);
    OwedInAll(after);
  }

  lemma ChainedOn(tr: Trace, after: Trace)
    requires Chained(tr) && after.debits == tr.debits && tr.paid <= after.paid
    ensures Chained(after)
  {
  }

  lemma PayKeepsFifo(tr: Trace, row: Row, t: Terms, kinds: Kinds)
    requires t.Valid() && Fifo(tr) && Sound(tr.walk) && row.amount > 0
    ensures Fifo(TraceRow(t, kinds, tr, row))
  {
    hide Owed, PayItems, Sound, Balanced, PaidOldest, Chained;
    SoundParts(tr.walk);
    var amount := row.amount - Min(tr.walk.partsUnpaid, row.amount);
    var after := TraceRow(t, kinds, tr, row);
    PaidOldestOn(tr, amount, after);
    BalancedOn(tr, amount, after);
    ChainedOn(tr, after);
  }

  lemma AllItems(items: seq<Item>)
    ensures Upto(items, |items|) == Owed(items, Anything)
  {
    assert items[..|items|] == items;
  }

  /** A new debit at the end of the queue. */
  lemma AddDebit(tr: Trace, it: Item, size: int, after: Trace)
    requires Fifo(tr) && 0 < size && tr.walk.credit < size
    requires after.walk.items == tr.walk.items + [it] && it.left == size - tr.walk.credit
    requires after.debits == tr.debits + [Debit(tr.spent + size, size)]
    requires after.spent == tr.spent + size && after.paid == tr.paid && after.walk.credit == 0
    ensures Fifo(after)
  {
    hide Owed, Chained, PaidOldest;
    OwedInAll(tr);
    PaidOldestPush(tr, it, size, after);
    ChainedPush(tr, Debit(tr.spent + size, size), after);
  }

  lemma PaidOldestPush(tr: Trace, it: Item, size: int, after: Trace)
    requires PaidOldest(tr)
    requires after.walk.items == tr.walk.items + [it] && after.paid == tr.paid
    requires after.debits == tr.debits + [Debit(tr.spent + size, size)]
    requires Owed(tr.walk.items, Anything) + it.left == Max(0, tr.spent + size - tr.paid)
    ensures PaidOldest(after)
  {
    hide Owed, Upto;
    var n := |tr.walk.items|;
    forall k | 0 <= k <= n ensures Upto(after.walk.items, k + 1) == Max(0, after.debits[k].upto - tr.paid) {
      if k < n {
        UptoPush(tr.walk.items, it, k + 1);
        assert Upto(tr.walk.items, k + 1) == Max(0, tr.debits[k].upto - tr.paid);
      } else {
        OwedLast(after.walk.items, n);
        UptoPush(tr.walk.items, it, n);
        AllItems(tr.walk.items);
      }
    }
  }

  lemma UptoPush(items: seq<Item>, it: Item, k: nat)
    requires k <= |items|
    ensures Upto(items + [it], k) == Upto(items, k)
  {
    assert (items + [it])[..k] == items[..k];
  }

  lemma ChainedPush(tr: Trace, d: Debit, after: Trace)
    requires Chained(tr) && after.debits == tr.debits + [d] && after.paid == tr.paid
    requires 0 < d.size && LastUpto(tr.debits) <= d.upto - d.size <= Max(LastUpto(tr.debits), tr.paid)
    ensures Chained(after)
  {
    forall i | 0 <= i < |after.debits| ensures after.debits[..i] == tr.debits[..i] {
    }
    assert tr.debits[..|tr.debits|] == tr.debits;
  }

  lemma SpendKeepsFifo(tr: Trace, row: Row, t: Terms, kinds: Kinds)
    requires t.Valid() && Fifo(tr) && Sound(tr.walk) && row.amount <= 0
    ensures Fifo(TraceRow(t, kinds, tr, row))
  {
    hide Owed, Sound, NewItem, RunAfter, Kinds.PlanOf, Fifo;
    var w := tr.walk;
    var after := TraceRow(t, kinds, tr, row);
    SoundCredit(w);
    if |after.walk.items| > |w.items| {
      var owed := -row.amount - Min(w.credit, -row.amount);
      NewItemSound(t, kinds, w, row, owed);
      AddDebit(tr, NewItem(t, kinds, w, row, owed), -row.amount, after);
    } else {
      CreditSpent(tr, Min(w.credit, -row.amount), after);
    }
  }

  lemma SoundCredit(s: Walk)
    requires Sound(s)
    ensures 0 <= s.credit
  {
  }

  /** The family's own money spent: nothing was owed, and nothing is. */
  lemma CreditSpent(tr: Trace, take: int, after: Trace)
    requires Fifo(tr) && 0 <= take <= tr.walk.credit
    requires after.walk.items == tr.walk.items && after.debits == tr.debits && after.paid == tr.paid
    requires after.spent == tr.spent + take && after.walk.credit == tr.walk.credit - take
    ensures Fifo(after)
  {
    hide Owed, Upto;
  }

  lemma {:induction false} RowsKeepFifo(t: Terms, kinds: Kinds, tr: Trace, rows: seq<Row>)
    requires t.Valid() && kinds.Valid() && Fifo(tr) && Sound(tr.walk)
    ensures Fifo(TraceRows(t, kinds, tr, rows))
    decreases |rows|
  {
    hide Fifo, Sound, TraceRow, TakeRow;
    if rows != [] {
      var before := rows[..|rows| - 1];
      RowsKeepFifo(t, kinds, tr, before);
      TakeRowsSteps(t, kinds, tr.walk, before);
      var a := TraceRows(t, kinds, tr, before);
      if rows[|rows| - 1].amount > 0 {
        PayKeepsFifo(a, rows[|rows| - 1], t, kinds);
      } else {
        SpendKeepsFifo(a, rows[|rows| - 1], t, kinds);
      }
    }
  }

  /** A step that keeps every debit's remainder and the money on the card keeps the closed form. */
  lemma QuietKeepsFifo(tr: Trace, after: Walk)
    requires Fifo(tr)
    requires Quiet(tr.walk, after)
    ensures Fifo(tr.(walk := after))
  {
    hide Owed, Chained;
    forall k | 0 <= k < |tr.debits| ensures Upto(after.items, k + 1) == Max(0, tr.debits[k].upto - tr.paid) {
      assert Upto(tr.walk.items, k + 1) == Max(0, tr.debits[k].upto - tr.paid);
      OwedIsPointwise(after.items[..k + 1], tr.walk.items[..k + 1], Anything);
    }
    assert Chained(tr.(walk := after)) by { ChainedAlone(tr, after); }
  }

  lemma ChainedAlone(tr: Trace, after: Walk)
    requires Chained(tr)
    ensures Chained(tr.(walk := after))
  {
  }

  predicate Quiet(s: Walk, after: Walk) {
    && after.credit == s.credit && |after.items| == |s.items|
    && forall i :: 0 <= i < |s.items| ==> after.items[i].left == s.items[i].left
  }

  lemma MorningIsQuiet(t: Terms, s: Walk, day: Day)
    requires t.Valid() && PlansRun(s.plans)
    ensures Quiet(s, Morning(t, s, day))
  {
    hide CloseMinimum, ShowStatement, Miss;
    var a := CloseMinimum(t, s, day);
    ClosePlans(t, s, day);
    CloseIsQuiet(t, s, day);
    var b := ShowStatement(t, a, day);
    assert Quiet(a, b) by { StatementIsQuiet(t, a, day); }
    MissIsQuiet(t, b, day);
  }

  lemma StatementIsQuiet(t: Terms, s: Walk, day: Day)
    requires t.Valid() && PlansRun(s.plans)
    ensures ShowStatement(t, s, day).items == s.items && ShowStatement(t, s, day).credit == s.credit
  {
    hide Terms.Period, Terms.Minimum, Terms.DueOn, Parts, Owed, AllShown;
  }

  lemma CloseIsQuiet(t: Terms, s: Walk, day: Day)
    ensures Quiet(s, CloseMinimum(t, s, day))
  {
    hide Terms.StatementAfter;
  }

  lemma MissIsQuiet(t: Terms, s: Walk, day: Day)
    ensures Quiet(s, Miss(t, s, day))
  {
    hide FirstMissed;
  }

  lemma {:induction false} TraceIsFifo(t: Terms, kinds: Kinds, rows: seq<Row>, first: Day, day: Day)
    requires t.Valid() && kinds.Valid()
    ensures Fifo(TraceTo(t, kinds, rows, first, day))
    decreases day - first
  {
    hide Sound, Morning, TraceRows, TakeRows, Fifo, EndDay, Quiet, DayStep;
    if first <= day {
      var tr := TraceTo(t, kinds, rows, first, day - 1);
      TraceIsFifo(t, kinds, rows, first, day - 1);
      WalkIsSound(t, kinds, rows, first, day - 1);
      MorningIsQuiet(t, tr.walk, day);
      var a := tr.(walk := Morning(t, tr.walk, day));
      MorningIsSound(t, tr.walk, day);
      QuietKeepsFifo(tr, a.walk);
      RowsKeepFifo(t, kinds, a, RowsOn(rows, day));
      var b := TraceRows(t, kinds, a, RowsOn(rows, day));
      EndIsQuiet(t, b.walk);
      QuietKeepsFifo(b, EndDay(t, b.walk));
    } else {
      StartIsFifo();
    }
  }

  lemma MorningIsSound(t: Terms, s: Walk, day: Day)
    requires t.Valid() && Sound(s) && PlansRun(s.plans)
    ensures Sound(Morning(t, s, day))
  {
    hide Sound, Morning, Evolves, Debt, FeesShown;
    MorningSteps(t, s, day);
  }

  /** On every day of every run what is left of each debit is all that was ever owed up to and
      with it, less all that was paid, clamped to the debit's own size: the oldest is paid first. */
  lemma RemaindersAreClamps(t: Terms, kinds: Kinds, rows: seq<Row>, first: Day, day: Day)
    requires t.Valid() && kinds.Valid()
    ensures var s, tr := WalkTo(t, kinds, rows, first, day), TraceTo(t, kinds, rows, first, day);
            && |tr.debits| == |s.items|
            && s.credit == Max(0, tr.paid - tr.spent)
            && forall k :: 0 <= k < |s.items| ==>
               s.items[k].left == Clamp(tr.debits[k].upto - tr.paid, tr.debits[k].size)
  {
    hide Fifo, WalkTo, TraceTo, Clamp;
    var tr := TraceTo(t, kinds, rows, first, day);
    TraceIsFifo(t, kinds, rows, first, day);
    FifoShape(tr);
    forall k | 0 <= k < |tr.walk.items|
      ensures tr.walk.items[k].left == Clamp(tr.debits[k].upto - tr.paid, tr.debits[k].size)
    {
      FifoClamps(tr, k);
    }
  }

  lemma FifoShape(tr: Trace)
    requires Fifo(tr)
    ensures |tr.debits| == |tr.walk.items| && tr.walk.credit == Max(0, tr.paid - tr.spent)
  {
  }

  lemma EndIsQuiet(t: Terms, s: Walk)
    ensures Quiet(s, EndDay(t, s))
  {
  }

  lemma StartIsFifo()
    ensures Fifo(Trace(START, [], 0, 0))
  {
  }
}
