/** The grace promise: pay each due by its day, and none of today's purchases loses its grace,
    whatever is bought later; miss one, and one does. */
module GracePromise {
  import opened Calendar
  import opened Rounding
  import opened CardTerms
  import opened CardWalk
  import opened CardInvariants
  import opened CardFifo

  /** A grace by statement, long, or in windows, with nothing but a purchase's own last day to
      take it off: no number of statements of a category's own, no installments. */
  predicate Plain(t: Terms, kinds: Kinds) {
    && t.Valid() && kinds.Valid()
    && t.graceKind != Running && !t.graceAllLost && !t.missedMinimumPeriod
    && kinds.graces == map[]
    && t.installment.months == 0
    && forall id :: id in kinds.installments ==> kinds.installments[id].months == 0
  }

  /** What comes in on the days after `since` up to and with `until`. */
  function PaidBetween(rows: seq<Row>, since: Day, until: Day): int
    decreases until - since
  {
    if until <= since then 0 else PaidBetween(rows, since, until - 1) + Inflow(RowsOn(rows, until))
  }

  function Inflow(rows: seq<Row>): int {
    if rows == [] then 0
    else Inflow(rows[..|rows| - 1]) + (if rows[|rows| - 1].amount > 0 then rows[|rows| - 1].amount else 0)
  }

  /** What the covered purchases due by day come to. */
  function OwedBy(items: seq<Item>, day: Day): int {
    if items == [] then 0
    else
      var it := items[|items| - 1];
      OwedBy(items[..|items| - 1], day) + (if it.Covered() && it.deadline <= day then it.left else 0)
  }

  // ---- The shape of the debits under plain terms ----

  /** A walk with no installment and the grace never taken off the whole debt. */
  predicate Calm(s: Walk) {
    s.plans == [] && s.partsUnpaid == 0 && !s.latch.off && s.periodLostUntil.None?
  }

  /** The debits are in the order of their days, none dated after `day`, and each covered one is
      due by its day's deadline. */
  predicate Dated(t: Terms, items: seq<Item>, day: Day)
    requires t.Valid()
  {
    && (forall i :: 0 <= i < |items| ==> items[i].on <= day && items[i].extended.None?)
    && (forall i, j :: 0 <= i <= j < |items| ==> items[i].on <= items[j].on)
    && (forall i :: 0 <= i < |items| && items[i].grace ==> items[i].deadline == t.Deadline(items[i].on, t.gracePeriods))
  }

  /** What one debit does at the start of a day under plain terms. */
  lemma CalmMorning(t: Terms, kinds: Kinds, s: Walk, day: Day)
    requires Plain(t, kinds) && Calm(s)
    ensures Morning(t, s, day).items == AllLostBy(s.items, day)
    ensures Morning(t, s, day).credit == s.credit
    ensures Calm(Morning(t, s, day))
  {
    hide Terms.Period, Terms.Minimum, Terms.DueOn, Owed, FirstMissed;
    assert Parts([], day) == 0;
    assert AllShown([], day) == [];
  }

  lemma NoPlan(t: Terms, kinds: Kinds, row: Row)
    requires Plain(t, kinds)
    ensures kinds.PlanOf(t, row).None?
  {
  }

  lemma CalmNewItem(t: Terms, kinds: Kinds, s: Walk, row: Row, left: int)
    requires Plain(t, kinds) && Calm(s)
    ensures var it := NewItem(t, kinds, s, row, left);
            && it.on == row.on && it.left == left && it.extended.None? && !it.lost
            && (it.grace ==> it.deadline == t.Deadline(row.on, t.gracePeriods))
  {
    hide Terms.Group, Terms.Deadline, NewRun;
  }

  /** What the rows of a day do to the debits there were: payments clear the oldest first. */
  predicate PaidDown(items: seq<Item>, after: seq<Item>, paid: int) {
    && |items| <= |after|
    && (forall i :: 0 <= i < |items| ==> after[i].lost == items[i].lost)
    && (forall k: nat :: k <= |items| ==> Upto(after, k) == Max(0, Upto(items, k) - paid))
  }

  lemma UptoNotNegative(s: Walk)
    requires Sound(s)
    ensures LeftsSound(s.items)
    ensures forall k: nat :: k <= |s.items| ==> 0 <= Upto(s.items, k)
  {
    hide Sound, Upto;
    SoundParts(s);
    forall k: nat | k <= |s.items| ensures 0 <= Upto(s.items, k) {
      UptoGrows(s.items, 0, k);
      EmptyOwesNothing(s.items);
    }
  }

  lemma CalmPayment(t: Terms, s: Walk, amount: int, day: Day)
    requires t.Valid() && Calm(s) && Sound(s) && Dated(t, s.items, day) && 0 < amount
    ensures var after := TakeIn(s, amount);
            Calm(after) && Dated(t, after.items, day) && PaidDown(s.items, after.items, amount)
  {
    hide Owed, PayItems, Sound, Terms.Deadline, Upto;
    UptoNotNegative(s);
    PayKeeps(s.items, amount);
    forall k: nat | k <= |s.items| ensures Upto(TakeIn(s, amount).items, k) == Max(0, Upto(s.items, k) - amount) {
      PayTakesOldest(s.items, amount, k);
    }
  }

  lemma CalmSpending(t: Terms, kinds: Kinds, s: Walk, row: Row, day: Day)
    requires Plain(t, kinds) && Calm(s) && Sound(s) && Dated(t, s.items, day) && row.on == day && row.amount <= 0
    ensures var after := TakeOut(t, kinds, s, row);
            Calm(after) && Dated(t, after.items, day) && PaidDown(s.items, after.items, 0)
  {
    hide Sound, NewItem, RunAfter, Kinds.PlanOf, Terms.Deadline, Upto, Plain;
    assert t.Valid() by { PlainIsValid(t, kinds); }
    UptoNotNegative(s);
    NoPlan(t, kinds, row);
    var owed := -row.amount - Min(s.credit, -row.amount);
    if owed > 0 {
      CalmNewItem(t, kinds, s, row, owed);
      var it := NewItem(t, kinds, s, row, owed);
      forall k: nat | k <= |s.items| ensures Upto(s.items + [it], k) == Upto(s.items, k) {
        UptoPush(s.items, it, k);
      }
    }
  }

  lemma CalmRow(t: Terms, kinds: Kinds, s: Walk, row: Row, day: Day)
    requires Plain(t, kinds) && Calm(s) && Sound(s) && Dated(t, s.items, day) && row.on == day
    ensures var after := TakeRow(t, kinds, s, row);
            Calm(after) && Dated(t, after.items, day)
              && PaidDown(s.items, after.items, if row.amount > 0 then row.amount else 0)
  {
    hide Calm, Dated, PaidDown, TakeIn, TakeOut, Sound;
    if row.amount > 0 {
      CalmPayment(t, s, row.amount, day);
    } else {
      CalmSpending(t, kinds, s, row, day);
    }
  }

  lemma PaidDownOn(a: seq<Item>, b: seq<Item>, c: seq<Item>, p: int, q: int)
    requires PaidDown(a, b, p) && PaidDown(b, c, q) && 0 <= p && 0 <= q
    ensures PaidDown(a, c, p + q)
  {
    hide Upto;
  }

  lemma PaidDownSame(items: seq<Item>)
    requires LeftsSound(items)
    ensures PaidDown(items, items, 0)
  {
    hide Upto;
    forall k: nat | k <= |items| ensures 0 <= Upto(items, k) {
      UptoGrows(items, 0, k);
      EmptyOwesNothing(items);
    }
  }

  lemma {:induction false} InflowNotNegative(rows: seq<Row>)
    ensures 0 <= Inflow(rows)
    decreases |rows|
  {
    if rows != [] {
      InflowNotNegative(rows[..|rows| - 1]);
    }
  }

  lemma {:induction false} CalmRows(t: Terms, kinds: Kinds, s: Walk, rows: seq<Row>, day: Day)
    requires Plain(t, kinds) && Calm(s) && Sound(s) && Dated(t, s.items, day)
    requires forall x :: x in rows ==> x.on == day
    ensures var after := TakeRows(t, kinds, s, rows);
            Calm(after) && Dated(t, after.items, day) && PaidDown(s.items, after.items, Inflow(rows))
    decreases |rows|
  {
    hide Sound, Calm, Dated, PaidDown, TakeRow;
    if rows == [] {
      SoundParts(s);
      PaidDownSame(s.items);
    } else {
      var before := rows[..|rows| - 1];
      var row := rows[|rows| - 1];
      assert row in rows;
      CalmRows(t, kinds, s, before, day);
      TakeRowsSteps(t, kinds, s, before);
      var a := TakeRows(t, kinds, s, before);
      CalmRow(t, kinds, a, row, day);
      InflowNotNegative(before);
      PaidDownOn(s.items, a.items, TakeRow(t, kinds, a, row).items, Inflow(before),
                 if row.amount > 0 then row.amount else 0);
    }
  }

  // ---- A day, and the days since today ----

  /** One day under plain terms: the debits lose their grace by their last day, then the day's
      payments clear the oldest. */
  lemma CalmDay(t: Terms, kinds: Kinds, rows: seq<Row>, first: Day, day: Day)
    requires Plain(t, kinds) && first <= day
    requires var s := WalkTo(t, kinds, rows, first, day - 1); Calm(s) && Dated(t, s.items, day - 1)
    ensures var s, after := WalkTo(t, kinds, rows, first, day - 1), WalkTo(t, kinds, rows, first, day);
            && Calm(after) && Dated(t, after.items, day)
            && PaidDown(AllLostBy(s.items, day), after.items, Inflow(RowsOn(rows, day)))
  {
    hide Sound, Morning, TakeRows, PaidDown, Plain, Inflow;
    assert t.Valid() && kinds.Valid() by { PlainIsValid(t, kinds); }
    var s := WalkTo(t, kinds, rows, first, day - 1);
    WalkIsSound(t, kinds, rows, first, day - 1);
    CalmMorning(t, kinds, s, day);
    MorningIsSound(t, s, day);
    CalmRows(t, kinds, Morning(t, s, day), RowsOn(rows, day), day);
  }

  lemma PlainIsValid(t: Terms, kinds: Kinds)
    requires Plain(t, kinds)
    ensures t.Valid() && kinds.Valid()
  {
  }

  lemma {:induction false} WalkIsCalm(t: Terms, kinds: Kinds, rows: seq<Row>, first: Day, day: Day)
    requires Plain(t, kinds)
    ensures var s := WalkTo(t, kinds, rows, first, day); Calm(s) && Dated(t, s.items, day)
    decreases day - first
  {
    hide DayStep, Plain;
    assert t.Valid() by { PlainIsValid(t, kinds); }
    if first <= day {
      WalkIsCalm(t, kinds, rows, first, day - 1);
      CalmDay(t, kinds, rows, first, day);
    }
  }

  lemma {:induction false} LostMarksKeepUpto(items: seq<Item>, day: Day, k: nat)
    requires k <= |items|
    ensures Upto(AllLostBy(items, day), k) == Upto(items, k)
  {
    OwedIsPointwise(items[..k], AllLostBy(items, day)[..k], Anything);
  }

  /** By a later day the debits of today are paid down, oldest first, by all that came in since. */
  lemma {:induction false} PaidSince(t: Terms, kinds: Kinds, rows: seq<Row>, first: Day, today: Day, day: Day, k: nat)
    requires Plain(t, kinds) && first <= today + 1 && today <= day
    requires k <= |WalkTo(t, kinds, rows, first, today).items|
    ensures k <= |WalkTo(t, kinds, rows, first, day).items|
    ensures Upto(WalkTo(t, kinds, rows, first, day).items, k)
         == Max(0, Upto(WalkTo(t, kinds, rows, first, today).items, k) - PaidBetween(rows, today, day))
    ensures 0 <= PaidBetween(rows, today, day)
    decreases day - today
  {
    hide WalkTo, Plain, Upto, Inflow, RowsOn;
    assert t.Valid() && kinds.Valid() by { PlainIsValid(t, kinds); }
    var now := WalkTo(t, kinds, rows, first, today).items;
    if day == today {
      WalkIsSound(t, kinds, rows, first, today);
      SoundParts(WalkTo(t, kinds, rows, first, today));
      UptoGrows(now, 0, k);
      EmptyOwesNothing(now);
    } else {
      PaidSince(t, kinds, rows, first, today, day - 1, k);
      PaidInADay(t, kinds, rows, first, day, k);
      InflowNotNegative(RowsOn(rows, day));
    }
  }

  lemma PaidInADay(t: Terms, kinds: Kinds, rows: seq<Row>, first: Day, day: Day, k: nat)
    requires Plain(t, kinds) && t.Valid() && first <= day && k <= |WalkTo(t, kinds, rows, first, day - 1).items|
    ensures k <= |WalkTo(t, kinds, rows, first, day).items|
    ensures Upto(WalkTo(t, kinds, rows, first, day).items, k)
         == Max(0, Upto(WalkTo(t, kinds, rows, first, day - 1).items, k) - Inflow(RowsOn(rows, day)))
  {
    hide WalkTo, Plain, Upto, Calm, Dated, AllLostBy, Inflow, RowsOn;
    WalkIsCalm(t, kinds, rows, first, day - 1);
    CalmDay(t, kinds, rows, first, day);
    LostMarksKeepUpto(WalkTo(t, kinds, rows, first, day - 1).items, day, k);
  }

  /** What is left of the i-th debit of today by a later day. */
  lemma LeftSince(t: Terms, kinds: Kinds, rows: seq<Row>, first: Day, today: Day, day: Day, i: nat)
    requires Plain(t, kinds) && first <= today + 1 && today <= day
    requires i < |WalkTo(t, kinds, rows, first, today).items|
    ensures i < |WalkTo(t, kinds, rows, first, day).items|
    ensures var now, later := WalkTo(t, kinds, rows, first, today).items, WalkTo(t, kinds, rows, first, day).items;
            later[i].left > 0 <==> now[i].left > 0 && PaidBetween(rows, today, day) < Upto(now, i + 1)
  {
    hide WalkTo, Plain, Upto, PaidBetween, LeftsSound;
    assert t.Valid() && kinds.Valid() by { PlainIsValid(t, kinds); }
    var now, later := WalkTo(t, kinds, rows, first, today).items, WalkTo(t, kinds, rows, first, day).items;
    PaidSince(t, kinds, rows, first, today, day, i);
    PaidSince(t, kinds, rows, first, today, day, i + 1);
    WalkIsSound(t, kinds, rows, first, today);
    SoundParts(WalkTo(t, kinds, rows, first, today));
    OneLeft(now, later, i, PaidBetween(rows, today, day));
  }

  lemma OneLeft(now: seq<Item>, later: seq<Item>, i: nat, paid: int)
    requires LeftsSound(now) && i < |now| && i < |later| && 0 <= paid
    requires Upto(later, i) == Max(0, Upto(now, i) - paid) && Upto(later, i + 1) == Max(0, Upto(now, i + 1) - paid)
    ensures later[i].left > 0 <==> now[i].left > 0 && paid < Upto(now, i + 1)
  {
    hide Upto;
    OwedLast(now, i);
    OwedLast(later, i);
    UptoGrows(now, 0, i);
    EmptyOwesNothing(now);
  }

  /** A covered purchase of today has lost its grace by a later day exactly when its last day is
      before that day and something of it was left once its last day, or today, was over. */
  lemma {:induction false} LostSince(t: Terms, kinds: Kinds, rows: seq<Row>, first: Day, today: Day, day: Day, i: nat)
    requires Plain(t, kinds) && first <= today + 1 && today <= day
    requires i < |WalkTo(t, kinds, rows, first, today).items|
    requires var it := WalkTo(t, kinds, rows, first, today).items[i]; it.grace && !it.lost
    ensures i < |WalkTo(t, kinds, rows, first, day).items|
    ensures var it := WalkTo(t, kinds, rows, first, today).items[i];
            WalkTo(t, kinds, rows, first, day).items[i].lost <==>
            (today < day && it.deadline < day && it.left > 0
             && PaidBetween(rows, today, it.deadline) < Upto(WalkTo(t, kinds, rows, first, today).items, i + 1))
    decreases day - today
  {
    hide WalkTo, Plain, Upto, Evolves, PaidBetween;
    assert t.Valid() && kinds.Valid() by { PlainIsValid(t, kinds); }
    if today < day {
      var now := WalkTo(t, kinds, rows, first, today).items;
      LostSince(t, kinds, rows, first, today, day - 1, i);
      NothingIsUnlost(t, kinds, rows, first, today, day - 1);
      SamePurchase(now, WalkTo(t, kinds, rows, first, day - 1).items, i);
      LostOverNight(t, kinds, rows, first, day, i);
      LeftSince(t, kinds, rows, first, today, day - 1, i);
      LeftNow(t, kinds, rows, first, today, i);
      if now[i].deadline < day - 1 {
        PaidGrows(rows, today, now[i].deadline, day - 1);
      }
      NotPaidBefore(rows, today, today);
      if now[i].deadline < today {
        NotPaidBefore(rows, today, now[i].deadline);
      }
    }
  }

  lemma SamePurchase(items: seq<Item>, later: seq<Item>, i: nat)
    requires Evolves(items, later) && i < |items|
    ensures i < |later| && later[i].grace == items[i].grace && later[i].deadline == items[i].deadline
  {
  }

  lemma LostOverNight(t: Terms, kinds: Kinds, rows: seq<Row>, first: Day, day: Day, i: nat)
    requires Plain(t, kinds) && first <= day
    requires i < |WalkTo(t, kinds, rows, first, day - 1).items|
    ensures i < |WalkTo(t, kinds, rows, first, day).items|
    ensures var eve := WalkTo(t, kinds, rows, first, day - 1).items;
            && eve[i].extended.None?
            && (WalkTo(t, kinds, rows, first, day).items[i].lost
                <==> eve[i].lost || (eve[i].Covered() && eve[i].deadline < day))
  {
    hide WalkTo, Plain, Upto, Terms.Deadline;
    assert t.Valid() && kinds.Valid() by { PlainIsValid(t, kinds); }
    WalkIsCalm(t, kinds, rows, first, day - 1);
    CalmDay(t, kinds, rows, first, day);
  }

  lemma {:induction false} PaidGrows(rows: seq<Row>, since: Day, day: Day, later: Day)
    requires day <= later
    ensures PaidBetween(rows, since, day) <= PaidBetween(rows, since, later)
    decreases later - day
  {
    hide Inflow, RowsOn;
    if day < later {
      PaidGrows(rows, since, day, later - 1);
      InflowNotNegative(RowsOn(rows, later));
      if later <= since {
        NotPaidBefore(rows, since, later - 1);
      }
    }
  }

  lemma NotPaidBefore(rows: seq<Row>, since: Day, day: Day)
    requires day <= since
    ensures PaidBetween(rows, since, day) == 0
  {
  }

  lemma LeftNow(t: Terms, kinds: Kinds, rows: seq<Row>, first: Day, today: Day, i: nat)
    requires Plain(t, kinds)
    requires i < |WalkTo(t, kinds, rows, first, today).items|
    ensures var now := WalkTo(t, kinds, rows, first, today).items; now[i].left > 0 ==> 0 < Upto(now, i + 1)
  {
    hide WalkTo, Plain, Upto;
    assert t.Valid() && kinds.Valid() by { PlainIsValid(t, kinds); }
    var s := WalkTo(t, kinds, rows, first, today);
    WalkIsSound(t, kinds, rows, first, today);
    SoundParts(s);
    OwedLast(s.items, i);
    UptoGrows(s.items, 0, i);
    EmptyOwesNothing(s.items);
  }

  // ---- Oldest first is earliest due first ----

  /** Nothing lost and nothing owed that the grace does not cover. */
  predicate AllCovered(items: seq<Item>) {
    forall i :: 0 <= i < |items| && items[i].left > 0 ==> items[i].Covered()
  }

  predicate DueInOrder(items: seq<Item>) {
    forall i, j :: 0 <= i <= j < |items| && items[i].grace && items[j].grace ==> items[i].deadline <= items[j].deadline
  }

  lemma DatedDueInOrder(t: Terms, items: seq<Item>, day: Day)
    requires t.Valid() && Dated(t, items, day)
    ensures DueInOrder(items)
  {
    hide Terms.Deadline;
    forall i, j | 0 <= i <= j < |items| && items[i].grace && items[j].grace
      ensures items[i].deadline <= items[j].deadline
    {
      DeadlineMonotone(t, items[i].on, items[j].on, t.gracePeriods);
    }
  }

  /** When all that is owed is covered, the debits through the i-th are due by its day, and when
      it is the last of its day there is nothing more. */
  lemma {:induction false} OwedByItsDay(items: seq<Item>, n: nat, i: nat)
    requires LeftsSound(items) && AllCovered(items) && DueInOrder(items)
    requires i < n <= |items| && items[i].Covered()
    ensures Upto(items, i + 1) <= OwedBy(items[..n], items[i].deadline)
    ensures (forall j :: i < j < n ==> items[j].left == 0 || items[i].deadline < items[j].deadline)
              ==> Upto(items, i + 1) == OwedBy(items[..n], items[i].deadline)
    decreases n
  {
    hide Counts;
    var day := items[i].deadline;
    assert items[..n][..n - 1] == items[..n - 1];
    if i == n - 1 {
      OwedPrefix(items, n, day);
    } else {
      OwedByItsDay(items, n - 1, i);
    }
  }

  /** The debits before one due by day are due by it too. */
  lemma {:induction false} OwedPrefix(items: seq<Item>, n: nat, day: Day)
    requires LeftsSound(items) && AllCovered(items) && DueInOrder(items)
    requires n <= |items|
    requires forall j :: 0 <= j < n && items[j].left > 0 ==> items[j].deadline <= day
    ensures Upto(items, n) == OwedBy(items[..n], day)
    decreases n
  {
    hide Counts;
    if n > 0 {
      OwedPrefix(items, n - 1, day);
      OwedLast(items, n - 1);
      assert items[..n][..n - 1] == items[..n - 1];
    }
  }

  /** The last of the debits due on a day. */
  function LastDueOn(items: seq<Item>, day: Day, n: nat): (i: nat)
    requires n <= |items| && exists j :: 0 <= j < n && items[j].Covered() && items[j].deadline == day
    ensures i < n && items[i].Covered() && items[i].deadline == day
    ensures forall j :: i < j < n ==> !(items[j].Covered() && items[j].deadline == day)
  {
    if items[n - 1].Covered() && items[n - 1].deadline == day then n - 1 else LastDueOn(items, day, n - 1)
  }

  predicate IsDue(items: seq<Item>, day: Day) {
    exists j :: 0 <= j < |items| && items[j].Covered() && items[j].deadline == day
  }

  lemma OwedByDue(items: seq<Item>, day: Day)
    requires LeftsSound(items) && AllCovered(items) && DueInOrder(items) && IsDue(items, day)
    ensures Upto(items, LastDueOn(items, day, |items|) + 1) == OwedBy(items, day)
  {
    hide OwedBy, Upto, LeftsSound, AllCovered, DueInOrder, Item.Covered;
    var i := LastDueOn(items, day, |items|);
    assert items[..|items|] == items;
    forall j | i < j < |items| ensures items[j].left == 0 || items[i].deadline < items[j].deadline {
      DueLater(items, i, j);
    }
    OwedByItsDay(items, |items|, i);
  }

  lemma DueLater(items: seq<Item>, i: nat, j: nat)
    requires LeftsSound(items) && AllCovered(items) && DueInOrder(items)
    requires i < j < |items| && items[i].Covered() && !(items[j].Covered() && items[j].deadline == items[i].deadline)
    ensures items[j].left == 0 || items[i].deadline < items[j].deadline
  {
  }

  // ---- The promise ----

  /** With nothing lost and no debt the grace does not cover today, and whatever the journal
      holds after today: no purchase of today has lost its grace by a later day exactly when,
      for each day before it something is due on, what was paid since today by that day reaches
      all that is due by it. */
  lemma PromiseIsExact(t: Terms, kinds: Kinds, rows: seq<Row>, first: Day, today: Day, until: Day)
    requires Plain(t, kinds) && first <= today + 1 && today <= until
    requires AllCovered(WalkTo(t, kinds, rows, first, today).items)
    ensures |WalkTo(t, kinds, rows, first, today).items| <= |WalkTo(t, kinds, rows, first, until).items|
    ensures var now, later := WalkTo(t, kinds, rows, first, today).items, WalkTo(t, kinds, rows, first, until).items;
            (forall i :: 0 <= i < |now| ==> later[i].lost == now[i].lost) <==>
            (forall day :: today < until && day < until && IsDue(now, day) ==>
             OwedBy(now, day) <= PaidBetween(rows, today, day))
  {
    hide WalkTo, Plain, Upto, OwedBy, IsDue, PaidBetween;
    assert t.Valid() && kinds.Valid() by { PlainIsValid(t, kinds); }
    var s := WalkTo(t, kinds, rows, first, today);
    var now, later := s.items, WalkTo(t, kinds, rows, first, until).items;
    WalkIsSound(t, kinds, rows, first, today);
    SoundParts(s);
    WalkIsCalm(t, kinds, rows, first, today);
    DatedDueInOrder(t, now, today);
    NothingIsUnlost(t, kinds, rows, first, today, until);
    if forall i :: 0 <= i < |now| ==> later[i].lost == now[i].lost {
      forall day | today < until && day < until && IsDue(now, day)
        ensures OwedBy(now, day) <= PaidBetween(rows, today, day)
      {
        DueWasPaid(t, kinds, rows, first, today, until, day);
      }
    }
    if forall day :: today < until && day < until && IsDue(now, day) ==>
      OwedBy(now, day) <= PaidBetween(rows, today, day) {
      forall i | 0 <= i < |now| ensures later[i].lost == now[i].lost {
        PaidKeepsGrace(t, kinds, rows, first, today, until, i);
      }
    }
  }

  lemma DueWasPaid(t: Terms, kinds: Kinds, rows: seq<Row>, first: Day, today: Day, until: Day, day: Day)
    requires Plain(t, kinds) && first <= today + 1 && today < until && day < until
    requires var now := WalkTo(t, kinds, rows, first, today).items;
             && LeftsSound(now) && AllCovered(now) && DueInOrder(now) && IsDue(now, day)
             && |now| <= |WalkTo(t, kinds, rows, first, until).items|
             && forall i :: 0 <= i < |now| ==> WalkTo(t, kinds, rows, first, until).items[i].lost == now[i].lost
    ensures OwedBy(WalkTo(t, kinds, rows, first, today).items, day) <= PaidBetween(rows, today, day)
  {
    hide WalkTo, Plain, Upto, OwedBy, PaidBetween;
    assert t.Valid() && kinds.Valid() by { PlainIsValid(t, kinds); }
    var now := WalkTo(t, kinds, rows, first, today).items;
    OwedByDue(now, day);
    LostSince(t, kinds, rows, first, today, until, LastDueOn(now, day, |now|));
  }

  lemma PaidKeepsGrace(t: Terms, kinds: Kinds, rows: seq<Row>, first: Day, today: Day, until: Day, i: nat)
    requires Plain(t, kinds) && first <= today + 1 && today <= until
    requires var now := WalkTo(t, kinds, rows, first, today).items;
             && LeftsSound(now) && AllCovered(now) && DueInOrder(now) && i < |now|
             && Evolves(now, WalkTo(t, kinds, rows, first, until).items)
             && forall day :: today < until && day < until && IsDue(now, day) ==>
                OwedBy(now, day) <= PaidBetween(rows, today, day)
    ensures WalkTo(t, kinds, rows, first, until).items[i].lost == WalkTo(t, kinds, rows, first, today).items[i].lost
  {
    hide WalkTo, Plain, Upto, OwedBy, PaidBetween;
    assert t.Valid() && kinds.Valid() by { PlainIsValid(t, kinds); }
    var now := WalkTo(t, kinds, rows, first, today).items;
    if !now[i].lost {
      if now[i].grace {
        LostSince(t, kinds, rows, first, today, until, i);
        if now[i].Covered() && now[i].deadline < until && today < until {
          OwedByItsDay(now, |now|, i);
          assert now[..|now|] == now;
          assert IsDue(now, now[i].deadline);
        }
      }
    }
  }
}
