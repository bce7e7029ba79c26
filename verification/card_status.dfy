/** What the program tells of a card on a day, gathered from the walk's last state, and what its
    figures promise. */
module CardStatus {
  import opened Calendar
  import opened Rounding
  import opened CardTerms
  import opened CardWalk
  import opened CardMachine
  import opened CardInvariants
  import opened CardFifo
  import opened GracePromise
  import opened Tally

  datatype Due = Due(on: Day, amount: int)

  /** What a period's, window's or running grace's purchases still owe after losing the grace. */
  datatype Lost = Lost(from: Day, to: Day, deadline: Day, amount: int, early: bool)

  datatype Status = Status(
    debt: int,
    available: int,
    lastStatement: Day,
    nextStatement: Day,
    grace: seq<Due>,
    lost: seq<Lost>,
    nonGrace: int,
    graceOffSince: Option<Day>,
    graceOffByMinimum: bool,
    toRestore: int,
    installments: seq<Installment>,
    installmentsDue: int)

  // ---- The figures as functions of the debits ----

  /** The day a covered purchase is shown due: its deadline, or past it its extension's. */
  function DueDay(it: Item, today: Day): Day {
    if it.extended.Some? && it.deadline < today then it.extended.value else it.deadline
  }

  function DueMap(items: seq<Item>, today: Day): map<Day, int> {
    if items == [] then map[]
    else
      var it := items[|items| - 1];
      var before := DueMap(items[..|items| - 1], today);
      if it.Covered() then Add(before, DueDay(it, today), it.left) else before
  }

  function LostKey(it: Item): (Day, Day) {
    (it.from, it.LastDay())
  }

  predicate IsLost(it: Item) {
    it.left != 0 && it.grace && it.lost
  }

  function LostMap(items: seq<Item>): map<(Day, Day), int> {
    if items == [] then map[]
    else
      var it := items[|items| - 1];
      var before := LostMap(items[..|items| - 1]);
      if IsLost(it) then Add(before, LostKey(it), it.left) else before
  }

  function OwedOutside(items: seq<Item>): int {
    if items == [] then 0
    else OwedOutside(items[..|items| - 1]) + (if items[|items| - 1].grace then 0 else items[|items| - 1].left)
  }

  function StillShowing(plans: seq<Installment>): seq<Installment> {
    if plans == [] then []
    else
      var rest := StillShowing(plans[..|plans| - 1]);
      if plans[|plans| - 1].left > 0 then rest + [plans[|plans| - 1]] else rest
  }

  // ---- The lists the status tells them in ----

  predicate SortedDues(list: seq<Due>) {
    forall i, j :: 0 <= i < j < |list| ==> list[i].on < list[j].on
  }

  /** A list of dues, soonest first, of exactly the days and amounts gathered. */
  ghost predicate ListsDues(list: seq<Due>, m: map<Day, int>) {
    && SortedDues(list)
    && (forall d :: d in list <==> d.on in m && d.amount == m[d.on])
  }

  predicate Before(a: Lost, b: Lost) {
    a.from < b.from || (a.from == b.from && a.deadline < b.deadline)
  }

  predicate SortedLost(list: seq<Lost>) {
    forall i, j :: 0 <= i < j < |list| ==> Before(list[i], list[j])
  }

  function KeyOf(l: Lost): (Day, Day) {
    (l.from, l.deadline)
  }

  /** A list of the losses, by their purchases and then their deadline, of exactly the amounts
      gathered. */
  ghost predicate ListsLost(list: seq<Lost>, m: map<(Day, Day), int>) {
    && SortedLost(list)
    && (forall l :: l in list ==> KeyOf(l) in m && l.amount == m[KeyOf(l)])
    && (forall key :: key in m ==> exists l :: l in list && KeyOf(l) == key)
  }

  predicate LostUnder(it: Item, key: (Day, Day)) {
    IsLost(it) && LostKey(it) == key
  }

  /** The first of the debits lost under a key. */
  predicate FirstUnder(items: seq<Item>, key: (Day, Day), i: int) {
    0 <= i < |items| && LostUnder(items[i], key) && forall j :: 0 <= j < i ==> !LostUnder(items[j], key)
  }

  /** A lost period ends on the eve of its first debit's end, and is early when all its debits are. */
  ghost predicate TellsLost(l: Lost, items: seq<Item>) {
    && (exists i :: FirstUnder(items, KeyOf(l), i) && l.to == items[i].to - 1)
    && (l.early <==> forall i :: 0 <= i < |items| && LostUnder(items[i], KeyOf(l)) ==> items[i].early)
  }

  ghost predicate Reports(t: Terms, s: Walk, today: Day, st: Status) {
    && st.debt == Debt(s)
    && st.available == t.limit - Max(st.debt, 0)
    && (st.lastStatement, st.nextStatement) == t.Period(today)
    && ListsDues(st.grace, DueMap(s.items, today))
    && ListsLost(st.lost, LostMap(s.items))
    && (forall l :: l in st.lost ==> TellsLost(l, s.items))
    && st.nonGrace == OwedOutside(s.items)
    && st.graceOffSince == s.latch.since
    && st.graceOffByMinimum == s.latch.byMinimum
    && st.toRestore == (if !s.latch.off then 0
                        else if s.latch.all then Max(Owed(s.items, Anything) - s.credit, 0)
                        else Owed(s.items, Purchases))
    && st.installments == StillShowing(s.plans)
    && st.installmentsDue == s.partsUnpaid
  }

  // ---- Gathering them ----

  /** Inserting one by one stands for the program's sort. */
  function InsertDue(list: seq<Due>, d: Due): seq<Due> {
    if list == [] || list[|list| - 1].on < d.on then list + [d]
    else InsertDue(list[..|list| - 1], d) + [list[|list| - 1]]
  }

  lemma SortedDuesPush(list: seq<Due>, d: Due)
    requires SortedDues(list) && forall x :: x in list ==> x.on < d.on
    ensures SortedDues(list + [d])
  {
    forall i, j | 0 <= i < j < |list + [d]| ensures (list + [d])[i].on < (list + [d])[j].on {
      if j == |list| {
        assert list[i] in list;
      }
    }
  }

  lemma SortedDuesLast(list: seq<Due>)
    requires SortedDues(list) && list != []
    ensures SortedDues(list[..|list| - 1])
    ensures forall x :: x in list[..|list| - 1] ==> x.on < list[|list| - 1].on
  {
  }

  lemma {:induction false} InsertDueSorts(list: seq<Due>, d: Due)
    requires SortedDues(list)
    requires forall x :: x in list ==> x.on != d.on
    ensures SortedDues(InsertDue(list, d))
    ensures forall x :: x in InsertDue(list, d) <==> x in list || x == d
    decreases |list|
  {
    hide SortedDues;
    if list == [] {
      SortedDuesPush(list, d);
    } else {
      var n := |list| - 1;
      SortedDuesLast(list);
      assert list == list[..n] + [list[n]];
      assert list[n] in list;
      if list[n].on < d.on {
        SortedDuesPush(list, d);
      } else {
        InsertDueSorts(list[..n], d);
        SortedDuesPush(InsertDue(list[..n], d), list[n]);
      }
    }
  }

  method ListDues(m: map<Day, int>) returns (list: seq<Due>)
    ensures ListsDues(list, m)
  {
    hide InsertDue;
    list := [];
    var left := m.Keys;
    while left != {}
      invariant left <= m.Keys
      invariant SortedDues(list)
      invariant forall d :: d in list <==> d.on in m && d.on !in left && d.amount == m[d.on]
      decreases left
    {
      SomeDay(left);
      var on :| on in left;
      left := left - {on};
      InsertDueSorts(list, Due(on, m[on]));
      list := InsertDue(list, Due(on, m[on]));
    }
  }

  lemma SomeDay(days: set<Day>)
    requires days != {}
    ensures exists day :: day in days
  {
    assert (forall day :: day !in days) ==> days == {};
  }

  function InsertLost(list: seq<Lost>, l: Lost): seq<Lost> {
    if list == [] || Before(list[|list| - 1], l) then list + [l]
    else InsertLost(list[..|list| - 1], l) + [list[|list| - 1]]
  }

  lemma {:induction false} InsertLostSorts(list: seq<Lost>, l: Lost)
    requires SortedLost(list)
    requires forall x :: x in list ==> KeyOf(x) != KeyOf(l)
    ensures SortedLost(InsertLost(list, l))
    ensures forall x :: x in InsertLost(list, l) <==> x in list || x == l
    decreases |list|
  {
    if list != [] && !Before(list[|list| - 1], l) {
      var n := |list| - 1;
      InsertLostSorts(list[..n], l);
      assert list == list[..n] + [list[n]];
      assert list[n] in list;
      forall x | x in InsertLost(list[..n], l) ensures Before(x, list[n]) {
      }
    }
  }

  method ListLost(m: map<(Day, Day), Lost>) returns (list: seq<Lost>)
    requires forall key :: key in m ==> KeyOf(m[key]) == key
    ensures SortedLost(list)
    ensures forall l :: l in list <==> KeyOf(l) in m && l == m[KeyOf(l)]
  {
    hide InsertLost, Before;
    list := [];
    var left := m.Keys;
    while left != {}
      invariant left <= m.Keys
      invariant SortedLost(list)
      invariant forall l :: l in list <==> KeyOf(l) in m && KeyOf(l) !in left && l == m[KeyOf(l)]
      decreases left
    {
      var next :| next in left;
      left := left - {next};
      InsertLostSorts(list, m[next]);
      list := InsertLost(list, m[next]);
    }
  }

  /** The debits sorted into what the grace covers, what lost it and what never had it. */
  method Gather(items: seq<Item>, today: Day) returns (grace: map<Day, int>, lost: map<(Day, Day), Lost>, nonGrace: int)
    requires LeftsSound(items)
    ensures grace == DueMap(items, today)
    ensures lost.Keys == LostMap(items).Keys
    ensures forall key :: key in lost ==> KeyOf(lost[key]) == key && lost[key].amount == LostMap(items)[key]
    ensures forall key :: key in lost ==> TellsLost(lost[key], items)
    ensures nonGrace == OwedOutside(items)
  {
    hide TellsLost, LostUnder;
    grace, lost, nonGrace := map[], map[], 0;
    for n := 0 to |items|
      invariant grace == DueMap(items[..n], today)
      invariant lost.Keys == LostMap(items[..n]).Keys
      invariant forall key :: key in lost ==> KeyOf(lost[key]) == key && lost[key].amount == LostMap(items[..n])[key]
      invariant forall key :: key in lost ==> TellsLost(lost[key], items[..n])
      invariant nonGrace == OwedOutside(items[..n])
    {
      assert items[..n + 1][..n] == items[..n];
      var it := items[n];
      forall key | key in lost && (!IsLost(it) || key != LostKey(it)) ensures TellsLost(lost[key], items[..n + 1]) {
        TellsOn(lost[key], items, n);
      }
      if it.left == 0 {
        continue;
      }
      if !it.grace {
        nonGrace := nonGrace + it.left;
        continue;
      }
      if !it.lost {
        grace := Add(grace, DueDay(it, today), it.left);
        continue;
      }
      var key := LostKey(it);
      var l := if key in lost then lost[key] else Lost(it.from, it.to - 1, it.LastDay(), 0, true);
      var now := l.(early := l.early && it.early, amount := l.amount + it.left);
      LostAgain(lost, l, now, items, n);
      lost := lost[key := now];
    }
    assert items[..|items|] == items;
  }

  lemma TellsOn(l: Lost, items: seq<Item>, n: nat)
    requires n < |items| && TellsLost(l, items[..n]) && (!IsLost(items[n]) || KeyOf(l) != LostKey(items[n]))
    ensures TellsLost(l, items[..n + 1])
  {
    hide IsLost, LostKey;
    var i :| FirstUnder(items[..n], KeyOf(l), i) && l.to == items[..n][i].to - 1;
    assert FirstUnder(items[..n + 1], KeyOf(l), i);
    assert forall j :: 0 <= j < n ==> items[..n][j] == items[..n + 1][j];
  }

  lemma {:induction false} LostIsKeyed(items: seq<Item>, n: nat, i: nat)
    requires i < n <= |items| && IsLost(items[i])
    ensures LostKey(items[i]) in LostMap(items[..n])
    decreases n
  {
    hide IsLost, LostKey;
    assert items[..n][..n - 1] == items[..n - 1];
    if i < n - 1 {
      LostIsKeyed(items, n - 1, i);
    }
  }

  /** One more debit lost under a key, known already or not. */
  lemma LostAgain(lost: map<(Day, Day), Lost>, l: Lost, now: Lost, items: seq<Item>, n: nat)
    requires n < |items| && IsLost(items[n]) && lost.Keys == LostMap(items[..n]).Keys
    requires forall key :: key in lost ==> KeyOf(lost[key]) == key && TellsLost(lost[key], items[..n])
    requires var it := items[n];
             l == if LostKey(it) in lost then lost[LostKey(it)] else Lost(it.from, it.to - 1, it.LastDay(), 0, true)
    requires now == l.(early := l.early && items[n].early, amount := now.amount)
    ensures TellsLost(now, items[..n + 1])
  {
    hide TellsLost, IsLost, Item.LastDay, LostMap;
    var key := LostKey(items[n]);
    if key in lost {
      TellsMore(l, now, items, n);
    } else {
      forall i | 0 <= i < n ensures !LostUnder(items[i], key) {
        if IsLost(items[i]) {
          LostIsKeyed(items, n, i);
        }
      }
      TellsFirst(now, items, n);
    }
  }

  lemma TellsMore(l: Lost, now: Lost, items: seq<Item>, n: nat)
    requires n < |items| && TellsLost(l, items[..n]) && LostUnder(items[n], KeyOf(l))
    requires KeyOf(now) == KeyOf(l) && now.to == l.to && now.early == (l.early && items[n].early)
    ensures TellsLost(now, items[..n + 1])
  {
    hide LostUnder;
    var i :| FirstUnder(items[..n], KeyOf(l), i) && l.to == items[..n][i].to - 1;
    assert FirstUnder(items[..n + 1], KeyOf(l), i);
    assert forall j :: 0 <= j < n ==> items[..n][j] == items[..n + 1][j];
    assert items[..n + 1][n] == items[n];
  }

  lemma TellsFirst(now: Lost, items: seq<Item>, n: nat)
    requires n < |items| && LostUnder(items[n], KeyOf(now)) && now.to == items[n].to - 1 && now.early == items[n].early
    requires forall i :: 0 <= i < n ==> !LostUnder(items[i], KeyOf(now))
    ensures TellsLost(now, items[..n + 1])
  {
    hide LostUnder;
    assert FirstUnder(items[..n + 1], KeyOf(now), n);
    assert items[..n + 1][n] == items[n];
  }

  method SumPlans(plans: seq<Installment>) returns (left: int, showing: seq<Installment>)
    ensures left == PlansLeft(plans) && showing == StillShowing(plans)
  {
    left, showing := 0, [];
    for n := 0 to |plans|
      invariant left == PlansLeft(plans[..n]) && showing == StillShowing(plans[..n])
    {
      assert plans[..n + 1][..n] == plans[..n];
      left := left + plans[n].left;
      if plans[n].left > 0 {
        showing := showing + [plans[n]];
      }
    }
    assert plans[..|plans|] == plans;
  }

  /** `creditcard.Work`, as far as this model takes it: the journal walked to today and told. */
  method Work(t: Terms, ops: seq<Row>, currency: string, today: Day, kinds: Kinds) returns (st: Status)
    requires t.Valid() && kinds.Valid()
    ensures Reports(t, Walked(t, kinds, ops, currency, today), today, st)
  {
    hide WalkTo, Journal, FirstDay, ListsDues, Owed, Terms.Period, PlansLeft, StillShowing, OwedOutside, DueMap,
         LostMap, TellsLost;
    var w := WalkJournal(t, kinds, ops, currency, today);
    WalkIsSound(t, kinds, Journal(ops, currency, today), FirstDay(Journal(ops, currency, today), today), today);
    SoundParts(w.View());
    var (last, next) := t.Period(today);
    var owed := w.OwedOf(Anything);
    var purchases := w.OwedOf(Purchases);
    var left, showing := SumPlans(w.plans);
    var debt := owed - w.credit + left + w.partsUnpaid;
    var grace, lost, nonGrace := Gather(w.items, today);
    var dues := ListDues(grace);
    var losses := ListLost(lost);
    assert forall l :: l in losses ==> TellsLost(l, w.items);
    forall key | key in LostMap(w.items) ensures exists l :: l in losses && KeyOf(l) == key {
      assert lost[key] in losses;
    }
    var toRestore := if !w.latch.off then 0 else if w.latch.all then Max(owed - w.credit, 0) else purchases;
    st := Status(debt, t.limit - Max(debt, 0), last, next, dues, losses, nonGrace, w.latch.since, w.latch.byMinimum,
                 toRestore, showing, w.partsUnpaid);
  }

  // ---- The debt is all that the status tells apart ----

  function SumDues(list: seq<Due>): int {
    if list == [] then 0 else SumDues(list[..|list| - 1]) + list[|list| - 1].amount
  }

  function SumLost(list: seq<Lost>): int {
    if list == [] then 0 else SumLost(list[..|list| - 1]) + list[|list| - 1].amount
  }

  function DueDays(list: seq<Due>): (days: seq<Day>)
    ensures |days| == |list| && forall i :: 0 <= i < |list| ==> days[i] == list[i].on
  {
    seq(|list|, i requires 0 <= i < |list| => list[i].on)
  }

  function LostKeys(list: seq<Lost>): (keys: seq<(Day, Day)>)
    ensures |keys| == |list| && forall i :: 0 <= i < |list| ==> keys[i] == KeyOf(list[i])
  {
    seq(|list|, i requires 0 <= i < |list| => KeyOf(list[i]))
  }

  lemma {:induction false} DuesTotal(list: seq<Due>, m: map<Day, int>)
    requires forall d :: d in list ==> d.on in m && d.amount == m[d.on]
    ensures SumDues(list) == Total(DueDays(list), m)
    decreases |list|
  {
    if list != [] {
      DuesTotal(list[..|list| - 1], m);
      assert DueDays(list)[..|list| - 1] == DueDays(list[..|list| - 1]);
    }
  }

  lemma {:induction false} LostTotal(list: seq<Lost>, m: map<(Day, Day), int>)
    requires forall l :: l in list ==> KeyOf(l) in m && l.amount == m[KeyOf(l)]
    ensures SumLost(list) == Total(LostKeys(list), m)
    decreases |list|
  {
    if list != [] {
      LostTotal(list[..|list| - 1], m);
      assert LostKeys(list)[..|list| - 1] == LostKeys(list[..|list| - 1]);
    }
  }

  /** Every debit is counted once: as due, as lost, or as never covered. */
  lemma {:induction false} DebitsSplit(items: seq<Item>, today: Day, days: seq<Day>, keys: seq<(Day, Day)>)
    requires LeftsSound(items) && Distinct(days) && Distinct(keys)
    requires forall i :: 0 <= i < |items| && items[i].Covered() ==> DueDay(items[i], today) in days
    requires forall i :: 0 <= i < |items| && IsLost(items[i]) ==> LostKey(items[i]) in keys
    ensures Owed(items, Anything)
            == Total(days, DueMap(items, today)) + Total(keys, LostMap(items)) + OwedOutside(items)
    decreases |items|
  {
    if items == [] {
      TotalOfNone(days);
      TotalOfNone(keys);
    } else {
      var n := |items| - 1;
      DebitsSplit(items[..n], today, days, keys);
      AddCounts(days, DueMap(items[..n], today), DueDay(items[n], today), items[n].left);
      AddCounts(keys, LostMap(items[..n]), LostKey(items[n]), items[n].left);
    }
  }

  lemma {:induction false} DueInMap(items: seq<Item>, today: Day, i: nat)
    requires i < |items| && items[i].Covered()
    ensures DueDay(items[i], today) in DueMap(items, today)
    decreases |items|
  {
    if i < |items| - 1 {
      DueInMap(items[..|items| - 1], today, i);
    }
  }

  lemma {:induction false} LostInMap(items: seq<Item>, i: nat)
    requires i < |items| && IsLost(items[i])
    ensures LostKey(items[i]) in LostMap(items)
    decreases |items|
  {
    if i < |items| - 1 {
      LostInMap(items[..|items| - 1], i);
    }
  }

  lemma {:induction false} ShowingIsAllLeft(plans: seq<Installment>)
    requires PlansSound(plans)
    ensures PlansLeft(StillShowing(plans)) == PlansLeft(plans)
    decreases |plans|
  {
    hide PlanSound;
    if plans != [] {
      var n := |plans| - 1;
      ShowingIsAllLeft(plans[..n]);
      PartsAddUp(plans[n]);
      PlansLeftPush(StillShowing(plans[..n]), plans[n]);
    }
  }

  lemma PlansLeftPush(plans: seq<Installment>, p: Installment)
    ensures PlansLeft(plans + [p]) == PlansLeft(plans) + p.left
  {
    assert (plans + [p])[..|plans|] == plans;
  }

  /** The debt told is what is due in grace, what lost it, what never had it, the installments
      still to show and their parts unpaid, less the family's own money. */
  lemma StatusBalances(t: Terms, kinds: Kinds, ops: seq<Row>, currency: string, today: Day, st: Status)
    requires t.Valid() && kinds.Valid()
    requires Reports(t, Walked(t, kinds, ops, currency, today), today, st)
    ensures st.debt == SumDues(st.grace) + SumLost(st.lost) + st.nonGrace + PlansLeft(st.installments)
            + st.installmentsDue
                       - Walked(t, kinds, ops, currency, today).credit
  {
    hide WalkTo, Journal, FirstDay, Sound, DueMap, LostMap, Owed, Terms.Period;
    var s := Walked(t, kinds, ops, currency, today);
    WalkIsSound(t, kinds, Journal(ops, currency, today), FirstDay(Journal(ops, currency, today), today), today);
    SoundPlans(s);
    ShowingIsAllLeft(s.plans);
    ListedSplit(s.items, today, st.grace, st.lost);
  }

  lemma SoundPlans(s: Walk)
    requires Sound(s)
    ensures PlansSound(s.plans) && LeftsSound(s.items)
  {
  }

  lemma ListedDue(list: seq<Due>, m: map<Day, int>, day: Day)
    requires ListsDues(list, m) && day in m
    ensures exists k :: 0 <= k < |list| && list[k].on == day
    ensures day in DueDays(list)
  {
    var d := Due(day, m[day]);
    assert d in list;
    var k :| 0 <= k < |list| && list[k] == d;
    assert DueDays(list)[k] == day;
  }

  lemma ListedSplit(items: seq<Item>, today: Day, grace: seq<Due>, lost: seq<Lost>)
    requires LeftsSound(items) && ListsDues(grace, DueMap(items, today)) && ListsLost(lost, LostMap(items))
    ensures Owed(items, Anything) == SumDues(grace) + SumLost(lost) + OwedOutside(items)
  {
    hide DueMap, LostMap, Owed, OwedOutside;
    DuesTotal(grace, DueMap(items, today));
    LostTotal(lost, LostMap(items));
    forall i | 0 <= i < |items| && items[i].Covered() ensures DueDay(items[i], today) in DueDays(grace) {
      DueInMap(items, today, i);
      ListedDue(grace, DueMap(items, today), DueDay(items[i], today));
    }
    forall i | 0 <= i < |items| && IsLost(items[i]) ensures LostKey(items[i]) in LostKeys(lost) {
      LostInMap(items, i);
      var l :| l in lost && KeyOf(l) == LostKey(items[i]);
      var j :| 0 <= j < |lost| && lost[j] == l;
      assert LostKeys(lost)[j] == LostKey(items[i]);
    }
    DebitsSplit(items, today, DueDays(grace), LostKeys(lost));
  }

  // ---- The debt is the journal's ----

  lemma {:induction false} SumToPush(rows: seq<Row>, row: Row, first: Day, day: Day)
    ensures SumTo(rows + [row], first, day)
            == SumTo(rows, first, day) + (if first <= row.on <= day then row.amount else 0)
    decreases day - first
  {
    hide RowsOn, SumOf;
    if first <= day {
      SumToPush(rows, row, first, day - 1);
      RowsOnPush(rows, row, day);
      SumOfPush(RowsOn(rows, day), row);
      assert RowsOn(rows, day) + [] == RowsOn(rows, day);
    }
  }

  lemma SumOfPush(rows: seq<Row>, row: Row)
    ensures SumOf(rows + [row]) == SumOf(rows) + row.amount
  {
    assert (rows + [row])[..|rows|] == rows;
  }

  lemma {:induction false} SumToOfNone(first: Day, day: Day)
    ensures SumTo([], first, day) == 0
    decreases day - first
  {
    if first <= day {
      SumToOfNone(first, day - 1);
    }
  }

  lemma {:induction false} SumToAll(rows: seq<Row>, first: Day, day: Day)
    requires forall x :: x in rows ==> first <= x.on <= day
    ensures SumTo(rows, first, day) == SumOf(rows)
    decreases |rows|
  {
    if rows == [] {
      SumToOfNone(first, day);
    } else {
      var n := |rows| - 1;
      assert rows == rows[..n] + [rows[n]];
      SumToAll(rows[..n], first, day);
      SumToPush(rows[..n], rows[n], first, day);
    }
  }

  /** The debt told is minus the sum of the journal's rows, and the installment fees the
      statements have shown on top. */
  lemma DebtIsTheJournals(t: Terms, kinds: Kinds, ops: seq<Row>, currency: string, today: Day, st: Status)
    requires t.Valid() && kinds.Valid()
    requires Reports(t, Walked(t, kinds, ops, currency, today), today, st)
    ensures st.debt == FeesShown(Walked(t, kinds, ops, currency, today).plans) - SumOf(Journal(ops, currency, today))
  {
    hide WalkTo, Journal, FirstDay, FeesShown, Debt, SumTo, SumOf, ListsDues, ListsLost, Terms.Period;
    var rows := Journal(ops, currency, today);
    JournalUpTo(ops, currency, today);
    var first := FirstDay(rows, today);
    DebtIsConserved(t, kinds, rows, first, today);
    SumToAll(rows, first, today);
  }

  // ---- The promise in the status's own figures ----

  /** All that is due by a day is the dues listed up to it. */
  lemma {:induction false} DuesUpTo(items: seq<Item>, today: Day, days: seq<Day>, day: Day)
    requires LeftsSound(items) && Distinct(days)
    requires forall i :: 0 <= i < |items| ==> items[i].extended.None?
    requires forall i :: 0 <= i < |items| && items[i].Covered() ==>
               (items[i].deadline in days <==> items[i].deadline <= day)
    ensures Total(days, DueMap(items, today)) == OwedBy(items, day)
    decreases |items|
  {
    if items == [] {
      TotalOfNone(days);
    } else {
      var n := |items| - 1;
      DuesUpTo(items[..n], today, days, day);
      AddCounts(days, DueMap(items[..n], today), items[n].deadline, items[n].left);
    }
  }

  lemma {:induction false} MapIsDue(items: seq<Item>, today: Day, day: Day)
    requires forall i :: 0 <= i < |items| ==> items[i].extended.None?
    ensures day in DueMap(items, today) <==> IsDue(items, day)
    decreases |items|
  {
    if items != [] {
      var n := |items| - 1;
      MapIsDue(items[..n], today, day);
      if IsDue(items[..n], day) {
        var j :| 0 <= j < n && items[..n][j].Covered() && items[..n][j].deadline == day;
        assert items[j].Covered();
      }
      if IsDue(items, day) {
        var j :| 0 <= j < |items| && items[j].Covered() && items[j].deadline == day;
        assert j < n ==> items[..n][j].Covered();
      }
    }
  }

  /** The k-th due with those before it is all that is due by its day. */
  lemma DuesAreOwedBy(items: seq<Item>, today: Day, list: seq<Due>, k: nat)
    requires LeftsSound(items) && ListsDues(list, DueMap(items, today)) && k < |list|
    requires forall i :: 0 <= i < |items| ==> items[i].extended.None?
    ensures SumDues(list[..k + 1]) == OwedBy(items, list[k].on)
    ensures IsDue(items, list[k].on)
  {
    hide DueMap, OwedBy, IsDue, SumDues;
    var some := list[..k + 1];
    DuesTotal(some, DueMap(items, today));
    MapIsDue(items, today, list[k].on);
    forall i | 0 <= i < |items| && items[i].Covered()
      ensures items[i].deadline in DueDays(some) <==> items[i].deadline <= list[k].on
    {
      DueInMap(items, today, i);
      ListedDue(list, DueMap(items, today), items[i].deadline);
      var j :| 0 <= j < |list| && list[j].on == items[i].deadline;
      if j <= k {
        assert DueDays(some)[j] == items[i].deadline;
      }
    }
    DuesUpTo(items, today, DueDays(some), list[k].on);
  }

  /** What is paid on the days after today up to and with a day. */
  function PaidBy(ops: seq<Row>, currency: string, today: Day, day: Day): int {
    PaidBetween(Journal(ops, currency, day), today, day)
  }

  lemma {:induction false} PaidByAnyHorizon(ops: seq<Row>, currency: string, since: Day, day: Day, a: Day, b: Day)
    requires day <= a && day <= b
    ensures PaidBetween(Journal(ops, currency, a), since, day) == PaidBetween(Journal(ops, currency, b), since, day)
    decreases Max(day - since, 0)
  {
    hide Journal, RowsOn;
    if since < day {
      PaidByAnyHorizon(ops, currency, since, day - 1, a, b);
      JournalOn(ops, currency, day, a, day);
      JournalOn(ops, currency, day, b, day);
    }
  }

  /** A walk to today reads nothing dated after it. */
  lemma WalkedEarlier(t: Terms, kinds: Kinds, ops: seq<Row>, currency: string, today: Day, until: Day)
    requires t.Valid() && today <= until && Journal(ops, currency, today) != []
    ensures var rows := Journal(ops, currency, until);
            && FirstDay(rows, until) <= today
            && Walked(t, kinds, ops, currency, today) == WalkTo(t, kinds, rows, FirstDay(rows, until), today)
  {
    hide Journal, FirstDay, WalkTo, RowsOn;
    var now, rows := Journal(ops, currency, today), Journal(ops, currency, until);
    JournalUpTo(ops, currency, today);
    JournalUpTo(ops, currency, until);
    assert now[0] in now;
    assert now[0] in rows;
    FirstsAgree(now, rows, today, until);
    forall d | d <= today ensures RowsOn(now, d) == RowsOn(rows, d) {
      JournalOn(ops, currency, today, until, d);
    }
    SameDaysSameWalk(t, kinds, now, rows, FirstDay(now, today), today);
  }

  lemma FirstsAgree(now: seq<Row>, rows: seq<Row>, today: Day, until: Day)
    requires now != [] && today <= until
    requires forall x :: x in now <==> x in rows && x.on <= today
    ensures FirstDay(now, today) == FirstDay(rows, until) <= today
  {
    var a, b := FirstDay(now, today), FirstDay(rows, until);
    var x :| x in now && x.on == a;
    assert x in rows;
    var y :| y in rows && y.on == b;
    assert y in now;
  }

  /** Nothing lost, and nothing owed that the grace does not cover, as the status tells it. */
  predicate NothingLost(st: Status) {
    st.lost == [] && st.nonGrace == 0
  }

  lemma {:induction false} NothingOutside(items: seq<Item>)
    requires LeftsSound(items)
    ensures 0 <= OwedOutside(items)
    ensures OwedOutside(items) == 0 ==> forall i :: 0 <= i < |items| && items[i].left > 0 ==> items[i].grace
    decreases |items|
  {
    if items != [] {
      NothingOutside(items[..|items| - 1]);
      assert forall i :: 0 <= i < |items| - 1 ==> items[i] == items[..|items| - 1][i];
    }
  }

  lemma StatusCovers(items: seq<Item>, lost: seq<Lost>)
    requires LeftsSound(items) && ListsLost(lost, LostMap(items)) && lost == [] && OwedOutside(items) == 0
    ensures AllCovered(items)
  {
    hide LostMap, OwedOutside;
    NothingOutside(items);
    forall i | 0 <= i < |items| && items[i].left > 0 ensures items[i].Covered() {
      if items[i].lost {
        LostInMap(items, i);
      }
    }
  }

  /** The promise the status makes: with nothing lost and nothing owed outside the grace today,
      whatever the journal records later, today's purchases all keep their grace to a later day
      exactly when, for each due listed before that day, what was paid by it reaches that due
      with those listed before it. */
  lemma StatusPromise(t: Terms, kinds: Kinds, ops: seq<Row>, currency: string, today: Day, until: Day, st: Status)
    requires Plain(t, kinds) && today < until && Journal(ops, currency, today) != []
    requires Reports(t, Walked(t, kinds, ops, currency, today), today, st) && NothingLost(st)
    ensures |Walked(t, kinds, ops, currency, today).items| <= |Walked(t, kinds, ops, currency, until).items|
    ensures var now, later := Walked(t, kinds, ops, currency, today).items,
            Walked(t, kinds, ops, currency, until).items;
            (forall i :: 0 <= i < |now| ==> !now[i].lost ==> !later[i].lost) <==>
            (forall k :: 0 <= k < |st.grace| && st.grace[k].on < until ==>
               SumDues(st.grace[..k + 1]) <= PaidBy(ops, currency, today, st.grace[k].on))
  {
    hide WalkTo, Journal, FirstDay, Plain, OwedBy, IsDue, DueMap, SumDues, PaidBetween, OwedOutside, LostMap,
         ListsDues, Walked, Evolves, Terms.Period;
    assert t.Valid() && kinds.Valid() by { PlainIsValid(t, kinds); }
    var rows := Journal(ops, currency, until);
    var first := FirstDay(rows, until);
    var now, later := Walked(t, kinds, ops, currency, today).items, Walked(t, kinds, ops, currency, until).items;
    WalkedEarlier(t, kinds, ops, currency, today, until);
    WalkedIs(t, kinds, ops, currency, until);
    WalkIsSound(t, kinds, rows, first, today);
    SoundParts(WalkTo(t, kinds, rows, first, today));
    WalkIsCalm(t, kinds, rows, first, today);
    StatusCovers(now, st.lost);
    PromiseIsExact(t, kinds, rows, first, today, until);
    LostStays(t, kinds, rows, first, today, until);
    forall k | 0 <= k < |st.grace| && st.grace[k].on < until
      ensures IsDue(now, st.grace[k].on)
      ensures SumDues(st.grace[..k + 1]) == OwedBy(now, st.grace[k].on)
      ensures PaidBy(ops, currency, today, st.grace[k].on) == PaidBetween(rows, today, st.grace[k].on)
    {
      DuesAreOwedBy(now, today, st.grace, k);
      PaidByAnyHorizon(ops, currency, today, st.grace[k].on, st.grace[k].on, until);
    }
    forall day | IsDue(now, day) ensures exists k :: 0 <= k < |st.grace| && st.grace[k].on == day {
      MapIsDue(now, today, day);
      ListedDue(st.grace, DueMap(now, today), day);
    }
  }

  lemma WalkedIs(t: Terms, kinds: Kinds, ops: seq<Row>, currency: string, today: Day)
    requires t.Valid()
    ensures Walked(t, kinds, ops, currency, today)
         == WalkTo(t, kinds, Journal(ops, currency, today), FirstDay(Journal(ops, currency, today), today), today)
  {
    hide WalkTo, Journal, FirstDay;
  }

  lemma LostStays(t: Terms, kinds: Kinds, rows: seq<Row>, first: Day, today: Day, until: Day)
    requires t.Valid() && kinds.Valid() && today <= until
    ensures var now, later := WalkTo(t, kinds, rows, first, today).items, WalkTo(t, kinds, rows, first, until).items;
            |now| <= |later| && forall i :: 0 <= i < |now| && now[i].lost ==> later[i].lost
  {
    hide WalkTo;
    NothingIsUnlost(t, kinds, rows, first, today, until);
  }
}
