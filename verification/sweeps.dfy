/** Sweeping the whole registry over an account, again and again, comes to rest. */
module Sweeps {
  import opened Fixpoint
  import opened LocalWants
  import opened Materialize
  import opened Reconcile
  import opened RegistryNames
  import opened Rounding

  /** A paper of the registry: its catalog rows and its events. */
  datatype Paper = Paper(rows: seq<Uuid>, events: seq<Event>)

  datatype Registry = Registry(g: Engine, account: Uuid, papers: seq<Paper>)

  function Asks(s: Registry, p: nat, journal: seq<Row>): Result<seq<Row>>
    requires p < |s.papers|
  {
    Want(s.g, journal, s.account, s.papers[p].rows, s.papers[p].events)
  }

  /** A run of one paper, refused nothing: the difference applied, each row written with an id of
      its own. */
  ghost predicate Ran(s: Registry, p: nat, journal: seq<Row>, after: seq<Row>)
    requires p < |s.papers|
  {
    && IdsDiffer(journal) && IdsDiffer(after) && Asks(s, p, journal).Ok?
    && exists delta, ids, stamps :: Applied(s, p, journal, after, delta, ids, stamps)
  }

  ghost predicate Applied(s: Registry, p: nat, journal: seq<Row>, after: seq<Row>, delta: Delta, ids: seq<int>,
            stamps: seq<int>)
    requires p < |s.papers| && Asks(s, p, journal).Ok?
  {
    && |ids| == |stamps| == |delta.add|
    && Differs(Asks(s, p, journal).value, OwnedOf(journal, s.papers[p].rows), delta)
    && after == After(journal, delta, ids, stamps)
  }

  /** One sweep, the papers in their order: the journals before, between and after the runs. */
  ghost predicate Swept(s: Registry, journals: seq<seq<Row>>) {
    |journals| == |s.papers| + 1 && forall p :: 0 <= p < |s.papers| ==> Ran(s, p, journals[p], journals[p + 1])
  }

  // ---- Links between papers ----

  /** An event of one paper produces another: its result is one of the other's catalog rows. */
  ghost predicate Linked(s: Registry, p: nat, q: nat)
    requires p < |s.papers| && q < |s.papers|
  {
    exists i, row :: 0 <= i < |s.papers[p].events| && Produces(s.g, s.papers[p].events[i], row)
      && row in s.papers[q].rows
  }

  predicate Produces(g: Engine, e: Event, row: Uuid) { e.resultIsin != "" && g.catalog(e.resultIsin) == Ok(Some(row)) }

  /** The departing leg is on the source paper, the arriving one on the produced. */
  ghost predicate LegsInPlace(g: Engine) {
    forall e, account, row, result, held, working ::
      var p := g.pair(e, account, row, result, held, working);
      p.Some? ==> p.value.0.instrument == Some(row) && p.value.1.instrument == Some(result)
  }

  /** A registry as the program keeps it, over an engine that is local; the papers' links go from
      lesser depths to greater ones only. */
  ghost predicate Sound(s: Registry, depth: seq<nat>) {
    && Sensible(s.g) && Local(s.g) && LegsInPlace(s.g)
    && (forall p :: 0 <= p < |s.papers| ==> EachOnce(s.papers[p].events, s.papers[p].rows))
    && (forall p, q, row :: 0 <= p < |s.papers| && 0 <= q < |s.papers| && p != q && row in s.papers[p].rows ==>
        row !in s.papers[q].rows)
    && |depth| == |s.papers|
    && (forall p, q :: 0 <= p < |s.papers| && 0 <= q < |s.papers| && Linked(s, p, q) ==> depth[p] < depth[q])
  }

  // ---- Where the rows asked for are ----

  /** A row on a paper's own catalog row, or on one its events produce. */
  ghost predicate InPlace(g: Engine, papers: seq<Uuid>, events: seq<Event>, r: Row) {
    r.instrument.Some?
      && (r.instrument.value in papers || exists i :: 0 <= i < |events| && Produces(g, events[i], r.instrument.value))
  }

  ghost predicate AllInPlace(g: Engine, papers: seq<Uuid>, events: seq<Event>, rows: seq<Row>) {
    forall r :: r in rows ==> InPlace(g, papers, events, r)
  }

  lemma PaperInPlace(g: Engine, events: seq<Event>, k: nat, account: Uuid, result: Option<Uuid>, papers: seq<Uuid>,
            paper: Uuid, d: Desk)
    requires LegsInPlace(g) && k < |events| && paper in papers
    requires result.Some? ==> Produces(g, events[k], result.value)
    requires AllInPlace(g, papers, events, d.want)
    ensures var r := AskPaper(g, events[k], account, result, paper, d);
            r.Ok? ==> AllInPlace(g, papers, events, r.value.want)
  {
    hide HeldInRoubles, HasForeignSplit, InsertRows, ExternalId, InId, Produces;
    var held := g.held(d.working, paper, events[k].on);
    if held.Ok? {
      var rows := RowsFor(g, events[k], account, paper, result, held.value, d.working);
      if rows.Some? {
        forall r | r in rows.value ensures InPlace(g, papers, events, r) {
          assert r.instrument == Some(paper) || r.instrument == result;
        }
      }
    }
  }

  lemma {:induction false} PapersInPlace(g: Engine, events: seq<Event>, k: nat, account: Uuid, result: Option<Uuid>,
            papers: seq<Uuid>, n: nat, d: Desk)
    requires LegsInPlace(g) && k < |events| && n <= |papers|
    requires result.Some? ==> Produces(g, events[k], result.value)
    requires AllInPlace(g, papers, events, d.want)
    ensures var r := AskPapers(g, events[k], account, result, papers, n, d);
            r.Ok? ==> AllInPlace(g, papers, events, r.value.want)
    decreases n
  {
    hide AskPaper, AllInPlace, LegsInPlace, Produces;
    if n > 0 {
      PapersInPlace(g, events, k, account, result, papers, n - 1, d);
      var before := AskPapers(g, events[k], account, result, papers, n - 1, d);
      if before.Ok? {
        PaperInPlace(g, events, k, account, result, papers, papers[n - 1], before.value);
      }
    }
  }

  /** What is asked for is on the paper itself or on what its events produce. */
  lemma {:induction false} AskedInPlace(g: Engine, events: seq<Event>, k: nat, account: Uuid, papers: seq<Uuid>,
            base: seq<Row>)
    requires LegsInPlace(g) && k <= |events|
    ensures var r := AskEvents(g, events, k, account, papers, base);
            r.Ok? ==> AllInPlace(g, papers, events, r.value.want)
    decreases k
  {
    hide AskPapers, LegsInPlace, InPlace;
    if k > 0 {
      AskedInPlace(g, events, k - 1, account, papers, base);
      var before, e := AskEvents(g, events, k - 1, account, papers, base), events[k - 1];
      if before.Ok? {
        var found := g.catalog(e.resultIsin);
        var result := if e.resultIsin == "" || found.Err? then None else found.value;
        PapersInPlace(g, events, k - 1, account, result, papers, |papers|, before.value);
      }
    }
  }

  // ---- One run ----

  /** A paper's rows are exactly those asked for. */
  ghost predicate Settled(s: Registry, p: nat, journal: seq<Row>)
    requires p < |s.papers|
  {
    Asks(s, p, journal).Ok? && Exact(Asks(s, p, journal).value, OwnedOf(journal, s.papers[p].rows))
  }

  /** No row is left over from a link that is no more: each paper's rows are in their place. */
  ghost predicate Clean(s: Registry, p: nat, journal: seq<Row>)
    requires p < |s.papers|
  {
    AllInPlace(s.g, s.papers[p].rows, s.papers[p].events, OwnedOf(journal, s.papers[p].rows))
  }

  lemma RunSettles(s: Registry, depth: seq<nat>, p: nat, journal: seq<Row>, after: seq<Row>)
    requires Sound(s, depth) && p < |s.papers| && Ran(s, p, journal, after)
    ensures Settled(s, p, after) && Clean(s, p, after)
    ensures Base(after, s.papers[p].rows) == Base(journal, s.papers[p].rows)
  {
    hide Sensible, Local, LegsInPlace, EachOnce, Linked, Differs, IdsDiffer, Exact, After, Base, OwnedOf, AllInPlace,
         Want;
    var paper := s.papers[p];
    var delta, ids, stamps :| Applied(s, p, journal, after, delta, ids, stamps);
    OneRunIsExact(s.g, journal, s.account, paper.rows, paper.events, delta, ids, stamps);
    WantInPlace(s, p, journal);
    WantIsNamed(s.g, journal, s.account, paper.rows, paper.events);
    AfterRun(Asks(s, p, journal).value, journal, paper.rows, delta, ids, stamps);
    ExactInPlace(s.g, paper.rows, paper.events, Asks(s, p, journal).value, OwnedOf(after, paper.rows));
  }

  lemma WantInPlace(s: Registry, p: nat, journal: seq<Row>)
    requires p < |s.papers| && LegsInPlace(s.g) && Asks(s, p, journal).Ok?
    ensures AllInPlace(s.g, s.papers[p].rows, s.papers[p].events, Asks(s, p, journal).value)
  {
    hide LegsInPlace, AskEvents, Base, AllInPlace;
    AskedInPlace(s.g, s.papers[p].events, |s.papers[p].events|, s.account, s.papers[p].rows,
                 Base(journal, s.papers[p].rows));
  }

  lemma ExactInPlace(g: Engine, papers: seq<Uuid>, events: seq<Event>, want: seq<Row>, owned: seq<Row>)
    requires Exact(want, owned) && AllInPlace(g, papers, events, want)
    ensures AllInPlace(g, papers, events, owned)
  {
    hide NameOf, InPlace;
    forall o | o in owned ensures InPlace(g, papers, events, o) {
      var w :| w in want && NameOf(w) == NameOf(o) && SameRow(w, o);
      SamePlace(g, papers, events, w, o);
    }
  }

  lemma SamePlace(g: Engine, papers: seq<Uuid>, events: seq<Event>, w: Row, o: Row)
    requires SameRow(w, o) && InPlace(g, papers, events, w)
    ensures InPlace(g, papers, events, o)
  {
  }

  lemma {:induction false} WithoutNone(journal: seq<Row>)
    ensures Without(journal, []) == journal
    decreases |journal|
  {
    if journal != [] {
      var before, last := journal[..|journal| - 1], journal[|journal| - 1];
      WithoutNone(before);
      assert Without(journal, []) == before + [last];
      assert journal == before + [last];
    }
  }

  /** A run of a paper already settled changes nothing. */
  lemma SettledRunIsEmpty(s: Registry, depth: seq<nat>, p: nat, journal: seq<Row>, after: seq<Row>)
    requires Sound(s, depth) && p < |s.papers| && Ran(s, p, journal, after) && Settled(s, p, journal)
    ensures after == journal
  {
    hide Sensible, Local, LegsInPlace, EachOnce, Linked, Differs, IdsDiffer, Exact, OwnedOf, Want, Owned, Keeps,
         Unsettled, Without, NameOf;
    var paper := s.papers[p];
    var delta, ids, stamps :| Applied(s, p, journal, after, delta, ids, stamps);
    var owned := OwnedOf(journal, paper.rows);
    forall o | o in owned ensures o.externalId == Some(NameOf(o)) && NameOf(o) != "" {
      OwnedIsNamed(o, paper.rows);
    }
    ExactIsSettled(Asks(s, p, journal).value, owned);
    NothingToDo(Asks(s, p, journal).value, owned, delta);
    WithoutNone(journal);
    assert Written([], [], []) == [];
  }

  // ---- A run and the other papers ----

  lemma OtherRowsAreKept(s: Registry, depth: seq<nat>, p: nat, q: nat, journal: seq<Row>, after: seq<Row>)
    requires Sound(s, depth) && p < |s.papers| && q < |s.papers| && p != q
    requires Base(after, s.papers[p].rows) == Base(journal, s.papers[p].rows)
    ensures forall o :: o in OwnedOf(after, s.papers[q].rows) <==> o in OwnedOf(journal, s.papers[q].rows)
  {
    hide Sensible, Local, LegsInPlace, EachOnce, Linked, PaperOf;
    forall o | Owned(o, s.papers[q].rows) ensures !Owned(o, s.papers[p].rows) {}
    forall o | Owned(o, s.papers[q].rows) ensures o in after <==> o in journal {
      assert o in after <==> o in Base(after, s.papers[p].rows);
      assert o in journal <==> o in Base(journal, s.papers[p].rows);
    }
  }

  lemma ExactOfSame(want: seq<Row>, a: seq<Row>, b: seq<Row>)
    requires Exact(want, a) && forall o :: o in a <==> o in b
    ensures Exact(want, b)
  {
    hide SameRow, NameOf;
  }

  /** Where none of one paper's rows names another, the other's base names it without them. */
  lemma {:induction false} NamingApart(journal: seq<Row>, ours: seq<Uuid>, theirs: seq<Uuid>, row: Uuid)
    requires forall o :: o in journal && Owned(o, ours) ==> o.instrument != Some(row)
    ensures Naming(Base(journal, theirs), row) == Naming(Base(Base(journal, ours), theirs), row)
    decreases |journal|
  {
    hide Owned, Naming;
    if journal != [] {
      var n := |journal| - 1;
      var before, last := journal[..n], journal[n];
      assert journal == before + [last];
      NamingApart(before, ours, theirs, row);
      BasePush(before, last, theirs);
      BasePush(before, last, ours);
      BasePush(Base(before, ours), last, theirs);
      NamingPush(Base(before, theirs), last, row);
      NamingPush(Base(Base(before, ours), theirs), last, row);
    }
  }

  lemma BasePush(journal: seq<Row>, r: Row, papers: seq<Uuid>)
    ensures Base(journal + [r], papers)
            == if Owned(r, papers) then Base(journal, papers) else Base(journal, papers) + [r]
  {
    hide Owned;
    assert (journal + [r])[..|journal|] == journal;
  }

  lemma RowsNameNoOther(s: Registry, depth: seq<nat>, p: nat, q: nat, journal: seq<Row>, row: Uuid)
    requires Sound(s, depth) && p < |s.papers| && q < |s.papers| && p != q && !Linked(s, p, q)
    requires Clean(s, p, journal) && row in s.papers[q].rows
    ensures forall o :: o in journal && Owned(o, s.papers[p].rows) ==> o.instrument != Some(row)
  {
    hide Sensible, Local, LegsInPlace, EachOnce, Produces, Owned;
    forall o | o in journal && Owned(o, s.papers[p].rows) ensures o.instrument != Some(row) {
      assert o in OwnedOf(journal, s.papers[p].rows);
      assert InPlace(s.g, s.papers[p].rows, s.papers[p].events, o);
    }
  }

  lemma {:induction false} WithoutSorted(journal: seq<Row>, remove: seq<int>)
    requires Sorted(journal)
    ensures Sorted(Without(journal, remove))
    decreases |journal|
  {
    hide FoldsBefore, Sorted;
    if journal != [] {
      var n := |journal| - 1;
      SortedPrefix(journal);
      WithoutSorted(journal[..n], remove);
      forall o | o in Without(journal[..n], remove) ensures !FoldsBefore(journal[n], o) {
        assert o in journal[..n];
        assert o in journal;
      }
      SortedPush(Without(journal[..n], remove), journal[n]);
    }
  }

  lemma RunStaysSorted(s: Registry, p: nat, journal: seq<Row>, after: seq<Row>)
    requires p < |s.papers| && Ran(s, p, journal, after) && Sorted(journal)
    ensures Sorted(after)
  {
    hide Sorted, Differs, IdsDiffer, Want, OwnedOf, Without, Written, InsertRows;
    var delta, ids, stamps :| Applied(s, p, journal, after, delta, ids, stamps);
    WithoutSorted(journal, delta.remove);
    InsertsSorted(Without(journal, delta.remove), Written(delta.add, ids, stamps));
  }

  /** A run leaves a paper it does not link to as it was. */
  lemma RunKeepsUnlinked(s: Registry, depth: seq<nat>, p: nat, q: nat, journal: seq<Row>, after: seq<Row>)
    requires Sound(s, depth) && p < |s.papers| && q < |s.papers| && p != q && !Linked(s, p, q)
    requires Ran(s, p, journal, after) && Clean(s, p, journal) && Sorted(journal) && Settled(s, q, journal)
    ensures Settled(s, q, after)
  {
    hide Sound, Ran, Linked, Clean, Sorted, Naming, Base, OwnedOf, Exact, Want, Owned;
    RunSettles(s, depth, p, journal, after);
    RunStaysSorted(s, p, journal, after);
    OtherRowsAreKept(s, depth, p, q, journal, after);
    var ours, theirs := s.papers[p].rows, s.papers[q].rows;
    forall row | row in theirs ensures Naming(Base(journal, theirs), row) == Naming(Base(after, theirs), row) {
      RowsNameNoOther(s, depth, p, q, journal, row);
      RowsNameNoOther(s, depth, p, q, after, row);
      NamingApart(journal, ours, theirs, row);
      NamingApart(after, ours, theirs, row);
    }
    SoundIsLocal(s, depth);
    WantIsLocal(s.g, journal, after, s.account, theirs, s.papers[q].events);
    ExactOfSame(Asks(s, q, journal).value, OwnedOf(journal, theirs), OwnedOf(after, theirs));
  }

  lemma SoundIsLocal(s: Registry, depth: seq<nat>)
    requires Sound(s, depth)
    ensures Local(s.g)
  {
  }

  lemma CleanStays(s: Registry, depth: seq<nat>, p: nat, q: nat, journal: seq<Row>, after: seq<Row>)
    requires Sound(s, depth) && p < |s.papers| && q < |s.papers| && Ran(s, p, journal, after)
    requires p == q || Clean(s, q, journal)
    ensures Clean(s, q, after)
  {
    hide Sound, Ran, InPlace, OwnedOf, Base;
    RunSettles(s, depth, p, journal, after);
    if p != q {
      OtherRowsAreKept(s, depth, p, q, journal, after);
    }
  }

  // ---- Sweeps ----

  ghost predicate AllClean(s: Registry, journal: seq<Row>) {
    forall p :: 0 <= p < |s.papers| ==> Clean(s, p, journal)
  }

  /** The papers of lesser depth are settled, and of this depth those before the i-th. */
  ghost predicate SettledTo(s: Registry, depth: seq<nat>, k: nat, i: nat, journal: seq<Row>)
    requires |depth| == |s.papers|
  {
    && Sorted(journal) && AllClean(s, journal)
    && forall p :: 0 <= p < |s.papers| && (depth[p] < k || (depth[p] == k && p < i)) ==> Settled(s, p, journal)
  }

  lemma RunAdvances(s: Registry, depth: seq<nat>, k: nat, i: nat, journal: seq<Row>, after: seq<Row>)
    requires Sound(s, depth) && i < |s.papers| && Ran(s, i, journal, after) && SettledTo(s, depth, k, i, journal)
    ensures SettledTo(s, depth, k, i + 1, after)
  {
    hide Ran, Clean, Sorted, Settled, Linked, Sensible, Local, LegsInPlace, EachOnce;
    RunStaysSorted(s, i, journal, after);
    RunSettles(s, depth, i, journal, after);
    forall p | 0 <= p < |s.papers| ensures Clean(s, p, after) { CleanStays(s, depth, i, p, journal, after); }
    forall p | 0 <= p < |s.papers| && (depth[p] < k || (depth[p] == k && p < i + 1)) ensures Settled(s, p, after) {
      if p != i {
        if Linked(s, i, p) {
          SettledRunIsEmpty(s, depth, i, journal, after);
        } else {
          RunKeepsUnlinked(s, depth, i, p, journal, after);
        }
      }
    }
  }

  lemma {:induction false} SweepAdvancesTo(s: Registry, depth: seq<nat>, k: nat, journals: seq<seq<Row>>, i: nat)
    requires Sound(s, depth) && Swept(s, journals) && i <= |s.papers| && SettledTo(s, depth, k, 0, journals[0])
    ensures SettledTo(s, depth, k, i, journals[i])
    decreases i
  {
    hide Sound, SettledTo, Ran;
    if i > 0 {
      SweepAdvancesTo(s, depth, k, journals, i - 1);
      RunAdvances(s, depth, k, i - 1, journals[i - 1], journals[i]);
    }
  }

  /** One sweep settles the papers one link further. */
  lemma SweepAdvances(s: Registry, depth: seq<nat>, k: nat, journals: seq<seq<Row>>)
    requires Sound(s, depth) && Swept(s, journals) && SettledTo(s, depth, k, 0, journals[0])
    ensures SettledTo(s, depth, k + 1, 0, journals[|s.papers|])
  {
    hide Ran, Clean, Sorted, Settled, Linked, Sensible, Local, LegsInPlace, EachOnce;
    SweepAdvancesTo(s, depth, k, journals, |s.papers|);
  }

  /** The first sweep clears what was left over from links that are no more. */
  lemma {:induction false} FirstSweepCleans(s: Registry, depth: seq<nat>, journals: seq<seq<Row>>, i: nat)
    requires Sound(s, depth) && Swept(s, journals) && i <= |s.papers| && Sorted(journals[0])
    ensures Sorted(journals[i]) && forall p :: 0 <= p < i ==> Clean(s, p, journals[i])
    decreases i
  {
    hide Sound, Ran, Sorted, Clean;
    if i > 0 {
      FirstSweepCleans(s, depth, journals, i - 1);
      RunStaysSorted(s, i - 1, journals[i - 1], journals[i]);
      forall p | 0 <= p < i
        ensures Clean(s, p, journals[i])
      {
        CleanStays(s, depth, i - 1, p, journals[i - 1], journals[i]);
      }
    }
  }

  /** Sweeps one after another, each from the journal the one before left. */
  ghost predicate Chained(s: Registry, sweeps: seq<seq<seq<Row>>>) {
    && (forall t :: 0 <= t < |sweeps| ==> Swept(s, sweeps[t]))
    && (forall t :: 0 < t < |sweeps| ==> sweeps[t][0] == sweeps[t - 1][|s.papers|])
  }

  lemma {:induction false} SweepsAdvance(s: Registry, depth: seq<nat>, sweeps: seq<seq<seq<Row>>>, from: nat, t: nat)
    requires Sound(s, depth) && Chained(s, sweeps) && from <= t < |sweeps| && SettledTo(s, depth, 0, 0, sweeps[from][0])
    ensures SettledTo(s, depth, t - from, 0, sweeps[t][0])
    decreases t - from
  {
    hide Sound, SettledTo, Ran;
    if from < t {
      SweepsAdvance(s, depth, sweeps, from, t - 1);
      assert Swept(s, sweeps[t - 1]);
      SweepAdvances(s, depth, t - 1 - from, sweeps[t - 1]);
    }
  }

  /** With every paper settled a sweep changes nothing. */
  lemma {:induction false} SettledSweepIsStill(s: Registry, depth: seq<nat>, bound: nat, journals: seq<seq<Row>>,
            i: nat)
    requires Sound(s, depth) && Swept(s, journals) && i <= |s.papers| && SettledTo(s, depth, bound, 0, journals[0])
    requires forall p :: 0 <= p < |s.papers| ==> depth[p] < bound
    ensures journals[i] == journals[0]
    decreases i
  {
    hide Ran, Clean, Settled, Sorted, Linked, Sensible, Local, LegsInPlace, EachOnce;
    if i > 0 {
      SettledSweepIsStill(s, depth, bound, journals, i - 1);
      SettledRunIsEmpty(s, depth, i - 1, journals[i - 1], journals[i]);
    }
  }

  /** However the registry's papers are ordered: where no chain of links is longer than `bound`
      papers, from a journal with nothing left over from links that are no more, every sweep after
      the first `bound` leaves each paper's rows exactly those asked for and changes nothing; from
      any other journal one sweep more is enough. */
  lemma SweepsComeToRest(s: Registry, depth: seq<nat>, bound: nat, sweeps: seq<seq<seq<Row>>>, t: nat, i: nat)
    requires Sound(s, depth) && Chained(s, sweeps) && sweeps != [] && Sorted(sweeps[0][0])
    requires forall p :: 0 <= p < |s.papers| ==> depth[p] < bound
    requires t < |sweeps| && i <= |s.papers|
    requires bound + (if AllClean(s, sweeps[0][0]) then 0 else 1) <= t
    ensures sweeps[t][i] == sweeps[t][0]
    ensures forall p :: 0 <= p < |s.papers| ==> Settled(s, p, sweeps[t][i])
  {
    hide Ran, Clean, Settled, Sorted, Linked, Sensible, Local, LegsInPlace, EachOnce;
    var from := if AllClean(s, sweeps[0][0]) then 0 else 1;
    if from == 1 {
      assert Swept(s, sweeps[0]);
      FirstSweepCleans(s, depth, sweeps[0], |s.papers|);
    }
    SweepsAdvance(s, depth, sweeps, from, t);
    assert Swept(s, sweeps[t]);
    SettledSweepIsStill(s, depth, t - from, sweeps[t], i);
  }
}
