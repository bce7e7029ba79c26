/** When the engine reads only the rows that name a paper, so does what is asked for it. */
module LocalWants {
  import opened Fixpoint
  import opened Materialize
  import opened Reconcile
  import opened RegistryNames
  import opened Rounding

  /** The rows of a journal that name a paper. */
  function Naming(journal: seq<Row>, paper: Uuid): (r: seq<Row>)
    ensures forall o :: o in r <==> o in journal && o.instrument == Some(paper)
  {
    if journal == [] then []
    else
      var n := |journal| - 1;
      assert journal == journal[..n] + [journal[n]];
      if journal[n].instrument == Some(paper) then Naming(journal[..n], paper) + [journal[n]]
      else Naming(journal[..n], paper)
  }

  /** What the engine says of a paper, and the pairs it builds from it, follow from the rows that
      name it. */
  ghost predicate Local(g: Engine) {
    && (forall j, k, paper, on :: Naming(j, paper) == Naming(k, paper) ==> g.held(j, paper, on) == g.held(k, paper, on))
    && (forall e, account, paper, result, held, j, k :: Naming(j, paper) == Naming(k, paper) ==>
          g.pair(e, account, paper, result, held, j) == g.pair(e, account, paper, result, held, k))
  }

  ghost predicate SameFor(j: seq<Row>, k: seq<Row>, papers: seq<Uuid>) {
    forall p :: p in papers ==> Naming(j, p) == Naming(k, p)
  }

  // ---- Fold order ----

  ghost predicate Sorted(journal: seq<Row>) {
    forall i, j :: 0 <= i < j < |journal| ==> !FoldsBefore(journal[j], journal[i])
  }

  lemma NotBeforeEither(a: Row, b: Row, c: Row)
    requires !FoldsBefore(b, a) && !FoldsBefore(c, b)
    ensures !FoldsBefore(c, a)
  {
  }

  lemma SortedPrefix(journal: seq<Row>)
    requires journal != [] && Sorted(journal)
    ensures Sorted(journal[..|journal| - 1])
    ensures forall o :: o in journal ==> !FoldsBefore(journal[|journal| - 1], o)
  {
    hide FoldsBefore;
    var n := |journal| - 1;
    forall o | o in journal ensures !FoldsBefore(journal[n], o) {
      var i :| 0 <= i < |journal| && journal[i] == o;
      NotBeforeItself(o);
    }
  }

  lemma NotBeforeItself(o: Row)
    ensures !FoldsBefore(o, o)
  {
  }

  lemma SortedPush(journal: seq<Row>, r: Row)
    requires Sorted(journal) && forall o :: o in journal ==> !FoldsBefore(r, o)
    ensures Sorted(journal + [r])
  {
    hide FoldsBefore;
    assert forall i :: 0 <= i < |journal| ==> journal[i] in journal;
  }

  lemma BeforeIsNotAfter(a: Row, b: Row)
    requires FoldsBefore(a, b)
    ensures !FoldsBefore(b, a)
  {
  }

  lemma {:induction false} InsertSorted(journal: seq<Row>, r: Row)
    requires Sorted(journal)
    ensures Sorted(InsertRow(journal, r))
    decreases |journal|
  {
    hide FoldsBefore, Sorted;
    if journal == [] {
      SortedPush([], r) by { SortedNone(); }
    } else {
      var n := |journal| - 1;
      SortedPrefix(journal);
      if !FoldsBefore(r, journal[n]) {
        forall o | o in journal ensures !FoldsBefore(r, o) { NotBeforeEither(o, journal[n], r); }
        SortedPush(journal, r);
      } else {
        InsertSorted(journal[..n], r);
        InsertRowBase(journal[..n], r, []);
        BeforeIsNotAfter(r, journal[n]);
        assert journal == journal[..n] + [journal[n]];
        forall o | o in InsertRow(journal[..n], r) ensures !FoldsBefore(journal[n], o) {
          assert o == r || o in journal;
        }
        SortedPush(InsertRow(journal[..n], r), journal[n]);
      }
    }
  }

  lemma SortedNone()
    ensures Sorted([])
  {
  }

  lemma {:induction false} InsertsSorted(journal: seq<Row>, rows: seq<Row>)
    requires Sorted(journal)
    ensures Sorted(InsertRows(journal, rows))
    decreases |rows|
  {
    hide FoldsBefore, Sorted;
    if rows != [] {
      InsertsSorted(journal, rows[..|rows| - 1]);
      InsertSorted(InsertRows(journal, rows[..|rows| - 1]), rows[|rows| - 1]);
    }
  }

  /** Of a sorted journal with a row put in, those naming a paper are those before with the row put
      in among them when it names the paper. */
  lemma {:induction false} InsertNaming(journal: seq<Row>, r: Row, paper: Uuid)
    requires Sorted(journal)
    ensures Naming(InsertRow(journal, r), paper)
         == if r.instrument == Some(paper) then InsertRow(Naming(journal, paper), r) else Naming(journal, paper)
    decreases |journal|
  {
    hide FoldsBefore, Sorted, Naming, InsertRow;
    NamingNone(paper);
    if journal == [] {
      InsertLast([], r);
      NamingPush([], r, paper);
    } else {
      var n := |journal| - 1;
      var before, last := journal[..n], journal[n];
      assert journal == before + [last];
      SortedPrefix(journal);
      NamingPush(before, last, paper);
      if !FoldsBefore(r, last) {
        InsertLast(journal, r);
        NamingPush(journal, r, paper);
        LastNamed(journal, r, paper);
      } else {
        InsertNaming(before, r, paper);
        InsertBefore(before, last, r);
        NamingPush(InsertRow(before, r), last, paper);
        InsertBefore(Naming(before, paper), last, r);
      }
    }
  }

  lemma NamingPush(journal: seq<Row>, r: Row, paper: Uuid)
    ensures Naming(journal + [r], paper)
            == if r.instrument == Some(paper) then Naming(journal, paper) + [r] else Naming(journal, paper)
  {
    assert (journal + [r])[..|journal|] == journal;
  }

  lemma InsertLast(journal: seq<Row>, r: Row)
    requires journal == [] || !FoldsBefore(r, journal[|journal| - 1])
    ensures InsertRow(journal, r) == journal + [r]
  {
  }

  lemma InsertBefore(journal: seq<Row>, last: Row, r: Row)
    requires FoldsBefore(r, last)
    ensures InsertRow(journal + [last], r) == InsertRow(journal, r) + [last]
  {
    assert (journal + [last])[..|journal|] == journal;
  }

  /** A row that folds after the last of a sorted journal folds after all that name the paper. */
  lemma LastNamed(journal: seq<Row>, r: Row, paper: Uuid)
    requires journal != [] && Sorted(journal) && !FoldsBefore(r, journal[|journal| - 1])
    ensures InsertRow(Naming(journal, paper), r) == Naming(journal, paper) + [r]
  {
    hide FoldsBefore, Sorted, Naming, InsertRow;
    SortedPrefix(journal);
    var named := Naming(journal, paper);
    if named != [] {
      assert named[|named| - 1] in named;
      NotBeforeEither(named[|named| - 1], journal[|journal| - 1], r);
    }
    InsertLast(named, r);
  }

  lemma {:induction false} InsertsSame(j: seq<Row>, k: seq<Row>, rows: seq<Row>, papers: seq<Uuid>)
    requires Sorted(j) && Sorted(k) && SameFor(j, k, papers)
    ensures SameFor(InsertRows(j, rows), InsertRows(k, rows), papers)
    decreases |rows|
  {
    hide FoldsBefore, Sorted, Naming, InsertRow;
    if rows != [] {
      var rest, r := rows[..|rows| - 1], rows[|rows| - 1];
      InsertsSame(j, k, rest, papers);
      InsertsSorted(j, rest);
      InsertsSorted(k, rest);
      forall p | p in papers ensures Naming(InsertRows(j, rows), p) == Naming(InsertRows(k, rows), p) {
        InsertNaming(InsertRows(j, rest), r, p);
        InsertNaming(InsertRows(k, rest), r, p);
      }
    }
  }

  // ---- What is asked for ----

  lemma {:induction false} NamingFront(journal: seq<Row>, paper: Uuid)
    requires journal != []
    ensures Naming(journal, paper)
         == (if journal[0].instrument == Some(paper) then [journal[0]] else []) + Naming(journal[1..], paper)
    decreases |journal|
  {
    var n := |journal| - 1;
    if n > 0 {
      NamingFront(journal[..n], paper);
      assert journal[..n][1..] == journal[1..][..n - 1];
    } else {
      assert journal[..0] == [] && journal[1..] == [];
    }
  }

  lemma {:induction false} RoublesOfNaming(journal: seq<Row>, paper: Uuid)
    ensures HeldInRoubles(journal, paper)
            <==> Naming(journal, paper) != [] && Naming(journal, paper)[0].currency == "RUB"
    decreases |journal|
  {
    hide Naming;
    if journal != [] {
      NamingFront(journal, paper);
      RoublesOfNaming(journal[1..], paper);
    } else {
      NamingNone(paper);
    }
  }

  lemma NamingNone(paper: Uuid)
    ensures Naming([], paper) == []
  {
  }

  lemma ForeignSplitOfNaming(j: seq<Row>, k: seq<Row>, paper: Uuid, day: Day)
    requires Naming(j, paper) == Naming(k, paper) && HasForeignSplit(j, paper, day)
    ensures HasForeignSplit(k, paper, day)
  {
    var o :| o in j && o.kind == "split" && o.source != REGISTRY && o.instrument == Some(paper) && o.on == day;
    assert o in Naming(j, paper);
    assert o in k;
  }

  ghost predicate Alike(a: Result<Desk>, b: Result<Desk>, papers: seq<Uuid>) {
    && (a.Ok? <==> b.Ok?)
    && (a.Ok? ==> AlikeDesks(a.value, b.value, papers))
  }

  ghost predicate AlikeDesks(a: Desk, b: Desk, papers: seq<Uuid>) {
    a.want == b.want && Sorted(a.working) && Sorted(b.working) && SameFor(a.working, b.working, papers)
  }

  lemma AskPaperLocal(g: Engine, e: Event, account: Uuid, result: Option<Uuid>, paper: Uuid, a: Desk, b: Desk,
            papers: seq<Uuid>)
    requires Local(g) && AlikeDesks(a, b, papers) && paper in papers
    ensures Alike(AskPaper(g, e, account, result, paper, a), AskPaper(g, e, account, result, paper, b), papers)
  {
    hide Naming, Sorted, HeldInRoubles, HasForeignSplit, InsertRows, SplitRow;
    assert Naming(a.working, paper) == Naming(b.working, paper);
    RoublesOfNaming(a.working, paper);
    RoublesOfNaming(b.working, paper);
    SplitsAlike(a.working, b.working, paper, e.on);
    var held := g.held(a.working, paper, e.on);
    assert held == g.held(b.working, paper, e.on);
    if held.Ok? {
      RowsForLocal(g, e, account, paper, result, held.value, a.working, b.working);
      var rows := RowsFor(g, e, account, paper, result, held.value, a.working);
      if rows.Some? {
        InsertsSame(a.working, b.working, rows.value, papers);
        InsertsSorted(a.working, rows.value);
        InsertsSorted(b.working, rows.value);
      }
    }
  }

  lemma SplitsAlike(j: seq<Row>, k: seq<Row>, paper: Uuid, day: Day)
    requires Naming(j, paper) == Naming(k, paper)
    ensures HasForeignSplit(j, paper, day) <==> HasForeignSplit(k, paper, day)
  {
    hide HasForeignSplit, Naming;
    if HasForeignSplit(j, paper, day) {
      ForeignSplitOfNaming(j, k, paper, day);
    } else if HasForeignSplit(k, paper, day) {
      ForeignSplitOfNaming(k, j, paper, day);
    }
  }

  lemma RowsForLocal(g: Engine, e: Event, account: Uuid, paper: Uuid, result: Option<Uuid>, held: Held, j: seq<Row>,
            k: seq<Row>)
    requires Local(g) && Naming(j, paper) == Naming(k, paper)
    ensures RowsFor(g, e, account, paper, result, held, j) == RowsFor(g, e, account, paper, result, held, k)
  {
    hide Naming, SplitRow;
    if result.Some? {
      assert g.pair(e, account, paper, result.value, held, j) == g.pair(e, account, paper, result.value, held, k);
    }
  }

  lemma {:induction false} AskPapersLocal(g: Engine, e: Event, account: Uuid, result: Option<Uuid>, papers: seq<Uuid>,
            n: nat, a: Desk, b: Desk)
    requires Local(g) && AlikeDesks(a, b, papers) && n <= |papers|
    ensures Alike(AskPapers(g, e, account, result, papers, n, a), AskPapers(g, e, account, result, papers, n, b),
                  papers)
    decreases n
  {
    hide AskPaper, AlikeDesks, Local;
    if n > 0 {
      AskPapersLocal(g, e, account, result, papers, n - 1, a, b);
      var x, y := AskPapers(g, e, account, result, papers, n - 1, a),
        AskPapers(g, e, account, result, papers, n - 1, b);
      if x.Ok? {
        AskPaperLocal(g, e, account, result, papers[n - 1], x.value, y.value, papers);
      }
    }
  }

  lemma {:induction false} AskEventsLocal(g: Engine, events: seq<Event>, k: nat, account: Uuid, papers: seq<Uuid>,
            j: seq<Row>, l: seq<Row>)
    requires Local(g) && Sorted(j) && Sorted(l) && SameFor(j, l, papers) && k <= |events|
    ensures Alike(AskEvents(g, events, k, account, papers, j), AskEvents(g, events, k, account, papers, l), papers)
    decreases k
  {
    hide AskPapers, Local, Sorted, SameFor;
    if k > 0 {
      hide AlikeDesks;
      AskEventsLocal(g, events, k - 1, account, papers, j, l);
      var x, y, e := AskEvents(g, events, k - 1, account, papers, j), AskEvents(g, events, k - 1, account, papers, l),
        events[k - 1];
      if x.Ok? {
        var found := g.catalog(e.resultIsin);
        var result := if e.resultIsin == "" || found.Err? then None else found.value;
        AskPapersLocal(g, e, account, result, papers, |papers|, x.value, y.value);
      }
    }
  }

  lemma {:induction false} BaseSorted(journal: seq<Row>, papers: seq<Uuid>)
    requires Sorted(journal)
    ensures Sorted(Base(journal, papers))
    decreases |journal|
  {
    hide FoldsBefore, Sorted, Owned;
    if journal != [] {
      var n := |journal| - 1;
      SortedPrefix(journal);
      BaseSorted(journal[..n], papers);
      forall o | o in Base(journal[..n], papers) ensures !FoldsBefore(journal[n], o) {
        assert o in journal[..n];
        assert o in journal;
      }
      SortedPush(Base(journal[..n], papers), journal[n]);
    }
  }

  /** What is asked for some papers follows from the rows, not theirs, that name them. */
  lemma WantIsLocal(g: Engine, j: seq<Row>, k: seq<Row>, account: Uuid, papers: seq<Uuid>, events: seq<Event>)
    requires Local(g) && Sorted(j) && Sorted(k) && SameFor(Base(j, papers), Base(k, papers), papers)
    ensures Want(g, j, account, papers, events) == Want(g, k, account, papers, events)
  {
    hide Local, Sorted, SameFor, Base, AskEvents;
    BaseSorted(j, papers);
    BaseSorted(k, papers);
    AskEventsLocal(g, events, |events|, account, papers, Base(j, papers), Base(k, papers));
  }
}
