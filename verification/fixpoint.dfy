/** One run of the materializer leaves exactly the rows the registry asks for; a second run finds
    nothing to do. */
module Fixpoint {
  import opened Rounding
  import opened RegistryNames
  import opened Materialize
  import opened Reconcile

  /** The journal the events are decided on: without the rows this run owns. */
  function Base(journal: seq<Row>, instruments: seq<Uuid>): (r: seq<Row>)
    ensures forall o :: o in r <==> o in journal && !Owned(o, instruments)
  {
    if journal == [] then []
    else
      assert journal == journal[..|journal| - 1] + [journal[|journal| - 1]];
      var before := Base(journal[..|journal| - 1], instruments);
      if Owned(journal[|journal| - 1], instruments) then before else before + [journal[|journal| - 1]]
  }

  function OwnedOf(journal: seq<Row>, instruments: seq<Uuid>): (r: seq<Row>)
    ensures forall o :: o in r <==> o in journal && Owned(o, instruments)
  {
    if journal == [] then []
    else
      assert journal == journal[..|journal| - 1] + [journal[|journal| - 1]];
      var before := OwnedOf(journal[..|journal| - 1], instruments);
      if Owned(journal[|journal| - 1], instruments) then before + [journal[|journal| - 1]] else before
  }

  lemma {:induction false} OwnedIdsDiffer(journal: seq<Row>, instruments: seq<Uuid>)
    requires IdsDiffer(journal)
    ensures IdsDiffer(OwnedOf(journal, instruments))
    decreases |journal|
  {
    hide Owned;
    if journal != [] {
      var n := |journal| - 1;
      OwnedIdsDiffer(journal[..n], instruments);
      forall o | o in OwnedOf(journal[..n], instruments) ensures o.id != journal[n].id {
        var i :| 0 <= i < n && journal[i] == o;
      }
    }
  }

  function Want(g: Engine, journal: seq<Row>, account: Uuid, instruments: seq<Uuid>,
            events: seq<Event>): Result<seq<Row>> {
    var asked := AskEvents(g, events, |events|, account, instruments, Base(journal, instruments));
    if asked.Err? then Err else Ok(asked.value.want)
  }

  /** `Materializer.forAccount`'s delta: the owned rows held out, the rest asked over, the two
      compared. */
  method ForAccount(g: Engine, journal: seq<Row>, account: Uuid, instruments: seq<Uuid>, events: seq<Event>)
    returns (r: Result<Delta>)
    requires Sensible(g) && EachOnce(events, instruments) && IdsDiffer(journal)
    ensures r.Ok? <==> Want(g, journal, account, instruments, events).Ok?
    ensures r.Ok? ==>
              Differs(Want(g, journal, account, instruments, events).value, OwnedOf(journal, instruments), r.value)
  {
    hide AskEvents, Owned, Differs, Sensible, EachOnce, IdsDiffer;
    var base, owned := [], [];
    for i := 0 to |journal|
      invariant base == Base(journal[..i], instruments) && owned == OwnedOf(journal[..i], instruments)
    {
      assert journal[..i + 1][..i] == journal[..i];
      if Owned(journal[i], instruments) {
        owned := owned + [journal[i]];
        continue;
      }
      base := base + [journal[i]];
    }
    assert journal[..|journal|] == journal;
    var want := Desired(g, base, account, instruments, events);
    if want.Err? {
      return Err;
    }
    WantIsNamed(g, journal, account, instruments, events);
    OwnedIdsDiffer(journal, instruments);
    var delta := Diff(want.value, owned);
    return Ok(delta);
  }

  lemma WantIsNamed(g: Engine, journal: seq<Row>, account: Uuid, instruments: seq<Uuid>, events: seq<Event>)
    requires Sensible(g) && EachOnce(events, instruments)
    ensures var want := Want(g, journal, account, instruments, events);
            want.Ok? ==> Named(want.value) && forall w :: w in want.value ==>
              Owned(w, instruments) && w.instrument.Some?
  {
    hide AskEvents, Sensible, EachOnce, Owned, NamedBefore;
    AskedWellNamed(g, events, |events|, account, instruments, Base(journal, instruments));
    var want := Want(g, journal, account, instruments, events);
    if want.Ok? {
      forall i | 0 <= i < |want.value| ensures Owned(want.value[i], instruments) {
        AskedIsOwned(want.value, events, |events|, instruments, 0, account, i);
      }
    }
  }

  // ---- The journal a delta leaves ----

  function Without(journal: seq<Row>, remove: seq<int>): (r: seq<Row>)
    ensures forall o :: o in r <==> o in journal && o.id !in remove
  {
    if journal == [] then []
    else
      assert journal == journal[..|journal| - 1] + [journal[|journal| - 1]];
      var before := Without(journal[..|journal| - 1], remove);
      if journal[|journal| - 1].id in remove then before else before + [journal[|journal| - 1]]
  }

  /** The rows as stored: each with an id of its own, and a stamp unless it inherits one. */
  function Written(add: seq<Row>, ids: seq<int>, stamps: seq<int>): (r: seq<Row>)
    requires |ids| == |stamps| == |add|
    ensures |r| == |add|
    ensures forall i :: 0 <= i < |r| ==>
      r[i] == add[i].(id := ids[i], createdAt := if add[i].createdAt != 0 then add[i].createdAt else stamps[i])
  {
    seq(|add|, i requires 0 <= i < |add| =>
      add[i].(id := ids[i], createdAt := if add[i].createdAt != 0 then add[i].createdAt else stamps[i]))
  }

  /** The journal read back in fold order once the delta is applied with nothing refused. */
  function After(journal: seq<Row>, delta: Delta, ids: seq<int>, stamps: seq<int>): seq<Row>
    requires |ids| == |stamps| == |delta.add|
  {
    InsertRows(Without(journal, delta.remove), Written(delta.add, ids, stamps))
  }

  lemma {:induction false} InsertRowBase(journal: seq<Row>, r: Row, instruments: seq<Uuid>)
    ensures forall o :: o in InsertRow(journal, r) <==> o in journal || o == r
    ensures Owned(r, instruments) ==> Base(InsertRow(journal, r), instruments) == Base(journal, instruments)
    decreases |journal|
  {
    hide Owned, FoldsBefore;
    if journal == [] || !FoldsBefore(r, journal[|journal| - 1]) {
      assert (journal + [r])[..|journal|] == journal;
    } else {
      var n := |journal| - 1;
      InsertRowBase(journal[..n], r, instruments);
      assert journal == journal[..n] + [journal[n]];
      var before := InsertRow(journal[..n], r);
      assert (before + [journal[n]])[..|before|] == before;
    }
  }

  lemma {:induction false} InsertRowsBase(journal: seq<Row>, rows: seq<Row>, instruments: seq<Uuid>)
    requires forall r :: r in rows ==> Owned(r, instruments)
    ensures forall o :: o in InsertRows(journal, rows) <==> o in journal || o in rows
    ensures Base(InsertRows(journal, rows), instruments) == Base(journal, instruments)
    decreases |rows|
  {
    hide Owned, InsertRow, Base;
    if rows != [] {
      var n := |rows| - 1;
      assert rows == rows[..n] + [rows[n]];
      InsertRowsBase(journal, rows[..n], instruments);
      InsertRowBase(InsertRows(journal, rows[..n]), rows[n], instruments);
    }
  }

  lemma {:induction false} WithoutBase(journal: seq<Row>, remove: seq<int>, instruments: seq<Uuid>)
    requires forall o :: o in journal && o.id in remove ==> Owned(o, instruments)
    ensures Base(Without(journal, remove), instruments) == Base(journal, instruments)
    decreases |journal|
  {
    hide Owned;
    if journal != [] {
      var n := |journal| - 1;
      assert journal == journal[..n] + [journal[n]];
      WithoutBase(journal[..n], remove, instruments);
      var before := Without(journal[..n], remove);
      assert (before + [journal[n]])[..|before|] == before;
    }
  }

  /** Rows written carry the name and content asked for. */
  lemma WrittenRow(want: seq<Row>, delta: Delta, ids: seq<int>, stamps: seq<int>, r: Row)
    requires |ids| == |stamps| == |delta.add| && r in Written(delta.add, ids, stamps)
    requires forall x :: x in delta.add ==> Rewrites(x, want)
    requires forall w :: w in want ==> w.instrument.Some?
    ensures exists w ::
              w in want && NameOf(w) == NameOf(r) && SameRow(w, r) && r.externalId == w.externalId
              && r.source == w.source
    ensures NameOf(r) in Names(delta.add)
  {
    var written := Written(delta.add, ids, stamps);
    var i :| 0 <= i < |written| && written[i] == r;
    assert delta.add[i] in delta.add;
    var w :| w in want && delta.add[i] == w.(createdAt := delta.add[i].createdAt);
    assert NameOf(r) == NameOf(delta.add[i]);
    assert SameRow(w, r);
  }

  lemma OwnedByName(w: Row, r: Row, instruments: seq<Uuid>)
    requires Owned(w, instruments) && r.externalId == w.externalId && r.source == w.source
    ensures Owned(r, instruments)
  {
    hide PaperOf;
  }

  lemma OwnedIsNamed(r: Row, instruments: seq<Uuid>)
    requires Owned(r, instruments)
    ensures r.externalId == Some(NameOf(r)) && NameOf(r) != ""
  {
  }

  /** The journal after a run: the rows it does not own are as they were, and those it owns are the
      kept ones and the written ones. */
  lemma AfterRun(want: seq<Row>, journal: seq<Row>, instruments: seq<Uuid>, delta: Delta, ids: seq<int>,
            stamps: seq<int>)
    requires |ids| == |stamps| == |delta.add| && IdsDiffer(journal)
    requires Differs(want, OwnedOf(journal, instruments), delta)
    requires forall w :: w in want ==> Owned(w, instruments) && w.instrument.Some?
    ensures var after := After(journal, delta, ids, stamps);
            && Base(after, instruments) == Base(journal, instruments)
            && forall o :: o in OwnedOf(after, instruments) <==>
                 (o in Written(delta.add, ids, stamps) || Keeps(o, want, OwnedOf(journal, instruments)))
  {
    hide Owned, Base, Without, Written, InsertRows, Names, NameOf, Rewrites, Inherits, Keeps, Unsettled;
    var owned := OwnedOf(journal, instruments);
    forall o | o in journal && o.id in delta.remove ensures Owned(o, instruments) {
      var p :| p in owned && p.id == o.id;
      SameId(journal, o, p);
    }
    WithoutBase(journal, delta.remove, instruments);
    forall r | r in Written(delta.add, ids, stamps) ensures Owned(r, instruments) {
      WrittenRow(want, delta, ids, stamps, r);
      var w :| w in want && NameOf(w) == NameOf(r) && SameRow(w, r) && r.externalId == w.externalId
        && r.source == w.source;
      OwnedByName(w, r, instruments);
    }
    InsertRowsBase(Without(journal, delta.remove), Written(delta.add, ids, stamps), instruments);
    forall o ensures Keeps(o, want, owned) <==> o in owned && o.id !in delta.remove {
      KeepsIsOwned(o, want, owned);
    }
  }

  lemma KeepsIsOwned(o: Row, want: seq<Row>, owned: seq<Row>)
    ensures Keeps(o, want, owned) ==> o in owned
  {
  }

  /** A kept row says what is asked for under its name, whose event is settled. */
  lemma KeptRow(o: Row, want: seq<Row>, owned: seq<Row>)
    requires Keeps(o, want, owned)
    ensures exists w :: w in want && NameOf(w) == NameOf(o) && SameRow(w, o)
    ensures NameOf(o) in Settled(want, owned)
  {
    hide SameRow, NameOf, Stored;
    var w :| w in want && EventMatches(w, want, owned) && NameOf(w) == NameOf(o);
    assert Matches(w, owned);
  }

  /** Exactly the rows asked for: every one is there as asked, every one there is asked for, and no
      name is there twice. */
  ghost predicate Exact(want: seq<Row>, owned: seq<Row>) {
    && (forall w :: w in want ==> exists o :: o in owned && NameOf(o) == NameOf(w) && SameRow(w, o))
    && (forall o :: o in owned ==> exists w :: w in want && NameOf(w) == NameOf(o) && SameRow(w, o))
    && (forall o, p :: o in owned && p in owned && NameOf(o) == NameOf(p) ==> o == p)
  }

  lemma SettledApart(want: seq<Row>, owned: seq<Row>)
    requires Named(want)
    ensures Settled(want, owned) !! Unsettled(want, owned)
  {
    hide NameOf, EventMatches, Named;
    forall w, x | w in want && x in want && NameOf(w) == NameOf(x) ensures w == x {
      SameName(want, w, x);
    }
  }

  /** A row asked for is there after the run, kept or written. */
  lemma AskedIsThere(want: seq<Row>, owned: seq<Row>, delta: Delta, ids: seq<int>, stamps: seq<int>, w: Row)
    requires Named(want) && w in want && w.instrument.Some? && |ids| == |stamps| == |delta.add|
    requires Names(delta.add) == Unsettled(want, owned) && forall r :: r in delta.add ==> Rewrites(r, want)
    ensures exists o ::
              (o in Written(delta.add, ids, stamps) || Keeps(o, want, owned)) && NameOf(o) == NameOf(w)
              && SameRow(w, o)
  {
    hide Stored, Named;
    if EventMatches(w, want, owned) {
      assert Matches(w, owned);
      var o := Stored(owned, NameOf(w)).value;
      assert Keeps(o, want, owned);
    } else {
      assert NameOf(w) in Unsettled(want, owned);
      var r :| r in delta.add && NameOf(r) == NameOf(w);
      var x :| x in want && r == x.(createdAt := r.createdAt);
      SameName(want, w, x);
      var i :| 0 <= i < |delta.add| && delta.add[i] == r;
      var o := Written(delta.add, ids, stamps)[i];
      assert o in Written(delta.add, ids, stamps);
      assert SameRow(w, o);
    }
  }

  /** One name is one row's, among those kept and written. */
  lemma OneRowAName(want: seq<Row>, owned: seq<Row>, delta: Delta, ids: seq<int>, stamps: seq<int>, o: Row, p: Row)
    requires Named(want) && |ids| == |stamps| == |delta.add|
    requires NamesDiffer(delta.add) && Names(delta.add) == Unsettled(want, owned)
    requires forall r :: r in delta.add ==> Rewrites(r, want)
    requires o in Written(delta.add, ids, stamps) || Keeps(o, want, owned)
    requires p in Written(delta.add, ids, stamps) || Keeps(p, want, owned)
    requires NameOf(o) == NameOf(p) && forall w :: w in want ==> w.instrument.Some?
    ensures o == p
  {
    hide Stored, Named, Settled, Unsettled;
    SettledApart(want, owned);
    var written := Written(delta.add, ids, stamps);
    if o in written && p in written {
      var i :| 0 <= i < |written| && written[i] == o;
      var j :| 0 <= j < |written| && written[j] == p;
      WrittenNamed(want, delta.add, i);
      WrittenNamed(want, delta.add, j);
      assert delta.add[i].externalId == delta.add[j].externalId;
    } else if o in written {
      WrittenRow(want, delta, ids, stamps, o);
    } else if p in written {
      WrittenRow(want, delta, ids, stamps, p);
    }
  }

  lemma WrittenNamed(want: seq<Row>, add: seq<Row>, i: nat)
    requires Named(want) && i < |add| && forall r :: r in add ==> Rewrites(r, want)
    ensures add[i].externalId.Some?
  {
    assert add[i] in add;
    assert Rewrites(add[i], want);
  }

  /** After one run with nothing refused, the account's registry rows of these papers are exactly
      the desired ones. */
  lemma OneRunIsExact(g: Engine, journal: seq<Row>, account: Uuid, instruments: seq<Uuid>, events: seq<Event>,
                      delta: Delta, ids: seq<int>, stamps: seq<int>)
    requires Sensible(g) && EachOnce(events, instruments) && IdsDiffer(journal)
    requires |ids| == |stamps| == |delta.add|
    requires var want := Want(g, journal, account, instruments, events);
             want.Ok? && Differs(want.value, OwnedOf(journal, instruments), delta)
    ensures var after := After(journal, delta, ids, stamps);
            && Want(g, after, account, instruments, events) == Want(g, journal, account, instruments, events)
            && Exact(Want(g, journal, account, instruments, events).value, OwnedOf(after, instruments))
  {
    hide Sensible, EachOnce, AskEvents, Base, OwnedOf, After, Named, Owned, Exact, AllDiffer, Unsettled, Rewrites,
         Inherits, Names, NamesDiffer, IdsDiffer, Keeps, Written;
    var want := Want(g, journal, account, instruments, events).value;
    WantIsNamed(g, journal, account, instruments, events);
    AfterRun(want, journal, instruments, delta, ids, stamps);
    ExactFrom(want, OwnedOf(journal, instruments), delta, ids, stamps,
              OwnedOf(After(journal, delta, ids, stamps), instruments));
  }

  lemma LeftIsAsked(want: seq<Row>, owned: seq<Row>, delta: Delta, ids: seq<int>, stamps: seq<int>, o: Row)
    requires |ids| == |stamps| == |delta.add| && forall r :: r in delta.add ==> Rewrites(r, want)
    requires forall w :: w in want ==> w.instrument.Some?
    requires o in Written(delta.add, ids, stamps) || Keeps(o, want, owned)
    ensures exists w :: w in want && NameOf(w) == NameOf(o) && SameRow(w, o)
  {
    hide Written, Keeps, SameRow, NameOf, Rewrites;
    if o in Written(delta.add, ids, stamps) {
      WrittenRow(want, delta, ids, stamps, o);
    } else {
      KeptRow(o, want, owned);
    }
  }

  lemma WritesRight(want: seq<Row>, owned: seq<Row>, delta: Delta)
    requires Differs(want, owned, delta)
    ensures NamesDiffer(delta.add) && Names(delta.add) == Unsettled(want, owned)
    ensures forall r :: r in delta.add ==> Rewrites(r, want)
  {
    hide NamesDiffer, Names, Unsettled, Rewrites, Inherits, Keeps;
  }

  lemma ExactFrom(want: seq<Row>, owned: seq<Row>, delta: Delta, ids: seq<int>, stamps: seq<int>, left: seq<Row>)
    requires Named(want) && |ids| == |stamps| == |delta.add| && Differs(want, owned, delta)
    requires forall w :: w in want ==> w.instrument.Some?
    requires forall o :: o in left <==> o in Written(delta.add, ids, stamps) || Keeps(o, want, owned)
    ensures Exact(want, left)
  {
    hide Written, Keeps, SameRow, NameOf, Named, Names, Rewrites, Unsettled, NamesDiffer, Differs;
    WritesRight(want, owned, delta);
    forall w | w in want ensures exists o :: o in left && NameOf(o) == NameOf(w) && SameRow(w, o) {
      AskedIsThere(want, owned, delta, ids, stamps, w);
    }
    forall o | o in left ensures exists w :: w in want && NameOf(w) == NameOf(o) && SameRow(w, o) {
      LeftIsAsked(want, owned, delta, ids, stamps, o);
    }
    OnceEach(want, owned, delta, ids, stamps, left);
  }

  lemma OnceEach(want: seq<Row>, owned: seq<Row>, delta: Delta, ids: seq<int>, stamps: seq<int>, left: seq<Row>)
    requires Named(want) && |ids| == |stamps| == |delta.add|
    requires NamesDiffer(delta.add) && Names(delta.add) == Unsettled(want, owned)
    requires forall r :: r in delta.add ==> Rewrites(r, want)
    requires forall w :: w in want ==> w.instrument.Some?
    requires forall o :: o in left ==> o in Written(delta.add, ids, stamps) || Keeps(o, want, owned)
    ensures forall o, p :: o in left && p in left && NameOf(o) == NameOf(p) ==> o == p
  {
    hide Written, Keeps, NameOf, Named, Names, Rewrites, Unsettled, NamesDiffer;
    forall o, p | o in left && p in left && NameOf(o) == NameOf(p) ensures o == p {
      OneRowAName(want, owned, delta, ids, stamps, o, p);
    }
  }

  /** Where the rows are exactly those asked for, every event is settled and every row kept. */
  lemma ExactIsSettled(want: seq<Row>, owned: seq<Row>)
    requires Exact(want, owned)
    requires forall o :: o in owned ==> o.externalId == Some(NameOf(o)) && NameOf(o) != ""
    ensures forall w :: w in want ==> Matches(w, owned)
    ensures forall o :: o in owned ==> Keeps(o, want, owned)
    ensures Unsettled(want, owned) == {}
  {
    hide Stored, SameRow, NameOf, KeyOf;
    forall o | o in owned ensures Stored(owned, NameOf(o)) == Some(o) {
      StoredIs(owned, o);
    }
    forall w | w in want ensures Matches(w, owned) {
      var o :| o in owned && NameOf(o) == NameOf(w) && SameRow(w, o);
    }
    forall o | o in owned ensures Keeps(o, want, owned) {
      var w :| w in want && NameOf(w) == NameOf(o) && SameRow(w, o);
      assert EventMatches(w, want, owned);
    }
  }

  lemma StoredIs(owned: seq<Row>, o: Row)
    requires o in owned && o.externalId == Some(NameOf(o)) && NameOf(o) != ""
    requires forall p :: p in owned && NameOf(p) == NameOf(o) ==> p == o
    ensures Stored(owned, NameOf(o)) == Some(o)
  {
    var s := Stored(owned, NameOf(o));
  }

  /** A second run over the journal the first one left finds nothing to do. */
  lemma SecondRunIsEmpty(g: Engine, journal: seq<Row>, account: Uuid, instruments: seq<Uuid>, events: seq<Event>,
                         delta: Delta, ids: seq<int>, stamps: seq<int>, again: Delta)
    requires Sensible(g) && EachOnce(events, instruments) && IdsDiffer(journal)
    requires |ids| == |stamps| == |delta.add|
    requires var want := Want(g, journal, account, instruments, events);
             want.Ok? && Differs(want.value, OwnedOf(journal, instruments), delta)
    requires var after := After(journal, delta, ids, stamps);
             var want := Want(g, after, account, instruments, events);
             want.Ok? ==> Differs(want.value, OwnedOf(after, instruments), again)
    ensures Want(g, After(journal, delta, ids, stamps), account, instruments, events).Ok?
    ensures again == Delta([], [])
  {
    hide Sensible, EachOnce, Want, OwnedOf, After, Keeps, Exact, NameOf, Names, NamesDiffer, Rewrites, Inherits, Owned,
         Unsettled, IdsDiffer;
    OneRunIsExact(g, journal, account, instruments, events, delta, ids, stamps);
    var want := Want(g, journal, account, instruments, events).value;
    var owned := OwnedOf(After(journal, delta, ids, stamps), instruments);
    forall o | o in owned ensures o.externalId == Some(NameOf(o)) && NameOf(o) != "" {
      OwnedIsNamed(o, instruments);
    }
    ExactIsSettled(want, owned);
    NothingToDo(want, owned, again);
  }

  lemma NothingToDo(want: seq<Row>, owned: seq<Row>, delta: Delta)
    requires Differs(want, owned, delta) && Unsettled(want, owned) == {}
    requires forall o :: o in owned ==> Keeps(o, want, owned)
    ensures delta == Delta([], [])
  {
    hide Unsettled, Keeps, NamesDiffer, Names, Rewrites, Inherits;
    NoNames(delta.add);
    RemovedIsOwned(owned, delta.remove);
    assert delta == Delta(delta.add, delta.remove);
  }

  lemma RemovedIsOwned(owned: seq<Row>, remove: seq<int>)
    requires forall id :: id in remove ==> exists o :: o in owned && o.id == id
    ensures remove == [] || exists o :: o in owned && o.id in remove
  {
    if remove != [] {
      assert remove[0] in remove;
      var o :| o in owned && o.id == remove[0];
    }
  }

  lemma NoNames(rows: seq<Row>)
    ensures Names(rows) == {} ==> rows == []
  {
    hide NameOf, Names;
    if rows != [] {
      assert rows[0] in rows;
      InNames(rows, rows[0]);
    }
  }

  /** Both legs of an event are kept or rewritten together. */
  lemma LegsGoTogether(want: seq<Row>, owned: seq<Row>, delta: Delta, w: Row, x: Row)
    requires Named(want) && Differs(want, owned, delta) && w in want && x in want && KeyOf(w) == KeyOf(x)
    ensures NameOf(w) in Names(delta.add) <==> NameOf(x) in Names(delta.add)
    ensures NameOf(w) !in Names(delta.add) ==>
              && Matches(w, owned) && Matches(x, owned)
              && Stored(owned, NameOf(w)).value.id !in delta.remove
                 && Stored(owned, NameOf(x)).value.id !in delta.remove
  {
    hide SameRow, Stored, KeyOf, Inherits, Rewrites, Named;
    SettledApart(want, owned);
    assert EventMatches(w, want, owned) <==> EventMatches(x, want, owned);
    if NameOf(w) !in Names(delta.add) {
      assert NameOf(x) in Settled(want, owned) && NameOf(w) in Settled(want, owned);
      assert Keeps(Stored(owned, NameOf(w)).value, want, owned);
      assert Keeps(Stored(owned, NameOf(x)).value, want, owned);
    }
  }
}
