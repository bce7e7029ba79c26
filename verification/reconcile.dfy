/** Reconciling the journal with what the registry asks for: the difference, the journal it
    leaves, and the fixpoint — a second run finds nothing to do. */
module Reconcile {
  import opened Rounding
  import opened RegistryNames
  import opened Materialize

  datatype Delta = Delta(add: seq<Row>, remove: seq<int>)

  // ---- The difference ----

  /** Nothing the registry decides differs between the two. */
  predicate SameRow(want: Row, stored: Row) {
    && want.account == stored.account && want.kind == stored.kind && want.currency == stored.currency
    && want.note == stored.note && want.source == stored.source && want.amount == stored.amount
    && want.on == stored.on
    && want.instrument.Some? && stored.instrument.Some? && want.instrument == stored.instrument
    && want.quantity == stored.quantity && want.ratio == stored.ratio && want.lots == stored.lots
  }

  /** A split is an event alone; the legs of a pair are one event, by their group. */
  datatype UnitKey = ByGroup(group: Group) | ByName(name: string)

  function NameOf(w: Row): string {
    if w.externalId.Some? then w.externalId.value else ""
  }

  function KeyOf(w: Row): UnitKey {
    if w.group.Some? then ByGroup(w.group.value) else ByName(NameOf(w))
  }

  /** The owned row of a name; the last in the journal of equal names, where the program takes whichever
      its map gives last. Names are distinct in what a run writes. */
  function Stored(owned: seq<Row>, name: string): (r: Option<Row>)
    ensures r.Some? ==> r.value in owned && r.value.externalId == Some(name) && name != ""
    ensures r.None? ==> forall o :: o in owned ==> o.externalId != Some(name) || name == ""
  {
    if owned == [] then None
    else
      assert owned == owned[..|owned| - 1] + [owned[|owned| - 1]];
      if name != "" && owned[|owned| - 1].externalId == Some(name) then Some(owned[|owned| - 1])
      else Stored(owned[..|owned| - 1], name)
  }

  predicate Matches(w: Row, owned: seq<Row>) {
    Stored(owned, NameOf(w)).Some? && SameRow(w, Stored(owned, NameOf(w)).value)
  }

  /** Every row of w's event is stored as it is asked for. */
  predicate EventMatches(w: Row, want: seq<Row>, owned: seq<Row>) {
    forall x :: x in want && KeyOf(x) == KeyOf(w) ==> Matches(x, owned)
  }

  /** The names asked for whose events are stored as asked; the others'. */
  function Settled(want: seq<Row>, owned: seq<Row>): set<string> {
    set w | w in want && EventMatches(w, want, owned) :: NameOf(w)
  }

  function Unsettled(want: seq<Row>, owned: seq<Row>): set<string> {
    set w | w in want && !EventMatches(w, want, owned) :: NameOf(w)
  }

  /** The owned row that stands for its name. */
  predicate IsStored(o: Row, owned: seq<Row>) {
    o in owned && Stored(owned, NameOf(o)) == Some(o)
  }

  predicate IdsDiffer(rows: seq<Row>) {
    forall i, j :: 0 <= i < j < |rows| ==> rows[i].id != rows[j].id
  }

  predicate AllDiffer(ids: seq<int>) {
    forall i, j :: 0 <= i < j < |ids| ==> ids[i] != ids[j]
  }

  /** An owned row is kept exactly when it stands for a name asked for and the whole of its event
      is stored as asked. */
  predicate Keeps(o: Row, want: seq<Row>, owned: seq<Row>) {
    IsStored(o, owned) && NameOf(o) in Settled(want, owned)
  }

  predicate Rewrites(r: Row, want: seq<Row>) {
    exists w :: w in want && r == w.(createdAt := r.createdAt)
  }

  /** A stamp is a removed row's, or none. */
  predicate Inherits(r: Row, owned: seq<Row>, remove: seq<int>) {
    r.createdAt == 0 || exists o :: o in owned && o.id in remove && o.createdAt == r.createdAt
  }

  function Names(rows: seq<Row>): set<string> {
    set r | r in rows :: NameOf(r)
  }

  /** Every owned row is kept or removed, once; the rows to write are those of the events not
      stored as asked, whole, each once. */
  ghost predicate Differs(want: seq<Row>, owned: seq<Row>, delta: Delta) {
    && AllDiffer(delta.remove)
    && (forall id :: id in delta.remove ==> exists o :: o in owned && o.id == id)
    && (forall o :: o in owned ==> (o.id in delta.remove <==> !Keeps(o, want, owned)))
    && NamesDiffer(delta.add)
    && Names(delta.add) == Unsettled(want, owned)
    && (forall r :: r in delta.add ==> Rewrites(r, want) && Inherits(r, owned, delta.remove))
  }

  // ---- Grouping the rows into events ----

  /** The rows of one event, in their order. */
  function RowsOf(want: seq<Row>, key: UnitKey): (r: seq<Row>)
    ensures forall w :: w in r <==> w in want && KeyOf(w) == key
  {
    if want == [] then []
    else
      assert want == want[..|want| - 1] + [want[|want| - 1]];
      var before := RowsOf(want[..|want| - 1], key);
      if KeyOf(want[|want| - 1]) == key then before + [want[|want| - 1]] else before
  }

  /** The rows grouped by event: a group for each key met. */
  predicate Grouped(units: seq<seq<Row>>, keys: seq<UnitKey>, want: seq<Row>) {
    && |units| == |keys|
    && (forall u, v :: 0 <= u < v < |keys| ==> keys[u] != keys[v])
    && (forall u :: 0 <= u < |units| ==> units[u] == RowsOf(want, keys[u]))
    && (forall w :: w in want ==> KeyOf(w) in keys)
  }

  method UnitsOf(want: seq<Row>) returns (units: seq<seq<Row>>, ghost keys: seq<UnitKey>)
    ensures Grouped(units, keys, want)
    ensures forall w :: w in want ==> RowsOf(want, KeyOf(w)) in units
  {
    hide KeyOf, RowsOf, Grouped;
    units, keys := [], [];
    NoUnits();
    var at: map<UnitKey, int> := map[];
    for n := 0 to |want|
      invariant forall key :: key in at <==> key in keys
      invariant forall key :: key in at ==> 0 <= at[key] < |keys| && keys[at[key]] == key
      invariant |units| == |keys| && Grouped(units, keys, want[..n])
    {
      var w := want[n];
      var key := KeyOf(w);
      assert want[..n + 1] == want[..n] + [w];
      if key !in at {
        NewUnit(units, keys, want[..n], w);
        at := at[key := |units|];
        units := units + [[w]];
        keys := keys + [key];
      } else {
        UnitGrows(units, keys, want[..n], w, at[key]);
        units := units[at[key] := units[at[key]] + [w]];
      }
    }
    assert want[..|want|] == want;
    forall w | w in want ensures RowsOf(want, KeyOf(w)) in units {
      UnitIsThere(units, keys, want, w);
    }
  }

  lemma NoUnits()
    ensures Grouped([], [], [])
  {
  }

  lemma UnitIsThere(units: seq<seq<Row>>, keys: seq<UnitKey>, want: seq<Row>, w: Row)
    requires Grouped(units, keys, want) && w in want
    ensures RowsOf(want, KeyOf(w)) in units
  {
    hide KeyOf, RowsOf;
    var u :| 0 <= u < |keys| && keys[u] == KeyOf(w);
    assert units[u] in units;
  }

  lemma RowsOfPush(want: seq<Row>, w: Row, key: UnitKey)
    ensures RowsOf(want + [w], key) == RowsOf(want, key) + if KeyOf(w) == key then [w] else []
  {
    hide KeyOf;
    assert (want + [w])[..|want|] == want;
  }

  lemma NewUnit(units: seq<seq<Row>>, keys: seq<UnitKey>, want: seq<Row>, w: Row)
    requires Grouped(units, keys, want) && KeyOf(w) !in keys
    ensures Grouped(units + [[w]], keys + [KeyOf(w)], want + [w])
  {
    hide KeyOf, RowsOf;
    NoRowsOf(want, KeyOf(w));
    forall u | 0 <= u < |keys| + 1 ensures RowsOf(want + [w], (keys + [KeyOf(w)])[u]) == (units + [[w]])[u] {
      RowsOfPush(want, w, (keys + [KeyOf(w)])[u]);
    }
  }

  lemma UnitGrows(units: seq<seq<Row>>, keys: seq<UnitKey>, want: seq<Row>, w: Row, at: int)
    requires Grouped(units, keys, want) && 0 <= at < |keys| && keys[at] == KeyOf(w)
    ensures Grouped(units[at := units[at] + [w]], keys, want + [w])
  {
    hide KeyOf, RowsOf;
    forall u | 0 <= u < |keys| ensures RowsOf(want + [w], keys[u]) == units[at := units[at] + [w]][u] {
      RowsOfPush(want, w, keys[u]);
    }
  }

  lemma {:induction false} NoRowsOf(want: seq<Row>, key: UnitKey)
    requires forall w :: w in want ==> KeyOf(w) != key
    ensures RowsOf(want, key) == []
  {
    hide KeyOf;
    if want != [] {
      assert want == want[..|want| - 1] + [want[|want| - 1]];
      NoRowsOf(want[..|want| - 1], key);
    }
  }

  // ---- The difference, row by row ----

  /** The stored rows of some names asked for, in their order. */
  function StoredOf(rows: seq<Row>, owned: seq<Row>): seq<Row> {
    if rows == [] then []
    else
      var before := StoredOf(rows[..|rows| - 1], owned);
      var stored := Stored(owned, NameOf(rows[|rows| - 1]));
      if stored.Some? then before + [stored.value] else before
  }

  function Ids(rows: seq<Row>): (ids: seq<int>)
    ensures |ids| == |rows| && forall i :: 0 <= i < |rows| ==> ids[i] == rows[i].id
  {
    seq(|rows|, i requires 0 <= i < |rows| => rows[i].id)
  }

  /** The rows to write for an event, with the stamps of the rows they replace, one for one. */
  function Stamped(unit: seq<Row>, stored: seq<Row>): (r: seq<Row>)
    ensures |r| == |unit|
    ensures forall i :: 0 <= i < |r| ==>
              r[i] == if i < |stored| then unit[i].(createdAt := stored[i].createdAt) else unit[i]
  {
    seq(|unit|, i requires 0 <= i < |unit| =>
        if i < |stored| then unit[i].(createdAt := stored[i].createdAt) else unit[i])
  }

  predicate Named(rows: seq<Row>) {
    NamesDiffer(rows) && forall r :: r in rows ==> r.externalId.Some? && r.createdAt == 0
  }

  /** Where the difference stands once some of the events are compared: those settled, and those
      to rewrite. */
  ghost predicate Progress(done: seq<Row>, settled: set<string>, rewritten: set<string>, kept: set<int>, delta: Delta,
                           want: seq<Row>, owned: seq<Row>)
  {
    && settled + rewritten == Names(done) && settled !! rewritten
    && (forall o :: o in owned ==> (o.id in kept <==> IsStored(o, owned) && NameOf(o) in settled))
    && (forall o :: o in owned ==> (o.id in delta.remove <==> IsStored(o, owned) && NameOf(o) in rewritten))
    && (forall id :: id in delta.remove ==> exists o :: o in owned && o.id == id)
    && AllDiffer(delta.remove)
    && NamesDiffer(delta.add) && Names(delta.add) == rewritten
    && (forall r :: r in delta.add ==> Rewrites(r, want) && Inherits(r, owned, delta.remove))
  }

  // ---- Facts about names and ids ----

  lemma NamesOf(a: seq<Row>, b: seq<Row>)
    ensures Names(a + b) == Names(a) + Names(b)
  {
    hide NameOf;
  }

  lemma NamesOfOne(r: Row)
    ensures Names([r]) == {NameOf(r)}
  {
  }

  lemma NamesOfNone()
    ensures Names([]) == {}
  {
  }

  /** In what is asked for a name is one row's. */
  lemma SameName(want: seq<Row>, w: Row, x: Row)
    requires Named(want) && w in want && x in want && NameOf(w) == NameOf(x)
    ensures w == x
  {
    var i :| 0 <= i < |want| && want[i] == w;
    var j :| 0 <= j < |want| && want[j] == x;
  }

  lemma SameId(owned: seq<Row>, o: Row, p: Row)
    requires IdsDiffer(owned) && o in owned && p in owned && o.id == p.id
    ensures o == p
  {
  }

  lemma {:induction false} RowsOfNamed(want: seq<Row>, key: UnitKey)
    requires Named(want)
    ensures Named(RowsOf(want, key))
    decreases |want|
  {
    hide KeyOf;
    if want != [] {
      var n := |want| - 1;
      assert want == want[..n] + [want[n]];
      RowsOfNamed(want[..n], key);
      forall r | r in RowsOf(want[..n], key) ensures r.externalId != want[n].externalId {
        var i :| 0 <= i < n && want[i] == r;
      }
    }
  }

  lemma LastNameNew(rows: seq<Row>)
    requires Named(rows) && rows != []
    ensures Named(rows[..|rows| - 1]) && NameOf(rows[|rows| - 1]) !in Names(rows[..|rows| - 1])
  {
    var n := |rows| - 1;
    forall r | r in rows[..n] ensures r in rows && r.externalId != rows[n].externalId {
      var i :| 0 <= i < n && rows[i] == r;
    }
  }

  lemma {:induction false} StoredOfRows(rows: seq<Row>, owned: seq<Row>)
    requires Named(rows)
    ensures forall o :: o in StoredOf(rows, owned) <==> IsStored(o, owned) && NameOf(o) in Names(rows)
    ensures forall i, j :: 0 <= i < j < |StoredOf(rows, owned)| ==>
              NameOf(StoredOf(rows, owned)[i]) != NameOf(StoredOf(rows, owned)[j])
    decreases |rows|
  {
    hide Stored, Names, Named;
    if rows == [] {
      NamesOfNone();
    } else {
      var n := |rows| - 1;
      assert rows == rows[..n] + [rows[n]];
      LastNameNew(rows);
      StoredOfRows(rows[..n], owned);
      NamesOf(rows[..n], [rows[n]]);
      NamesOfOne(rows[n]);
    }
  }

  lemma StoredIds(rows: seq<Row>, owned: seq<Row>)
    requires Named(rows) && IdsDiffer(owned)
    ensures var stored := StoredOf(rows, owned);
            && AllDiffer(Ids(stored))
            && (forall o :: o in owned ==> (o.id in Ids(stored) <==> IsStored(o, owned) && NameOf(o) in Names(rows)))
            && (forall id :: id in Ids(stored) ==> exists o :: o in owned && o.id == id)
            && (forall i :: 0 <= i < |stored| ==> stored[i] in owned && stored[i].id in Ids(stored))
  {
    hide StoredOf, Stored, NameOf, Names;
    var stored := StoredOf(rows, owned);
    StoredOfRows(rows, owned);
    forall i | 0 <= i < |stored| ensures stored[i] in owned && stored[i].id in Ids(stored) {
      assert stored[i] in stored;
      assert Ids(stored)[i] == stored[i].id;
    }
    forall i, j | 0 <= i < j < |stored| ensures stored[i].id != stored[j].id {
      if stored[i].id == stored[j].id {
        SameId(owned, stored[i], stored[j]);
      }
    }
    forall o | o in owned ensures o.id in Ids(stored) <==> o in stored {
      if o.id in Ids(stored) {
        var i :| 0 <= i < |stored| && Ids(stored)[i] == o.id;
        SameId(owned, o, stored[i]);
      }
    }
  }

  // ---- The loop over the events ----

  method CompareUnit(unit: seq<Row>, owned: seq<Row>) returns (stored: seq<Row>, matched: bool)
    ensures stored == StoredOf(unit, owned)
    ensures matched <==> forall w :: w in unit ==> Matches(w, owned)
  {
    hide Stored, SameRow, NameOf;
    stored, matched := [], true;
    for i := 0 to |unit|
      invariant stored == StoredOf(unit[..i], owned)
      invariant matched <==> forall w :: w in unit[..i] ==> Matches(w, owned)
      invariant matched ==> |stored| == i
    {
      assert unit[..i + 1][..i] == unit[..i];
      assert unit[..i + 1] == unit[..i] + [unit[i]];
      var w := unit[i];
      assert w in unit[..i + 1];
      var row := Stored(owned, NameOf(w));
      assert Matches(w, owned) <==> row.Some? && SameRow(w, row.value);
      if row.None? || !SameRow(w, row.value) {
        matched := false;
      }
      if row.Some? {
        stored := stored + [row.value];
      }
    }
    assert unit[..|unit|] == unit;
    matched := matched && |stored| == |unit|;
  }

  lemma KeepUnit(done: seq<Row>, settled: set<string>, rewritten: set<string>, kept: set<int>, delta: Delta,
                 want: seq<Row>, owned: seq<Row>, unit: seq<Row>, more: set<int>)
    requires Progress(done, settled, rewritten, kept, delta, want, owned)
    requires Named(unit) && IdsDiffer(owned) && Names(unit) !! Names(done)
    requires forall id :: id in more <==> id in Ids(StoredOf(unit, owned))
    ensures Progress(done + unit, settled + Names(unit), rewritten, kept + more, delta, want, owned)
  {
    hide StoredOf, IsStored, Rewrites, Inherits, NameOf, Names;
    NamesOf(done, unit);
    StoredIds(unit, owned);
  }

  lemma RewriteUnit(done: seq<Row>, settled: set<string>, rewritten: set<string>, kept: set<int>, delta: Delta,
                    want: seq<Row>, owned: seq<Row>, unit: seq<Row>)
    requires Progress(done, settled, rewritten, kept, delta, want, owned)
    requires Named(unit) && IdsDiffer(owned) && Names(unit) !! Names(done)
    requires forall w :: w in unit ==> w in want
    ensures var stored := StoredOf(unit, owned);
            Progress(done + unit, settled, rewritten + Names(unit), kept,
                     Delta(delta.add + Stamped(unit, stored), delta.remove + Ids(stored)), want, owned)
  {
    hide StoredOf, IsStored, Rewrites, Inherits, NameOf, Names, Stamped, Named;
    var stored := StoredOf(unit, owned);
    var stamped := Stamped(unit, stored);
    var remove := delta.remove + Ids(stored);
    NamesOf(done, unit);
    NamesOf(delta.add, stamped);
    StoredIds(unit, owned);
    StampedNames(unit, stored);
    RemovalsDiffer(delta.remove, Ids(stored), owned, rewritten, Names(unit));
    AddsDiffer(delta.add, stamped);
    StampsInherited(want, owned, unit, stored, remove);
    forall r | r in delta.add ensures Inherits(r, owned, remove) {
      InheritsMore(r, owned, delta.remove, remove);
    }
  }

  lemma InheritsMore(r: Row, owned: seq<Row>, remove: seq<int>, more: seq<int>)
    requires Inherits(r, owned, remove) && forall id :: id in remove ==> id in more
    ensures Inherits(r, owned, more)
  {
  }

  lemma StampsInherited(want: seq<Row>, owned: seq<Row>, unit: seq<Row>, stored: seq<Row>, remove: seq<int>)
    requires Named(unit) && forall w :: w in unit ==> w in want
    requires forall i :: 0 <= i < |stored| ==> stored[i] in owned && stored[i].id in remove
    ensures forall r :: r in Stamped(unit, stored) ==> Rewrites(r, want) && Inherits(r, owned, remove)
  {
    var stamped := Stamped(unit, stored);
    forall r | r in stamped ensures Rewrites(r, want) && Inherits(r, owned, remove) {
      var i :| 0 <= i < |stamped| && stamped[i] == r;
      assert unit[i] in unit;
      assert r == unit[i].(createdAt := r.createdAt);
    }
  }

  lemma StampedNames(unit: seq<Row>, stored: seq<Row>)
    requires Named(unit)
    ensures Names(Stamped(unit, stored)) == Names(unit)
    ensures NamesDiffer(Stamped(unit, stored))
    ensures forall r :: r in Stamped(unit, stored) ==> r.externalId.Some?
  {
    var stamped := Stamped(unit, stored);
    forall i | 0 <= i < |unit|
      ensures NameOf(stamped[i]) == NameOf(unit[i]) && stamped[i].externalId == unit[i].externalId
    {
    }
    forall name | name in Names(unit) ensures name in Names(stamped) {
      var r :| r in unit && NameOf(r) == name;
      var i :| 0 <= i < |unit| && unit[i] == r;
      assert stamped[i] in stamped;
    }
  }

  lemma AddsDiffer(add: seq<Row>, stamped: seq<Row>)
    requires NamesDiffer(add) && NamesDiffer(stamped) && Names(add) !! Names(stamped)
    requires forall r :: r in stamped ==> r.externalId.Some?
    ensures NamesDiffer(add + stamped)
  {
    forall i, j | 0 <= i < |add| && 0 <= j < |stamped| ensures add[i].externalId != stamped[j].externalId {
      assert add[i] in add && stamped[j] in stamped;
      assert NameOf(add[i]) in Names(add) && NameOf(stamped[j]) in Names(stamped);
    }
  }

  lemma RemovalsDiffer(remove: seq<int>, more: seq<int>, owned: seq<Row>, before: set<string>, now: set<string>)
    requires AllDiffer(remove) && AllDiffer(more) && before !! now
    requires forall id :: id in remove ==> exists o :: o in owned && o.id == id
    requires forall o :: o in owned ==> (o.id in remove <==> IsStored(o, owned) && NameOf(o) in before)
    requires forall o :: o in owned ==> (o.id in more <==> IsStored(o, owned) && NameOf(o) in now)
    ensures AllDiffer(remove + more)
  {
    hide IsStored, NameOf;
    forall i, j | 0 <= i < |remove| && 0 <= j < |more| ensures remove[i] != more[j] {
      assert remove[i] in remove && more[j] in more;
    }
  }

  /** The rows not kept and not yet removed go too. */
  method RemoveRest(owned: seq<Row>, kept: set<int>, remove: seq<int>) returns (all: seq<int>)
    requires AllDiffer(remove) && forall o :: o in owned && o.id in remove ==> o.id !in kept
    requires forall id :: id in remove ==> exists o :: o in owned && o.id == id
    ensures AllDiffer(all)
    ensures forall id :: id in remove ==> id in all
    ensures forall id :: id in all ==> exists o :: o in owned && o.id == id
    ensures forall o :: o in owned ==> (o.id in all <==> o.id !in kept)
  {
    all := remove;
    for i := 0 to |owned|
      invariant AllDiffer(all)
      invariant forall id :: id in remove ==> id in all
      invariant forall id :: id in all ==> exists o :: o in owned && o.id == id
      invariant forall o :: o in owned && o.id in all ==> o.id !in kept
      invariant forall o :: o in owned[..i] && o.id !in kept ==> o.id in all
    {
      assert owned[..i + 1] == owned[..i] + [owned[i]];
      var id := owned[i].id;
      if id in kept || id in all {
        continue;
      }
      all := all + [id];
    }
    assert owned[..|owned|] == owned;
  }

  lemma StartProgress(want: seq<Row>, owned: seq<Row>)
    ensures Progress([], {}, {}, {}, Delta([], []), want, owned)
  {
    hide NameOf, IsStored;
  }

  /** The rows of an event not yet compared have names not yet met. */
  lemma NewNames(want: seq<Row>, done: seq<Row>, unit: seq<Row>, keys: seq<UnitKey>, key: UnitKey)
    requires Named(want) && unit == RowsOf(want, key) && key !in keys
    requires forall w :: w in done <==> w in want && KeyOf(w) in keys
    ensures Names(unit) !! Names(done)
  {
    hide KeyOf, RowsOf, Named, NameOf;
    forall w, x | w in unit && x in done ensures NameOf(w) != NameOf(x) {
      if NameOf(w) == NameOf(x) {
        SameName(want, w, x);
      }
    }
  }

  lemma ProgressSettled(done: seq<Row>, settled: set<string>, rewritten: set<string>, kept: set<int>, delta: Delta,
                        want: seq<Row>, owned: seq<Row>)
    requires Progress(done, settled, rewritten, kept, delta, want, owned)
    ensures settled <= Names(done)
  {
    hide NameOf, IsStored, Rewrites, Inherits;
  }

  /** One more event is settled when all its rows match, and not otherwise. */
  lemma SettleUnit(want: seq<Row>, owned: seq<Row>, done: seq<Row>, unit: seq<Row>, key: UnitKey, settled: set<string>,
            matched: bool)
    requires unit == RowsOf(want, key) && Names(unit) !! Names(done) && settled <= Names(done)
    requires forall w :: w in done ==> (NameOf(w) in settled <==> EventMatches(w, want, owned))
    requires matched <==> forall w :: w in unit ==> Matches(w, owned)
    ensures matched ==> forall w :: w in done + unit ==>
              (NameOf(w) in settled + Names(unit) <==> EventMatches(w, want, owned))
    ensures !matched ==> forall w :: w in done + unit ==> (NameOf(w) in settled <==> EventMatches(w, want, owned))
  {
    hide KeyOf, RowsOf, NameOf, Matches, EventMatches, Names;
    forall w | w in unit ensures NameOf(w) in Names(unit) {
      InNames(unit, w);
    }
    forall w | w in done ensures NameOf(w) in Names(done) {
      InNames(done, w);
    }
    forall w | w in unit ensures EventMatches(w, want, owned) <==> matched {
      UnitMatches(want, owned, unit, key, w);
    }
  }

  lemma InNames(rows: seq<Row>, w: Row)
    requires w in rows
    ensures NameOf(w) in Names(rows)
  {
  }

  lemma UnitMatches(want: seq<Row>, owned: seq<Row>, unit: seq<Row>, key: UnitKey, w: Row)
    requires unit == RowsOf(want, key) && w in unit
    ensures EventMatches(w, want, owned) <==> forall x :: x in unit ==> Matches(x, owned)
  {
    hide RowsOf, KeyOf, Matches;
  }

  lemma AllDone(done: seq<Row>, settled: set<string>, rewritten: set<string>, kept: set<int>, delta: Delta,
                want: seq<Row>, owned: seq<Row>)
    requires Progress(done, settled, rewritten, kept, delta, want, owned) && Named(want)
    requires forall w :: w in done <==> w in want
    requires forall w :: w in done ==> (NameOf(w) in settled <==> EventMatches(w, want, owned))
    ensures settled == Settled(want, owned) && rewritten == Unsettled(want, owned)
    ensures AllDiffer(delta.remove)
    ensures forall o :: o in owned && o.id in delta.remove ==> o.id !in kept
    ensures forall id :: id in delta.remove ==> exists o :: o in owned && o.id == id
  {
    hide NameOf, IsStored, Rewrites, Inherits, EventMatches, Named;
    forall w, x | w in want && x in want && NameOf(w) == NameOf(x) ensures w == x {
      SameName(want, w, x);
    }
  }

  lemma RestRemoved(done: seq<Row>, settled: set<string>, rewritten: set<string>, kept: set<int>, delta: Delta,
                    want: seq<Row>, owned: seq<Row>, remove: seq<int>)
    requires Progress(done, settled, rewritten, kept, delta, want, owned)
    requires settled == Settled(want, owned) && rewritten == Unsettled(want, owned)
    requires AllDiffer(remove)
    requires forall id :: id in delta.remove ==> id in remove
    requires forall id :: id in remove ==> exists o :: o in owned && o.id == id
    requires forall o :: o in owned ==> (o.id in remove <==> o.id !in kept)
    ensures Differs(want, owned, delta.(remove := remove))
  {
    hide NameOf, IsStored, Rewrites, EventMatches, Settled, Unsettled, Names;
    forall r | r in delta.add ensures Inherits(r, owned, remove) {
      assert Inherits(r, owned, delta.remove);
    }
  }

  /** `diff`: an event is compared whole, kept whole or rewritten whole. */
  method Diff(want: seq<Row>, owned: seq<Row>) returns (delta: Delta)
    requires Named(want) && IdsDiffer(owned)
    ensures Differs(want, owned, delta)
  {
    hide RowsOf, KeyOf, StoredOf, Matches, Progress, Names, NameOf, Named, IdsDiffer, Differs, EventMatches, Settled,
         Unsettled;
    delta := Delta([], []);
    var kept: set<int> := {};
    var units, keys := UnitsOf(want);
    ghost var done: seq<Row> := [];
    ghost var settled: set<string>, rewritten: set<string> := {}, {};
    StartProgress(want, owned);
    for u := 0 to |units|
      invariant forall w :: w in done <==> w in want && KeyOf(w) in keys[..u]
      invariant forall w :: w in done ==> (NameOf(w) in settled <==> EventMatches(w, want, owned))
      invariant Progress(done, settled, rewritten, kept, delta, want, owned)
    {
      var unit := units[u];
      var stored, matched := CompareUnit(unit, owned);
      RowsOfNamed(want, keys[u]);
      NewNames(want, done, unit, keys[..u], keys[u]);
      ProgressSettled(done, settled, rewritten, kept, delta, want, owned);
      SettleUnit(want, owned, done, unit, keys[u], settled, matched);
      assert keys[..u + 1] == keys[..u] + [keys[u]];
      if matched {
        var ids := set id | id in Ids(stored);
        KeepUnit(done, settled, rewritten, kept, delta, want, owned, unit, ids);
        kept := kept + ids;
        settled := settled + Names(unit);
      } else {
        RewriteUnit(done, settled, rewritten, kept, delta, want, owned, unit);
        delta := Delta(delta.add + Stamped(unit, stored), delta.remove + Ids(stored));
        rewritten := rewritten + Names(unit);
      }
      done := done + unit;
    }
    assert keys[..|units|] == keys;
    AllDone(done, settled, rewritten, kept, delta, want, owned);
    var remove := RemoveRest(owned, kept, delta.remove);
    RestRemoved(done, settled, rewritten, kept, delta, want, owned, remove);
    delta := delta.(remove := remove);
  }
}
