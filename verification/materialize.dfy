/** The corporate-actions materializer: the rows the registry asks an account's journal to hold,
    the difference from the rows it wrote before, and the journal that difference leaves. */
module Materialize {
  import opened Rounding
  import opened RegistryNames

  type Day = int
  datatype Result<+T> = Ok(value: T) | Err

  datatype EventKind = Split | Conversion | SpinOff
  datatype Event = Event(id: Uuid, kind: EventKind, on: Day, ratioFrom: int, ratioTo: int, resultIsin: string,
                         basisShare: real, source: string)

  datatype Lot = Lot(origin: int, quantity: real, cost: int, acquiredOn: Option<Day>)

  /** The transfer group of a pair, derived from its departing leg's external id. */
  datatype Group = Group(of: string)

  datatype Row = Row(id: int, account: Uuid, instrument: Option<Uuid>, kind: string, on: Day, at: Option<int>,
                     currency: string, note: string, source: string, amount: int, quantity: Option<real>,
                     ratio: Option<real>, lots: seq<Lot>, group: Option<Group>, externalId: Option<string>,
                       createdAt: int)

  datatype Held = Held(quantity: real, currency: string)

  const REGISTRY := "registry"
  const KNOWN := "known"

  /** What the materializer asks of the engine, the catalog and the pair builders. */
  datatype Engine = Engine(
    held: (seq<Row>, Uuid, Day) -> Result<Held>,
    catalog: string -> Result<Option<Uuid>>,
    pair: (Event, Uuid, Uuid, Uuid, Held, seq<Row>) -> Option<(Row, Row)>,
    ratio: Event -> real,
    note: Event -> string)

  /** The builders give registry rows of the account on a paper, not yet stamped. */
  ghost predicate Sensible(g: Engine) {
    forall e, account, instrument, result, held, working ::
      var p := g.pair(e, account, instrument, result, held, working);
      p.Some? ==> Built(p.value.0, account) && Built(p.value.1, account)
  }

  predicate Built(r: Row, account: Uuid) {
    r.account == account && r.instrument.Some? && r.source == REGISTRY && r.createdAt == 0
  }

  // ---- The journal's fold order ----

  function Rank(source: string): int {
    if source == REGISTRY then 0 else 1
  }

  /** Day, rank within it, the source's instant with timed rows first, then the stamp. */
  predicate FoldsBefore(a: Row, b: Row) {
    if a.on != b.on then a.on < b.on
    else if Rank(a.source) != Rank(b.source) then Rank(a.source) < Rank(b.source)
    else if a.at.Some? && b.at.Some? && a.at.value != b.at.value then a.at.value < b.at.value
    else if a.at.Some? != b.at.Some? then a.at.Some?
    else a.createdAt < b.createdAt
  }

  function InsertRow(journal: seq<Row>, r: Row): seq<Row> {
    if journal == [] || !FoldsBefore(r, journal[|journal| - 1]) then journal + [r]
    else InsertRow(journal[..|journal| - 1], r) + [journal[|journal| - 1]]
  }

  /** Rows put into a journal in fold order, each after those it does not fold before. */
  function InsertRows(journal: seq<Row>, rows: seq<Row>): seq<Row> {
    if rows == [] then journal else InsertRow(InsertRows(journal, rows[..|rows| - 1]), rows[|rows| - 1])
  }

  // ---- What the registry asks for ----

  predicate HeldInRoubles(journal: seq<Row>, instrument: Uuid) {
    journal != [] && (if journal[0].instrument == Some(instrument) then journal[0].currency == "RUB"
                      else HeldInRoubles(journal[1..], instrument))
  }

  predicate HasForeignSplit(journal: seq<Row>, instrument: Uuid, day: Day) {
    exists o :: o in journal && o.kind == "split" && o.source != REGISTRY && o.instrument == Some(instrument)
      && o.on == day
  }

  function SplitRow(g: Engine, e: Event, account: Uuid, instrument: Uuid, held: Held): Row {
    Row(0, account, Some(instrument), "split", e.on, None, held.currency, g.note(e), REGISTRY, 0, None,
        Some(g.ratio(e)), [],
        None, Some(ExternalId(e.id, account, instrument)), 0)
  }

  /** The rows of one event on one catalog row; none when it cannot be expressed there. */
  function RowsFor(g: Engine, e: Event, account: Uuid, instrument: Uuid, result: Option<Uuid>, held: Held,
            working: seq<Row>): Option<seq<Row>> {
    if e.kind == Split then Some([SplitRow(g, e, account, instrument, held)])
    else if result.None? then None
    else
      var pair := g.pair(e, account, instrument, result.value, held, working);
      if pair.None? then None
      else
        var group := Some(Group(ExternalId(e.id, account, instrument)));
        Some([pair.value.0.(group := group, externalId := Some(ExternalId(e.id, account, instrument))),
              pair.value.1.(group := group, externalId := Some(InId(e.id, account, instrument)))])
  }

  /** The rows asked for so far, and the working journal they are in. */
  datatype Desk = Desk(want: seq<Row>, working: seq<Row>)

  function AskPaper(g: Engine, e: Event, account: Uuid, result: Option<Uuid>, instrument: Uuid, d: Desk): Result<Desk> {
    var held := g.held(d.working, instrument, e.on);
    if held.Err? then Err
    else if held.value.quantity <= 0.0 then Ok(d)
    else if e.source == KNOWN && e.kind == Conversion && !HeldInRoubles(d.working, instrument) then Ok(d)
    else if e.kind == Split && HasForeignSplit(d.working, instrument, e.on) then Ok(d)
    else
      var rows := RowsFor(g, e, account, instrument, result, held.value, d.working);
      if rows.None? then Ok(d) else Ok(Desk(d.want + rows.value, InsertRows(d.working, rows.value)))
  }

  /** The first n papers of one event. */
  function AskPapers(g: Engine, e: Event, account: Uuid, result: Option<Uuid>, instruments: seq<Uuid>, n: nat,
            d: Desk): Result<Desk>
    requires n <= |instruments|
  {
    if n == 0 then Ok(d)
    else
      var before := AskPapers(g, e, account, result, instruments, n - 1, d);
      if before.Err? then Err else AskPaper(g, e, account, result, instruments[n - 1], before.value)
  }

  function AskEvent(g: Engine, e: Event, account: Uuid, instruments: seq<Uuid>, d: Desk): Result<Desk> {
    if e.resultIsin == "" then AskPapers(g, e, account, None, instruments, |instruments|, d)
    else
      var found := g.catalog(e.resultIsin);
      if found.Err? then Err
      else if found.value.None? then Ok(d)
      else AskPapers(g, e, account, found.value, instruments, |instruments|, d)
  }

  /** The first k events, each over the journal the earlier ones left. */
  function AskEvents(g: Engine, events: seq<Event>, k: nat, account: Uuid, instruments: seq<Uuid>,
            base: seq<Row>): Result<Desk>
    requires k <= |events|
  {
    if k == 0 then Ok(Desk([], base))
    else
      var before := AskEvents(g, events, k - 1, account, instruments, base);
      if before.Err? then Err else AskEvent(g, events[k - 1], account, instruments, before.value)
  }

  /** `Materializer.desired`: the rows the registry asks the account for, over the journal
      without the registry's own rows of these papers. */
  method Desired(g: Engine, base: seq<Row>, account: Uuid, instruments: seq<Uuid>, events: seq<Event>)
    returns (r: Result<seq<Row>>)
    ensures var asked := AskEvents(g, events, |events|, account, instruments, base);
            r == if asked.Err? then Err else Ok(asked.value.want)
  {
    hide AskPaper;
    var want: seq<Row> := [];
    var working := base;
    for k := 0 to |events|
      invariant AskEvents(g, events, k, account, instruments, base) == Ok(Desk(want, working))
    {
      var e := events[k];
      var result: Option<Uuid> := None;
      if e.resultIsin != "" {
        var found := g.catalog(e.resultIsin);
        if found.Err? {
          ErrStays(g, events, k + 1, |events|, account, instruments, base);
          return Err;
        }
        if found.value.None? {
          continue;
        }
        result := found.value;
      }
      ghost var d := Desk(want, working);
      for n := 0 to |instruments|
        invariant AskPapers(g, e, account, result, instruments, n, d) == Ok(Desk(want, working))
      {
        var asked := AskPaper(g, e, account, result, instruments[n], Desk(want, working));
        if asked.Err? {
          PaperErrStays(g, e, account, result, instruments, n + 1, |instruments|, d);
          ErrStays(g, events, k + 1, |events|, account, instruments, base);
          return Err;
        }
        want, working := asked.value.want, asked.value.working;
      }
    }
    return Ok(want);
  }

  lemma {:induction false} ErrStays(g: Engine, events: seq<Event>, k: nat, m: nat, account: Uuid,
            instruments: seq<Uuid>, base: seq<Row>)
    requires k <= m <= |events| && AskEvents(g, events, k, account, instruments, base).Err?
    ensures AskEvents(g, events, m, account, instruments, base).Err?
    decreases m - k
  {
    hide AskEvent;
    if k < m {
      ErrStays(g, events, k, m - 1, account, instruments, base);
    }
  }

  lemma {:induction false} PaperErrStays(g: Engine, e: Event, account: Uuid, result: Option<Uuid>,
            instruments: seq<Uuid>, k: nat, m: nat, d: Desk)
    requires k <= m <= |instruments| && AskPapers(g, e, account, result, instruments, k, d).Err?
    ensures AskPapers(g, e, account, result, instruments, m, d).Err?
    decreases m - k
  {
    hide AskPaper;
    if k < m {
      PaperErrStays(g, e, account, result, instruments, k, m - 1, d);
    }
  }

  // ---- What is asked for is well named ----

  predicate Asked(r: Row, account: Uuid) {
    Built(r, account) && r.externalId.Some?
  }

  predicate NamedFor(r: Row, event: Uuid, instrument: Uuid, account: Uuid) {
    r.externalId == Some(ExternalId(event, account, instrument))
      || r.externalId == Some(InId(event, account, instrument))
  }

  predicate NamesDiffer(rows: seq<Row>) {
    forall i, j :: 0 <= i < j < |rows| ==> rows[i].externalId != rows[j].externalId
  }

  /** A row named for one of the first k events, or for the k-th and one of its first n papers. */
  predicate NamedBefore(r: Row, events: seq<Event>, k: nat, instruments: seq<Uuid>, n: nat, account: Uuid)
    requires k <= |events| && n <= |instruments|
  {
    exists j, m :: 0 <= j < |events| && 0 <= m < |instruments| && (j < k || (j == k && m < n))
                   && NamedFor(r, events[j].id, instruments[m], account)
  }

  predicate AskedSoFar(want: seq<Row>, events: seq<Event>, k: nat, instruments: seq<Uuid>, n: nat, account: Uuid)
    requires k <= |events| && n <= |instruments|
  {
    && (forall i :: 0 <= i < |want| ==>
        Asked(want[i], account) && NamedBefore(want[i], events, k, instruments, n, account))
    && NamesDiffer(want)
  }

  /** The registry keeps each event and each catalog row once. */
  predicate EachOnce(events: seq<Event>, instruments: seq<Uuid>) {
    && (forall i, j :: 0 <= i < j < |events| ==> events[i].id != events[j].id)
    && (forall i, j :: 0 <= i < j < |instruments| ==> instruments[i] != instruments[j])
  }

  lemma NewRowsDiffer(r: Row, events: seq<Event>, k: nat, instruments: seq<Uuid>, n: nat, account: Uuid, x: Row)
    requires EachOnce(events, instruments) && k < |events| && n < |instruments|
    requires NamedBefore(r, events, k, instruments, n, account) && NamedFor(x, events[k].id, instruments[n], account)
    ensures r.externalId != x.externalId
  {
    hide ExternalId, InId;
    var j, m :| 0 <= j < |events| && 0 <= m < |instruments| && (j < k || (j == k && m < n))
                && NamedFor(r, events[j].id, instruments[m], account);
    NamesDistinct(events[j].id, instruments[m], events[k].id, instruments[n], account);
    NamesDistinct(events[k].id, instruments[n], events[j].id, instruments[m], account);
  }

  lemma RowsForNamed(g: Engine, e: Event, account: Uuid, instrument: Uuid, result: Option<Uuid>, held: Held,
            working: seq<Row>)
    requires Sensible(g)
    ensures var rows := RowsFor(g, e, account, instrument, result, held, working);
            rows.Some? ==>
              && (forall i :: 0 <= i < |rows.value| ==>
                  Asked(rows.value[i], account) && NamedFor(rows.value[i], e.id, instrument, account))
              && NamesDiffer(rows.value)
  {
    hide ExternalId, InId;
    NamesDistinct(e.id, instrument, e.id, instrument, account);
  }

  lemma AskPaperNames(g: Engine, events: seq<Event>, k: nat, account: Uuid, result: Option<Uuid>,
            instruments: seq<Uuid>, n: nat, d: Desk)
    requires Sensible(g) && EachOnce(events, instruments) && k < |events| && n < |instruments|
    requires AskedSoFar(d.want, events, k, instruments, n, account)
    ensures var r := AskPaper(g, events[k], account, result, instruments[n], d);
            r.Ok? ==> AskedSoFar(r.value.want, events, k, instruments, n + 1, account)
  {
    hide RowsFor, HeldInRoubles, HasForeignSplit, InsertRows, NamedFor, Asked, Sensible, EachOnce, NamedBefore;
    var r := AskPaper(g, events[k], account, result, instruments[n], d);
    if r.Ok? {
      forall i | 0 <= i < |d.want| ensures NamedBefore(d.want[i], events, k, instruments, n + 1, account) {
        NamedMore(d.want[i], events, k, instruments, n, account);
      }
      if r.value != d {
        var held := g.held(d.working, instruments[n], events[k].on).value;
        var rows := RowsFor(g, events[k], account, instruments[n], result, held, d.working).value;
        RowsForNamed(g, events[k], account, instruments[n], result, held, d.working);
        forall i | 0 <= i < |rows| ensures NamedBefore(rows[i], events, k, instruments, n + 1, account) {
          NamedNow(rows[i], events, k, instruments, n, account);
        }
        forall i, j | 0 <= i < |d.want| && 0 <= j < |rows| ensures d.want[i].externalId != rows[j].externalId {
          NewRowsDiffer(d.want[i], events, k, instruments, n, account, rows[j]);
        }
      }
    }
  }

  lemma NamedMore(r: Row, events: seq<Event>, k: nat, instruments: seq<Uuid>, n: nat, account: Uuid)
    requires k < |events| && n < |instruments| && NamedBefore(r, events, k, instruments, n, account)
    ensures NamedBefore(r, events, k, instruments, n + 1, account)
  {
    hide NamedFor;
  }

  lemma NamedNow(r: Row, events: seq<Event>, k: nat, instruments: seq<Uuid>, n: nat, account: Uuid)
    requires k < |events| && n < |instruments| && NamedFor(r, events[k].id, instruments[n], account)
    ensures NamedBefore(r, events, k, instruments, n + 1, account)
  {
    hide NamedFor;
  }

  lemma {:induction false} AskPapersNames(g: Engine, events: seq<Event>, k: nat, account: Uuid, result: Option<Uuid>,
            instruments: seq<Uuid>, n: nat, d: Desk)
    requires Sensible(g) && EachOnce(events, instruments) && k < |events| && n <= |instruments|
    requires AskedSoFar(d.want, events, k, instruments, 0, account)
    ensures var r := AskPapers(g, events[k], account, result, instruments, n, d);
            r.Ok? ==> AskedSoFar(r.value.want, events, k, instruments, n, account)
    decreases n
  {
    hide AskPaper, AskedSoFar, Sensible, EachOnce;
    if n > 0 {
      AskPapersNames(g, events, k, account, result, instruments, n - 1, d);
      var before := AskPapers(g, events[k], account, result, instruments, n - 1, d);
      if before.Ok? {
        AskPaperNames(g, events, k, account, result, instruments, n - 1, before.value);
      }
    }
  }

  lemma AskedNextEvent(want: seq<Row>, events: seq<Event>, k: nat, instruments: seq<Uuid>, n: nat, account: Uuid)
    requires k < |events| && n <= |instruments| && AskedSoFar(want, events, k, instruments, n, account)
    ensures AskedSoFar(want, events, k + 1, instruments, 0, account)
  {
    hide NamedFor, Asked, NamesDiffer;
    forall i | 0 <= i < |want| ensures NamedBefore(want[i], events, k + 1, instruments, 0, account) {
      assert NamedBefore(want[i], events, k, instruments, n, account);
      var j, m :| 0 <= j < |events| && 0 <= m < |instruments| && (j < k || (j == k && m < n))
                  && NamedFor(want[i], events[j].id, instruments[m], account);
    }
  }

  /** Every row asked for is the registry's, on the account, named after its event and source
      paper, and no two share a name. */
  lemma {:induction false} AskedWellNamed(g: Engine, events: seq<Event>, k: nat, account: Uuid, instruments: seq<Uuid>,
            base: seq<Row>)
    requires Sensible(g) && EachOnce(events, instruments) && k <= |events|
    ensures var r := AskEvents(g, events, k, account, instruments, base);
            r.Ok? ==> AskedSoFar(r.value.want, events, k, instruments, 0, account)
    decreases k
  {
    hide AskPapers, AskedSoFar, Sensible, EachOnce;
    if k == 0 {
      NothingAsked(events, instruments, account);
    } else {
      AskedWellNamed(g, events, k - 1, account, instruments, base);
      var before := AskEvents(g, events, k - 1, account, instruments, base);
      if before.Ok? {
        var e := events[k - 1];
        var result := if e.resultIsin == "" then None
          else if g.catalog(e.resultIsin).Ok? then g.catalog(e.resultIsin).value else None;
        AskPapersNames(g, events, k - 1, account, result, instruments, |instruments|, before.value);
        var r := AskEvent(g, e, account, instruments, before.value);
        if r.Ok? {
          AskedNextEvent(r.value.want, events, k - 1, instruments,
                         if r.value == before.value then 0 else |instruments|, account);
        }
      }
    }
  }

  lemma NothingAsked(events: seq<Event>, instruments: seq<Uuid>, account: Uuid)
    ensures AskedSoFar([], events, 0, instruments, 0, account)
  {
  }

  // ---- Ownership ----

  /** A registry row written for an event of one of the papers, by its name. */
  predicate Owned(r: Row, instruments: seq<Uuid>) {
    && r.source == REGISTRY && r.externalId.Some?
    && PaperOf(r.externalId.value).Some? && PaperOf(r.externalId.value).value in instruments
  }

  /** What is asked for is what the next run will take for its own. */
  lemma AskedIsOwned(want: seq<Row>, events: seq<Event>, k: nat, instruments: seq<Uuid>, n: nat, account: Uuid, i: nat)
    requires k <= |events| && n <= |instruments| && AskedSoFar(want, events, k, instruments, n, account) && i < |want|
    ensures Owned(want[i], instruments)
  {
    hide ExternalId, InId, PaperOf, NamesDiffer;
    assert NamedBefore(want[i], events, k, instruments, n, account);
    var j, m :| 0 <= j < |events| && 0 <= m < |instruments| && NamedFor(want[i], events[j].id, instruments[m], account);
    assert Asked(want[i], account);
    NamedForReadsBack(want[i], events[j].id, instruments[m], account);
  }

  lemma NamedForReadsBack(r: Row, event: Uuid, instrument: Uuid, account: Uuid)
    requires NamedFor(r, event, instrument, account)
    ensures r.externalId.Some? && PaperOf(r.externalId.value) == Some(instrument)
  {
    hide ExternalId, InId, PaperOf;
    PaperReadsBack(event, account, instrument);
  }
}
