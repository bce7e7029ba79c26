/** As many sweeps as the longest chain has papers are needed: a chain of any length whose papers are
    gone through from its end is settled one paper a sweep. */
module SweepBound {
  import opened Fixpoint
  import opened LocalWants
  import opened Materialize
  import opened Reconcile
  import opened RegistryNames
  import opened Rounding
  import opened Sweeps
  import opened SweepExists

  function Account(): Uuid { seq(32, _ => 0) }

  function Leg(account: Uuid, paper: Uuid, on: Day): Row {
    Row(0, account, Some(paper), "transfer", on, None, "RUB", "", REGISTRY, 0, Some(1.0), None, [], None, None, 0)
  }

  /** A unit is held of whatever a row names. */
  function HeldOf(journal: seq<Row>, paper: Uuid, on: Day): Result<Held> {
    Ok(Held(if Naming(journal, paper) == [] then 0.0 else 1.0, "RUB"))
  }

  /** A conversion moves it. */
  function PairOf(e: Event, account: Uuid, paper: Uuid, result: Uuid, held: Held,
            working: seq<Row>): Option<(Row, Row)> {
    Some((Leg(account, paper, e.on), Leg(account, result, e.on)))
  }

  /** A paper is called by its id. */
  function Called(isin: string): Result<Option<Uuid>> { Ok(Parse(isin)) }

  const HOLDS := Engine(HeldOf, Called, PairOf, (e: Event) => 2.0, (e: Event) => "")

  // ---- The chain ----

  /** The papers of a chain, the last produced first. */
  ghost predicate Papers(ids: seq<Uuid>) {
    ids != [] && forall i, j :: 0 <= i < j < |ids| ==> ids[i] != ids[j]
  }

  /** The first paper is split; any other is converted into the one before it. */
  function EventOf(ids: seq<Uuid>, p: nat): Event
    requires p < |ids|
  {
    if p == 0 then Event(ids[0], Split, 2, 1, 2, "", 0.0, "manual")
    else Event(ids[p], Conversion, 1, 1, 1, Print(ids[p - 1]), 0.0, "manual")
  }

  function PapersOf(ids: seq<Uuid>): (papers: seq<Paper>)
    ensures |papers| == |ids|
  {
    seq(|ids|, p requires 0 <= p < |ids| => Paper([ids[p]], [EventOf(ids, p)]))
  }

  function Chain(ids: seq<Uuid>): Registry { Registry(HOLDS, Account(), PapersOf(ids)) }

  function Depth(ids: seq<Uuid>): (depth: seq<nat>)
    ensures |depth| == |ids|
  {
    seq(|ids|, p requires 0 <= p < |ids| => |ids| - 1 - p)
  }

  /** The paper the chain begins with was bought. */
  function Bought(ids: seq<Uuid>): Row
    requires ids != []
  {
    Row(1, Account(), Some(ids[|ids| - 1]), "buy", 0, None, "RUB", "", "manual", 0, Some(1.0), None, [], None, None, 1)
  }

  /** A paper's event produces the one before it and no other. */
  lemma ProducesBefore(ids: seq<Uuid>, p: nat, row: Uuid)
    requires p < |ids|
    ensures Produces(HOLDS, EventOf(ids, p), row) <==> p > 0 && row == ids[p - 1]
  {
    hide Print, Parse;
    if p > 0 {
      PrintRoundTrip(ids[p - 1]);
      Printed(ids[p - 1]);
    }
  }

  lemma Printed(u: Uuid)
    ensures Print(u) != ""
  {
    assert |Print(u)| == 36;
  }

  lemma LinksFollowDepth(ids: seq<Uuid>, p: nat, q: nat)
    requires Papers(ids) && p < |ids| && q < |ids| && Linked(Chain(ids), p, q)
    ensures p > 0 && q == p - 1
  {
    hide Produces;
    var s := Chain(ids);
    var i, row :| 0 <= i < |s.papers[p].events| && Produces(s.g, s.papers[p].events[i], row) && row in s.papers[q].rows;
    ProducesBefore(ids, p, row);
  }

  lemma HoldsWell()
    ensures Sensible(HOLDS) && Local(HOLDS) && LegsInPlace(HOLDS)
  {
    hide Naming;
  }

  lemma ChainIsSound(ids: seq<Uuid>)
    requires Papers(ids)
    ensures Sound(Chain(ids), Depth(ids))
  {
    hide Linked, Sensible, Local, LegsInPlace, EventOf;
    HoldsWell();
    var s := Chain(ids);
    assert forall p :: 0 <= p < |ids| ==> EachOnce(s.papers[p].events, s.papers[p].rows);
    forall p, q | 0 <= p < |ids| && 0 <= q < |ids| && Linked(s, p, q) ensures Depth(ids)[p] < Depth(ids)[q] {
      LinksFollowDepth(ids, p, q);
    }
  }

  // ---- What is asked for ----

  /** One event on one paper is asked over the rows that are not the paper's. */
  lemma AskedOfOne(g: Engine, journal: seq<Row>, account: Uuid, paper: Uuid, e: Event)
    requires g.catalog(e.resultIsin).Ok?
    ensures var result := if e.resultIsin == "" then None else g.catalog(e.resultIsin).value;
            var asked := AskPaper(g, e, account, result, paper, Desk([], Base(journal, [paper])));
            e.resultIsin == "" || result.Some? ==>
              Want(g, journal, account, [paper], [e]) == if asked.Err? then Err else Ok(asked.value.want)
  {
    hide AskPaper, Base;
    var d := Desk([], Base(journal, [paper]));
    var result := if e.resultIsin == "" then None else g.catalog(e.resultIsin).value;
    assert AskPapers(g, e, account, result, [paper], 0, d) == Ok(d);
    assert AskEvents(g, [e], 0, account, [paper], d.working) == Ok(d);
  }

  ghost predicate NoForeignSplits(journal: seq<Row>) {
    forall o :: o in journal && o.source != REGISTRY ==> o.kind != "split"
  }

  /** A paper is asked something for exactly when a row that is not its own names it. */
  lemma AskedOf(ids: seq<Uuid>, p: nat, journal: seq<Row>)
    requires p < |ids|
    ensures Asks(Chain(ids), p, journal).Ok?
    ensures NoForeignSplits(journal) ==>
      (Asks(Chain(ids), p, journal).value == [] <==> Naming(Base(journal, [ids[p]]), ids[p]) == [])
  {
    hide Base, Naming, InsertRows, SplitRow, Want, Print, Parse, HeldInRoubles, ExternalId, InId;
    if p > 0 {
      PrintRoundTrip(ids[p - 1]);
      Printed(ids[p - 1]);
    }
    AskedOfOne(HOLDS, journal, Account(), ids[p], EventOf(ids, p));
  }

  /** A conversion's arriving leg is asked for on the paper produced. */
  lemma ConversionAsked(ids: seq<Uuid>, p: nat, journal: seq<Row>)
    requires 0 < p < |ids| && Naming(Base(journal, [ids[p]]), ids[p]) != []
    ensures Asks(Chain(ids), p, journal).Ok?
    ensures exists w :: w in Asks(Chain(ids), p, journal).value && w.instrument == Some(ids[p - 1])
  {
    hide Base, Naming, HeldInRoubles, InsertRows, ExternalId, InId, Want, Print, Parse;
    PrintRoundTrip(ids[p - 1]);
    Printed(ids[p - 1]);
    AskedOfOne(HOLDS, journal, Account(), ids[p], EventOf(ids, p));
    var want := Asks(Chain(ids), p, journal).value;
    assert want[1].instrument == Some(ids[p - 1]);
  }

  lemma ChainAnswers(ids: seq<Uuid>)
    ensures Answers(Chain(ids))
  {
    hide Want;
    forall p, journal | 0 <= p < |ids| ensures Asks(Chain(ids), p, journal).Ok? {
      AskedOf(ids, p, journal);
    }
  }

  // ---- How far a journal has got ----

  /** The chain has got to its paper k: a row not its own names it, none names a paper it leads to, and
      neither it nor those have rows of their own. */
  ghost predicate Reached(ids: seq<Uuid>, k: nat, journal: seq<Row>)
    requires k < |ids|
  {
    && NoForeignSplits(journal)
    && (forall o, j :: o in journal && 0 <= j < k ==> o.instrument != Some(ids[j]))
    && (forall o, j :: o in journal && 0 <= j <= k ==> !Owned(o, [ids[j]]))
    && exists o :: o in journal && Carries(ids, k, o)
  }

  /** A row names the paper, and is no paper's own but perhaps of the one converted into it. */
  ghost predicate Carries(ids: seq<Uuid>, k: nat, o: Row)
    requires k < |ids|
  {
    o.instrument == Some(ids[k]) && forall j :: 0 <= j < |ids| && j != k + 1 ==> !Owned(o, [ids[j]])
  }

  lemma NotNamed(ids: seq<Uuid>, k: nat, journal: seq<Row>, j: nat)
    requires j < k < |ids| && Reached(ids, k, journal)
    ensures Naming(Base(journal, [ids[j]]), ids[j]) == [] && OwnedOf(journal, [ids[j]]) == []
  {
    hide Owned;
    var named, owned := Naming(Base(journal, [ids[j]]), ids[j]), OwnedOf(journal, [ids[j]]);
    HasOne(named);
    HasOne(owned);
  }

  lemma HasOne(rows: seq<Row>)
    ensures rows == [] || exists o :: o in rows
  {
    if rows != [] {
      assert rows[0] in rows;
    }
  }

  lemma IsNamed(ids: seq<Uuid>, k: nat, journal: seq<Row>)
    requires k < |ids| && Reached(ids, k, journal)
    ensures Naming(Base(journal, [ids[k]]), ids[k]) != [] && OwnedOf(journal, [ids[k]]) == []
  {
    hide Owned;
    var o :| o in journal && Carries(ids, k, o);
    assert o in Naming(Base(journal, [ids[k]]), ids[k]);
    HasOne(OwnedOf(journal, [ids[k]]));
  }

  /** Where the chain has got to, the paper is not settled. */
  lemma NotSettledThere(ids: seq<Uuid>, k: nat, journal: seq<Row>)
    requires k < |ids| && Reached(ids, k, journal)
    ensures !Sweeps.Settled(Chain(ids), k, journal)
  {
    hide Reached, Naming, Base, OwnedOf, Want;
    ReachedNoSplits(ids, k, journal);
    IsNamed(ids, k, journal);
    AskedOf(ids, k, journal);
    var want := Asks(Chain(ids), k, journal).value;
    assert want[0] in want;
  }

  lemma ReachedNoSplits(ids: seq<Uuid>, k: nat, journal: seq<Row>)
    requires k < |ids| && Reached(ids, k, journal)
    ensures NoForeignSplits(journal)
  {
  }

  // ---- One sweep ----

  /** Before it is got to a paper has nothing to do. */
  lemma IdleBefore(ids: seq<Uuid>, k: nat, journal: seq<Row>, after: seq<Row>, p: nat)
    requires Papers(ids) && p < k < |ids| && Reached(ids, k, journal) && Ran(Chain(ids), p, journal, after)
    ensures after == journal
  {
    hide Ran, Reached, Naming, Base, OwnedOf, Want, Sound;
    ReachedNoSplits(ids, k, journal);
    NotNamed(ids, k, journal, p);
    AskedOf(ids, p, journal);
    ChainIsSound(ids);
    SettledRunIsEmpty(Chain(ids), Depth(ids), p, journal, after);
  }

  lemma OwnedByOne(o: Row, ours: Uuid, theirs: Uuid)
    requires Owned(o, [ours]) && ours != theirs
    ensures !Owned(o, [theirs])
  {
    hide PaperOf;
  }

  lemma OwnedByNoOther(ids: seq<Uuid>, p: nat, o: Row)
    requires Papers(ids) && p < |ids| && Owned(o, [ids[p]])
    ensures forall j :: 0 <= j < |ids| && j != p ==> !Owned(o, [ids[j]])
    ensures o.source == REGISTRY
  {
    forall j | 0 <= j < |ids| && j != p ensures !Owned(o, [ids[j]]) {
      OwnedByOne(o, ids[p], ids[j]);
    }
  }

  /** After a paper's run every row is either one it does not own, there before, or its own, and then
      on it or on the one before it. */
  lemma RunLeaves(ids: seq<Uuid>, p: nat, journal: seq<Row>, after: seq<Row>, o: Row)
    requires Papers(ids) && p < |ids| && Ran(Chain(ids), p, journal, after) && o in after
    ensures if Owned(o, [ids[p]]) then o.instrument == Some(ids[p])
            || (p > 0 && o.instrument == Some(ids[p - 1])) else o in journal
  {
    hide Ran, Owned, Base, OwnedOf, Sound, Produces, Sweeps.Settled;
    ChainIsSound(ids);
    RunSettles(Chain(ids), Depth(ids), p, journal, after);
    if Owned(o, [ids[p]]) {
      assert o in OwnedOf(after, [ids[p]]);
      InPlaceThere(ids, p, o);
    } else {
      assert o in Base(after, [ids[p]]);
    }
  }

  lemma InPlaceThere(ids: seq<Uuid>, p: nat, o: Row)
    requires p < |ids| && InPlace(HOLDS, [ids[p]], [EventOf(ids, p)], o)
    ensures o.instrument == Some(ids[p]) || (p > 0 && o.instrument == Some(ids[p - 1]))
  {
    hide Produces;
    if o.instrument != Some(ids[p]) {
      ProducesBefore(ids, p, o.instrument.value);
    }
  }

  /** A row a paper does not own stays. */
  lemma RunKeepsRow(ids: seq<Uuid>, p: nat, journal: seq<Row>, after: seq<Row>, o: Row)
    requires Papers(ids) && p < |ids| && Ran(Chain(ids), p, journal, after) && o in journal && !Owned(o, [ids[p]])
    ensures o in after
  {
    hide Ran, Owned, Base, OwnedOf, Sound, Sweeps.Settled;
    ChainIsSound(ids);
    RunSettles(Chain(ids), Depth(ids), p, journal, after);
    assert o in Base(journal, [ids[p]]);
  }

  /** The papers already past keep the chain where it has got to. */
  lemma PastKeep(ids: seq<Uuid>, k: nat, journal: seq<Row>, after: seq<Row>, p: nat)
    requires Papers(ids) && k + 1 < p < |ids| && Reached(ids, k, journal) && Ran(Chain(ids), p, journal, after)
    ensures Reached(ids, k, after)
  {
    hide Ran, Owned, PapersOf, EventOf, NoForeignSplits;
    RunRows(ids, k, journal, after, p);
    var o :| o in journal && Carries(ids, k, o);
    RunKeepsRow(ids, p, journal, after, o);
  }

  /** What a run of a paper past k leaves of the papers k leads to. */
  lemma RunRows(ids: seq<Uuid>, k: nat, journal: seq<Row>, after: seq<Row>, p: nat)
    requires Papers(ids) && k < p < |ids| && Ran(Chain(ids), p, journal, after) && NoForeignSplits(journal)
    requires forall o, j :: o in journal && 0 <= j < k ==> o.instrument != Some(ids[j])
    requires forall o, j :: o in journal && 0 <= j <= k ==> !Owned(o, [ids[j]])
    ensures NoForeignSplits(after)
    ensures forall o, j :: o in after && 0 <= j < k ==> o.instrument != Some(ids[j])
    ensures forall o, j :: o in after && 0 <= j <= k ==> !Owned(o, [ids[j]])
  {
    hide Ran, Owned;
    forall o | o in after
      ensures o.source != REGISTRY ==> o.kind != "split"
      ensures forall j :: 0 <= j < k ==> o.instrument != Some(ids[j])
      ensures forall j :: 0 <= j <= k ==> !Owned(o, [ids[j]])
    {
      RunLeaves(ids, p, journal, after, o);
      if Owned(o, [ids[p]]) {
        OwnedByNoOther(ids, p, o);
      }
    }
  }

  /** The paper the chain has got to moves it one further. */
  lemma RunMoves(ids: seq<Uuid>, k: nat, journal: seq<Row>, after: seq<Row>)
    requires Papers(ids) && 0 < k < |ids| && Reached(ids, k, journal) && Ran(Chain(ids), k, journal, after)
    ensures Reached(ids, k - 1, after)
  {
    hide Ran, Owned, Want, OwnedOf, Base, Naming, Sound, Exact, EventOf, NoForeignSplits, Clean;
    RunRows(ids, k - 1, journal, after, k);
    ChainIsSound(ids);
    RunSettles(Chain(ids), Depth(ids), k, journal, after);
    IsNamed(ids, k, journal);
    ConversionAsked(ids, k, after);
    StoredOn(Asks(Chain(ids), k, after).value, OwnedOf(after, [ids[k]]), ids[k - 1]);
    var o :| o in OwnedOf(after, [ids[k]]) && o.instrument == Some(ids[k - 1]);
    OwnedByNoOther(ids, k, o);
    assert Carries(ids, k - 1, o);
  }

  lemma StoredOn(want: seq<Row>, owned: seq<Row>, paper: Uuid)
    requires Exact(want, owned) && exists w :: w in want && w.instrument == Some(paper)
    ensures exists o :: o in owned && o.instrument == Some(paper)
  {
    hide NameOf;
    var w :| w in want && w.instrument == Some(paper);
    var o :| o in owned && SameRow(w, o);
  }

  lemma {:induction false} SweepMovesTo(ids: seq<Uuid>, k: nat, journals: seq<seq<Row>>, p: nat)
    requires Papers(ids) && 0 < k < |ids| && p <= |ids| && Swept(Chain(ids), journals) && Reached(ids, k, journals[0])
    ensures if p <= k then journals[p] == journals[0] else Reached(ids, k - 1, journals[p])
    decreases p
  {
    hide Ran, Reached, PapersOf, EventOf;
    if p > 0 {
      SweepMovesTo(ids, k, journals, p - 1);
      assert Ran(Chain(ids), p - 1, journals[p - 1], journals[p]);
      if p - 1 < k {
        IdleBefore(ids, k, journals[0], journals[p], p - 1);
      } else if p - 1 == k {
        RunMoves(ids, k, journals[0], journals[p]);
      } else {
        PastKeep(ids, k - 1, journals[p - 1], journals[p], p - 1);
      }
    }
  }

  // ---- Many sweeps ----

  lemma SweptAt(s: Registry, sweeps: seq<seq<seq<Row>>>, t: nat)
    requires Chained(s, sweeps) && t < |sweeps|
    ensures Swept(s, sweeps[t]) && |sweeps[t]| == |s.papers| + 1
    ensures t > 0 ==> |sweeps[t - 1]| == |s.papers| + 1 && sweeps[t][0] == sweeps[t - 1][|s.papers|]
  {
    hide Ran;
    assert t > 0 ==> Swept(s, sweeps[t - 1]);
  }

  lemma {:induction false} SweepsReach(ids: seq<Uuid>, sweeps: seq<seq<seq<Row>>>, t: nat)
    requires Papers(ids) && Chained(Chain(ids), sweeps) && t < |sweeps| && t < |ids| && sweeps[0][0] == [Bought(ids)]
    ensures Reached(ids, |ids| - 1 - t, sweeps[t][0])
    decreases t
  {
    hide Reached, Chained, Swept, PapersOf;
    SweptAt(Chain(ids), sweeps, t);
    if t == 0 {
      BoughtReached(ids);
    } else {
      SweepsReach(ids, sweeps, t - 1);
      SweptAt(Chain(ids), sweeps, t - 1);
      SweepMovesTo(ids, |ids| - t, sweeps[t - 1], |ids|);
    }
  }

  lemma BoughtReached(ids: seq<Uuid>)
    requires Papers(ids)
    ensures Reached(ids, |ids| - 1, [Bought(ids)])
  {
    assert Bought(ids).source != REGISTRY;
    assert Carries(ids, |ids| - 1, Bought(ids)) && Bought(ids) in [Bought(ids)];
  }

  /** Over a chain of any papers gone through from its end, from a journal in fold order with nothing
      left over that buys the paper it begins with, before the sweep numbered t from nought the paper
      t links on is not settled; so until as many sweeps are done as it has papers, some one is not. */
  lemma SweepsFallShort(ids: seq<Uuid>, sweeps: seq<seq<seq<Row>>>, t: nat)
    requires Papers(ids) && Chained(Chain(ids), sweeps) && t < |sweeps| && t < |ids| && sweeps[0][0] == [Bought(ids)]
    ensures Sound(Chain(ids), Depth(ids)) && Sorted(sweeps[0][0]) && AllClean(Chain(ids), sweeps[0][0])
    ensures !Sweeps.Settled(Chain(ids), |ids| - 1 - t, sweeps[t][0])
  {
    hide Reached, Chained, Sweeps.Settled, Sound, PapersOf;
    ChainIsSound(ids);
    BoughtIsClean(ids);
    SweptAt(Chain(ids), sweeps, t);
    SweepsReach(ids, sweeps, t);
    NotSettledThere(ids, |ids| - 1 - t, sweeps[t][0]);
  }

  lemma BoughtIsClean(ids: seq<Uuid>)
    requires ids != []
    ensures AllClean(Chain(ids), [Bought(ids)])
  {
    assert forall papers :: !Owned(Bought(ids), papers);
  }

  /** Such sweeps are there, as many as wanted. */
  lemma ChainIsSwept(ids: seq<Uuid>, t: nat)
    requires Papers(ids) && 0 < t
    ensures exists sweeps :: Chained(Chain(ids), sweeps) && |sweeps| == t && sweeps[0][0] == [Bought(ids)]
  {
    hide Sound, Chained, Answers;
    ChainIsSound(ids);
    ChainAnswers(ids);
    var sweeps := SweepsAreThere(Chain(ids), Depth(ids), [Bought(ids)], t);
  }
}
