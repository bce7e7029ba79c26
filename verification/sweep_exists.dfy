/** Where the engine always answers, a run of any paper over any journal is there, and so are as many
    sweeps one after another as wanted. */
module SweepExists {
  import opened Fixpoint
  import LocalWants
  import opened Materialize
  import opened Reconcile
  import opened RegistryNames
  import opened Rounding
  import opened Sweeps

  // ---- A difference ----

  /** The rows no event stored as asked keeps. */
  function Dropped(rows: seq<Row>, want: seq<Row>, owned: seq<Row>): (r: seq<Row>)
    ensures forall o :: o in r <==> o in rows && !Keeps(o, want, owned)
  {
    if rows == [] then []
    else
      var before, last := Dropped(rows[..|rows| - 1], want, owned), rows[|rows| - 1];
      assert rows == rows[..|rows| - 1] + [last];
      if Keeps(last, want, owned) then before else before + [last]
  }

  /** The rows asked for whose events are not stored so. */
  function Rewritten(rows: seq<Row>, want: seq<Row>, owned: seq<Row>): (r: seq<Row>)
    ensures forall w :: w in r <==> w in rows && !EventMatches(w, want, owned)
  {
    if rows == [] then []
    else
      var before, last := Rewritten(rows[..|rows| - 1], want, owned), rows[|rows| - 1];
      assert rows == rows[..|rows| - 1] + [last];
      if EventMatches(last, want, owned) then before else before + [last]
  }

  lemma {:induction false} DroppedDiffer(rows: seq<Row>, want: seq<Row>, owned: seq<Row>)
    requires IdsDiffer(rows)
    ensures IdsDiffer(Dropped(rows, want, owned))
    decreases |rows|
  {
    hide Keeps, IdsDiffer;
    if rows == [] {
      NoneDiffer();
    } else {
      var before, last := rows[..|rows| - 1], rows[|rows| - 1];
      assert rows == before + [last];
      DifferPop(before, last);
      DroppedDiffer(before, want, owned);
      DifferPush(Dropped(before, want, owned), last);
    }
  }

  lemma {:induction false} RewrittenDiffer(rows: seq<Row>, want: seq<Row>, owned: seq<Row>)
    requires NamesDiffer(rows)
    ensures NamesDiffer(Rewritten(rows, want, owned))
    decreases |rows|
  {
    hide EventMatches;
    if rows != [] {
      var before, last := rows[..|rows| - 1], rows[|rows| - 1];
      assert rows == before + [last];
      RewrittenDiffer(before, want, owned);
      forall w | w in Rewritten(before, want, owned) ensures w.externalId != last.externalId {
        var i :| 0 <= i < |before| && before[i] == w;
        assert rows[i] == w;
      }
    }
  }

  lemma NoneDiffer()
    ensures IdsDiffer([])
  {
  }

  lemma DifferenceIsThere(want: seq<Row>, owned: seq<Row>)
    requires Named(want) && IdsDiffer(owned)
    ensures Differs(want, owned, Delta(Rewritten(want, want, owned), Ids(Dropped(owned, want, owned))))
  {
    hide Keeps, EventMatches, NameOf;
    DroppedDiffer(owned, want, owned);
    RewrittenDiffer(want, want, owned);
    var add, dropped := Rewritten(want, want, owned), Dropped(owned, want, owned);
    forall o | o in owned ensures o.id in Ids(dropped) <==> !Keeps(o, want, owned) {
      if o.id in Ids(dropped) {
        var d :| d in dropped && d.id == o.id;
        SameId(owned, o, d);
      }
    }
    forall r | r in add ensures Rewrites(r, want) && Inherits(r, owned, Ids(dropped)) {
      assert r == r.(createdAt := r.createdAt);
    }
  }

  // ---- A journal it leaves ----

  function GreatestId(journal: seq<Row>): (n: int)
    ensures forall o :: o in journal ==> o.id <= n
  {
    if journal == [] then 0
    else
      var before, last := GreatestId(journal[..|journal| - 1]), journal[|journal| - 1];
      assert journal == journal[..|journal| - 1] + [last];
      Max(before, last.id)
  }

  lemma {:induction false} WithoutDiffer(journal: seq<Row>, remove: seq<int>)
    requires IdsDiffer(journal)
    ensures IdsDiffer(Without(journal, remove))
    decreases |journal|
  {
    if journal != [] {
      var n := |journal| - 1;
      WithoutDiffer(journal[..n], remove);
      forall o | o in Without(journal[..n], remove) ensures o.id != journal[n].id {
        assert o in journal[..n];
      }
      DifferPush(Without(journal[..n], remove), journal[n]);
    }
  }

  lemma DifferPush(rows: seq<Row>, r: Row)
    requires IdsDiffer(rows) && forall o :: o in rows ==> o.id != r.id
    ensures IdsDiffer(rows + [r])
  {
    assert forall i :: 0 <= i < |rows| ==> rows[i] in rows;
  }

  lemma {:induction false} InsertDiffers(journal: seq<Row>, r: Row)
    requires IdsDiffer(journal) && forall o :: o in journal ==> o.id != r.id
    ensures IdsDiffer(InsertRow(journal, r))
    decreases |journal|
  {
    hide FoldsBefore, IdsDiffer;
    if journal == [] || !FoldsBefore(r, journal[|journal| - 1]) {
      DifferPush(journal, r);
    } else {
      var n := |journal| - 1;
      var before, last := journal[..n], journal[n];
      assert journal == before + [last];
      DifferPop(before, last);
      InsertDiffers(before, r);
      InsertRowBase(before, r, []);
      DifferPush(InsertRow(before, r), last);
    }
  }

  lemma DifferPop(rows: seq<Row>, r: Row)
    requires IdsDiffer(rows + [r])
    ensures IdsDiffer(rows) && forall o :: o in rows ==> o.id != r.id
  {
    var all := rows + [r];
    assert all[|rows|] == r && forall i :: 0 <= i < |rows| ==> all[i] == rows[i];
  }

  /** Rows with ids past all the journal's, rising, leave no id there twice. */
  lemma {:induction false} InsertsDiffer(journal: seq<Row>, rows: seq<Row>, past: int)
    requires IdsDiffer(journal) && forall o :: o in journal ==> o.id <= past
    requires forall i :: 0 <= i < |rows| ==> rows[i].id == past + 1 + i
    ensures IdsDiffer(InsertRows(journal, rows))
    ensures forall o :: o in InsertRows(journal, rows) ==> o.id <= past + |rows|
    decreases |rows|
  {
    hide FoldsBefore, InsertRow, IdsDiffer;
    if rows != [] {
      var n := |rows| - 1;
      InsertsDiffer(journal, rows[..n], past);
      InsertDiffers(InsertRows(journal, rows[..n]), rows[n]);
      InsertRowBase(InsertRows(journal, rows[..n]), rows[n], []);
    }
  }

  /** Each paper is given an answer, whatever the journal. */
  ghost predicate Answers(s: Registry) {
    forall p, journal :: 0 <= p < |s.papers| ==> Asks(s, p, journal).Ok?
  }

  lemma RunIsThere(s: Registry, p: nat, journal: seq<Row>)
    requires p < |s.papers| && Sensible(s.g) && EachOnce(s.papers[p].events, s.papers[p].rows)
    requires IdsDiffer(journal) && Asks(s, p, journal).Ok?
    ensures exists after :: Ran(s, p, journal, after)
  {
    hide Sensible, EachOnce, Want, OwnedOf, IdsDiffer, Differs, InsertRows, Without;
    var want, owned := Asks(s, p, journal).value, OwnedOf(journal, s.papers[p].rows);
    WantIsNamed(s.g, journal, s.account, s.papers[p].rows, s.papers[p].events);
    OwnedIdsDiffer(journal, s.papers[p].rows);
    DifferenceIsThere(want, owned);
    var delta, past := Delta(Rewritten(want, want, owned), Ids(Dropped(owned, want, owned))), GreatestId(journal);
    var ids, stamps := seq(|delta.add|, i => past + 1 + i), seq(|delta.add|, i => 1);
    WithoutDiffer(journal, delta.remove);
    InsertsDiffer(Without(journal, delta.remove), Written(delta.add, ids, stamps), past);
    var after := After(journal, delta, ids, stamps);
    assert Applied(s, p, journal, after, delta, ids, stamps);
    assert Ran(s, p, journal, after);
  }

  ghost predicate SweptTo(s: Registry, journals: seq<seq<Row>>, k: nat)
    requires k <= |s.papers|
  {
    |journals| == k + 1 && forall p :: 0 <= p < k ==> Ran(s, p, journals[p], journals[p + 1])
  }

  lemma {:induction false} SweepIsThereTo(s: Registry, depth: seq<nat>, journal: seq<Row>, k: nat)
    returns (journals: seq<seq<Row>>)
    requires Sound(s, depth) && Answers(s) && IdsDiffer(journal) && k <= |s.papers|
    ensures SweptTo(s, journals, k) && journals[0] == journal && IdsDiffer(journals[k])
    decreases k
  {
    hide Ran, Answers, Asks, IdsDiffer, Sensible, EachOnce, LocalWants.Local, LegsInPlace, Linked;
    if k == 0 {
      journals := [journal];
    } else {
      var before := SweepIsThereTo(s, depth, journal, k - 1);
      assert Asks(s, k - 1, before[k - 1]).Ok? by { Answered(s, k - 1, before[k - 1]); }
      RunIsThere(s, k - 1, before[k - 1]);
      var after :| Ran(s, k - 1, before[k - 1], after);
      RanDiffers(s, k - 1, before[k - 1], after);
      journals := before + [after];
    }
  }

  lemma Answered(s: Registry, p: nat, journal: seq<Row>)
    requires Answers(s) && p < |s.papers|
    ensures Asks(s, p, journal).Ok?
  {
  }

  lemma RanDiffers(s: Registry, p: nat, journal: seq<Row>, after: seq<Row>)
    requires p < |s.papers| && Ran(s, p, journal, after)
    ensures IdsDiffer(after)
  {
  }

  /** As many sweeps as wanted are there one after another, from any journal with its ids distinct. */
  lemma {:induction false} SweepsAreThere(s: Registry, depth: seq<nat>, journal: seq<Row>, t: nat)
    returns (sweeps: seq<seq<seq<Row>>>)
    requires Sound(s, depth) && Answers(s) && IdsDiffer(journal) && 0 < t
    ensures Chained(s, sweeps) && |sweeps| == t && sweeps[0][0] == journal
    ensures IdsDiffer(sweeps[t - 1][|s.papers|])
    decreases t
  {
    hide Ran, Answers, IdsDiffer, Sound;
    if t == 1 {
      var sweep := SweepIsThereTo(s, depth, journal, |s.papers|);
      sweeps := [sweep];
    } else {
      var before := SweepsAreThere(s, depth, journal, t - 1);
      var sweep := SweepIsThereTo(s, depth, before[t - 2][|s.papers|], |s.papers|);
      sweeps := before + [sweep];
    }
  }
}
