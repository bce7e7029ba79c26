/** The report's sections laid out as lines: each top category with what moved under it. */
module CashLines {
  import opened CashFlow
  import opened Rounding
  import Tally

  /** A row of a section: a category, its children nested, or a group. */
  datatype Line = Line(category: Option<Id>, group: Option<Group>, flow: Flow, direct: Flow, children: seq<Line>)

  predicate IsTop(c: Category, kind: Kind) { c.kind == kind && c.parent.None? }

  predicate IsChild(c: Category, id: Id) { c.parent == Some(id) }

  ghost predicate AllLong(lines: seq<Line>, n: nat) {
    forall i :: 0 <= i < |lines| ==> |lines[i].flow.byMonth| == n
  }

  // ---- Laying out ----

  function ChildLine(id: Id, f: Flow): Line { Line(Some(id), None, f, f, []) }

  function GroupLine(g: Group, f: Flow): Line { Line(None, Some(g), f, f, []) }

  /** A top category's line with what is filed under itself and the first categories that are its
      children. */
  function TopLine(categories: seq<Category>, id: Id, filed: map<Id, Flow>, n: nat, k: nat): (l: Line)
    requires Sized(filed, n) && k <= |categories|
    ensures |l.flow.byMonth| == |l.direct.byMonth| == n
    ensures AllLong(l.children, n)
  {
    if k == 0 then
      var direct := if id in filed then filed[id] else Empty(n);
      Line(Some(id), None, if id in filed then Empty(n).Merged(filed[id]) else Empty(n), direct, [])
    else
      var l, c := TopLine(categories, id, filed, n, k - 1), categories[k - 1];
      if IsChild(c, id) && c.id in filed then
        l.(flow := l.flow.Merged(filed[c.id]), children := l.children + [ChildLine(c.id, filed[c.id])])
      else l
  }

  /** Something was filed under a category or one of its first children. */
  predicate Used(categories: seq<Category>, id: Id, filed: map<Id, Flow>, k: nat)
    requires k <= |categories|
  {
    id in filed || exists i :: 0 <= i < k && IsChild(categories[i], id) && categories[i].id in filed
  }

  function CategoryLines(categories: seq<Category>, kind: Kind, filed: map<Id, Flow>, n: nat, k: nat): (r: seq<Line>)
    requires Sized(filed, n) && k <= |categories|
    ensures AllLong(r, n)
  {
    if k == 0 then []
    else
      var before, c := CategoryLines(categories, kind, filed, n, k - 1), categories[k - 1];
      if IsTop(c, kind) && Used(categories, c.id, filed, |categories|) then
        before + [TopLine(categories, c.id, filed, n, |categories|)]
      else before
  }

  /** The lines with those of the groups that moved money after them. */
  function WithGroups(lines: seq<Line>, groups: map<Group, Flow>, of: seq<Group>): (r: seq<Line>)
    ensures forall n :: AllLong(lines, n) && Sized(groups, n) ==> AllLong(r, n)
  {
    if of == [] then lines
    else
      var before, g := WithGroups(lines, groups, of[..|of| - 1]), of[|of| - 1];
      if g in groups then before + [GroupLine(g, groups[g])] else before
  }

  function IncomeLines(categories: seq<Category>, s: Money, n: nat): (r: seq<Line>)
    requires s.Valid(n)
    ensures AllLong(r, n)
  {
    WithGroups(CategoryLines(categories, Income, s.filed, n, |categories|), s.groups, [InterestGroup])
  }

  function ExpenseLines(categories: seq<Category>, s: Money, n: nat): (r: seq<Line>)
    requires s.Valid(n)
    ensures AllLong(r, n)
  {
    WithGroups(CategoryLines(categories, Expense, s.filed, n, |categories|), s.groups, [FeeGroup, TaxGroup])
  }

  /** `lines`: a kind's categories that moved money, children under parents. */
  method Lines(categories: seq<Category>, kind: Kind, filed: map<Id, Flow>, n: nat) returns (out: seq<Line>)
    requires Sized(filed, n)
    ensures out == CategoryLines(categories, kind, filed, n, |categories|)
  {
    hide TopLine, Used;
    out := [];
    for k := 0 to |categories|
      invariant out == CategoryLines(categories, kind, filed, n, k)
    {
      var top := categories[k];
      if top.kind != kind || top.parent.Some? {
        continue;
      }
      var line, used := LayTop(categories, top.id, filed, n);
      if used {
        out := out + [line];
      }
    }
  }

  method LayTop(categories: seq<Category>, id: Id, filed: map<Id, Flow>, n: nat) returns (line: Line, used: bool)
    requires Sized(filed, n)
    ensures line == TopLine(categories, id, filed, n, |categories|)
    ensures used == Used(categories, id, filed, |categories|)
  {
    line, used := Line(Some(id), None, Empty(n), Empty(n), []), false;
    if id in filed {
      line := line.(direct := filed[id], flow := line.flow.Merged(filed[id]));
      used := true;
    }
    for k := 0 to |categories|
      invariant line == TopLine(categories, id, filed, n, k)
      invariant used == Used(categories, id, filed, k)
    {
      var child := categories[k];
      if child.parent != Some(id) || child.id !in filed {
        continue;
      }
      var f := filed[child.id];
      line := line.(children := line.children + [ChildLine(child.id, f)], flow := line.flow.Merged(f));
      used := true;
    }
  }

  // ---- A section is its lines ----

  /** What the categories named filed in a month. */
  function FiledAt(ids: seq<Id>, filed: map<Id, Flow>, n: nat, m: nat): int
    requires Sized(filed, n) && m < n
  {
    if ids == [] then 0 else FiledAt(ids[..|ids| - 1], filed, n, m) + AtOf(filed, ids[|ids| - 1], m)
  }

  function LinesAt(lines: seq<Line>, n: nat, m: nat): int
    requires m < n && AllLong(lines, n)
  {
    if lines == [] then 0 else LinesAt(lines[..|lines| - 1], n, m) + lines[|lines| - 1].flow.At(m)
  }

  function ChildIds(categories: seq<Category>, id: Id, k: nat): seq<Id>
    requires k <= |categories|
  {
    if k == 0 then []
    else if IsChild(categories[k - 1], id) then ChildIds(categories, id, k - 1) + [categories[k - 1].id]
    else ChildIds(categories, id, k - 1)
  }

  /** Each top category of a kind and its children, in the order their lines come. */
  function Spread(categories: seq<Category>, kind: Kind, k: nat): seq<Id>
    requires k <= |categories|
  {
    if k == 0 then []
    else
      var c := categories[k - 1];
      if IsTop(c, kind) then Spread(categories, kind, k - 1) + ([c.id] + ChildIds(categories, c.id, |categories|))
      else Spread(categories, kind, k - 1)
  }

  lemma {:induction false} FiledJoins(a: seq<Id>, b: seq<Id>, filed: map<Id, Flow>, n: nat, m: nat)
    requires Sized(filed, n) && m < n
    ensures FiledAt(a + b, filed, n, m) == FiledAt(a, filed, n, m) + FiledAt(b, filed, n, m)
    decreases |b|
  {
    if b == [] {
      assert a + b == a;
    } else {
      assert (a + b)[..|a + b| - 1] == a + b[..|b| - 1];
      FiledJoins(a, b[..|b| - 1], filed, n, m);
    }
  }

  lemma OneFiled(id: Id, filed: map<Id, Flow>, n: nat, m: nat)
    requires Sized(filed, n) && m < n
    ensures FiledAt([id], filed, n, m) == AtOf(filed, id, m)
  {
    assert [id][..0] == [];
  }

  /** A top category's line is what is filed under it and its children: its own and its children's
      lines. */
  lemma {:induction false} TopLineAdds(categories: seq<Category>, id: Id, filed: map<Id, Flow>, n: nat, k: nat, m: nat)
    requires Sized(filed, n) && k <= |categories| && m < n
    ensures var l := TopLine(categories, id, filed, n, k);
            && l.flow.At(m) == AtOf(filed, id, m) + FiledAt(ChildIds(categories, id, k), filed, n, m)
            && l.flow.At(m) == l.direct.At(m) + LinesAt(l.children, n, m)
    decreases k
  {
    hide FiledAt, LinesAt, IsChild;
    if k == 0 {
      NoLines(filed, n, m);
    } else {
      TopLineAdds(categories, id, filed, n, k - 1, m);
      var before, c := TopLine(categories, id, filed, n, k - 1), categories[k - 1];
      var ids := ChildIds(categories, id, k - 1);
      if IsChild(c, id) {
        FiledJoins(ids, [c.id], filed, n, m);
        OneFiled(c.id, filed, n, m);
        if c.id in filed {
          LinesPush(before.children, ChildLine(c.id, filed[c.id]), n, m);
        }
      }
    }
  }

  lemma {:induction false} UnusedIsNought(categories: seq<Category>, id: Id, filed: map<Id, Flow>, n: nat, k: nat,
            m: nat)
    requires Sized(filed, n) && k <= |categories| && m < n && !Used(categories, id, filed, k)
    ensures AtOf(filed, id, m) == 0 && FiledAt(ChildIds(categories, id, k), filed, n, m) == 0
    decreases k
  {
    if k > 0 {
      UnusedIsNought(categories, id, filed, n, k - 1, m);
      var c := categories[k - 1];
      if IsChild(c, id) {
        FiledJoins(ChildIds(categories, id, k - 1), [c.id], filed, n, m);
        OneFiled(c.id, filed, n, m);
      }
    }
  }

  lemma NoLines(filed: map<Id, Flow>, n: nat, m: nat)
    requires Sized(filed, n) && m < n
    ensures LinesAt([], n, m) == FiledAt([], filed, n, m) == 0
  {
  }

  lemma LinesPush(lines: seq<Line>, l: Line, n: nat, m: nat)
    requires m < n && AllLong(lines, n) && |l.flow.byMonth| == n
    ensures LinesAt(lines + [l], n, m) == LinesAt(lines, n, m) + l.flow.At(m)
  {
    assert (lines + [l])[..|lines|] == lines;
  }

  lemma {:induction false} LinesAreFiled(categories: seq<Category>, kind: Kind, filed: map<Id, Flow>, n: nat, k: nat,
            m: nat)
    requires Sized(filed, n) && k <= |categories| && m < n
    ensures LinesAt(CategoryLines(categories, kind, filed, n, k), n, m)
            == FiledAt(Spread(categories, kind, k), filed, n, m)
    decreases k
  {
    hide TopLine, Used, ChildIds, AtOf, FiledAt, LinesAt, Flow.At;
    if k == 0 {
      NoLines(filed, n, m);
    } else {
      LinesAreFiled(categories, kind, filed, n, k - 1, m);
      var c, ids := categories[k - 1], Spread(categories, kind, k - 1);
      if IsTop(c, kind) {
        var kids := ChildIds(categories, c.id, |categories|);
        FiledJoins(ids, [c.id] + kids, filed, n, m);
        FiledJoins([c.id], kids, filed, n, m);
        OneFiled(c.id, filed, n, m);
        if Used(categories, c.id, filed, |categories|) {
          TopLineAdds(categories, c.id, filed, n, |categories|, m);
          LinesPush(CategoryLines(categories, kind, filed, n, k - 1),
                    TopLine(categories, c.id, filed, n, |categories|), n, m);
        } else {
          UnusedIsNought(categories, c.id, filed, n, |categories|, m);
        }
      }
    }
  }

  /** A category tree of two levels: each id once, each child under a top category of its kind. */
  ghost predicate Tree(categories: seq<Category>) {
    && DistinctIds(categories)
    && (forall i :: 0 <= i < |categories| && categories[i].parent.Some? ==>
        HasTop(categories, categories[i].parent.value, categories[i].kind))
  }

  ghost predicate HasTop(categories: seq<Category>, id: Id, kind: Kind) {
    exists j :: 0 <= j < |categories| && categories[j].id == id && IsTop(categories[j], kind)
  }

  /** The first place of an id; past the end when there is none. */
  function Place(categories: seq<Category>, id: Id): (p: nat)
    ensures p <= |categories|
    ensures p < |categories| ==> categories[p].id == id
    ensures forall i :: 0 <= i < p ==> categories[i].id != id
  {
    if categories == [] then 0
    else
      var p, last := Place(categories[..|categories| - 1], id), |categories| - 1;
      if p == last && categories[last].id != id then |categories| else p
  }

  /** A category is under a kind's first tops: one of them, or a child of one. */
  predicate Under(categories: seq<Category>, kind: Kind, k: nat, id: Id) {
    var p := Place(categories, id);
    && p < |categories|
    && if categories[p].parent.None? then categories[p].kind == kind && p < k
       else var top := Place(categories, categories[p].parent.value);
            top < k && top < |categories| && IsTop(categories[top], kind)
  }

  ghost predicate DistinctIds(categories: seq<Category>) {
    forall i, j :: 0 <= i < j < |categories| ==> categories[i].id != categories[j].id
  }

  lemma {:induction false} ChildIdsHave(categories: seq<Category>, id: Id, k: nat, x: Id)
    requires DistinctIds(categories) && k <= |categories|
    ensures x in ChildIds(categories, id, k)
            <==> Place(categories, x) < k && IsChild(categories[Place(categories, x)], id)
    decreases k
  {
    hide IsChild;
    if k > 0 {
      ChildIdsHave(categories, id, k - 1, x);
    }
  }

  lemma {:induction false} ChildIdsDistinct(categories: seq<Category>, id: Id, k: nat)
    requires DistinctIds(categories) && k <= |categories|
    ensures Tally.Distinct(ChildIds(categories, id, k))
    decreases k
  {
    hide IsChild, Place;
    if k > 0 {
      ChildIdsDistinct(categories, id, k - 1);
      ChildIdsHave(categories, id, k - 1, categories[k - 1].id);
    }
  }

  lemma TopAndChildrenHave(categories: seq<Category>, k: nat, x: Id)
    requires DistinctIds(categories) && k < |categories| && categories[k].parent.None?
    ensures var c, p := categories[k], Place(categories, x);
            x in [c.id] + ChildIds(categories, c.id, |categories|)
            <==> p < |categories| && (p == k || categories[p].parent == Some(c.id))
  {
    hide ChildIds;
    ChildIdsHave(categories, categories[k].id, |categories|, x);
  }

  lemma {:induction false} SpreadHas(categories: seq<Category>, kind: Kind, k: nat, x: Id)
    requires DistinctIds(categories) && k <= |categories|
    ensures x in Spread(categories, kind, k) <==> Under(categories, kind, k, x)
    decreases k
  {
    hide ChildIds, DistinctIds;
    if k > 0 {
      SpreadHas(categories, kind, k - 1, x);
      var c := categories[k - 1];
      if IsTop(c, kind) {
        TopAndChildrenHave(categories, k - 1, x);
        PlaceOf(categories, k - 1);
      }
    }
  }

  lemma PlaceOf(categories: seq<Category>, i: nat)
    requires DistinctIds(categories) && i < |categories|
    ensures Place(categories, categories[i].id) == i
  {
  }

  lemma NoneDistinct()
    ensures Tally.Distinct<Id>([])
  {
  }

  lemma {:induction false} SpreadDistinct(categories: seq<Category>, kind: Kind, k: nat)
    requires DistinctIds(categories) && k <= |categories|
    ensures Tally.Distinct(Spread(categories, kind, k))
    decreases k
  {
    hide ChildIds, DistinctIds, Tally.Distinct, Place;
    NoneDistinct();
    if k > 0 {
      SpreadDistinct(categories, kind, k - 1);
      var c := categories[k - 1];
      if IsTop(c, kind) {
        var kids := ChildIds(categories, c.id, |categories|);
        ChildIdsDistinct(categories, c.id, |categories|);
        PlaceOf(categories, k - 1);
        TopIsNoChild(categories, k - 1);
        DistinctOne(c.id, kids);
        forall x | x in [c.id] + kids ensures x !in Spread(categories, kind, k - 1) {
          TopAndChildrenHave(categories, k - 1, x);
          SpreadHas(categories, kind, k - 1, x);
        }
        Tally.DistinctJoin(Spread(categories, kind, k - 1), [c.id] + kids);
      }
    }
  }

  lemma TopIsNoChild(categories: seq<Category>, k: nat)
    requires DistinctIds(categories) && k < |categories| && categories[k].parent.None?
    ensures categories[k].id !in ChildIds(categories, categories[k].id, |categories|)
  {
    hide ChildIds, Place;
    PlaceOf(categories, k);
    ChildIdsHave(categories, categories[k].id, |categories|, categories[k].id);
  }

  lemma DistinctOne(x: Id, ids: seq<Id>)
    requires Tally.Distinct(ids) && x !in ids
    ensures Tally.Distinct([x] + ids)
  {
    Tally.DistinctJoin([x], ids);
  }

  /** In a tree each category is spread under its own kind, once. */
  lemma TreeSpreads(categories: seq<Category>, kind: Kind, i: nat)
    requires Tree(categories) && i < |categories|
    ensures categories[i].id in Spread(categories, kind, |categories|) <==> categories[i].kind == kind
  {
    hide Spread, Place;
    SpreadHas(categories, kind, |categories|, categories[i].id);
    PlaceOf(categories, i);
    if categories[i].parent.Some? {
      var j :| 0 <= j < |categories| && categories[j].id == categories[i].parent.value
        && IsTop(categories[j], categories[i].kind);
      PlaceOf(categories, j);
    }
  }
}
