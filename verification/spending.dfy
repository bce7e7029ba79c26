/** What the report's spending lines say each category spent. */
module Spending {
  import opened CashFlow
  import opened CashLines
  import opened CashReport
  import opened Rounding

  type ByCategory = map<Id, seq<int>>

  ghost predicate DeepLong(lines: seq<Line>, n: nat) {
    forall i :: 0 <= i < |lines| ==> |lines[i].flow.byMonth| == n && DeepLong(lines[i].children, n)
  }

  ghost predicate Long(spent: ByCategory, n: nat) {
    forall id :: id in spent ==> |spent[id]| == n
  }

  function Noted(spent: ByCategory, l: Line): ByCategory {
    if l.category.Some? then spent[l.category.value := l.flow.byMonth] else spent
  }

  /** The lines walked in order, each before its children. */
  function Walked(lines: seq<Line>, spent: ByCategory): (r: ByCategory)
    ensures forall n :: DeepLong(lines, n) && Long(spent, n) ==> Long(r, n)
    decreases lines
  {
    if lines == [] then spent else Walked(lines[1..], Walked(lines[0].children, Noted(spent, lines[0])))
  }

  method Walk(lines: seq<Line>, spent: ByCategory) returns (r: ByCategory)
    ensures r == Walked(lines, spent)
    decreases lines
  {
    r := spent;
    for i := 0 to |lines|
      invariant Walked(lines[i..], r) == Walked(lines, spent)
    {
      assert lines[i..][1..] == lines[i + 1..];
      var l := lines[i];
      if l.category.Some? {
        r := r[l.category.value := l.flow.byMonth];
      }
      r := Walk(l.children, r);
    }
  }

  function SpentAt(spent: ByCategory, id: Id, m: nat): int {
    if id in spent && m < |spent[id]| then spent[id][m] else 0
  }

  lemma {:induction false} WalkJoins(a: seq<Line>, b: seq<Line>, spent: ByCategory)
    ensures Walked(a + b, spent) == Walked(b, Walked(a, spent))
    decreases |a|
  {
    if a == [] {
      assert a + b == b;
    } else {
      assert (a + b)[1..] == a[1..] + b;
      WalkJoins(a[1..], b, Walked(a[0].children, Noted(spent, a[0])));
    }
  }

  lemma WalkOne(l: Line, spent: ByCategory)
    ensures Walked([l], spent) == Walked(l.children, Noted(spent, l))
  {
    assert [l][1..] == [];
  }

  /** The children walked say what each child of the category spent, and change nothing else. */
  lemma {:induction false} ChildrenWalked(categories: seq<Category>, id: Id, filed: map<Id, Flow>, n: nat, k: nat,
            spent: ByCategory, x: Id, m: nat)
    requires Sized(filed, n) && k <= |categories| && m < n
    ensures SpentAt(Walked(TopLine(categories, id, filed, n, k).children, spent), x, m)
         == if x in ChildIds(categories, id, k) && x in filed then filed[x].At(m) else SpentAt(spent, x, m)
    decreases k
  {
    hide IsChild;
    if k > 0 {
      ChildrenWalked(categories, id, filed, n, k - 1, spent, x, m);
      var before, c := TopLine(categories, id, filed, n, k - 1), categories[k - 1];
      if IsChild(c, id) && c.id in filed {
        var child := ChildLine(c.id, filed[c.id]);
        WalkJoins(before.children, [child], spent);
        WalkOne(child, Walked(before.children, spent));
      }
    }
  }

  /** What a category's line says: a top category with its children, a child by itself. */
  function LineOf(categories: seq<Category>, filed: map<Id, Flow>, n: nat, id: Id, m: nat): int
    requires Sized(filed, n) && m < n && Place(categories, id) < |categories|
  {
    if categories[Place(categories, id)].parent.None? then
      AtOf(filed, id, m) + FiledAt(ChildIds(categories, id, |categories|), filed, n, m)
    else AtOf(filed, id, m)
  }

  lemma {:induction false} LinesWalked(categories: seq<Category>, kind: Kind, filed: map<Id, Flow>, n: nat, k: nat,
            x: Id, m: nat)
    requires Sized(filed, n) && k <= |categories| && m < n && DistinctIds(categories)
    ensures SpentAt(Walked(CategoryLines(categories, kind, filed, n, k), map[]), x, m)
         == if Under(categories, kind, k, x) then LineOf(categories, filed, n, x, m) else 0
    decreases k
  {
    hide TopLine, Used, ChildIds, FiledAt, LineOf, Under, DistinctIds, AtOf, Walked, SpentAt;
    if k == 0 {
      NothingWalked(categories, kind, x, m);
    } else {
      LinesWalked(categories, kind, filed, n, k - 1, x, m);
      var c, before := categories[k - 1], CategoryLines(categories, kind, filed, n, k - 1);
      if !IsTop(c, kind) {
        NoTopAt(categories, kind, k - 1, x);
      } else if Used(categories, c.id, filed, |categories|) {
        var l := TopLine(categories, c.id, filed, n, |categories|);
        WalkJoins(before, [l], map[]);
        WalkOne(l, Walked(before, map[]));
        TopWalked(categories, kind, filed, n, k - 1, Walked(before, map[]), x, m);
      } else {
        UnusedWalked(categories, kind, filed, n, k - 1, x, m);
      }
    }
  }

  lemma NothingWalked(categories: seq<Category>, kind: Kind, x: Id, m: nat)
    ensures SpentAt(Walked([], map[]), x, m) == 0 && !Under(categories, kind, 0, x)
  {
  }

  lemma NoTopAt(categories: seq<Category>, kind: Kind, k: nat, x: Id)
    requires DistinctIds(categories) && k < |categories| && !IsTop(categories[k], kind)
    ensures Under(categories, kind, k + 1, x) <==> Under(categories, kind, k, x)
  {
  }

  /** The k-th category, a top one, adds itself and its children to those under the tops before it. */
  lemma TopAdds(categories: seq<Category>, kind: Kind, k: nat, x: Id)
    requires DistinctIds(categories) && k < |categories| && IsTop(categories[k], kind)
    ensures var id := categories[k].id;
            var child := x in ChildIds(categories, id, |categories|);
            && (x == id || child ==>
                Under(categories, kind, k + 1, x) && !Under(categories, kind, k, x)
                  && Place(categories, x) < |categories|)
            && (x != id && !child ==> (Under(categories, kind, k + 1, x) <==> Under(categories, kind, k, x)))
            && (x == id ==> !child && categories[Place(categories, x)].parent.None?)
            && (child ==> x != id && categories[Place(categories, x)].parent.Some?)
  {
    hide ChildIds;
    PlaceOf(categories, k);
    ChildIdsHave(categories, categories[k].id, |categories|, x);
  }

  lemma TopWalked(categories: seq<Category>, kind: Kind, filed: map<Id, Flow>, n: nat, k: nat, spent: ByCategory,
            x: Id, m: nat)
    requires Sized(filed, n) && k < |categories| && m < n && DistinctIds(categories) && IsTop(categories[k], kind)
    requires SpentAt(spent, x, m) == if Under(categories, kind, k, x) then LineOf(categories, filed, n, x, m) else 0
    ensures var l := TopLine(categories, categories[k].id, filed, n, |categories|);
            SpentAt(Walked(l.children, Noted(spent, l)), x, m)
            == if Under(categories, kind, k + 1, x) then LineOf(categories, filed, n, x, m) else 0
  {
    hide ChildIds, FiledAt, Under, DistinctIds, TopLine, Place, Walked;
    var id := categories[k].id;
    var l := TopLine(categories, id, filed, n, |categories|);
    TopLineNames(categories, id, filed, n, |categories|);
    TopAdds(categories, kind, k, x);
    ChildrenWalked(categories, id, filed, n, |categories|, Noted(spent, l), x, m);
    TopLineAdds(categories, id, filed, n, |categories|, m);
  }

  lemma {:induction false} TopLineNames(categories: seq<Category>, id: Id, filed: map<Id, Flow>, n: nat, k: nat)
    requires Sized(filed, n) && k <= |categories|
    ensures TopLine(categories, id, filed, n, k).category == Some(id)
    ensures DeepLong(TopLine(categories, id, filed, n, k).children, n)
    decreases k
  {
    hide IsChild, DeepLong;
    if k > 0 {
      TopLineNames(categories, id, filed, n, k - 1);
      var c := categories[k - 1];
      if IsChild(c, id) && c.id in filed {
        NoLinesDeep(n);
        DeepPush(TopLine(categories, id, filed, n, k - 1).children, ChildLine(c.id, filed[c.id]), n);
      }
    } else {
      NoLinesDeep(n);
    }
  }

  lemma NoLinesDeep(n: nat)
    ensures DeepLong([], n)
  {
  }

  lemma DeepPush(lines: seq<Line>, l: Line, n: nat)
    requires DeepLong(lines, n) && |l.flow.byMonth| == n && DeepLong(l.children, n)
    ensures DeepLong(lines + [l], n)
  {
  }

  lemma {:induction false} CategoryLinesDeep(categories: seq<Category>, kind: Kind, filed: map<Id, Flow>, n: nat,
            k: nat)
    requires Sized(filed, n) && k <= |categories|
    ensures DeepLong(CategoryLines(categories, kind, filed, n, k), n)
    decreases k
  {
    hide Used, TopLine, DeepLong;
    NoLinesDeep(n);
    if k > 0 {
      CategoryLinesDeep(categories, kind, filed, n, k - 1);
      var c := categories[k - 1];
      TopLineNames(categories, c.id, filed, n, |categories|);
      DeepPush(CategoryLines(categories, kind, filed, n, k - 1), TopLine(categories, c.id, filed, n, |categories|), n);
    }
  }

  /** The groups' lines name no category: walked, they note nothing. */
  lemma {:induction false} GroupsWalked(lines: seq<Line>, groups: map<Group, Flow>, of: seq<Group>, n: nat)
    requires DeepLong(lines, n) && Sized(groups, n)
    ensures DeepLong(WithGroups(lines, groups, of), n)
    ensures Walked(WithGroups(lines, groups, of), map[]) == Walked(lines, map[])
    decreases |of|
  {
    hide DeepLong, Walked;
    if of != [] {
      var before, g := WithGroups(lines, groups, of[..|of| - 1]), of[|of| - 1];
      GroupsWalked(lines, groups, of[..|of| - 1], n);
      if g in groups {
        var l := GroupLine(g, groups[g]);
        NoLinesDeep(n);
        DeepPush(before, l, n);
        WalkJoins(before, [l], map[]);
        GroupWalked(g, groups[g], Walked(before, map[]));
      }
    }
  }

  lemma GroupWalked(g: Group, f: Flow, spent: ByCategory)
    ensures Walked([GroupLine(g, f)], spent) == spent
  {
    WalkOne(GroupLine(g, f), spent);
  }

  lemma UnusedWalked(categories: seq<Category>, kind: Kind, filed: map<Id, Flow>, n: nat, k: nat, x: Id, m: nat)
    requires Sized(filed, n) && k < |categories| && m < n && DistinctIds(categories) && IsTop(categories[k], kind)
    requires !Used(categories, categories[k].id, filed, |categories|)
    ensures (if Under(categories, kind, k + 1, x) then LineOf(categories, filed, n, x, m) else 0)
         == if Under(categories, kind, k, x) then LineOf(categories, filed, n, x, m) else 0
  {
    hide ChildIds, FiledAt, Under, DistinctIds, Used, Place;
    var id := categories[k].id;
    TopAdds(categories, kind, k, x);
    UnusedIsNought(categories, id, filed, n, |categories|, m);
    UnusedChild(categories, id, filed, x);
  }

  lemma UnusedChild(categories: seq<Category>, id: Id, filed: map<Id, Flow>, x: Id)
    requires DistinctIds(categories) && !Used(categories, id, filed, |categories|)
    ensures x in ChildIds(categories, id, |categories|) ==> x !in filed
  {
    hide ChildIds, DistinctIds;
    ChildIdsHave(categories, id, |categories|, x);
  }

  /** In a two-level tree the walked spending lines say of each spending category what its own line
      says, and nought of any other. */
  lemma ExpenseWalked(categories: seq<Category>, s: Money, n: nat, i: nat, m: nat)
    requires Tree(categories) && s.Valid(n) && i < |categories| && m < n
    ensures DeepLong(ExpenseLines(categories, s, n), n)
    ensures var c := categories[i];
            SpentAt(Walked(ExpenseLines(categories, s, n), map[]), c.id, m)
            == if c.kind == Expense
               then AtOf(s.filed, c.id, m)
                 + (if c.parent.None? then FiledAt(ChildIds(categories, c.id, |categories|), s.filed, n, m) else 0)
               else 0
  {
    hide Walked, SpentAt, CategoryLines, WithGroups, DeepLong, Place, ChildIds, FiledAt, AtOf, Spread;
    var lines := CategoryLines(categories, Expense, s.filed, n, |categories|);
    CategoryLinesDeep(categories, Expense, s.filed, n, |categories|);
    GroupsWalked(lines, s.groups, [FeeGroup, TaxGroup], n);
    LinesWalked(categories, Expense, s.filed, n, |categories|, categories[i].id, m);
    SpreadHas(categories, Expense, |categories|, categories[i].id);
    TreeSpreads(categories, Expense, i);
    PlaceOf(categories, i);
  }
}
