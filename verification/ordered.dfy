/** The report's order of categories, parents before children. */
module Ordered {
  import opened CashFlow
  import opened CashLines
  import opened Rounding
  import Tally

  /** A category put among sorted ones after those of its position. */
  function Inserted(sorted: seq<Category>, c: Category): seq<Category> {
    if sorted == [] || sorted[|sorted| - 1].position <= c.position then sorted + [c]
    else Inserted(sorted[..|sorted| - 1], c) + [sorted[|sorted| - 1]]
  }

  /** A stable sort by position. */
  function ByPosition(cs: seq<Category>): seq<Category> {
    if cs == [] then [] else Inserted(ByPosition(cs[..|cs| - 1]), cs[|cs| - 1])
  }

  function TopsOf(categories: seq<Category>): seq<Category> {
    if categories == [] then []
    else
      var last := categories[|categories| - 1];
      if last.parent.None? then TopsOf(categories[..|categories| - 1]) + [last]
      else TopsOf(categories[..|categories| - 1])
  }

  function ChildrenOf(categories: seq<Category>, id: Id): seq<Category> {
    if categories == [] then []
    else
      var last := categories[|categories| - 1];
      if IsChild(last, id) then ChildrenOf(categories[..|categories| - 1], id) + [last]
      else ChildrenOf(categories[..|categories| - 1], id)
  }

  function Block(categories: seq<Category>, top: Category): seq<Category> {
    [top] + ByPosition(ChildrenOf(categories, top.id))
  }

  function Blocks(categories: seq<Category>, tops: seq<Category>): seq<Category> {
    if tops == [] then [] else Blocks(categories, tops[..|tops| - 1]) + Block(categories, tops[|tops| - 1])
  }

  function InOrder(categories: seq<Category>): seq<Category> {
    Blocks(categories, ByPosition(TopsOf(categories)))
  }

  function KidsOf(m: map<Id, seq<Category>>, id: Id): seq<Category> {
    if id in m then m[id] else []
  }

  /** `ordered`: the children gathered by parent, then laid after each top category. */
  method Order(categories: seq<Category>) returns (out: seq<Category>)
    ensures out == InOrder(categories)
  {
    hide Blocks, ByPosition, TopsOf, ChildrenOf;
    var top, children := Gather(categories);
    out := Lay(categories, ByPosition(top), children);
  }

  method Gather(categories: seq<Category>) returns (top: seq<Category>, children: map<Id, seq<Category>>)
    ensures top == TopsOf(categories)
    ensures forall id :: KidsOf(children, id) == ChildrenOf(categories, id)
  {
    top, children := [], map[];
    for i := 0 to |categories|
      invariant top == TopsOf(categories[..i])
      invariant forall id :: KidsOf(children, id) == ChildrenOf(categories[..i], id)
    {
      assert categories[..i + 1][..i] == categories[..i];
      var c := categories[i];
      if c.parent.None? {
        top := top + [c];
      } else {
        children := children[c.parent.value := KidsOf(children, c.parent.value) + [c]];
      }
    }
    assert categories[..|categories|] == categories;
  }

  method Lay(categories: seq<Category>, top: seq<Category>, children: map<Id, seq<Category>>)
    returns (out: seq<Category>)
    requires forall id :: KidsOf(children, id) == ChildrenOf(categories, id)
    ensures out == Blocks(categories, top)
  {
    hide ByPosition, ChildrenOf, KidsOf;
    out := [];
    for i := 0 to |top|
      invariant out == Blocks(categories, top[..i])
    {
      assert top[..i + 1][..i] == top[..i];
      out := out + [top[i]];
      var kids := ByPosition(KidsOf(children, top[i].id));
      out := out + kids;
      assert out == Blocks(categories, top[..i]) + ([top[i]] + kids);
    }
    assert top[..|top|] == top;
  }

  // ---- The order lists each category once, a parent before its children ----

  lemma {:induction false} InsertedKeeps(sorted: seq<Category>, c: Category)
    ensures forall x :: x in Inserted(sorted, c) <==> x in sorted || x == c
    ensures Tally.Distinct(sorted) && c !in sorted ==> Tally.Distinct(Inserted(sorted, c))
    decreases |sorted|
  {
    if sorted != [] && sorted[|sorted| - 1].position > c.position {
      var rest, last := sorted[..|sorted| - 1], sorted[|sorted| - 1];
      InsertedKeeps(rest, c);
      assert sorted == rest + [last];
      assert Tally.Distinct(sorted) ==> last !in rest && Tally.Distinct(rest);
      assert Inserted(sorted, c) == Inserted(rest, c) + [last];
    }
  }

  lemma {:induction false} ByPositionKeeps(cs: seq<Category>)
    ensures forall x :: x in ByPosition(cs) <==> x in cs
    ensures Tally.Distinct(cs) ==> Tally.Distinct(ByPosition(cs))
    decreases |cs|
  {
    hide Inserted;
    if cs != [] {
      var rest, last := cs[..|cs| - 1], cs[|cs| - 1];
      ByPositionKeeps(rest);
      InsertedKeeps(ByPosition(rest), last);
      assert cs == rest + [last];
    }
  }

  lemma {:induction false} TopsAre(categories: seq<Category>)
    ensures forall x :: x in TopsOf(categories) <==> x in categories && x.parent.None?
    ensures Tally.Distinct(categories) ==> Tally.Distinct(TopsOf(categories))
    decreases |categories|
  {
    if categories != [] {
      var rest, last := categories[..|categories| - 1], categories[|categories| - 1];
      TopsAre(rest);
      assert categories == rest + [last];
    }
  }

  lemma {:induction false} ChildrenAre(categories: seq<Category>, id: Id)
    ensures forall x :: x in ChildrenOf(categories, id) <==> x in categories && IsChild(x, id)
    ensures Tally.Distinct(categories) ==> Tally.Distinct(ChildrenOf(categories, id))
    decreases |categories|
  {
    hide IsChild;
    if categories != [] {
      var rest, last := categories[..|categories| - 1], categories[|categories| - 1];
      ChildrenAre(rest, id);
      assert categories == rest + [last];
    }
  }

  lemma BlockIs(categories: seq<Category>, top: Category)
    ensures forall x :: x in Block(categories, top) <==> x == top || (x in categories && IsChild(x, top.id))
    ensures Tally.Distinct(categories) && !IsChild(top, top.id) ==> Tally.Distinct(Block(categories, top))
  {
    hide IsChild, ByPosition, ChildrenOf;
    ChildrenAre(categories, top.id);
    var kids := ByPosition(ChildrenOf(categories, top.id));
    ByPositionKeeps(ChildrenOf(categories, top.id));
    assert Block(categories, top) == [top] + kids;
  }

  /** A list of the categories, each once, a parent before its children. */
  ghost predicate Lists(order: seq<Category>, categories: seq<Category>) {
    && Tally.Distinct(order)
    && (forall x :: x in order <==> x in categories)
    && (forall j :: 0 <= j < |order| && order[j].parent.Some? ==> ParentBefore(order, j))
  }

  ghost predicate ParentBefore(order: seq<Category>, j: nat)
    requires j < |order| && order[j].parent.Some?
  {
    exists i :: 0 <= i < j && order[i].id == order[j].parent.value
  }

  ghost predicate InBlocks(categories: seq<Category>, tops: seq<Category>, x: Category) {
    x in tops || (x in categories && x.parent.Some? && exists t :: t in tops && t.id == x.parent.value)
  }

  lemma {:induction false} BlocksHave(categories: seq<Category>, tops: seq<Category>, x: Category)
    ensures x in Blocks(categories, tops) <==> InBlocks(categories, tops, x)
    decreases |tops|
  {
    hide Block;
    if tops != [] {
      var rest, last := tops[..|tops| - 1], tops[|tops| - 1];
      BlocksHave(categories, rest, x);
      BlockIs(categories, last);
      assert tops == rest + [last];
    }
  }

  /** Top categories of a list with each id once. */
  ghost predicate AreTops(categories: seq<Category>, tops: seq<Category>) {
    && DistinctIds(categories) && Tally.Distinct(tops)
    && forall t :: t in tops ==> t in categories && t.parent.None?
  }

  lemma OneOfAnId(categories: seq<Category>, a: Category, b: Category)
    requires DistinctIds(categories) && a in categories && b in categories && a.id == b.id
    ensures a == b
  {
  }

  lemma DistinctOfIds(categories: seq<Category>)
    requires DistinctIds(categories)
    ensures Tally.Distinct(categories)
  {
  }

  lemma {:induction false} BlocksDistinct(categories: seq<Category>, tops: seq<Category>)
    requires AreTops(categories, tops)
    ensures Tally.Distinct(Blocks(categories, tops))
    decreases |tops|
  {
    hide Block, DistinctIds;
    if tops != [] {
      var rest, last := tops[..|tops| - 1], tops[|tops| - 1];
      assert tops == rest + [last];
      BlocksDistinct(categories, rest);
      DistinctOfIds(categories);
      BlockIs(categories, last);
      forall x | x in Block(categories, last) ensures x !in Blocks(categories, rest) {
        NotInTwoBlocks(categories, rest, last, x);
      }
      Tally.DistinctJoin(Blocks(categories, rest), Block(categories, last));
    }
  }

  lemma NotInTwoBlocks(categories: seq<Category>, rest: seq<Category>, last: Category, x: Category)
    requires AreTops(categories, rest + [last]) && x in Block(categories, last)
    ensures x !in Blocks(categories, rest)
  {
    hide Block, DistinctIds;
    var tops := rest + [last];
    assert tops[|rest|] == last && forall i :: 0 <= i < |rest| ==> tops[i] == rest[i];
    BlockIs(categories, last);
    BlocksHave(categories, rest, x);
    forall t | t in rest && t.id == last.id ensures t == last {
      assert t in tops && last in tops;
      OneOfAnId(categories, t, last);
    }
  }

  lemma {:induction false} BlocksInOrder(categories: seq<Category>, tops: seq<Category>, j: nat)
    requires AreTops(categories, tops) && j < |Blocks(categories, tops)| && Blocks(categories, tops)[j].parent.Some?
    ensures ParentBefore(Blocks(categories, tops), j)
    decreases |tops|
  {
    hide DistinctIds, ByPosition, ChildrenOf;
    var rest, last := tops[..|tops| - 1], tops[|tops| - 1];
    assert tops == rest + [last];
    var before, block := Blocks(categories, rest), Block(categories, last);
    assert Blocks(categories, tops) == before + block;
    if j < |before| {
      BlocksInOrder(categories, rest, j);
      var i :| 0 <= i < j && before[i].id == before[j].parent.value;
      assert (before + block)[i].id == (before + block)[j].parent.value;
    } else {
      BlockIs(categories, last);
      assert block[j - |before|] in block;
      assert (before + block)[|before|] == last && last in tops;
    }
  }

  /** In a two-level tree the order lists each category once and a parent before its children. */
  lemma OrderLists(categories: seq<Category>)
    requires Tree(categories)
    ensures Lists(InOrder(categories), categories)
  {
    hide TopsOf, ByPosition, Blocks, DistinctIds, HasTop;
    DistinctOfIds(categories);
    var tops := ByPosition(TopsOf(categories));
    TopsAre(categories);
    ByPositionKeeps(TopsOf(categories));
    BlocksDistinct(categories, tops);
    forall x ensures x in InOrder(categories) <==> x in categories {
      BlocksHave(categories, tops, x);
      TreeHasParent(categories, x);
    }
    forall j | 0 <= j < |InOrder(categories)| && InOrder(categories)[j].parent.Some?
      ensures ParentBefore(InOrder(categories), j)
    {
      BlocksInOrder(categories, tops, j);
    }
  }

  lemma TreeHasParent(categories: seq<Category>, x: Category)
    requires Tree(categories)
    ensures x in categories && x.parent.Some? ==>
              exists t :: t in categories && t.parent.None? && t.id == x.parent.value
  {
    hide DistinctIds;
    if x in categories && x.parent.Some? {
      var i :| 0 <= i < |categories| && categories[i] == x;
      var j :| 0 <= j < |categories| && categories[j].id == x.parent.value && IsTop(categories[j], x.kind);
      assert categories[j] in categories;
    }
  }

  // ---- The order is by position ----

  predicate Rising(cs: seq<Category>) {
    forall i, j :: 0 <= i < j < |cs| ==> cs[i].position <= cs[j].position
  }

  /** The categories of one position, in their order. */
  function AtPosition(cs: seq<Category>, position: int): seq<Category> {
    if cs == [] then []
    else
      var rest, last := cs[..|cs| - 1], cs[|cs| - 1];
      if last.position == position then AtPosition(rest, position) + [last] else AtPosition(rest, position)
  }

  lemma AtPositionPush(cs: seq<Category>, c: Category, position: int)
    ensures AtPosition(cs + [c], position) == AtPosition(cs, position) + if c.position == position then [c] else []
  {
    assert (cs + [c])[..|cs|] == cs;
  }

  lemma {:induction false} InsertedInPlace(sorted: seq<Category>, c: Category, position: int)
    requires Rising(sorted)
    ensures Rising(Inserted(sorted, c))
    ensures AtPosition(Inserted(sorted, c), position) == AtPosition(sorted + [c], position)
    decreases |sorted|
  {
    hide AtPosition;
    if sorted != [] && sorted[|sorted| - 1].position > c.position {
      var rest, last := sorted[..|sorted| - 1], sorted[|sorted| - 1];
      InsertedInPlace(rest, c, position);
      InsertedKeeps(rest, c);
      assert sorted == rest + [last];
      RisingPush(Inserted(rest, c), last);
      AtPositionPush(Inserted(rest, c), last, position);
      AtPositionPush(rest, c, position);
      AtPositionPush(rest, last, position);
      AtPositionPush(sorted, c, position);
    }
  }

  lemma RisingPush(cs: seq<Category>, c: Category)
    requires Rising(cs) && forall x :: x in cs ==> x.position <= c.position
    ensures Rising(cs + [c])
  {
    assert forall i :: 0 <= i < |cs| ==> cs[i] in cs;
  }

  /** The sort leaves the positions rising and the categories of each position in their order. */
  lemma {:induction false} ByPositionIsStable(cs: seq<Category>, position: int)
    ensures Rising(ByPosition(cs))
    ensures AtPosition(ByPosition(cs), position) == AtPosition(cs, position)
    decreases |cs|
  {
    hide AtPosition, Inserted, Rising;
    if cs == [] {
      NoneAtAll();
    } else {
      var rest, last := cs[..|cs| - 1], cs[|cs| - 1];
      ByPositionIsStable(rest, position);
      InsertedInPlace(ByPosition(rest), last, position);
      AtPositionPush(ByPosition(rest), last, position);
      AtPositionPush(rest, last, position);
      assert cs == rest + [last];
    }
  }

  lemma NoneAtAll()
    ensures Rising([])
  {
  }

  lemma {:induction false} TopsJoin(a: seq<Category>, b: seq<Category>)
    ensures TopsOf(a + b) == TopsOf(a) + TopsOf(b)
    decreases |b|
  {
    if b == [] {
      assert a + b == a;
    } else {
      TopsJoin(a, b[..|b| - 1]);
      assert (a + b)[..|a + b| - 1] == a + b[..|b| - 1];
    }
  }

  lemma {:induction false} ChildrenJoin(a: seq<Category>, b: seq<Category>, id: Id)
    ensures ChildrenOf(a + b, id) == ChildrenOf(a, id) + ChildrenOf(b, id)
    decreases |b|
  {
    hide IsChild;
    if b == [] {
      assert a + b == a;
    } else {
      ChildrenJoin(a, b[..|b| - 1], id);
      assert (a + b)[..|a + b| - 1] == a + b[..|b| - 1];
    }
  }

  lemma {:induction false} AllChildren(cs: seq<Category>, of: Id, id: Id)
    requires forall x :: x in cs ==> IsChild(x, of)
    ensures TopsOf(cs) == []
    ensures ChildrenOf(cs, id) == if of == id then cs else []
    decreases |cs|
  {
    if cs != [] {
      var rest, last := cs[..|cs| - 1], cs[|cs| - 1];
      assert cs == rest + [last];
      assert last in cs;
      AllChildren(rest, of, id);
    }
  }

  lemma BlockGives(categories: seq<Category>, top: Category, id: Id)
    requires top.parent.None?
    ensures TopsOf(Block(categories, top)) == [top]
    ensures ChildrenOf(Block(categories, top), id)
            == if top.id == id then ByPosition(ChildrenOf(categories, id)) else []
  {
    hide ByPosition, ChildrenOf, TopsOf;
    var kids := ByPosition(ChildrenOf(categories, top.id));
    ChildrenAre(categories, top.id);
    ByPositionKeeps(ChildrenOf(categories, top.id));
    AllChildren(kids, top.id, id);
    TopsJoin([top], kids);
    ChildrenJoin([top], kids, id);
    OneTop(top, id);
  }

  lemma OneTop(top: Category, id: Id)
    requires top.parent.None?
    ensures TopsOf([top]) == [top] && ChildrenOf([top], id) == []
  {
    assert [top][..0] == [];
  }

  lemma {:induction false} BlocksGive(categories: seq<Category>, tops: seq<Category>, id: Id)
    requires AreTops(categories, tops)
    ensures TopsOf(Blocks(categories, tops)) == tops
    ensures ChildrenOf(Blocks(categories, tops), id)
         == if exists t :: t in tops && t.id == id then ByPosition(ChildrenOf(categories, id)) else []
    decreases |tops|
  {
    hide Block, ByPosition, ChildrenOf, TopsOf, DistinctIds;
    if tops == [] {
      NothingLaid(id);
    } else {
      var rest, last := tops[..|tops| - 1], tops[|tops| - 1];
      assert tops == rest + [last];
      BlocksGive(categories, rest, id);
      BlockGives(categories, last, id);
      TopsJoin(Blocks(categories, rest), Block(categories, last));
      ChildrenJoin(Blocks(categories, rest), Block(categories, last), id);
      forall t | t in rest ensures t.id != last.id {
        assert t in tops && last in tops && t != last;
        if t.id == last.id {
          OneOfAnId(categories, t, last);
        }
      }
    }
  }

  lemma NothingLaid(id: Id)
    ensures TopsOf([]) == [] && ChildrenOf([], id) == []
  {
  }

  /** Of the order the top categories are those of the list sorted by position, and a top category's
      children are its children sorted by position, each sort stable. */
  lemma OrderIsByPosition(categories: seq<Category>, top: Category)
    requires DistinctIds(categories) && top in categories && top.parent.None?
    ensures TopsOf(InOrder(categories)) == ByPosition(TopsOf(categories))
    ensures ChildrenOf(InOrder(categories), top.id) == ByPosition(ChildrenOf(categories, top.id))
  {
    hide TopsOf, ByPosition, Blocks, DistinctIds, ChildrenOf;
    DistinctOfIds(categories);
    TopsAre(categories);
    ByPositionKeeps(TopsOf(categories));
    BlocksGive(categories, ByPosition(TopsOf(categories)), top.id);
  }
}
