/** Which limit counts which category's spending. */
module Covers {
  import opened CashFlow
  import opened CashLines
  import opened Rounding
  import Ordered
  import Pot
  import Tally

  type Limits = map<Id, seq<Pot.Limit>>

  function LimitsOf(limits: Limits, id: Id): seq<Pot.Limit> {
    if id in limits then limits[id] else []
  }

  /** A limit is in force on the category in the month. */
  predicate Limited(limits: Limits, m: int, id: Id) { Pot.InForce(LimitsOf(limits, id), m).Some? }

  /** A limited category is counted unless its parent's limit counts it. */
  predicate Counted(limits: Limits, m: int, c: Category) {
    Limited(limits, m, c.id) && !(c.parent.Some? && Limited(limits, m, c.parent.value))
  }

  /** Neither it nor its parent is limited. */
  predicate Free(limits: Limits, m: int, c: Category) {
    !Limited(limits, m, c.id) && !(c.parent.Some? && Limited(limits, m, c.parent.value))
  }

  /** How many levels there may be below a category. */
  function Rank(categories: seq<Category>, id: Id): nat {
    var p := Place(categories, id);
    if p < |categories| && categories[p].parent.None? then 1 else 0
  }

  lemma ChildrenRankLess(categories: seq<Category>, id: Id, x: Id)
    requires Tree(categories) && x in ChildIds(categories, id, |categories|)
    ensures Rank(categories, x) < Rank(categories, id)
  {
    hide ChildIds;
    ChildIdsHave(categories, id, |categories|, x);
    var p := Place(categories, x);
    var j :| 0 <= j < |categories| && categories[j].id == id && IsTop(categories[j], categories[p].kind);
    PlaceOf(categories, j);
  }

  /** A category and, in turn, all below it: the rows its limit counts. */
  function CoversOf(categories: seq<Category>, id: Id): seq<Id>
    requires Tree(categories)
    decreases Rank(categories, id), 1, 0
  {
    var kids := ChildIds(categories, id, |categories|);
    assert forall x :: x in kids ==> Rank(categories, x) < Rank(categories, id) by {
      forall x | x in kids ensures Rank(categories, x) < Rank(categories, id) { ChildrenRankLess(categories, id, x); }
    }
    [id] + CoversOfAll(categories, kids, Rank(categories, id))
  }

  function CoversOfAll(categories: seq<Category>, ids: seq<Id>, rank: nat): seq<Id>
    requires Tree(categories) && forall x :: x in ids ==> Rank(categories, x) < rank
    decreases rank, 0, |ids|
  {
    if ids == [] then []
    else CoversOfAll(categories, ids[..|ids| - 1], rank) + CoversOf(categories, ids[|ids| - 1])
  }

  lemma LeafCovers(categories: seq<Category>, id: Id)
    requires Tree(categories) && Rank(categories, id) == 0
    ensures CoversOf(categories, id) == [id] && ChildIds(categories, id, |categories|) == []
  {
    var kids := ChildIds(categories, id, |categories|);
    if kids != [] {
      assert kids[0] in kids;
      ChildrenRankLess(categories, id, kids[0]);
    }
  }

  lemma {:induction false} LeavesCover(categories: seq<Category>, ids: seq<Id>)
    requires Tree(categories) && forall x :: x in ids ==> Rank(categories, x) < 1
    ensures CoversOfAll(categories, ids, 1) == ids
    decreases |ids|
  {
    hide CoversOf, Rank, Tree;
    if ids != [] {
      var rest, last := ids[..|ids| - 1], ids[|ids| - 1];
      LeavesCover(categories, rest);
      assert last in ids;
      LeafCovers(categories, last);
      assert ids == rest + [last];
    }
  }

  /** In a two-level tree a category covers itself and its children. */
  lemma CoversAre(categories: seq<Category>, id: Id)
    requires Tree(categories)
    ensures CoversOf(categories, id) == [id] + ChildIds(categories, id, |categories|)
  {
    hide ChildIds, Tree, Place;
    var kids := ChildIds(categories, id, |categories|);
    forall x | x in kids ensures Rank(categories, x) < Rank(categories, id) { ChildrenRankLess(categories, id, x); }
    if Rank(categories, id) == 1 {
      LeavesCover(categories, kids);
    } else {
      LeafCovers(categories, id);
    }
  }

  /** The counted category whose limit counts an id's spending. */
  function Coverer(categories: seq<Category>, limits: Limits, m: int, id: Id): Option<Category> {
    var p := Place(categories, id);
    if p == |categories| then None
    else
      var c := categories[p];
      if c.parent.Some? && Limited(limits, m, c.parent.value) then
        var q := Place(categories, c.parent.value);
        if q == |categories| then None else Some(categories[q])
      else if Limited(limits, m, id) then Some(c)
      else None
  }

  lemma TreeParent(categories: seq<Category>, p: nat)
    requires Tree(categories) && p < |categories| && categories[p].parent.Some?
    ensures var q := Place(categories, categories[p].parent.value);
            q < |categories| && IsTop(categories[q], categories[p].kind)
  {
    hide Place;
    var j :| 0 <= j < |categories| && categories[j].id == categories[p].parent.value
      && IsTop(categories[j], categories[p].kind);
    PlaceOf(categories, j);
  }

  lemma CoversHave(categories: seq<Category>, i: nat, x: Id)
    requires Tree(categories) && i < |categories|
    ensures var p := Place(categories, x);
            x in CoversOf(categories, categories[i].id)
            <==> p < |categories| && (p == i || categories[p].parent == Some(categories[i].id))
  {
    hide ChildIds, HasTop, Place, CoversOf;
    PlaceOf(categories, i);
    CoversAre(categories, categories[i].id);
    ChildIdsHave(categories, categories[i].id, |categories|, x);
  }

  /** A counted category covers exactly the ids whose spending its limit counts: each id is covered
      by one counted category at most. */
  lemma CoveredByItsCoverer(categories: seq<Category>, limits: Limits, m: int, i: nat, x: Id)
    requires Tree(categories) && i < |categories| && Counted(limits, m, categories[i])
    ensures x in CoversOf(categories, categories[i].id) <==> Coverer(categories, limits, m, x) == Some(categories[i])
  {
    hide Place, CoversOf, Limited, DistinctIds, HasTop;
    CoversHave(categories, i, x);
    PlaceOf(categories, i);
    var p := Place(categories, x);
    if p < |categories| {
      if categories[p].parent.Some? {
        TreeParent(categories, p);
      }
      SamePlace(categories, p, i);
      if categories[p].parent.Some? {
        SamePlace(categories, Place(categories, categories[p].parent.value), i);
      }
    }
  }

  lemma SamePlace(categories: seq<Category>, p: nat, i: nat)
    requires DistinctIds(categories) && p < |categories| && i < |categories|
    ensures categories[p] == categories[i] <==> p == i
    ensures categories[p].id == categories[i].id <==> p == i
  {
  }

  lemma CovererIsCounted(categories: seq<Category>, limits: Limits, m: int, x: Id)
    requires Tree(categories)
    ensures var c := Coverer(categories, limits, m, x);
            && (c.Some? ==> c.value in categories && Counted(limits, m, c.value))
            && (Place(categories, x) < |categories| ==>
                (c.None? <==> Free(limits, m, categories[Place(categories, x)])))
            && (c.Some? ==>
                  Place(categories, x) < |categories|
                  && c.value.kind == categories[Place(categories, x)].kind)
  {
    hide Place, Limited, DistinctIds, HasTop;
    var p := Place(categories, x);
    if p < |categories| && categories[p].parent.Some? {
      TreeParent(categories, p);
    }
  }
}
