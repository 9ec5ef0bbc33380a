/**
 * Building a topology snapshot from the parent relations a node knows: a breadth-first pass from
 * the local node, a sort by level and identifier, and slices of the result by depth.
 */
module TopologyBuilder {
  import opened Basics

  datatype Relation = Relation(node: NodeId, parent: NodeId)

  datatype Item = Item(id: NodeId, parent: NodeId, level: nat, hasChildren: bool)

  // --------------------------------------------------------- what the relations must be

  function KidsOf(relations: seq<Relation>, p: NodeId): (r: seq<NodeId>) {
    if relations == [] then []
    else
      var last := relations[|relations| - 1];
      KidsOf(relations[..|relations| - 1], p) + if last.parent == p then [last.node] else []
  }

  /** `id` hangs `k` steps below the local node. */
  ghost predicate Hangs(relations: seq<Relation>, local: NodeId, id: NodeId, k: nat)
    decreases k
  {
    if k == 0 then id == local
    else exists i :: 0 <= i < |relations| && relations[i].node == id
                     && Hangs(relations, local, relations[i].parent, k - 1)
  }

  ghost predicate Hanging(relations: seq<Relation>, local: NodeId, id: NodeId)
  {
    exists k: nat :: Hangs(relations, local, id, k)
  }

  predicate DistinctNodes(relations: seq<Relation>) {
    forall i, j :: 0 <= i < j < |relations| ==> relations[i].node != relations[j].node
  }

  /** The relations form a tree rooted at the local node. */
  ghost predicate IsTree(local: NodeId, relations: seq<Relation>) {
    && DistinctNodes(relations)
    && forall i :: 0 <= i < |relations| ==> relations[i].node != local && Hanging(relations, local, relations[i].node)
  }

  // ------------------------------------------------------------------------- children

  lemma {:induction false} KidsAre(relations: seq<Relation>, p: NodeId, k: NodeId)
    ensures k in KidsOf(relations, p) <==> Relation(k, p) in relations
  {
    if relations != [] {
      KidsAre(relations[..|relations| - 1], p, k);
      assert relations == relations[..|relations| - 1] + [relations[|relations| - 1]];
    }
  }

  lemma {:induction false} KidsDistinct(relations: seq<Relation>, p: NodeId)
    requires DistinctNodes(relations)
    ensures Distinct(KidsOf(relations, p))
  {
    if relations != [] {
      var front, last := relations[..|relations| - 1], relations[|relations| - 1];
      KidsDistinct(front, p);
      KidsAre(front, p, last.node);
      assert Relation(last.node, p) !in front;
    }
  }

  function Lookup(children: map<NodeId, seq<NodeId>>, p: NodeId): (r: seq<NodeId>)
  {
    if p in children then children[p] else []
  }

  /** The children of every parent, collected in one pass over the relations. */
  method GroupByParent(relations: seq<Relation>) returns (children: map<NodeId, seq<NodeId>>)
    ensures forall p :: Lookup(children, p) == KidsOf(relations, p)
  {
    children := map[];
    for i := 0 to |relations|
      invariant forall p :: Lookup(children, p) == KidsOf(relations[..i], p)
    {
      var r := relations[i];
      ghost var before := children;
      children := children[r.parent := Lookup(children, r.parent) + [r.node]];
      forall p ensures Lookup(children, p) == KidsOf(relations[..i + 1], p) {
        assert relations[..i + 1][..i] == relations[..i];
        assert Lookup(before, p) == KidsOf(relations[..i], p);
      }
    }
    assert relations[..|relations|] == relations;
  }

  // ------------------------------------------------------------------ the traversal

  function MakeItem(relations: seq<Relation>, id: NodeId, parent: NodeId, level: nat): (r: Item) {
    Item(id, parent, level, KidsOf(relations, id) != [])
  }

  predicate Unseen(items: seq<Item>, id: NodeId) { forall i :: 0 <= i < |items| ==> items[i].id != id }

  predicate UniqueItems(items: seq<Item>) { forall i, j :: 0 <= i < j < |items| ==> items[i].id != items[j].id }

  function Adding(relations: seq<Relation>, items: seq<Item>, kids: seq<NodeId>, parent: NodeId,
      level: nat): (r: seq<Item>) {
    if kids == [] then items
    else Adding(relations, items, kids[..|kids| - 1], parent, level)
         + [MakeItem(relations, kids[|kids| - 1], parent, level)]
  }

  lemma {:induction false} AddingIs(relations: seq<Relation>, items: seq<Item>, kids: seq<NodeId>, parent: NodeId,
      level: nat)
    ensures var r := Adding(relations, items, kids, parent, level);
            && |r| == |items| + |kids| && items == r[..|items|]
            && forall i :: 0 <= i < |kids| ==> r[|items| + i] == MakeItem(relations, kids[i], parent, level)
  {
    if kids != [] { AddingIs(relations, items, kids[..|kids| - 1], parent, level); }
  }

  /** Item `i` was put there by its parent, one of the first `head` items. */
  predicate PutBy(relations: seq<Relation>, items: seq<Item>, head: nat, i: nat)
    requires head <= |items| && i < |items|
  {
    exists h :: 0 <= h < head && items[i].parent == items[h].id && items[i].level == items[h].level + 1
                && Relation(items[i].id, items[h].id) in relations
  }

  predicate KidsSeen(relations: seq<Relation>, items: seq<Item>, id: NodeId) {
    forall k :: Relation(k, id) in relations ==> !Unseen(items, k)
  }

  predicate FlagRight(relations: seq<Relation>, item: Item) { item.hasChildren == (KidsOf(relations, item.id) != []) }

  predicate FlagsRight(relations: seq<Relation>, items: seq<Item>) {
    forall i :: 0 <= i < |items| ==> FlagRight(relations, items[i])
  }

  predicate AllPut(relations: seq<Relation>, items: seq<Item>, head: nat)
    requires head <= |items|
  {
    forall i :: 0 < i < |items| ==> PutBy(relations, items, head, i)
  }

  predicate AllSeen(relations: seq<Relation>, items: seq<Item>, head: nat)
    requires head <= |items|
  {
    forall h :: 0 <= h < head ==> KidsSeen(relations, items, items[h].id)
  }

  /** What holds whenever the next item is taken from the queue. */
  ghost predicate Grown(local: NodeId, relations: seq<Relation>, items: seq<Item>, head: nat) {
    && head <= |items| && items != [] && items[0] == MakeItem(relations, local, 0, 0)
    && UniqueItems(items)
    && FlagsRight(relations, items) && AllPut(relations, items, head) && AllSeen(relations, items, head)
  }

  lemma GrownUnique(relations: seq<Relation>, items: seq<Item>, kids: seq<NodeId>, parent: NodeId, level: nat)
    requires UniqueItems(items) && Distinct(kids) && forall k :: k in kids ==> Unseen(items, k)
    ensures UniqueItems(Adding(relations, items, kids, parent, level))
  {
    AddingIs(relations, items, kids, parent, level);
    var r := Adding(relations, items, kids, parent, level);
    forall i, j | 0 <= i < j < |r| ensures r[i].id != r[j].id {
      if j >= |items| {
        assert r[j].id == kids[j - |items|] && kids[j - |items|] in kids;
        if i >= |items| { assert r[i].id == kids[i - |items|]; } else { assert r[i] == items[i]; }
      } else {
        assert r[i] == items[i] && r[j] == items[j];
      }
    }
  }

  lemma PutStays(relations: seq<Relation>, items: seq<Item>, r: seq<Item>, head: nat, i: nat)
    requires items <= r && head < |items| && i < |items| && PutBy(relations, items, head, i)
    ensures PutBy(relations, r, head + 1, i)
  {
    var h :| 0 <= h < head && items[i].parent == items[h].id && items[i].level == items[h].level + 1
             && Relation(items[i].id, items[h].id) in relations;
    assert r[h] == items[h] && r[i] == items[i];
  }

  lemma PutNow(relations: seq<Relation>, items: seq<Item>, r: seq<Item>, head: nat, kids: seq<NodeId>, i: nat)
    requires items <= r && head < |items| <= i < |r| && |r| == |items| + |kids|
             && kids == KidsOf(relations, items[head].id)
    requires r[i] == MakeItem(relations, kids[i - |items|], items[head].id, items[head].level + 1)
    ensures PutBy(relations, r, head + 1, i)
  {
    KidsAre(relations, items[head].id, kids[i - |items|]);
    assert r[head] == items[head];
  }

  lemma KidsStaySeen(relations: seq<Relation>, items: seq<Item>, r: seq<Item>, id: NodeId)
    requires items <= r && KidsSeen(relations, items, id)
    ensures KidsSeen(relations, r, id)
  {
    forall k | Relation(k, id) in relations ensures !Unseen(r, k) {
      var i :| 0 <= i < |items| && items[i].id == k;
      assert r[i].id == k;
    }
  }

  lemma KidsNowSeen(relations: seq<Relation>, items: seq<Item>, r: seq<Item>, id: NodeId, kids: seq<NodeId>)
    requires |r| == |items| + |kids| && kids == KidsOf(relations, id)
             && forall i :: 0 <= i < |kids| ==> r[|items| + i].id == kids[i]
    ensures KidsSeen(relations, r, id)
  {
    forall k | Relation(k, id) in relations ensures !Unseen(r, k) {
      KidsAre(relations, id, k);
      var i :| 0 <= i < |kids| && kids[i] == k;
      assert r[|items| + i].id == k;
    }
  }

  lemma GrowsOn(local: NodeId, relations: seq<Relation>, items: seq<Item>, head: nat, kids: seq<NodeId>)
    requires Grown(local, relations, items, head) && head < |items|
    requires kids == KidsOf(relations, items[head].id) && Distinct(kids) && forall k :: k in kids ==> Unseen(items, k)
    ensures Grown(local, relations, Adding(relations, items, kids, items[head].id, items[head].level + 1), head + 1)
  {
    hide Adding, UniqueItems, Distinct, Unseen, FlagsRight, AllPut, AllSeen, KidsSeen, KidsOf;
    var p := items[head];
    var r := Adding(relations, items, kids, p.id, p.level + 1);
    GrownUnique(relations, items, kids, p.id, p.level + 1);
    AddingShape(relations, items, kids, p.id, p.level + 1);
    KidsGrown(relations, items, kids, p);
    FlagsStay(relations, items, kids, p);
    PutsStay(relations, items, head, kids);
    SeenStays(relations, items, r, head);
  }

  lemma FlagsStay(relations: seq<Relation>, items: seq<Item>, kids: seq<NodeId>, p: Item)
    requires FlagsRight(relations, items)
    ensures FlagsRight(relations, Adding(relations, items, kids, p.id, p.level + 1))
  {
    AddingShape(relations, items, kids, p.id, p.level + 1);
    hide Adding, KidsOf;
    var r := Adding(relations, items, kids, p.id, p.level + 1);
    forall i | 0 <= i < |r| ensures FlagRight(relations, r[i]) {
      if i >= |items| { AddingAt(relations, items, kids, p.id, p.level + 1, i); } else { assert r[i] == items[i]; }
    }
  }

  lemma PutsStay(relations: seq<Relation>, items: seq<Item>, head: nat, kids: seq<NodeId>)
    requires head < |items| && kids == KidsOf(relations, items[head].id)
    requires AllPut(relations, items, head)
    ensures var r := Adding(relations, items, kids, items[head].id, items[head].level + 1);
            |r| == |items| + |kids| && AllPut(relations, r, head + 1)
  {
    var p := items[head];
    AddingShape(relations, items, kids, p.id, p.level + 1);
    hide Adding, KidsOf, PutBy;
    var r, next := Adding(relations, items, kids, p.id, p.level + 1), head + 1;
    forall i | 0 < i < |r| ensures PutBy(relations, r, next, i) {
      if i < |items| {
        PutStays(relations, items, r, head, i);
      } else {
        AddingAt(relations, items, kids, p.id, p.level + 1, i);
        PutNow(relations, items, r, head, kids, i);
      }
    }
  }

  lemma SeenStays(relations: seq<Relation>, items: seq<Item>, r: seq<Item>, head: nat)
    requires items <= r && head < |items| && KidsSeen(relations, r, items[head].id)
    requires AllSeen(relations, items, head)
    ensures AllSeen(relations, r, head + 1)
  {
    hide KidsSeen;
    forall h | 0 <= h < head + 1 ensures KidsSeen(relations, r, r[h].id) {
      assert r[h] == items[h];
      if h < head { KidsStaySeen(relations, items, r, items[h].id); }
    }
  }

  lemma AddingShape(relations: seq<Relation>, items: seq<Item>, kids: seq<NodeId>, parent: NodeId, level: nat)
    ensures var r := Adding(relations, items, kids, parent, level); items <= r && |r| == |items| + |kids|
  {
    AddingIs(relations, items, kids, parent, level);
  }

  lemma AddingAt(relations: seq<Relation>, items: seq<Item>, kids: seq<NodeId>, parent: NodeId, level: nat, i: nat)
    requires |items| <= i < |items| + |kids|
    ensures var r := Adding(relations, items, kids, parent, level);
            |r| == |items| + |kids| && r[i] == MakeItem(relations, kids[i - |items|], parent, level)
  {
    AddingIs(relations, items, kids, parent, level);
    assert i == |items| + (i - |items|);
  }

  lemma KidsGrown(relations: seq<Relation>, items: seq<Item>, kids: seq<NodeId>, p: Item)
    requires kids == KidsOf(relations, p.id)
    ensures KidsSeen(relations, Adding(relations, items, kids, p.id, p.level + 1), p.id)
  {
    AddingIs(relations, items, kids, p.id, p.level + 1);
    KidsNowSeen(relations, items, Adding(relations, items, kids, p.id, p.level + 1), p.id, kids);
  }

  lemma OneParent(relations: seq<Relation>, k: NodeId, p: NodeId, q: NodeId)
    requires DistinctNodes(relations) && Relation(k, p) in relations && Relation(k, q) in relations
    ensures p == q
  {
    var a :| 0 <= a < |relations| && relations[a] == Relation(k, p);
    var b :| 0 <= b < |relations| && relations[b] == Relation(k, q);
  }

  /** A child of the node at the head that had been met before would have two parents. */
  lemma MetBefore(local: NodeId, relations: seq<Relation>, items: seq<Item>, head: nat, k: NodeId, i: nat)
    requires Grown(local, relations, items, head) && head < |items| && DistinctNodes(relations) && i < |items|
    requires Relation(k, items[head].id) in relations && items[0].id != k
    ensures items[i].id != k
  {
    hide KidsOf, AllSeen, FlagsRight, DistinctNodes;
    if items[i].id == k {
      assert PutBy(relations, items, head, i);
      var h :| 0 <= h < head && items[i].parent == items[h].id && items[i].level == items[h].level + 1
               && Relation(items[i].id, items[h].id) in relations;
      OneParent(relations, k, items[h].id, items[head].id);
      assert false;
    }
  }

  /** In a tree no node is met twice. */
  lemma NeverMetTwice(local: NodeId, relations: seq<Relation>, items: seq<Item>, head: nat)
    requires Grown(local, relations, items, head) && head < |items| && IsTree(local, relations)
    ensures Distinct(KidsOf(relations, items[head].id))
    ensures forall k :: k in KidsOf(relations, items[head].id) ==> Unseen(items, k)
  {
    KidsDistinct(relations, items[head].id);
    hide KidsOf, Distinct, Hanging, Grown;
    forall k | k in KidsOf(relations, items[head].id) ensures Unseen(items, k) {
      KidsAre(relations, items[head].id, k);
      var a :| 0 <= a < |relations| && relations[a] == Relation(k, items[head].id);
      assert relations[a].node != local;
      RootItem(local, relations, items, head);
      forall i | 0 <= i < |items| ensures items[i].id != k { MetBefore(local, relations, items, head, k, i); }
    }
  }

  lemma RootItem(local: NodeId, relations: seq<Relation>, items: seq<Item>, head: nat)
    requires Grown(local, relations, items, head)
    ensures items != [] && items[0].id == local
  {
  }

  // ------------------------------------------------------------------- the verdict

  function NodeSet(relations: seq<Relation>): (r: set<NodeId>) {
    if relations == [] then {} else NodeSet(relations[..|relations| - 1]) + {relations[|relations| - 1].node}
  }

  lemma {:induction false} NodeSetIs(relations: seq<Relation>, id: NodeId)
    ensures id in NodeSet(relations) <==> exists i :: 0 <= i < |relations| && relations[i].node == id
  {
    if relations != [] {
      var front := relations[..|relations| - 1];
      NodeSetIs(front, id);
      if id in NodeSet(front) {
        var i :| 0 <= i < |front| && front[i].node == id;
        assert relations[i].node == id;
      }
      if id !in NodeSet(relations) {
        forall i | 0 <= i < |relations| ensures relations[i].node != id {
          if i < |front| { assert front[i] == relations[i]; }
        }
      } else if id !in NodeSet(front) {
        assert relations[|relations| - 1].node == id;
      }
    }
  }

  lemma {:induction false} NodeSetSize(relations: seq<Relation>)
    ensures |NodeSet(relations)| <= |relations| && (|NodeSet(relations)| == |relations| <==> DistinctNodes(relations))
  {
    if relations != [] {
      var front, last := relations[..|relations| - 1], relations[|relations| - 1];
      NodeSetSize(front);
      NodeSetIs(front, last.node);
      DistinctSnoc(relations);
    }
  }

  lemma DistinctSnoc(relations: seq<Relation>)
    requires relations != []
    ensures var front, last := relations[..|relations| - 1], relations[|relations| - 1];
            DistinctNodes(relations) <==> DistinctNodes(front)
                                          && !exists i :: 0 <= i < |front| && front[i].node == last.node
  {
    var front, last := relations[..|relations| - 1], relations[|relations| - 1];
    if exists i :: 0 <= i < |front| && front[i].node == last.node {
      var i :| 0 <= i < |front| && front[i].node == last.node;
      assert relations[i].node == relations[|relations| - 1].node;
    }
  }

  function IdSet(items: seq<Item>): (r: set<NodeId>) {
    if items == [] then {} else IdSet(items[..|items| - 1]) + {items[|items| - 1].id}
  }

  lemma {:induction false} IdSetIs(items: seq<Item>, id: NodeId)
    ensures id in IdSet(items) <==> !Unseen(items, id)
  {
    if items != [] {
      var front := items[..|items| - 1];
      IdSetIs(front, id);
      if !Unseen(front, id) {
        var i :| 0 <= i < |front| && front[i].id == id;
        assert items[i].id == id;
      }
      if id == items[|items| - 1].id { assert items[|items| - 1].id == id; }
    }
  }

  lemma {:induction false} IdSetSize(items: seq<Item>)
    requires UniqueItems(items)
    ensures |IdSet(items)| == |items|
  {
    if items != [] {
      IdSetSize(items[..|items| - 1]);
      IdSetIs(items[..|items| - 1], items[|items| - 1].id);
    }
  }

  /** Every item but the first is a node of some relation. */
  lemma ItemsAreNodes(local: NodeId, relations: seq<Relation>, items: seq<Item>, head: nat)
    requires Grown(local, relations, items, head)
    ensures IdSet(items) <= NodeSet(relations) + {local} && local in IdSet(items) && |IdSet(items)| == |items|
    ensures |items| <= |relations| + 1
  {
    IdSetSize(items);
    IdSetIs(items, local);
    assert items[0].id == local;
    NodeSetSize(relations);
    hide NodeSet, IdSet, KidsOf, AllSeen, FlagsRight, UniqueItems;
    forall id | id in IdSet(items) ensures id in NodeSet(relations) + {local} {
      IdSetIs(items, id);
      NodeSetIs(relations, id);
      var i :| 0 <= i < |items| && items[i].id == id;
      if i > 0 {
        assert PutBy(relations, items, head, i);
        var j :| 0 <= j < |relations| && relations[j].node == id;
      }
    }
    SetSizes(IdSet(items), NodeSet(relations), local);
  }

  /** Counting: a set that fits into `n` and one more element. */
  lemma SetSizes(ids: set<NodeId>, n: set<NodeId>, local: NodeId)
    requires ids <= n + {local} && local in ids
    ensures |ids| <= |n| + 1
    ensures |ids| == |n| + 1 ==> local !in n && ids == n + {local}
    ensures n <= ids && local !in n ==> |ids| == |n| + 1
  {
    SubsetIsSmaller(ids - {local}, n - {local});
    assert ids == (ids - {local}) + {local};
    if local in n { assert |n - {local}| == |n| - 1; } else { assert n - {local} == n; }
    if n <= ids && local !in n { assert ids - {local} == n; }
  }

  lemma {:induction false} ItemsHang(local: NodeId, relations: seq<Relation>, items: seq<Item>, head: nat, i: nat)
    requires Grown(local, relations, items, head) && i < |items|
    ensures Hangs(relations, local, items[i].id, items[i].level)
    decreases items[i].level
  {
    hide KidsOf, AllSeen, FlagsRight, UniqueItems;
    if i > 0 {
      assert PutBy(relations, items, head, i);
      var h :| 0 <= h < head && items[i].parent == items[h].id && items[i].level == items[h].level + 1
               && Relation(items[i].id, items[h].id) in relations;
      ItemsHang(local, relations, items, head, h);
      var j :| 0 <= j < |relations| && relations[j] == Relation(items[i].id, items[h].id);
    }
  }

  /** When the queue is used up, everything that hangs below the local node has been met. */
  lemma {:induction false} HangingIsMet(local: NodeId, relations: seq<Relation>, items: seq<Item>, id: NodeId, k: nat)
    requires Grown(local, relations, items, |items|) && Hangs(relations, local, id, k)
    ensures !Unseen(items, id)
    decreases k
  {
    if k == 0 {
      assert items[0].id == id;
    } else {
      var i :| 0 <= i < |relations| && relations[i].node == id && Hangs(relations, local, relations[i].parent, k - 1);
      HangingIsMet(local, relations, items, relations[i].parent, k - 1);
      var h :| 0 <= h < |items| && items[h].id == relations[i].parent;
      assert KidsSeen(relations, items, items[h].id);
      assert relations[i] == Relation(id, items[h].id);
    }
  }

  /** The final count decides: it comes out right exactly for a tree. */
  lemma CountDecides(local: NodeId, relations: seq<Relation>, items: seq<Item>)
    requires Grown(local, relations, items, |items|)
    ensures |items| == |relations| + 1 <==> IsTree(local, relations)
  {
    ItemsAreNodes(local, relations, items, |items|);
    NodeSetSize(relations);
    SetSizes(IdSet(items), NodeSet(relations), local);
    if |items| == |relations| + 1 {
      assert DistinctNodes(relations);
      forall i | 0 <= i < |relations|
        ensures relations[i].node != local && Hanging(relations, local, relations[i].node) {
        NodeSetIs(relations, relations[i].node);
        IdSetIs(items, relations[i].node);
        var j :| 0 <= j < |items| && items[j].id == relations[i].node;
        ItemsHang(local, relations, items, |items|, j);
      }
    }
    if IsTree(local, relations) {
      NodeSetIs(relations, local);
      forall id | id in NodeSet(relations) ensures id in IdSet(items) {
        NodeSetIs(relations, id);
        var i :| 0 <= i < |relations| && relations[i].node == id;
        assert Hanging(relations, local, relations[i].node);
        var k: nat :| Hangs(relations, local, id, k);
        HangingIsMet(local, relations, items, id, k);
        IdSetIs(items, id);
      }
    }
  }

  // ------------------------------------------------------------------- the methods

  /** Appends the children of one node unless one of them was seen before. */
  method AddKids(
    relations: seq<Relation>, children: map<NodeId, seq<NodeId>>, items: seq<Item>, seen: set<NodeId>,
      kids: seq<NodeId>,
    parent: NodeId, level: nat) returns (ok: bool, items': seq<Item>, seen': set<NodeId>)
    requires forall p :: Lookup(children, p) == KidsOf(relations, p)
    requires seen == IdSet(items)
    ensures ok <==> Distinct(kids) && forall k :: k in kids ==> Unseen(items, k)
    ensures ok ==> items' == Adding(relations, items, kids, parent, level) && seen' == IdSet(items')
  {
    items', seen' := items, seen;
    hide KidsOf, Adding, IdSet, Distinct, Unseen, Lookup;
    NothingAdded(relations, items, kids, parent, level);
    for j := 0 to |kids|
      invariant items' == Adding(relations, items, kids[..j], parent, level) && seen' == IdSet(items')
      invariant Distinct(kids[..j]) && forall i :: 0 <= i < j ==> Unseen(items, kids[i])
      invariant forall x :: x in seen' <==> x in seen || x in kids[..j]
    {
      var id := kids[j];
      IdSetIs(items, id);
      DistinctStep(kids, j);
      if id in seen' { return false, items', seen'; }
      AddedOneMore(relations, items, kids, parent, level, j);
      items', seen' := items' + [Item(id, parent, level, Lookup(children, id) != [])], seen' + {id};
      IdSetMore(items');
      assert kids[..j + 1] == kids[..j] + [id];
    }
    assert kids[..|kids|] == kids;
    ok := true;
  }

  lemma NothingAdded(relations: seq<Relation>, items: seq<Item>, kids: seq<NodeId>, parent: NodeId, level: nat)
    ensures Adding(relations, items, kids[..0], parent, level) == items && Distinct(kids[..0])
  {
  }

  lemma AddedOneMore(relations: seq<Relation>, items: seq<Item>, kids: seq<NodeId>, parent: NodeId, level: nat, j: nat)
    requires j < |kids|
    ensures Adding(relations, items, kids[..j + 1], parent, level)
            == Adding(relations, items, kids[..j], parent, level) + [MakeItem(relations, kids[j], parent, level)]
  {
    assert kids[..j + 1][..j] == kids[..j];
  }

  lemma IdSetMore(items: seq<Item>)
    requires items != []
    ensures IdSet(items) == IdSet(items[..|items| - 1]) + {items[|items| - 1].id}
  {
  }

  lemma DistinctStep(kids: seq<NodeId>, j: nat)
    requires j < |kids| && Distinct(kids[..j])
    ensures kids[j] in kids[..j] ==> !Distinct(kids)
    ensures kids[j] !in kids[..j] ==> Distinct(kids[..j + 1])
  {
    if kids[j] in kids[..j] {
      var i :| 0 <= i < j && kids[..j][i] == kids[j];
      assert kids[i] == kids[j];
    } else {
      assert kids[..j + 1] == kids[..j] + [kids[j]];
    }
  }

  /** The breadth-first pass: succeeds exactly when the relations form a tree rooted at the local node. */
  method Traverse(local: NodeId, relations: seq<Relation>) returns (r: Option<seq<Item>>)
    ensures r.Some? <==> IsTree(local, relations)
    ensures r.Some? ==> Grown(local, relations, r.value, |r.value|) && |r.value| == |relations| + 1
  {
    hide *;
    var children := GroupByParent(relations);
    var items := [Item(local, 0, 0, Lookup(children, local) != [])];
    var seen := {local};
    Planted(local, relations);
    var head := 0;
    while head < |items|
      invariant head <= |items| && Grown(local, relations, items, head) && seen == IdSet(items)
      decreases |relations| + 1 - head
    {
      ItemsAreNodes(local, relations, items, head);
      var parent := items[head];
      var kids := Lookup(children, parent.id);
      var ok, items', seen' := AddKids(relations, children, items, seen, kids, parent.id, parent.level + 1);
      if !ok {
        if IsTree(local, relations) { NeverMetTwice(local, relations, items, head); }
        return None;
      }
      GrowsOn(local, relations, items, head, kids);
      AddingShape(relations, items, kids, parent.id, parent.level + 1);
      items, seen := items', seen';
      head := head + 1;
    }
    CountDecides(local, relations, items);
    if |items| != |relations| + 1 { return None; }
    r := Some(items);
  }

  lemma Planted(local: NodeId, relations: seq<Relation>)
    ensures var items := [Item(local, 0, 0, KidsOf(relations, local) != [])];
            Grown(local, relations, items, 0) && IdSet(items) == {local}
  {
    var items := [MakeItem(relations, local, 0, 0)];
    assert items[..0] == [];
  }
}
