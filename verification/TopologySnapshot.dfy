/**
 * A published topology snapshot: items in order of level and identifier, answers cut off at a depth,
 * and a bounded cache of answers for the less common depths.
 */
module TopologySnapshot {
  import opened Basics
  import opened Decimal
  import opened TopologyBuilder
  import T = Topology

  // ---------------------------------------------------------------------- sorting

  predicate Earlier(a: Item, b: Item) { a.level < b.level || (a.level == b.level && a.id < b.id) }

  predicate InOrder(items: seq<Item>) { forall i, j :: 0 <= i < j < |items| ==> Earlier(items[i], items[j]) }

  /** Puts an item with a new identifier into its place. */
  method Insert(sorted: seq<Item>, x: Item) returns (r: seq<Item>)
    requires InOrder(sorted) && forall i :: 0 <= i < |sorted| ==> sorted[i].id != x.id
    ensures InOrder(r) && |r| == |sorted| + 1 && forall y :: y in r <==> y == x || y in sorted
  {
    var i := |sorted|;
    while i > 0 && Earlier(x, sorted[i - 1])
      invariant 0 <= i <= |sorted| && forall j :: i <= j < |sorted| ==> Earlier(x, sorted[j])
    {
      i := i - 1;
    }
    r := sorted[..i] + [x] + sorted[i..];
    InsertKeepsOrder(sorted, i, x);
  }

  lemma InsertKeepsOrder(sorted: seq<Item>, i: nat, x: Item)
    requires i <= |sorted| && InOrder(sorted) && (forall k :: 0 <= k < |sorted| ==> sorted[k].id != x.id)
    requires forall j :: i <= j < |sorted| ==> Earlier(x, sorted[j])
    requires i > 0 ==> !Earlier(x, sorted[i - 1])
    ensures var r := sorted[..i] + [x] + sorted[i..]; InOrder(r) && forall y :: y in r <==> y == x || y in sorted
  {
    var r := sorted[..i] + [x] + sorted[i..];
    forall k | 0 <= k < i ensures Earlier(sorted[k], x) {
      if k < i - 1 { assert Earlier(sorted[k], sorted[i - 1]); }
    }
    forall a, b | 0 <= a < b < |r| ensures Earlier(r[a], r[b]) {
      var u := if a < i then a else a - 1;
      var v := if b < i then b else b - 1;
      if a != i && b != i {
        assert r[a] == sorted[u] && r[b] == sorted[v];
      } else if a == i {
        assert r[b] == sorted[v];
      } else {
        assert r[a] == sorted[u];
      }
    }
    assert sorted == sorted[..i] + sorted[i..];
  }

  /** Sorts items with distinct identifiers by level, then identifier. */
  method Sort(items: seq<Item>) returns (r: seq<Item>)
    requires UniqueItems(items)
    ensures InOrder(r) && |r| == |items| && forall x :: x in r <==> x in items
  {
    r := [];
    for i := 0 to |items|
      invariant InOrder(r) && |r| == i && forall x :: x in r <==> x in items[..i]
    {
      forall j | 0 <= j < |r| ensures r[j].id != items[i].id {
        assert r[j] in r;
        var k :| 0 <= k < i && items[..i][k] == r[j];
        assert items[k].id != items[i].id;
      }
      r := Insert(r, items[i]);
      assert items[..i + 1] == items[..i] + [items[i]];
    }
    assert items[..|items|] == items;
  }

  // --------------------------------------------------------------------- snapshots

  /** The item is the local node, or hangs one level below another item. */
  predicate Hung(local: NodeId, relations: seq<Relation>, items: seq<Item>, x: Item) {
    if x.level == 0 then x.id == local
    else x.id != local && Relation(x.id, x.parent) in relations
         && exists p :: p in items && p.id == x.parent && x.level == p.level + 1
  }

  predicate Filed(items: seq<Item>, r: Relation)
  {
    exists x :: x in items && x.id == r.node && x.parent == r.parent && x.level > 0
  }

  /** What a snapshot of a tree holds: every node once, at its level, with the right flag, in order. */
  ghost predicate IsSnapshot(local: NodeId, relations: seq<Relation>, items: seq<Item>) {
    && InOrder(items) && |items| == |relations| + 1
    && (forall x :: x in items ==> Hung(local, relations, items, x) && FlagRight(relations, x))
    && (exists x :: x in items && x.level == 0)
    && (forall r :: r in relations ==> Filed(items, r))
    && (forall x, y :: x in items && y in items && x.id == y.id ==> x == y)
  }

  lemma GrownIsSnapshot(local: NodeId, relations: seq<Relation>, items: seq<Item>, sorted: seq<Item>)
    requires Grown(local, relations, items, |items|) && IsTree(local, relations) && |items| == |relations| + 1
    requires InOrder(sorted) && |sorted| == |items| && forall x :: x in sorted <==> x in items
    ensures IsSnapshot(local, relations, sorted)
  {
    hide InOrder, IsTree, Grown;
    forall x | x in sorted ensures Hung(local, relations, sorted, x) && FlagRight(relations, x) {
      var i :| 0 <= i < |items| && items[i] == x;
      ItemIsHung(local, relations, items, sorted, i);
    }
    RootItem(local, relations, items, |items|);
    RootIsThere(local, relations, items, sorted);
    forall r | r in relations ensures Filed(sorted, r) { RelationIsFiled(local, relations, items, sorted, r); }
    forall x, y | x in sorted && y in sorted && x.id == y.id ensures x == y {
      var i :| 0 <= i < |items| && items[i] == x;
      var j :| 0 <= j < |items| && items[j] == y;
      SameItem(local, relations, items, i, j);
    }
  }

  lemma SameItem(local: NodeId, relations: seq<Relation>, items: seq<Item>, i: nat, j: nat)
    requires Grown(local, relations, items, |items|) && i < |items| && j < |items| && items[i].id == items[j].id
    ensures i == j
  {
    hide AllPut, AllSeen, FlagsRight;
  }

  lemma RootIsThere(local: NodeId, relations: seq<Relation>, items: seq<Item>, sorted: seq<Item>)
    requires Grown(local, relations, items, |items|) && forall x :: x in sorted <==> x in items
    ensures exists x :: x in sorted && x.level == 0
  {
    hide AllPut, AllSeen, FlagsRight, UniqueItems;
    assert items[0] in items;
  }

  lemma ItemIsHung(local: NodeId, relations: seq<Relation>, items: seq<Item>, sorted: seq<Item>, i: nat)
    requires Grown(local, relations, items, |items|) && i < |items| && forall x :: x in sorted <==> x in items
    ensures Hung(local, relations, sorted, items[i]) && FlagRight(relations, items[i])
  {
    hide AllSeen, FlagRight;
    if i > 0 {
      assert PutBy(relations, items, |items|, i);
      var h :| 0 <= h < |items| && items[i].parent == items[h].id && items[i].level == items[h].level + 1
               && Relation(items[i].id, items[h].id) in relations;
      assert items[h] in items;
      assert items[i].id != items[0].id;
    }
  }

  lemma RelationIsFiled(local: NodeId, relations: seq<Relation>, items: seq<Item>, sorted: seq<Item>, r: Relation)
    requires Grown(local, relations, items, |items|) && IsTree(local, relations) && r in relations
    requires forall x :: x in sorted <==> x in items
    ensures Filed(sorted, r)
  {
    var i :| 0 <= i < |relations| && relations[i] == r;
    assert Hanging(relations, local, relations[i].node);
    var k: nat :| Hangs(relations, local, r.node, k);
    HangingIsMet(local, relations, items, r.node, k);
    var j :| 0 <= j < |items| && items[j].id == r.node;
    assert items[j] in items;
    ItemIsHung(local, relations, items, sorted, j);
    RootItem(local, relations, items, |items|);
    LevelZeroIsRoot(local, relations, items, j);
    OneParent(relations, r.node, items[j].parent, r.parent);
  }

  lemma LevelZeroIsRoot(local: NodeId, relations: seq<Relation>, items: seq<Item>, j: nat)
    requires Grown(local, relations, items, |items|) && j < |items| && items[j].id != local
    ensures items[j].level > 0
  {
    hide AllSeen, FlagsRight, UniqueItems;
    assert PutBy(relations, items, |items|, j);
  }

  /** Builds the snapshot: succeeds exactly when the relations form a tree rooted at the local node. */
  method Build(local: NodeId, relations: seq<Relation>) returns (r: Option<seq<Item>>)
    ensures r.Some? <==> IsTree(local, relations)
    ensures r.Some? ==> IsSnapshot(local, relations, r.value)
  {
    hide *;
    var items := Traverse(local, relations);
    if items.None? { return None; }
    GrownIsUnique(local, relations, items.value);
    var sorted := Sort(items.value);
    GrownIsSnapshot(local, relations, items.value, sorted);
    r := Some(sorted);
  }

  lemma GrownIsUnique(local: NodeId, relations: seq<Relation>, items: seq<Item>)
    requires Grown(local, relations, items, |items|)
    ensures UniqueItems(items)
  {
  }

  // ------------------------------------------------------------------ depth slices

  /** How many leading items lie within the depth; depth zero asks for all of them. */
  function Within(items: seq<Item>, depth: int): (r: nat)
    ensures r <= |items|
  {
    if depth <= 0 then |items| else if items == [] || items[0].level > depth then 0 else 1 + Within(items[1..], depth)
  }

  lemma {:induction false} WithinIs(items: seq<Item>, depth: int, count: nat)
    requires count <= |items|
    requires forall i :: 0 <= i < |items| ==> (i < count <==> depth <= 0 || items[i].level <= depth)
    ensures count == Within(items, depth)
  {
    if depth > 0 && count > 0 {
      WithinIs(items[1..], depth, count - 1);
    } else if count < |items| {
      assert items[count].level > depth;
    }
  }

  /** The binary search over levels. */
  method CountWithin(items: seq<Item>, depth: int) returns (count: nat)
    requires InOrder(items)
    ensures count == Within(items, depth) && IsSlice(items, depth, items[..count])
  {
    if depth <= 0 { return |items|; }
    var low, high := 0, |items|;
    while low < high
      invariant low <= high <= |items|
      invariant forall i :: 0 <= i < low ==> items[i].level <= depth
      invariant forall i :: high <= i < |items| ==> items[i].level > depth
    {
      var mid := low + (high - low) / 2;
      if items[mid].level > depth { high := mid; } else { low := mid + 1; }
    }
    count := low;
    WithinIs(items, depth, count);
  }

  ghost predicate IsSlice(items: seq<Item>, depth: int, slice: seq<Item>) {
    && slice <= items
    && forall i :: 0 <= i < |items| ==> (i < |slice| <==> depth <= 0 || items[i].level <= depth)
  }

  function Text(x: Item): (n: T.Node) {
    T.Node(Format(x.id), if x.level == 0 then "" else Format(x.parent), x.hasChildren, true)
  }

  function Texts(items: seq<Item>): (r: seq<T.Node>)
    ensures |r| == |items| && forall i :: 0 <= i < |items| ==> r[i] == Text(items[i])
  {
    seq(|items|, i requires 0 <= i < |items| => Text(items[i]))
  }

  /** Node identifiers are never zero. */
  predicate NonZero(local: NodeId, relations: seq<Relation>) {
    local != 0 && forall r :: r in relations ==> r.node != 0
  }

  lemma InSlice(items: seq<Item>, depth: int, slice: seq<Item>, x: Item)
    requires IsSlice(items, depth, slice)
    ensures x in slice <==> x in items && (depth <= 0 || x.level <= depth)
  {
    if x in items && (depth <= 0 || x.level <= depth) {
      var i :| 0 <= i < |items| && items[i] == x;
      assert slice[i] == x;
    }
    if x in slice {
      var i :| 0 <= i < |slice| && slice[i] == x;
      assert items[i] == x;
    }
  }

  /** What is needed of the items of a slice. */
  ghost predicate SliceFacts(local: NodeId, relations: seq<Relation>, slice: seq<Item>) {
    && (forall x :: x in slice ==> x.id != 0 && (x.level == 0 <==> x.id == local))
    && (forall x :: x in slice && x.level > 0 ==> ParentIn(slice, x))
    && (exists x :: x in slice && x.level == 0)
    && (forall i, j :: 0 <= i < j < |slice| ==> slice[i].id != slice[j].id)
  }

  predicate ParentIn(slice: seq<Item>, x: Item) { exists p :: p in slice && p.id == x.parent && x.level == p.level + 1 }

  lemma SliceHasFacts(local: NodeId, relations: seq<Relation>, items: seq<Item>, depth: int, slice: seq<Item>)
    requires IsSnapshot(local, relations, items) && IsSlice(items, depth, slice) && NonZero(local, relations)
    ensures SliceFacts(local, relations, slice)
  {
    hide InOrder, IsSlice, FlagRight;
    forall x | x in slice
      ensures x.id != 0 && (x.level == 0 <==> x.id == local) && (x.level > 0 ==> ParentIn(slice, x)) {
      InSlice(items, depth, slice, x);
      assert Hung(local, relations, items, x);
      if x.level > 0 {
        var p :| p in items && p.id == x.parent && x.level == p.level + 1;
        InSlice(items, depth, slice, p);
        assert p in slice;
      }
    }
    var root :| root in items && root.level == 0;
    InSlice(items, depth, slice, root);
    SliceUnique(local, relations, items, depth, slice);
  }

  lemma SliceUnique(local: NodeId, relations: seq<Relation>, items: seq<Item>, depth: int, slice: seq<Item>)
    requires IsSnapshot(local, relations, items) && IsSlice(items, depth, slice)
    ensures forall i, j :: 0 <= i < j < |slice| ==> slice[i].id != slice[j].id
  {
    forall i, j | 0 <= i < j < |slice| ensures slice[i].id != slice[j].id {
      assert items[i] in items && items[j] in items && Earlier(items[i], items[j]);
      assert items[i] != items[j];
    }
  }

  /** The texts of a slice are well formed, unique, and only the local node is without a parent. */
  lemma TextsListed(local: NodeId, relations: seq<Relation>, slice: seq<Item>)
    requires SliceFacts(local, relations, slice) && 1 <= |slice| <= T.MAX_NODES && local != 0
    ensures T.Listed(Texts(slice)) && T.OneRoot(Texts(slice)) && "" !in T.Parents(Texts(slice))
  {
    var nodes := Texts(slice);
    forall i | 0 <= i < |nodes| ensures T.NodeOk(nodes[i], nodes[i].parent == "") {
      TextOk(local, relations, slice, slice[i]);
    }
    forall i, j | 0 <= i < j < |nodes|
      ensures nodes[i].id != nodes[j].id && (nodes[i].parent != "" || nodes[j].parent != "") {
      assert slice[i] in slice && slice[j] in slice;
      FormatIsCanonical(slice[i].id, slice[j].id);
    }
    var root :| root in slice && root.level == 0;
    var r :| 0 <= r < |slice| && slice[r] == root;
    assert nodes[r].parent == "";
    T.NoEmptyId(nodes);
  }

  lemma TextOk(local: NodeId, relations: seq<Relation>, slice: seq<Item>, x: Item)
    requires SliceFacts(local, relations, slice) && x in slice
    ensures T.NodeOk(Text(x), Text(x).parent == "") && (Text(x).parent == "" <==> x.level == 0)
  {
    FormatIsCanonical(x.id, x.id);
    if x.level > 0 {
      assert ParentIn(slice, x);
      var p :| p in slice && p.id == x.parent && x.level == p.level + 1;
      FormatIsCanonical(x.parent, x.parent);
    }
  }

  lemma TextAt(local: NodeId, relations: seq<Relation>, slice: seq<Item>, x: Item)
    requires SliceFacts(local, relations, slice) && 1 <= |slice| <= T.MAX_NODES && local != 0 && x in slice
    ensures Format(x.id) in T.Parents(Texts(slice)) && T.Parents(Texts(slice))[Format(x.id)] == Text(x).parent
  {
    TextsListed(local, relations, slice);
    T.ParentsLookup(Texts(slice));
    var i :| 0 <= i < |slice| && slice[i] == x;
    assert Texts(slice)[i] == Text(x);
  }

  /** Climbing from an item takes as many steps as its level says. */
  lemma {:induction false} ClimbsItsLevel(local: NodeId, relations: seq<Relation>, slice: seq<Item>, x: Item)
    requires SliceFacts(local, relations, slice) && 1 <= |slice| <= T.MAX_NODES && local != 0 && x in slice
    ensures T.Climb(T.Parents(Texts(slice)), Format(x.id), x.level) == Format(local)
    decreases x.level
  {
    hide *;
    TextAt(local, relations, slice, x);
    if x.level == 0 {
      LevelZero(local, relations, slice, x);
    } else {
      var p := ParentOf(local, relations, slice, x);
      ClimbsItsLevel(local, relations, slice, p);
      OneStep(T.Parents(Texts(slice)), x, p.level);
    }
  }

  lemma LevelZero(local: NodeId, relations: seq<Relation>, slice: seq<Item>, x: Item)
    requires SliceFacts(local, relations, slice) && x in slice && x.level == 0
    ensures T.Climb(T.Parents(Texts(slice)), Format(x.id), 0) == Format(local)
  {
  }

  lemma OneStep(parents: map<string, string>, x: Item, k: nat)
    requires x.level > 0 && Format(x.id) in parents && parents[Format(x.id)] == Text(x).parent
    ensures T.Climb(parents, Format(x.id), k + 1) == T.Climb(parents, Format(x.parent), k)
  {
  }

  lemma ParentOf(local: NodeId, relations: seq<Relation>, slice: seq<Item>, x: Item) returns (p: Item)
    requires SliceFacts(local, relations, slice) && x in slice && x.level > 0
    ensures p in slice && p.id == x.parent && x.level == p.level + 1
  {
    assert ParentIn(slice, x);
    p :| p in slice && p.id == x.parent && x.level == p.level + 1;
  }

  lemma SliceIsComplete(local: NodeId, relations: seq<Relation>, slice: seq<Item>)
    requires SliceFacts(local, relations, slice) && 1 <= |slice| <= T.MAX_NODES && local != 0
    ensures T.Complete(Texts(slice))
    ensures Format(local) in T.Parents(Texts(slice)) && T.Parents(Texts(slice))[Format(local)] == ""
  {
    var nodes := Texts(slice);
    TextsListed(local, relations, slice);
    var root :| root in slice && root.level == 0;
    TextAt(local, relations, slice, root);
    assert Text(root).parent == "" && root.id == local;
    hide T.Listed, T.OneRoot, T.Parents, Format, SliceFacts, T.Climb;
    forall i | 0 <= i < |nodes| ensures T.ReachesRoot(T.Parents(nodes), nodes[i].id) {
      ItemReaches(local, relations, slice, slice[i]);
    }
    forall i | 0 <= i < |nodes| && nodes[i].parent != "" ensures nodes[i].parent in T.Parents(nodes) {
      var p := ParentOf(local, relations, slice, slice[i]);
      TextAt(local, relations, slice, p);
    }
  }

  lemma ItemReaches(local: NodeId, relations: seq<Relation>, slice: seq<Item>, x: Item)
    requires SliceFacts(local, relations, slice) && 1 <= |slice| <= T.MAX_NODES && local != 0 && x in slice
    requires Format(local) in T.Parents(Texts(slice)) && T.Parents(Texts(slice))[Format(local)] == ""
             && "" !in T.Parents(Texts(slice))
    ensures T.ReachesRoot(T.Parents(Texts(slice)), Format(x.id))
  {
    hide Format, T.Parents, Texts, SliceFacts, T.Climb;
    ClimbsItsLevel(local, relations, slice, x);
    T.ClimbNext(T.Parents(Texts(slice)), Format(x.id), x.level);
    assert T.Climb(T.Parents(Texts(slice)), Format(x.id), x.level + 1) == "";
  }

  /** The children an item has in the slice are the children it has in the relations, unless they are too deep. */
  lemma KidsInSlice(local: NodeId, relations: seq<Relation>, items: seq<Item>, depth: int, slice: seq<Item>, x: Item)
    requires IsSnapshot(local, relations, items) && IsSlice(items, depth, slice) && NonZero(local, relations)
             && x in slice
    ensures T.HasKids(Texts(slice), Format(x.id)) ==> x.hasChildren
    ensures (depth <= 0 || x.level < depth) && x.hasChildren ==> T.HasKids(Texts(slice), Format(x.id))
  {
    hide InOrder, IsSlice;
    InSlice(items, depth, slice, x);
    if T.HasKids(Texts(slice), Format(x.id)) {
      var i :| 0 <= i < |slice| && Texts(slice)[i].parent == Format(x.id);
      var c := slice[i];
      InSlice(items, depth, slice, c);
      assert Hung(local, relations, items, c);
      SliceIdNonZero(local, relations, items, depth, slice, x);
      FormatIsCanonical(x.id, c.parent);
      KidsAre(relations, x.id, c.id);
    }
    if (depth <= 0 || x.level < depth) && x.hasChildren {
      var k := KidsOf(relations, x.id)[0];
      KidsAre(relations, x.id, k);
      assert Filed(items, Relation(k, x.id));
      var c :| c in items && c.id == k && c.parent == x.id && c.level > 0;
      assert Hung(local, relations, items, c);
      var p :| p in items && p.id == c.parent && c.level == p.level + 1;
      assert p == x;
      InSlice(items, depth, slice, c);
      var i :| 0 <= i < |slice| && slice[i] == c;
      assert Texts(slice)[i].parent == Format(x.id);
    }
  }

  lemma SliceIdNonZero(local: NodeId, relations: seq<Relation>, items: seq<Item>, depth: int, slice: seq<Item>, x: Item)
    requires IsSnapshot(local, relations, items) && IsSlice(items, depth, slice) && NonZero(local, relations)
             && x in slice
    ensures x.id != 0
  {
    SliceHasFacts(local, relations, items, depth, slice);
  }

  /**
   * Whatever depth is asked for, the answer cut from a snapshot of at most the allowed number of nodes
   * passes the query validator.
   */
  lemma EverySliceIsValid(local: NodeId, relations: seq<Relation>, items: seq<Item>, depth: int, slice: seq<Item>)
    requires IsSnapshot(local, relations, items) && IsSlice(items, depth, slice) && NonZero(local, relations)
    requires 0 <= depth <= T.MAX_NODES && |slice| <= T.MAX_NODES
    ensures T.QueryOk(Format(local), depth, Texts(slice))
  {
    var nodes, root := Texts(slice), Format(local);
    SliceHasFacts(local, relations, items, depth, slice);
    FormatIsCanonical(local, local);
    SliceIsComplete(local, relations, slice);
    TextsListed(local, relations, slice);
    forall i, level: nat | 0 <= i < |nodes| && T.Climb(T.Parents(nodes), nodes[i].id, level) == root
      ensures T.FlagOk(nodes, depth, i, level)
    {
      var x := slice[i];
      assert x in slice;
      ClimbsItsLevel(local, relations, slice, x);
      hide T.Parents, T.Complete, NodeIdText, IsSnapshot, SliceFacts, T.HasKids;
      if level <= x.level {
        T.OneLevel(nodes, root, nodes[i].id, level, x.level);
      } else {
        T.OneLevel(nodes, root, nodes[i].id, x.level, level);
      }
      KidsInSlice(local, relations, items, depth, slice, x);
      InSlice(items, depth, slice, x);
    }
    hide T.Complete, NodeIdText, IsSnapshot, SliceFacts, T.FlagOk, T.Parents;
  }

  /** A snapshot that fits also passes the other validator, the one for the full topology value. */
  lemma FullValueIsValid(local: NodeId, relations: seq<Relation>, items: seq<Item>)
    requires IsSnapshot(local, relations, items) && NonZero(local, relations) && |items| <= T.MAX_NODES
    ensures T.Complete(Texts(items))
  {
    EverySliceIsValid(local, relations, items, 0, items);
  }

  // ------------------------------------------------------------------------- cache

  const CACHE_ENTRIES: int := 8
  const MAX_PAYLOAD: int := 1048576
  const CACHE_BYTES: int := CACHE_ENTRIES * MAX_PAYLOAD

  /** An encoded answer, or the error that came instead of it. */
  datatype Answer = Answer(payload: string, failed: bool)

  /** Encodes the answer for one depth; an answer of too many nodes or bytes is an error without payload. */
  function EncodeTo(items: seq<Item>, depth: int, render: (int, seq<Item>) -> Option<string>): (r: Answer)
    ensures |r.payload| <= MAX_PAYLOAD
  {
    var slice := items[..Within(items, depth)];
    if |slice| > T.MAX_NODES then Answer("", true)
    else
      match render(depth, slice)
      case None => Answer("", true)
      case Some(payload) => if |payload| > MAX_PAYLOAD then Answer("", true) else Answer(payload, false)
  }

  /** The answer for a depth is the rendering of exactly the nodes within it, if neither is too large. */
  lemma AnswerIsTheRenderedSlice(items: seq<Item>, depth: int, render: (int, seq<Item>) -> Option<string>,
      slice: seq<Item>)
    requires IsSlice(items, depth, slice)
    ensures var r, text := EncodeTo(items, depth, render), render(depth, slice);
            if |slice| <= T.MAX_NODES && text.Some? && |text.value| <= MAX_PAYLOAD then r == Answer(text.value, false)
            else r == Answer("", true)
  {
    assert slice == items[..|slice|];
    hide EncodeTo;
    SliceIsWithin(items, depth, slice);
    EncodesSlice(items, depth, render);
  }

  lemma SliceIsWithin(items: seq<Item>, depth: int, slice: seq<Item>)
    requires IsSlice(items, depth, slice)
    ensures |slice| == Within(items, depth)
  {
    if depth <= 0 {
      assert items != [] ==> items[|items| - 1].level <= depth || |slice| == |items|;
    } else {
      WithinIs(items, depth, |slice|);
    }
  }

  lemma EncodesSlice(items: seq<Item>, depth: int, render: (int, seq<Item>) -> Option<string>)
    ensures var slice := items[..Within(items, depth)];
            var r, text := EncodeTo(items, depth, render), render(depth, slice);
            if |slice| <= T.MAX_NODES && text.Some? && |text.value| <= MAX_PAYLOAD then r == Answer(text.value, false)
            else r == Answer("", true)
  {
    hide Within;
  }

  function Bytes(order: seq<int>, cache: map<int, Answer>): (r: nat)
    requires forall i :: 0 <= i < |order| ==> order[i] in cache
  {
    if order == [] then 0 else |cache[order[0]].payload| + Bytes(order[1..], cache)
  }

  lemma {:induction false} BytesAppend(order: seq<int>, cache: map<int, Answer>, depth: int, a: Answer)
    requires (forall i :: 0 <= i < |order| ==> order[i] in cache) && depth !in order
    ensures Bytes(order + [depth], cache[depth := a]) == Bytes(order, cache) + |a.payload|
  {
    if order == [] {
      assert (order + [depth])[1..] == [];
    } else {
      BytesAppend(order[1..], cache, depth, a);
      assert (order + [depth])[1..] == order[1..] + [depth];
    }
  }

  lemma {:induction false} BytesSame(order: seq<int>, a: map<int, Answer>, b: map<int, Answer>)
    requires forall i :: 0 <= i < |order| ==> order[i] in a && order[i] in b && a[order[i]] == b[order[i]]
    ensures Bytes(order, a) == Bytes(order, b)
  {
    if order != [] { BytesSame(order[1..], a, b); }
  }

  predicate NoRepeat(order: seq<int>) { forall i, j :: 0 <= i < j < |order| ==> order[i] != order[j] }

  class Snapshot {
    const items: seq<Item>
    const render: (int, seq<Item>) -> Option<string>
    const shallow: Answer
    const full: Answer
    var cache: map<int, Answer>
    var order: seq<int>
    var cacheBytes: int

    ghost predicate CacheOk()
      reads this
    {
      && NoRepeat(order) && (forall i :: 0 <= i < |order| ==> order[i] in cache)
         && (forall d :: d in cache ==> d in order)
      && (forall d :: d in cache ==> cache[d] == EncodeTo(items, d, render))
      && cacheBytes == Bytes(order, cache)
    }

    ghost predicate Valid()
      reads this
    {
      && InOrder(items) && shallow == EncodeTo(items, 1, render) && full == EncodeTo(items, 0, render)
      && CacheOk() && |order| <= CACHE_ENTRIES && cacheBytes <= CACHE_BYTES
    }

    constructor (items: seq<Item>, render: (int, seq<Item>) -> Option<string>)
      requires InOrder(items)
      ensures Valid() && this.items == items && this.render == render
    {
      this.items, this.render := items, render;
      shallow, full := EncodeTo(items, 1, render), EncodeTo(items, 0, render);
      cache, order, cacheBytes := map[], [], 0;
    }

    method Encode(depth: int) returns (r: Answer)
      requires InOrder(items)
      ensures r == EncodeTo(items, depth, render)
    {
      var count := CountWithin(items, depth);
      if count > T.MAX_NODES { return Answer("", true); }
      var payload := render(depth, items[..count]);
      if payload.None? || |payload.value| > MAX_PAYLOAD { return Answer("", true); }
      r := Answer(payload.value, false);
    }

    /** The answer is always the one encoding would give, whatever the cache has kept or evicted. */
    method Query(depth: int) returns (r: Answer)
      requires Valid()
      modifies this
      ensures Valid() && r == EncodeTo(items, depth, render)
    {
      if depth == 1 { return shallow; }
      if depth == 0 { return full; }
      if depth in cache { return cache[depth]; }
      r := Encode(depth);
      while |order| >= CACHE_ENTRIES || cacheBytes + |r.payload| > CACHE_BYTES
        invariant CacheOk() && |order| <= CACHE_ENTRIES && cacheBytes <= CACHE_BYTES && depth !in cache
        decreases |order|
      {
        EvictOldest();
      }
      BytesAppend(order, cache, depth, r);
      hide EncodeTo, Bytes;
      cache, order, cacheBytes := cache[depth := r], order + [depth], cacheBytes + |r.payload|;
    }

    method EvictOldest()
      requires CacheOk() && order != []
      modifies this
      ensures CacheOk() && order == old(order)[1..] && cacheBytes <= old(cacheBytes) && cache.Keys <= old(cache.Keys)
    {
      hide EncodeTo;
      var oldest := order[0];
      assert oldest !in order[1..];
      BytesSame(order[1..], cache, cache - {oldest});
      order, cacheBytes, cache := order[1..], cacheBytes - |cache[oldest].payload|, cache - {oldest};
    }
  }
}
