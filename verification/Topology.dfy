/**
 * The two checks of a reported topology. One walks from every node to the root; the other visits
 * every node once, breadth first, and also checks depth and the `has_children` flags.
 */
module Topology {
  import opened Basics
  import opened Decimal

  const MAX_NODES: int := 4096

  /** A reported node; `fields` says that its name, role and generation are well formed. */
  datatype Node = Node(id: string, parent: string, hasChildren: bool, fields: bool)

  // --------------------------------------------------------------- what is required

  predicate NodeOk(n: Node, root: bool) {
    NodeIdText(n.id) && (if root then n.parent == "" else NodeIdText(n.parent)) && n.fields
  }

  predicate UniqueIds(nodes: seq<Node>) { forall i, j :: 0 <= i < j < |nodes| ==> nodes[i].id != nodes[j].id }

  /** Who is reported as whose parent; the root maps to the empty text. */
  function Parents(nodes: seq<Node>): (r: map<string, string>) {
    if nodes == [] then map[]
    else
      var last := nodes[|nodes| - 1];
      Parents(nodes[..|nodes| - 1])[last.id := last.parent]
  }

  /** The text reached by `k` steps towards the root; the empty text is beyond the root. */
  function Climb(parents: map<string, string>, id: string, k: nat): (r: string)
    decreases k
  {
    if k == 0 then id else if id in parents then Climb(parents, parents[id], k - 1) else ""
  }

  ghost predicate ReachesRoot(parents: map<string, string>, id: string) {
    exists k :: Climb(parents, id, k) == ""
  }

  predicate OneRoot(nodes: seq<Node>) {
    && (exists i :: 0 <= i < |nodes| && nodes[i].parent == "")
    && (forall i, j :: 0 <= i < j < |nodes| ==> nodes[i].parent != "" || nodes[j].parent != "")
  }

  predicate KnownParents(nodes: seq<Node>) {
    forall i :: 0 <= i < |nodes| && nodes[i].parent != "" ==> nodes[i].parent in Parents(nodes)
  }

  predicate Listed(nodes: seq<Node>) {
    && 1 <= |nodes| <= MAX_NODES && UniqueIds(nodes)
    && forall i :: 0 <= i < |nodes| ==> NodeOk(nodes[i], nodes[i].parent == "")
  }

  /** A complete parent structure: one root, known parents, and everybody below the root. */
  ghost predicate Complete(nodes: seq<Node>) {
    && Listed(nodes) && OneRoot(nodes) && KnownParents(nodes)
    && forall i :: 0 <= i < |nodes| ==> ReachesRoot(Parents(nodes), nodes[i].id)
  }

  // ------------------------------------------------------------------ climbing facts

  lemma {:induction false} ParentsLookup(nodes: seq<Node>)
    requires UniqueIds(nodes)
    ensures forall i :: 0 <= i < |nodes| ==> nodes[i].id in Parents(nodes)
                                             && Parents(nodes)[nodes[i].id] == nodes[i].parent
    ensures forall id :: id in Parents(nodes) ==> exists i :: 0 <= i < |nodes| && nodes[i].id == id
  {
    if nodes != [] {
      var front, last := nodes[..|nodes| - 1], nodes[|nodes| - 1];
      ParentsLookup(front);
      forall id | id in Parents(nodes) ensures exists i :: 0 <= i < |nodes| && nodes[i].id == id {
        if id == last.id {
          assert nodes[|nodes| - 1].id == id;
        } else {
          assert id in Parents(front);
          var i :| 0 <= i < |front| && front[i].id == id;
          assert nodes[i].id == id;
        }
      }
      forall i | 0 <= i < |nodes|
        ensures nodes[i].id in Parents(nodes) && Parents(nodes)[nodes[i].id] == nodes[i].parent {
        if i < |front| { assert front[i] == nodes[i]; }
      }
    }
  }

  lemma {:induction false} ClimbSplit(parents: map<string, string>, id: string, j: nat, k: nat)
    requires "" !in parents
    ensures Climb(parents, Climb(parents, id, j), k) == Climb(parents, id, j + k)
    decreases j
  {
    if j > 0 {
      if id in parents { ClimbSplit(parents, parents[id], j - 1, k); } else { ClimbDead(parents, k); }
    }
  }

  lemma {:induction false} ClimbDead(parents: map<string, string>, k: nat)
    requires "" !in parents
    ensures Climb(parents, "", k) == ""
  {
  }

  lemma ClimbNext(parents: map<string, string>, id: string, k: nat)
    requires "" !in parents
    ensures var at := Climb(parents, id, k);
            Climb(parents, id, k + 1) == if at in parents then parents[at] else ""
  {
    ClimbSplit(parents, id, k, 1);
    var at := Climb(parents, id, k);
    if at in parents { assert Climb(parents, parents[at], 0) == parents[at]; }
  }

  /** Meeting a node twice on the way up means never arriving. */
  lemma {:induction false} RevisitNeverArrives(parents: map<string, string>, id: string, i: nat, k: nat, m: nat)
    requires "" !in parents && i < k && Climb(parents, id, i) == Climb(parents, id, k)
    requires forall j :: 0 <= j < k ==> Climb(parents, id, j) != ""
    ensures Climb(parents, id, m) != ""
    decreases m
  {
    if m >= k {
      RevisitNeverArrives(parents, id, i, k, m - (k - i));
      ClimbSplit(parents, id, i, m - k);
      ClimbSplit(parents, id, k, m - k);
    }
  }

  lemma NoEmptyId(nodes: seq<Node>)
    requires UniqueIds(nodes) && forall i :: 0 <= i < |nodes| ==> nodes[i].id != ""
    ensures "" !in Parents(nodes)
  {
    ParentsLookup(nodes);
  }

  // ------------------------------------------------------------------- walk validator

  /** Walks towards the root, remembering where it has been. */
  method Walk(parents: map<string, string>, id: string) returns (ok: bool)
    requires "" !in parents
    ensures ok <==> ReachesRoot(parents, id)
  {
    var visited: set<string>, current := {}, id;
    ghost var k := 0;
    while current != ""
      invariant current == Climb(parents, id, k)
      invariant forall x :: x in visited ==> exists j :: 0 <= j < k && Climb(parents, id, j) == x
      invariant forall j :: 0 <= j < k ==> Climb(parents, id, j) != ""
      decreases parents.Keys - visited, current != ""
    {
      if current in visited {
        ghost var i :| 0 <= i < k && Climb(parents, id, i) == current;
        forall m: nat ensures Climb(parents, id, m) != "" { RevisitNeverArrives(parents, id, i, k, m); }
        return false;
      }
      ClimbNext(parents, id, k);
      visited := visited + {current};
      current := if current in parents then parents[current] else "";
      k := k + 1;
    }
    ok := true;
  }

  function RootCount(nodes: seq<Node>): (r: nat) {
    if nodes == [] then 0 else RootCount(nodes[..|nodes| - 1]) + if nodes[|nodes| - 1].parent == "" then 1 else 0
  }

  lemma {:induction false} CountingRoots(nodes: seq<Node>)
    ensures RootCount(nodes) == 0 <==> forall i :: 0 <= i < |nodes| ==> nodes[i].parent != ""
    ensures RootCount(nodes) == 1 <==> OneRoot(nodes)
  {
    if nodes != [] {
      var front, last := nodes[..|nodes| - 1], nodes[|nodes| - 1];
      CountingRoots(front);
      assert nodes == front + [last];
      OneMoreRoot(front, last);
      hide OneRoot;
    }
  }

  lemma OneMoreRoot(front: seq<Node>, last: Node)
    ensures OneRoot(front + [last])
            <==> if last.parent == "" then forall i :: 0 <= i < |front| ==> front[i].parent != "" else OneRoot(front)
  {
    var nodes := front + [last];
    assert forall i :: 0 <= i < |front| ==> nodes[i] == front[i];
    assert nodes[|front|] == last;
  }

  /** The listing part both validators share: fields, unique identifiers, and the parent of each. */
  method ListNodes(nodes: seq<Node>) returns (ok: bool, parents: map<string, string>, roots: nat)
    ensures ok <==> UniqueIds(nodes) && forall i :: 0 <= i < |nodes| ==> NodeOk(nodes[i], nodes[i].parent == "")
    ensures ok ==> parents == Parents(nodes) && roots == RootCount(nodes)
  {
    hide NodeOk, Parents, RootCount, UniqueIds;
    NothingListed(nodes);
    parents, roots := map[], 0;
    ghost var at: map<string, nat> := map[];
    for i := 0 to |nodes|
      invariant forall j :: 0 <= j < i ==> NodeOk(nodes[j], nodes[j].parent == "")
      invariant forall j :: 0 <= j < i ==> nodes[j].id in at && at[nodes[j].id] == j
      invariant forall id :: id in parents ==> id in at && at[id] < i && nodes[at[id]].id == id
      invariant forall id :: id in at ==> id in parents
      invariant parents == Parents(nodes[..i]) && roots == RootCount(nodes[..i])
    {
      var good := NodeOk(nodes[i], nodes[i].parent == "");
      if !good { return false, parents, roots; }
      if nodes[i].id in parents {
        NotUnique(nodes, at[nodes[i].id], i);
        return false, parents, roots;
      }
      ListOneMore(nodes, i);
      parents, at := parents[nodes[i].id := nodes[i].parent], at[nodes[i].id := i];
      if nodes[i].parent == "" { roots := roots + 1; }
    }
    assert nodes[..|nodes|] == nodes;
    OnePlaceEach(nodes, at);
    ok := true;
  }

  lemma OnePlaceEach(nodes: seq<Node>, at: map<string, nat>)
    requires forall j :: 0 <= j < |nodes| ==> nodes[j].id in at && at[nodes[j].id] == j
    ensures UniqueIds(nodes)
  {
  }

  lemma NotUnique(nodes: seq<Node>, i: nat, j: nat)
    requires i < j < |nodes| && nodes[i].id == nodes[j].id
    ensures !UniqueIds(nodes)
  {
  }

  lemma NothingListed(nodes: seq<Node>)
    ensures Parents(nodes[..0]) == map[] && RootCount(nodes[..0]) == 0
  {
  }

  lemma ListOneMore(nodes: seq<Node>, i: nat)
    requires i < |nodes|
    ensures Parents(nodes[..i + 1]) == Parents(nodes[..i])[nodes[i].id := nodes[i].parent]
    ensures RootCount(nodes[..i + 1]) == RootCount(nodes[..i]) + if nodes[i].parent == "" then 1 else 0
  {
    assert nodes[..i + 1][..i] == nodes[..i];
  }

  /** The per-node ancestor walk accepts exactly the complete structures. */
  method ValidateByWalking(nodes: seq<Node>) returns (ok: bool)
    ensures ok <==> Complete(nodes)
  {
    if |nodes| == 0 || |nodes| > MAX_NODES { return false; }
    var listed, parents, roots := ListNodes(nodes);
    if !listed { return false; }
    CountingRoots(nodes);
    if roots != 1 { return false; }
    NoEmptyId(nodes);
    hide NodeIdText, UniqueIds, OneRoot, ReachesRoot;
    for i := 0 to |nodes|
      invariant forall j :: 0 <= j < i && nodes[j].parent != "" ==> nodes[j].parent in parents
      invariant forall j :: 0 <= j < i ==> ReachesRoot(parents, nodes[j].id)
    {
      if nodes[i].parent != "" && nodes[i].parent !in parents { return false; }
      var reaches := Walk(parents, nodes[i].id);
      if !reaches { return false; }
    }
    ok := true;
  }

  // ------------------------------------------------------------- breadth-first validator

  predicate HasKids(nodes: seq<Node>, id: string) { exists i :: 0 <= i < |nodes| && nodes[i].parent == id }

  /** Depth and flag of a node `level` steps below the root. */
  predicate FlagOk(nodes: seq<Node>, depth: int, i: nat, level: nat)
    requires i < |nodes|
  {
    var kids := HasKids(nodes, nodes[i].id);
    && (depth > 0 ==> level <= depth)
    && (kids ==> nodes[i].hasChildren)
    && (depth == 0 || level < depth ==> nodes[i].hasChildren == kids)
  }

  ghost predicate FlagsOk(root: string, depth: int, nodes: seq<Node>) {
    forall i, level :: 0 <= i < |nodes| && 0 <= level && Climb(Parents(nodes), nodes[i].id, level) == root
                       ==> FlagOk(nodes, depth, i, level)
  }

  /** A query answer: a complete structure under the named root, cut off at the asked depth. */
  ghost predicate QueryOk(root: string, depth: int, nodes: seq<Node>) {
    && NodeIdText(root) && 0 <= depth <= MAX_NODES
    && Complete(nodes) && root in Parents(nodes) && Parents(nodes)[root] == ""
    && FlagsOk(root, depth, nodes)
  }

  /** Nodes whose fields fit the claim that `root` is the root. */
  predicate Rooted(root: string, nodes: seq<Node>) {
    && UniqueIds(nodes)
    && forall i :: 0 <= i < |nodes| ==> NodeOk(nodes[i], nodes[i].id == root)
  }

  method IndexNodes(root: string, nodes: seq<Node>) returns (ok: bool, byId: map<string, nat>)
    ensures ok <==> Rooted(root, nodes)
    ensures ok ==> forall id :: id in byId ==> byId[id] < |nodes| && nodes[byId[id]].id == id
    ensures ok ==> forall i :: 0 <= i < |nodes| ==> nodes[i].id in byId
  {
    hide NodeIdText;
    byId := map[];
    for i := 0 to |nodes|
      invariant forall j, k :: 0 <= j < k < i ==> nodes[j].id != nodes[k].id
      invariant forall j :: 0 <= j < i ==> NodeOk(nodes[j], nodes[j].id == root)
      invariant forall id :: id in byId ==> byId[id] < i && nodes[byId[id]].id == id
      invariant forall j :: 0 <= j < i ==> nodes[j].id in byId
    {
      var good := NodeOk(nodes[i], nodes[i].id == root);
      if !good { return false, byId; }
      if nodes[i].id in byId { return false, byId; }
      byId := byId[nodes[i].id := i];
    }
    ok := true;
  }

  /** The indices of the nodes that name node `p` as their parent. */
  ghost predicate AreKids(nodes: seq<Node>, kids: seq<nat>, p: nat, n: nat)
    requires p < |nodes| && n <= |nodes|
  {
    && (forall c :: c in kids <==> 0 <= c < n && nodes[c].parent == nodes[p].id)
    && (forall i, j :: 0 <= i < j < |kids| ==> kids[i] != kids[j])
  }

  method ListKids(root: string, nodes: seq<Node>, byId: map<string, nat>) returns (ok: bool, children: seq<seq<nat>>)
    requires Rooted(root, nodes)
    requires forall id :: id in byId ==> byId[id] < |nodes| && nodes[byId[id]].id == id
    requires forall i :: 0 <= i < |nodes| ==> nodes[i].id in byId
    ensures ok <==> forall i :: 0 <= i < |nodes| && nodes[i].id != root ==> nodes[i].parent in byId
    ensures ok ==> |children| == |nodes| && forall p :: 0 <= p < |nodes| ==> AreKids(nodes, children[p], p, |nodes|)
  {
    NamesAreIds(root, nodes);
    hide Rooted, AreKids;
    NoKids(nodes);
    children := seq(|nodes|, _ => []);
    for i := 0 to |nodes|
      invariant |children| == |nodes|
      invariant forall p :: 0 <= p < |nodes| ==> AreKids(nodes, children[p], p, i)
      invariant forall j :: 0 <= j < i && nodes[j].id != root ==> nodes[j].parent in byId
    {
      ghost var before := children;
      if nodes[i].id != root {
        if nodes[i].parent !in byId { return false, children; }
        var parent := byId[nodes[i].parent];
        children := children[parent := children[parent] + [i]];
      }
      forall p | 0 <= p < |nodes| ensures AreKids(nodes, children[p], p, i + 1) {
        KidsGrow(nodes, before[p], children[p], p, i);
      }
    }
    ok := true;
  }

  lemma NoKids(nodes: seq<Node>)
    ensures forall p :: 0 <= p < |nodes| ==> AreKids(nodes, [], p, 0)
  {
  }

  lemma KidsGrow(nodes: seq<Node>, before: seq<nat>, after: seq<nat>, p: nat, i: nat)
    requires p < |nodes| && i < |nodes| && AreKids(nodes, before, p, i)
    requires after == if nodes[i].parent == nodes[p].id then before + [i] else before
    ensures AreKids(nodes, after, p, i + 1)
  {
  }

  lemma NamesAreIds(root: string, nodes: seq<Node>)
    requires Rooted(root, nodes)
    ensures forall i :: 0 <= i < |nodes| ==> nodes[i].id != "" && (nodes[i].parent == "" <==> nodes[i].id == root)
    ensures forall i, j :: 0 <= i < |nodes| && 0 <= j < |nodes| && nodes[i].id == nodes[j].id ==> i == j
  {
  }

  /** Puts the children of a visited node at the end of the queue, one level deeper. */
  method Enqueue(queue: seq<nat>, depths: seq<nat>, kids: seq<nat>, level: nat)
      returns (queue': seq<nat>, depths': seq<nat>)
    requires forall c :: c in kids ==> c < |depths|
    ensures queue' == queue + kids && |depths'| == |depths|
    ensures forall x :: 0 <= x < |depths| ==> depths'[x] == if x in kids then level else depths[x]
  {
    queue', depths' := queue, depths;
    for j := 0 to |kids|
      invariant queue' == queue + kids[..j] && |depths'| == |depths|
      invariant forall x :: 0 <= x < |depths| ==> depths'[x] == if x in kids[..j] then level else depths[x]
    {
      assert kids[j] in kids;
      depths' := depths'[kids[j] := level];
      queue' := queue' + [kids[j]];
    }
    assert kids[..|kids|] == kids;
  }

  predicate Within(xs: seq<nat>, n: nat) { forall i :: 0 <= i < |xs| ==> xs[i] < n }

  /** Every queued node carries its distance from the root. */
  predicate Leveled(nodes: seq<Node>, root: string, queue: seq<nat>, depths: seq<nat>)
    requires Within(queue, |nodes|) && |depths| == |nodes|
  {
    forall i :: 0 <= i < |queue| ==> Climb(Parents(nodes), nodes[queue[i]].id, depths[queue[i]]) == root
  }

  /** The children of the visited nodes are queued. */
  predicate Closed(nodes: seq<Node>, queue: seq<nat>, head: nat)
    requires Within(queue, |nodes|) && head <= |queue|
  {
    forall h, c :: 0 <= h < head && 0 <= c < |nodes| && nodes[c].parent == nodes[queue[h]].id ==> c in queue
  }

  predicate HasParentIn(nodes: seq<Node>, queue: seq<nat>, head: nat, c: nat)
    requires Within(queue, |nodes|) && head <= |queue| && c < |nodes|
  {
    exists h :: 0 <= h < head && nodes[c].parent == nodes[queue[h]].id
  }

  /** Every queued node but the root was queued by its visited parent. */
  predicate Sourced(nodes: seq<Node>, queue: seq<nat>, head: nat, r: nat)
    requires Within(queue, |nodes|) && head <= |queue|
  {
    forall i :: 0 <= i < |queue| && queue[i] != r ==> HasParentIn(nodes, queue, head, queue[i])
  }

  predicate FlagsSoFar(nodes: seq<Node>, depth: int, queue: seq<nat>, depths: seq<nat>, head: nat)
    requires Within(queue, |nodes|) && |depths| == |nodes| && head <= |queue|
  {
    forall h :: 0 <= h < head ==> FlagOk(nodes, depth, queue[h], depths[queue[h]])
  }

  /** The children of the node at the head are not queued yet. */
  lemma KidsAreNew(nodes: seq<Node>, queue: seq<nat>, head: nat, r: nat, kids: seq<nat>)
    requires Within(queue, |nodes|) && Distinct(queue) && head < |queue| && r < |nodes|
             && Sourced(nodes, queue, head, r)
    requires UniqueIds(nodes) && AreKids(nodes, kids, queue[head], |nodes|)
    requires nodes[r].parent == "" && nodes[queue[head]].id != ""
    ensures forall c :: c in kids ==> c !in queue
  {
    forall i | 0 <= i < |queue| ensures queue[i] !in kids {
      if queue[i] != r {
        assert HasParentIn(nodes, queue, head, queue[i]);
        var h :| 0 <= h < head && nodes[queue[i]].parent == nodes[queue[h]].id;
        assert queue[h] != queue[head];
      }
    }
  }

  lemma DistinctAppend(queue: seq<nat>, kids: seq<nat>)
    requires Distinct(queue) && Distinct(kids) && forall c :: c in kids ==> c !in queue
    ensures Distinct(queue + kids)
  {
    var all := queue + kids;
    forall i, j | 0 <= i < j < |all| ensures all[i] != all[j] {
      if i < |queue| <= j {
        assert all[j] in kids && all[i] in queue;
      }
    }
  }

  lemma LevelsGrow(nodes: seq<Node>, root: string, queue: seq<nat>, head: nat, kids: seq<nat>, depths: seq<nat>,
      depths': seq<nat>)
    requires Within(queue, |nodes|) && |depths| == |nodes| == |depths'| && head < |queue|
             && Leveled(nodes, root, queue, depths)
    requires UniqueIds(nodes) && AreKids(nodes, kids, queue[head], |nodes|) && (forall c :: c in kids ==> c !in queue)
    requires forall x :: 0 <= x < |depths| ==> depths'[x] == if x in kids then depths[queue[head]] + 1 else depths[x]
    ensures Within(queue + kids, |nodes|) && Leveled(nodes, root, queue + kids, depths')
  {
    ParentsLookup(nodes);
    var all := queue + kids;
    forall i | 0 <= i < |all|
      ensures all[i] < |nodes| && Climb(Parents(nodes), nodes[all[i]].id, depths'[all[i]]) == root {
      if i < |queue| {
        assert all[i] in queue;
      } else {
        assert all[i] in kids;
      }
    }
  }

  lemma ClosureGrows(nodes: seq<Node>, queue: seq<nat>, head: nat, kids: seq<nat>, r: nat)
    requires Within(queue, |nodes|) && Within(queue + kids, |nodes|) && head < |queue|
             && AreKids(nodes, kids, queue[head], |nodes|)
    requires Closed(nodes, queue, head) && Sourced(nodes, queue, head, r)
    ensures Closed(nodes, queue + kids, head + 1) && Sourced(nodes, queue + kids, head + 1, r)
  {
    var all := queue + kids;
    hide HasParentIn, AreKids;
    forall i | 0 <= i < |all| && all[i] != r ensures HasParentIn(nodes, all, head + 1, all[i]) {
      SourceStays(nodes, queue, head, kids, r, i);
    }
    assert Sourced(nodes, all, head + 1, r);
    hide Sourced;
    forall h, c | 0 <= h < head + 1 && 0 <= c < |nodes| && nodes[c].parent == nodes[all[h]].id ensures c in all {
      assert all[h] == queue[h];
      if h < head { assert c in queue; } else { IsKid(nodes, kids, queue[head], c); }
    }
  }

  lemma IsKid(nodes: seq<Node>, kids: seq<nat>, p: nat, c: nat)
    requires p < |nodes| && c < |nodes| && AreKids(nodes, kids, p, |nodes|) && nodes[c].parent == nodes[p].id
    ensures c in kids
  {
  }

  lemma SourceStays(nodes: seq<Node>, queue: seq<nat>, head: nat, kids: seq<nat>, r: nat, i: nat)
    requires Within(queue, |nodes|) && Within(queue + kids, |nodes|) && head < |queue|
             && AreKids(nodes, kids, queue[head], |nodes|)
    requires Sourced(nodes, queue, head, r) && i < |queue + kids| && (queue + kids)[i] != r
    ensures HasParentIn(nodes, queue + kids, head + 1, (queue + kids)[i])
  {
    var all := queue + kids;
    if i < |queue| {
      assert HasParentIn(nodes, queue, head, queue[i]);
      var h :| 0 <= h < head && nodes[queue[i]].parent == nodes[queue[h]].id;
      assert all[h] == queue[h];
    } else {
      assert all[i] in kids && all[head] == queue[head];
    }
  }

  /** Distances from the root are unique. */
  lemma {:induction false} OneLevel(nodes: seq<Node>, root: string, id: string, j: nat, k: nat)
    requires "" !in Parents(nodes) && root in Parents(nodes) && Parents(nodes)[root] == "" && root != ""
    requires Climb(Parents(nodes), id, j) == root == Climb(Parents(nodes), id, k) && j <= k
    ensures j == k
  {
    if j < k {
      ClimbSplit(Parents(nodes), id, j, k - j);
      assert false;
    }
  }

  /** Once the queue is used up, everything that reaches the root has been queued. */
  lemma {:induction false} AllReached(nodes: seq<Node>, root: string, r: nat, queue: seq<nat>, i: nat, k: nat)
    requires UniqueIds(nodes) && Within(queue, |nodes|) && Closed(nodes, queue, |queue|)
    requires r < |nodes| && nodes[r].id == root && r in queue && root != ""
    requires i < |nodes| && Climb(Parents(nodes), nodes[i].id, k) == root
    ensures i in queue
    decreases k
  {
    ParentsLookup(nodes);
    if k > 0 {
      var p := nodes[i].parent;
      assert Climb(Parents(nodes), nodes[i].id, k) == Climb(Parents(nodes), p, k - 1);
      assert p in Parents(nodes) by { if k == 1 { assert p == root; } }
      var j :| 0 <= j < |nodes| && nodes[j].id == p;
      AllReached(nodes, root, r, queue, j, k - 1);
      var h :| 0 <= h < |queue| && queue[h] == j;
    }
  }

  function Below(n: nat): (r: set<nat>)
    ensures |r| == n && forall x: nat :: x in r <==> x < n
  {
    if n == 0 then {} else Below(n - 1) + {n - 1}
  }

  function SetOf(xs: seq<nat>): (r: set<nat>)
    ensures forall x :: x in r <==> x in xs
  {
    if xs == [] then {}
    else
      assert xs == xs[..|xs| - 1] + [xs[|xs| - 1]];
      SetOf(xs[..|xs| - 1]) + {xs[|xs| - 1]}
  }

  lemma {:induction false} DistinctSet(xs: seq<nat>)
    requires Distinct(xs)
    ensures |SetOf(xs)| == |xs|
  {
    if xs != [] {
      DistinctSet(xs[..|xs| - 1]);
      assert xs[|xs| - 1] !in xs[..|xs| - 1];
    }
  }

  /** A queue of distinct indices is as long as the list exactly when it holds every index. */
  lemma FullQueue(queue: seq<nat>, n: nat)
    requires Distinct(queue) && Within(queue, n)
    ensures |queue| <= n && (|queue| == n <==> forall i :: 0 <= i < n ==> i in queue)
  {
    DistinctSet(queue);
    var s, all := SetOf(queue), Below(n);
    assert s <= all;
    SubsetIsSmaller(s, all);
    if forall i :: 0 <= i < n ==> i in queue { assert s == all; }
  }

  /** What holds whenever the traversal takes the next node from the queue. */
  ghost predicate Traversed(
    nodes: seq<Node>, root: string, r: nat, depth: int, queue: seq<nat>, depths: seq<nat>, head: nat)
  {
    && r < |nodes| && r in queue && head <= |queue| && |depths| == |nodes|
    && Within(queue, |nodes|) && Distinct(queue)
    && Leveled(nodes, root, queue, depths) && Closed(nodes, queue, head) && Sourced(nodes, queue, head, r)
    && FlagsSoFar(nodes, depth, queue, depths, head)
  }

  lemma TraversalStarts(nodes: seq<Node>, root: string, r: nat, depth: int, depths: seq<nat>)
    requires r < |nodes| && nodes[r].id == root && |depths| == |nodes| && depths[r] == 0
    ensures Traversed(nodes, root, r, depth, [r], depths, 0)
  {
  }

  lemma TraversalGoesOn(
    nodes: seq<Node>, root: string, r: nat, depth: int, queue: seq<nat>, depths: seq<nat>, head: nat, kids: seq<nat>,
      depths': seq<nat>)
    requires Traversed(nodes, root, r, depth, queue, depths, head) && head < |queue| && UniqueIds(nodes)
    requires nodes[r].parent == "" && nodes[queue[head]].id != "" && AreKids(nodes, kids, queue[head], |nodes|)
    requires FlagOk(nodes, depth, queue[head], depths[queue[head]])
    requires |depths'| == |depths|
    requires forall x :: 0 <= x < |depths| ==> depths'[x] == if x in kids then depths[queue[head]] + 1 else depths[x]
    ensures Traversed(nodes, root, r, depth, queue + kids, depths', head + 1)
  {
    KidsAreNew(nodes, queue, head, r, kids);
    DistinctAppend(queue, kids);
    LevelsGrow(nodes, root, queue, head, kids, depths, depths');
    ClosureGrows(nodes, queue, head, kids, r);
    FlagsGrow(nodes, depth, queue, depths, head, kids, depths');
    hide Leveled, Closed, Sourced, FlagsSoFar, AreKids, Distinct, UniqueIds, FlagOk, Within;
  }

  lemma FlagsGrow(nodes: seq<Node>, depth: int, queue: seq<nat>, depths: seq<nat>, head: nat, kids: seq<nat>,
      depths': seq<nat>)
    requires Within(queue, |nodes|) && Within(queue + kids, |nodes|) && |depths| == |nodes| == |depths'|
             && head < |queue|
    requires FlagsSoFar(nodes, depth, queue, depths, head) && FlagOk(nodes, depth, queue[head], depths[queue[head]])
    requires forall c :: c in kids ==> c !in queue
    requires forall x :: 0 <= x < |depths| ==> depths'[x] == if x in kids then depths[queue[head]] + 1 else depths[x]
    ensures FlagsSoFar(nodes, depth, queue + kids, depths', head + 1)
  {
    hide FlagOk;
    forall h | 0 <= h < head + 1 ensures FlagOk(nodes, depth, (queue + kids)[h], depths'[(queue + kids)[h]]) {
      assert (queue + kids)[h] == queue[h] && queue[h] in queue;
    }
  }

  /** The whole answer is right exactly when the traversal reached every node. */
  lemma TraversalDecides(nodes: seq<Node>, root: string, r: nat, depth: int, queue: seq<nat>, depths: seq<nat>)
    requires Traversed(nodes, root, r, depth, queue, depths, |queue|) && nodes[r].id == root && nodes[r].parent == ""
    requires 1 <= |nodes| <= MAX_NODES && NodeIdText(root) && 0 <= depth <= MAX_NODES && Rooted(root, nodes)
    requires KnownParents(nodes)
    ensures |queue| == |nodes| <==> QueryOk(root, depth, nodes)
  {
    RootedIsListed(root, r, nodes);
    FullQueue(queue, |nodes|);
    if |queue| == |nodes| {
      QueuedReach(nodes, root, queue, depths);
      FlagsFollow(nodes, root, depth, queue, depths);
      hide NodeIdText, Rooted, Listed, OneRoot, KnownParents, FlagsOk, Leveled, Closed, Sourced, FlagsSoFar;
    }
    if QueryOk(root, depth, nodes) {
      hide NodeIdText, Rooted, Listed, OneRoot, FlagsOk, Leveled, Sourced, FlagsSoFar, FlagOk;
      ReachersQueued(nodes, root, r, queue);
    }
  }

  lemma QueuedReach(nodes: seq<Node>, root: string, queue: seq<nat>, depths: seq<nat>)
    requires |depths| == |nodes| && Within(queue, |nodes|) && (forall i :: 0 <= i < |nodes| ==> i in queue)
    requires "" !in Parents(nodes) && root in Parents(nodes) && Parents(nodes)[root] == ""
             && Leveled(nodes, root, queue, depths)
    ensures forall i :: 0 <= i < |nodes| ==> ReachesRoot(Parents(nodes), nodes[i].id)
  {
    forall i | 0 <= i < |nodes| ensures ReachesRoot(Parents(nodes), nodes[i].id) {
      assert i in queue;
      var h :| 0 <= h < |queue| && queue[h] == i;
      ClimbNext(Parents(nodes), nodes[i].id, depths[i]);
      assert Climb(Parents(nodes), nodes[i].id, depths[i] + 1) == "";
    }
  }

  lemma ReachersQueued(nodes: seq<Node>, root: string, r: nat, queue: seq<nat>)
    requires UniqueIds(nodes) && KnownParents(nodes) && "" !in Parents(nodes) && Within(queue, |nodes|)
             && Closed(nodes, queue, |queue|)
    requires r < |nodes| && nodes[r].id == root && r in queue && root != ""
    requires forall j :: 0 <= j < |nodes| ==> (nodes[j].parent == "" <==> j == r)
    requires forall i :: 0 <= i < |nodes| ==> ReachesRoot(Parents(nodes), nodes[i].id)
    ensures forall i :: 0 <= i < |nodes| ==> i in queue
  {
    hide Closed, KnownParents, Within, UniqueIds;
    forall i | 0 <= i < |nodes| ensures i in queue {
      assert ReachesRoot(Parents(nodes), nodes[i].id);
      var k: nat :| Climb(Parents(nodes), nodes[i].id, k) == "";
      RootIsMet(nodes, r, i, k);
      var j :| 0 <= j < k && Climb(Parents(nodes), nodes[i].id, j) == root;
      AllReached(nodes, root, r, queue, i, j);
    }
  }

  lemma FlagsFollow(nodes: seq<Node>, root: string, depth: int, queue: seq<nat>, depths: seq<nat>)
    requires |depths| == |nodes| && Within(queue, |nodes|) && (forall i :: 0 <= i < |nodes| ==> i in queue)
    requires "" !in Parents(nodes) && root in Parents(nodes) && Parents(nodes)[root] == "" && root != ""
    requires Leveled(nodes, root, queue, depths) && FlagsSoFar(nodes, depth, queue, depths, |queue|)
    ensures FlagsOk(root, depth, nodes)
  {
    hide FlagOk;
    forall i, level: nat | 0 <= i < |nodes| && Climb(Parents(nodes), nodes[i].id, level) == root
      ensures FlagOk(nodes, depth, i, level)
    {
      assert i in queue;
      var h :| 0 <= h < |queue| && queue[h] == i;
      if level <= depths[i] {
        OneLevel(nodes, root, nodes[i].id, level, depths[i]);
      } else {
        OneLevel(nodes, root, nodes[i].id, depths[i], level);
      }
    }
  }

  lemma RootedIsListed(root: string, r: nat, nodes: seq<Node>)
    requires Rooted(root, nodes) && r < |nodes| && nodes[r].id == root && 1 <= |nodes| <= MAX_NODES
    ensures Listed(nodes) && OneRoot(nodes) && "" !in Parents(nodes) && UniqueIds(nodes)
    ensures root != "" && root in Parents(nodes) && Parents(nodes)[root] == "" && nodes[r].parent == ""
    ensures forall i :: 0 <= i < |nodes| ==> (nodes[i].parent == "" <==> i == r)
  {
    NamesAreIds(root, nodes);
    NoEmptyId(nodes);
    ParentsLookup(nodes);
    hide NodeIdText, Parents;
    assert nodes[r].parent == "";
  }

  /** Whoever climbs past the top has been at the root. */
  lemma {:induction false} RootIsMet(nodes: seq<Node>, r: nat, i: nat, k: nat)
    requires UniqueIds(nodes) && r < |nodes| && i < |nodes| && KnownParents(nodes) && "" !in Parents(nodes)
    requires forall j :: 0 <= j < |nodes| ==> (nodes[j].parent == "" <==> j == r)
    requires Climb(Parents(nodes), nodes[i].id, k) == ""
    ensures exists j :: 0 <= j < k && Climb(Parents(nodes), nodes[i].id, j) == nodes[r].id
    decreases k
  {
    ParentsLookup(nodes);
    assert nodes[i].id in Parents(nodes);
    if i == r {
      assert Climb(Parents(nodes), nodes[i].id, 0) == nodes[r].id;
    } else {
      var p := nodes[i].parent;
      var m :| 0 <= m < |nodes| && nodes[m].id == p;
      RootIsMet(nodes, r, m, k - 1);
      var j :| 0 <= j < k - 1 && Climb(Parents(nodes), p, j) == nodes[r].id;
      assert Climb(Parents(nodes), nodes[i].id, j + 1) == nodes[r].id;
    }
  }

  /** The linear traversal accepts exactly the complete structures with right depths and right flags. */
  method ValidateBreadthFirst(root: string, depth: int, nodes: seq<Node>) returns (ok: bool)
    ensures ok <==> QueryOk(root, depth, nodes)
  {
    var named := NodeIdText(root);
    if !named || depth < 0 || depth > MAX_NODES || |nodes| == 0 || |nodes| > MAX_NODES { return false; }
    var listed, byId := IndexNodes(root, nodes);
    QueryIsRooted(root, depth, nodes);
    hide NodeIdText, QueryOk;
    if !listed { return false; }
    if root !in byId { return false; }
    var r := byId[root];
    var known, children := ListKids(root, nodes, byId);
    KnownIsKnown(root, r, nodes, byId);
    if !known { return false; }
    ok := Traverse(root, r, depth, nodes, children);
  }

  method Traverse(root: string, r: nat, depth: int, nodes: seq<Node>, children: seq<seq<nat>>) returns (ok: bool)
    requires r < |nodes| && nodes[r].id == root && 1 <= |nodes| <= MAX_NODES && NodeIdText(root)
             && 0 <= depth <= MAX_NODES
    requires Rooted(root, nodes) && KnownParents(nodes)
    requires |children| == |nodes| && forall p :: 0 <= p < |nodes| ==> AreKids(nodes, children[p], p, |nodes|)
    ensures ok <==> QueryOk(root, depth, nodes)
  {
    RootedIsListed(root, r, nodes);
    NamesAreIds(root, nodes);
    var depths: seq<nat> := seq(|nodes|, _ => 0);
    var queue: seq<nat> := [r];
    TraversalStarts(nodes, root, r, depth, depths);
    var head := 0;
    hide Rooted, NodeIdText, KnownParents, QueryOk, FlagOk, UniqueIds, Listed, OneRoot;
    while head < |queue|
      invariant head <= |queue| && Traversed(nodes, root, r, depth, queue, depths, head)
      decreases |nodes| - head
    {
      var index := queue[head];
      var level := depths[index];
      QueueFits(nodes, root, r, depth, queue, depths, head);
      var kids := children[index];
      var hasKids := |kids| != 0;
      FlagCheck(nodes, depth, kids, index, level);
      if (depth > 0 && level > depth) || (hasKids && !nodes[index].hasChildren)
         || ((depth == 0 || level < depth) && nodes[index].hasChildren != hasKids)
      {
        FlagFails(nodes, root, depth, index, level);
        return false;
      }
      var queue', depths' := Enqueue(queue, depths, kids, level + 1);
      TraversalGoesOn(nodes, root, r, depth, queue, depths, head, kids, depths');
      queue, depths := queue', depths';
      head := head + 1;
    }
    TraversalDecides(nodes, root, r, depth, queue, depths);
    ok := |queue| == |nodes|;
  }

  lemma QueueFits(nodes: seq<Node>, root: string, r: nat, depth: int, queue: seq<nat>, depths: seq<nat>, head: nat)
    requires Traversed(nodes, root, r, depth, queue, depths, head) && head < |queue|
    ensures queue[head] < |nodes| && |queue| <= |nodes|
    ensures Climb(Parents(nodes), nodes[queue[head]].id, depths[queue[head]]) == root
  {
    FullQueue(queue, |nodes|);
  }

  lemma FlagCheck(nodes: seq<Node>, depth: int, kids: seq<nat>, index: nat, level: nat)
    requires index < |nodes| && AreKids(nodes, kids, index, |nodes|) && 0 <= depth
    ensures forall c :: c in kids ==> c < |nodes|
    ensures var has := |kids| != 0;
            FlagOk(nodes, depth, index, level) <==>
              !((depth > 0 && level > depth) || (has && !nodes[index].hasChildren)
                || ((depth == 0 || level < depth) && nodes[index].hasChildren != has))
  {
    if |kids| != 0 { assert kids[0] in kids; }
  }

  lemma FlagFails(nodes: seq<Node>, root: string, depth: int, index: nat, level: nat)
    requires index < |nodes| && Climb(Parents(nodes), nodes[index].id, level) == root
             && !FlagOk(nodes, depth, index, level)
    ensures !QueryOk(root, depth, nodes)
  {
    hide FlagOk;
  }

  lemma QueryIsRooted(root: string, depth: int, nodes: seq<Node>)
    ensures QueryOk(root, depth, nodes) ==> Rooted(root, nodes) && KnownParents(nodes) && root in Parents(nodes)
    ensures UniqueIds(nodes) && root in Parents(nodes) ==> exists i :: 0 <= i < |nodes| && nodes[i].id == root
  {
    hide NodeIdText, FlagsOk;
    if UniqueIds(nodes) { ParentsLookup(nodes); }
  }

  lemma KnownIsKnown(root: string, r: nat, nodes: seq<Node>, byId: map<string, nat>)
    requires Rooted(root, nodes) && r < |nodes| && nodes[r].id == root
    requires forall id :: id in byId ==> byId[id] < |nodes| && nodes[byId[id]].id == id
    requires forall i :: 0 <= i < |nodes| ==> nodes[i].id in byId
    ensures KnownParents(nodes) <==> forall i :: 0 <= i < |nodes| && nodes[i].id != root ==> nodes[i].parent in byId
  {
    NamesAreIds(root, nodes);
    ParentsLookup(nodes);
    hide Parents, NodeIdText;
  }

  // ---------------------------------------------------------------------- agreement

  /** The same structure with the flag of every node set to what is reported below it. */
  function Annotate(nodes: seq<Node>): (r: seq<Node>)
    ensures |r| == |nodes| && forall i :: 0 <= i < |nodes|
                                          ==> r[i] == nodes[i].(hasChildren := HasKids(nodes, nodes[i].id))
  {
    seq(|nodes|, i requires 0 <= i < |nodes| => nodes[i].(hasChildren := HasKids(nodes, nodes[i].id)))
  }

  lemma {:induction false} SameParents(a: seq<Node>, b: seq<Node>)
    requires |a| == |b| && forall i :: 0 <= i < |a| ==> a[i].id == b[i].id && a[i].parent == b[i].parent
    ensures Parents(a) == Parents(b)
  {
    if a != [] { SameParents(a[..|a| - 1], b[..|b| - 1]); }
  }

  /**
   * Both validators accept the same structures: the walk accepts a list exactly when the traversal
   * accepts it, unlimited in depth and with right flags, under some root.
   */
  lemma ValidatorsAgree(nodes: seq<Node>)
    ensures Complete(nodes) <==> exists root :: QueryOk(root, 0, Annotate(nodes))
  {
    var marked := Annotate(nodes);
    if Complete(nodes) {
      SameShape(nodes, marked);
      RightFlags(nodes);
      var r :| 0 <= r < |nodes| && nodes[r].parent == "";
      ParentsLookup(marked);
      assert NodeOk(nodes[r], true);
      hide Complete, NodeIdText, FlagsOk;
      assert marked[r].parent == "";
      assert QueryOk(marked[r].id, 0, marked);
    }
    if exists root :: QueryOk(root, 0, marked) {
      hide Complete;
      SameShape(marked, nodes);
    }
  }

  lemma RightFlags(nodes: seq<Node>)
    ensures forall root :: FlagsOk(root, 0, Annotate(nodes))
  {
    var marked := Annotate(nodes);
    SameKids(nodes, marked);
    hide HasKids;
  }

  lemma SameKids(a: seq<Node>, b: seq<Node>)
    requires |a| == |b| && forall i :: 0 <= i < |a| ==> a[i].id == b[i].id && a[i].parent == b[i].parent
    ensures forall id :: HasKids(a, id) == HasKids(b, id)
  {
    forall id ensures HasKids(a, id) == HasKids(b, id) {
      if HasKids(a, id) { var i :| 0 <= i < |a| && a[i].parent == id; assert b[i].parent == id; }
      if HasKids(b, id) { var i :| 0 <= i < |b| && b[i].parent == id; assert a[i].parent == id; }
    }
  }

  predicate Alike(a: Node, b: Node) { a.id == b.id && a.parent == b.parent && a.fields == b.fields }

  /** Flags play no part in completeness. */
  lemma SameShape(a: seq<Node>, b: seq<Node>)
    requires |a| == |b| && (forall i :: 0 <= i < |a| ==> Alike(a[i], b[i])) && Complete(a)
    ensures Complete(b)
  {
    SameParents(a, b);
    SameListing(a, b);
    hide Parents, Listed, OneRoot, ReachesRoot;
    forall i | 0 <= i < |b| ensures ReachesRoot(Parents(b), b[i].id) {
      assert Alike(a[i], b[i]) && ReachesRoot(Parents(a), a[i].id);
    }
    forall i | 0 <= i < |b| && b[i].parent != "" ensures b[i].parent in Parents(b) { assert Alike(a[i], b[i]); }
  }

  lemma SameListing(a: seq<Node>, b: seq<Node>)
    requires |a| == |b| && (forall i :: 0 <= i < |a| ==> Alike(a[i], b[i])) && Listed(a) && OneRoot(a)
    ensures Listed(b) && OneRoot(b)
  {
    hide NodeIdText;
    var i :| 0 <= i < |a| && a[i].parent == "";
    assert Alike(a[i], b[i]);
    forall i | 0 <= i < |b| ensures NodeOk(b[i], b[i].parent == "") {
      assert Alike(a[i], b[i]) && NodeOk(a[i], a[i].parent == "");
    }
    forall i, j | 0 <= i < j < |b| ensures b[i].id != b[j].id && (b[i].parent != "" || b[j].parent != "") {
      assert Alike(a[i], b[i]) && Alike(a[j], b[j]);
      assert a[i].id != a[j].id;
    }
  }
}
