/**
 * The tree a node sees, and the way a frame takes through it. A node knows its parent, its children
 * and, for every descendant, the child the descendant is reached through.
 */
module Tree {
  import opened Basics

  /** A fixed forest: who is whose parent, the epoch of each edge, and how deep each node lies. */
  datatype Tree = Tree(parent: map<NodeId, NodeId>, epoch: map<NodeId, nat>, depth: map<NodeId, nat>)

  ghost predicate TreeOk(t: Tree) {
    && t.parent.Keys <= t.depth.Keys && t.epoch.Keys == t.parent.Keys && 0 !in t.depth
    && (forall c :: c in t.parent ==>
          && t.parent[c] in t.depth && t.depth[c] == t.depth[t.parent[c]] + 1 && t.epoch[c] > 0)
  }

  /** `n` is `a` or one of its descendants. */
  ghost predicate Below(t: Tree, n: NodeId, a: NodeId)
    requires TreeOk(t) && n in t.depth
    decreases t.depth[n]
  {
    n == a || (n in t.parent && Below(t, t.parent[n], a))
  }

  lemma {:induction false} BelowIsDeeper(t: Tree, n: NodeId, a: NodeId)
    requires TreeOk(t) && n in t.depth && Below(t, n, a)
    ensures a in t.depth && t.depth[a] <= t.depth[n] && (t.depth[a] == t.depth[n] ==> a == n)
    decreases t.depth[n]
  {
    if n != a { BelowIsDeeper(t, t.parent[n], a); }
  }

  lemma {:induction false} BelowTrans(t: Tree, n: NodeId, a: NodeId, b: NodeId)
    requires TreeOk(t) && n in t.depth && Below(t, n, a) && a in t.depth && Below(t, a, b)
    ensures Below(t, n, b)
    decreases t.depth[n]
  {
    if n != a { BelowTrans(t, t.parent[n], a, b); }
  }

  /** Ancestors of one node are comparable: the shallower one is above the deeper one. */
  lemma {:induction false} AncestorsAreAChain(t: Tree, n: NodeId, a: NodeId, b: NodeId)
    requires TreeOk(t) && n in t.depth && Below(t, n, a) && Below(t, n, b)
    requires a in t.depth && b in t.depth && t.depth[b] <= t.depth[a]
    ensures Below(t, a, b)
    decreases t.depth[n]
  {
    if n == b {
      BelowIsDeeper(t, n, a);
    } else if n != a {
      AncestorsAreAChain(t, t.parent[n], a, b);
    }
  }

  /** The child of `a` on the way down to its proper descendant `n`. */
  ghost function Toward(t: Tree, a: NodeId, n: NodeId): (c: NodeId)
    requires TreeOk(t) && n in t.depth && n != a && Below(t, n, a)
    ensures c in t.parent && t.parent[c] == a && Below(t, n, c)
    decreases t.depth[n]
  {
    if t.parent[n] == a then n else Toward(t, a, t.parent[n])
  }

  lemma TowardIsUnique(t: Tree, a: NodeId, n: NodeId, c: NodeId)
    requires TreeOk(t) && n in t.depth && n != a && Below(t, n, a)
    requires c in t.parent && t.parent[c] == a && Below(t, n, c)
    ensures c == Toward(t, a, n)
  {
    var d := Toward(t, a, n);
    AncestorsAreAChain(t, n, c, d);
    BelowIsDeeper(t, c, d);
  }

  // ------------------------------------------------------------------- one node's view

  /** The routing state of one node. */
  datatype View = View(
    local: NodeId, parent: Option<NodeId>, parentEpoch: nat, children: map<NodeId, nat>, routes: map<NodeId, NodeId>)

  /** The view a node of a fixed tree has once every route has been announced. */
  ghost function ViewOf(t: Tree, n: NodeId): (v: View)
    requires TreeOk(t) && n in t.depth
  {
    View(n,
         if n in t.parent then Some(t.parent[n]) else None,
         if n in t.parent then t.epoch[n] else 0,
         map c | c in t.parent && t.parent[c] == n :: t.epoch[c],
         map x | x in t.depth && x != n && Below(t, x, n) :: Toward(t, n, x))
  }

  datatype Route = Local | Down(next: NodeId, epoch: nat) | Up(next: NodeId) | Unreachable

  function RouteTo(v: View, target: NodeId): (r: Route) {
    if target == v.local then Local
    else if target in v.routes then
      Down(v.routes[target], if v.routes[target] in v.children then v.children[v.routes[target]] else 0)
    else if v.parent.Some? then Up(v.parent.value)
    else Unreachable
  }

  /** A source a child link may speak for: the child itself or a node routed through it. */
  predicate SpeaksFor(v: View, child: NodeId, source: NodeId) {
    child in v.children && (source == child || (source in v.routes && v.routes[source] == child))
  }

  lemma SpeaksForSubtree(t: Tree, n: NodeId, child: NodeId, source: NodeId)
    requires TreeOk(t) && n in t.depth && child in t.parent && t.parent[child] == n
    ensures SpeaksFor(ViewOf(t, n), child, source) <==> source in t.depth && Below(t, source, child)
  {
    if source in t.depth && Below(t, source, child) {
      BelowTrans(t, source, child, n);
      BelowIsDeeper(t, source, child);
      TowardIsUnique(t, n, source, child);
    }
  }

  // ----------------------------------------------------------------------- trails

  ghost function Under(t: Tree, target: NodeId, a: NodeId): bool
    requires TreeOk(t)
  {
    target in t.depth && Below(t, target, a)
  }

  /** How far a frame can still move in its present direction. */
  ghost function Left(t: Tree, a: NodeId, target: NodeId): (r: nat)
    requires TreeOk(t) && a in t.depth
  {
    if Under(t, target, a) then
      BelowIsDeeper(t, target, a);
      t.depth[target] - t.depth[a]
    else t.depth[a]
  }

  /** The nodes from `a` to `target`: up until the target is below, then down. */
  ghost function Trail(t: Tree, a: NodeId, target: NodeId): (r: seq<NodeId>)
    requires TreeOk(t) && a in t.depth
    decreases !Under(t, target, a), Left(t, a, target)
  {
    if a == target then [a]
    else if Under(t, target, a) then
      BelowIsDeeper(t, target, a);
      var c := Toward(t, a, target);
      BelowIsDeeper(t, target, c);
      [a] + Trail(t, c, target)
    else if a in t.parent then [a] + Trail(t, t.parent[a], target)
    else [a]
  }

  /** The node where a frame stops climbing: the lowest one with the target below it. */
  ghost function Turn(t: Tree, a: NodeId, target: NodeId): (r: NodeId)
    requires TreeOk(t) && a in t.depth
    ensures r in t.depth
    decreases t.depth[a]
  {
    if Under(t, target, a) || a !in t.parent then a else Turn(t, t.parent[a], target)
  }

  /** The turn is the lowest common ancestor, if there is a common ancestor at all. */
  lemma {:induction false} TurnIsLowest(t: Tree, a: NodeId, target: NodeId, x: NodeId)
    requires TreeOk(t) && a in t.depth && target in t.depth
    requires x in t.depth && Below(t, a, x) && Below(t, target, x)
    ensures Below(t, a, Turn(t, a, target)) && Below(t, target, Turn(t, a, target)) && Below(t, Turn(t, a, target), x)
    decreases t.depth[a]
  {
    if Under(t, target, a) {
    } else {
      TurnIsLowest(t, t.parent[a], target, x);
    }
  }

  lemma {:induction false} TrailBounds(t: Tree, a: NodeId, target: NodeId, x: NodeId)
    requires TreeOk(t) && a in t.depth && x in Trail(t, a, target)
    ensures x in t.depth
    ensures Under(t, target, a) ==> Under(t, target, x) && t.depth[a] <= t.depth[x]
    ensures Under(t, target, x) || t.depth[x] <= t.depth[a]
    decreases !Under(t, target, a), Left(t, a, target)
  {
    if x != a && a != target {
      if Under(t, target, a) {
        BelowIsDeeper(t, target, a);
        var c := Toward(t, a, target);
        BelowIsDeeper(t, target, c);
        TrailBounds(t, c, target, x);
      } else if a in t.parent {
        TrailBounds(t, t.parent[a], target, x);
      }
    }
  }

  predicate NoRepeats(p: seq<NodeId>) { forall i, j :: 0 <= i < j < |p| ==> p[i] != p[j] }

  /** No node lies twice on a trail. */
  lemma {:induction false} TrailIsSimple(t: Tree, a: NodeId, target: NodeId)
    requires TreeOk(t) && a in t.depth
    ensures NoRepeats(Trail(t, a, target))
    decreases !Under(t, target, a), Left(t, a, target)
  {
    if a != target && (Under(t, target, a) || a in t.parent) {
      var next := NextOn(t, a, target);
      TrailIsSimple(t, next, target);
      if a in Trail(t, next, target) { TrailBounds(t, next, target, a); }
      assert Trail(t, a, target) == [a] + Trail(t, next, target);
    }
  }

  /** The step a trail takes out of `a`. */
  ghost function NextOn(t: Tree, a: NodeId, target: NodeId): (c: NodeId)
    requires TreeOk(t) && a in t.depth && a != target && (Under(t, target, a) || a in t.parent)
    ensures c in t.depth
    ensures Under(t, target, a) ==> c in t.parent && t.parent[c] == a && Under(t, target, c)
                                    && t.depth[c] <= t.depth[target]
    ensures !Under(t, target, a) ==> c == t.parent[a]
    ensures Trail(t, a, target) == [a] + Trail(t, c, target)
  {
    if Under(t, target, a) then
      BelowIsDeeper(t, target, a);
      BelowIsDeeper(t, target, Toward(t, a, target));
      Toward(t, a, target)
    else t.parent[a]
  }

  /** A trail between nodes of one tree starts at the one, ends at the other, and is one edge a step. */
  lemma {:induction false} TrailConnects(t: Tree, a: NodeId, target: NodeId, x: NodeId)
    requires TreeOk(t) && a in t.depth && target in t.depth
    requires x in t.depth && Below(t, a, x) && Below(t, target, x)
    ensures var p := Trail(t, a, target);
            && p != [] && p[0] == a && p[|p| - 1] == target
            && (forall i :: 0 <= i < |p| - 1 ==> Adjacent(t, p[i], p[i + 1]))
    decreases !Under(t, target, a), Left(t, a, target)
  {
    if a != target {
      if !Under(t, target, a) { assert a != x; }
      var next := NextOn(t, a, target);
      if Under(t, target, a) {
        TrailConnects(t, next, target, next);
      } else {
        TrailConnects(t, next, target, x);
      }
      var p, q := Trail(t, a, target), Trail(t, next, target);
      assert p == [a] + q;
      forall i | 0 <= i < |p| - 1 ensures Adjacent(t, p[i], p[i + 1]) {
        if i > 0 { assert p[i] == q[i - 1] && p[i + 1] == q[i]; }
      }
    }
  }

  predicate Adjacent(t: Tree, a: NodeId, b: NodeId) {
    (a in t.parent && t.parent[a] == b) || (b in t.parent && t.parent[b] == a)
  }

  predicate IsPath(t: Tree, p: seq<NodeId>, a: NodeId, b: NodeId) {
    && p != [] && p[0] == a && p[|p| - 1] == b && (forall x :: x in p ==> x in t.depth)
    && (forall i :: 0 <= i < |p| - 1 ==> Adjacent(t, p[i], p[i + 1]))
  }

  lemma PathTail(t: Tree, p: seq<NodeId>, a: NodeId, b: NodeId)
    requires IsPath(t, p, a, b) && |p| > 1
    ensures IsPath(t, p[1..], p[1], b) && Adjacent(t, a, p[1])
  {
    var q := p[1..];
    forall i | 0 <= i < |q| - 1 ensures Adjacent(t, q[i], q[i + 1]) { assert q[i] == p[i + 1] && q[i + 1] == p[i + 2]; }
  }

  /** The only edge out of the subtree of `s` joins `s` to its parent, so a path that crosses has both on it. */
  lemma {:induction false} CrossingPassesTheEdge(t: Tree, p: seq<NodeId>, a: NodeId, b: NodeId, s: NodeId)
    requires TreeOk(t) && IsPath(t, p, a, b) && s in t.parent && Under(t, a, s) != Under(t, b, s)
    ensures s in p && t.parent[s] in p
  {
    PathTail(t, p, a, b);
    if Under(t, p[1], s) == Under(t, b, s) {
      CrossingEdge(t, a, p[1], s);
      assert a in p && p[1] in p;
    } else {
      CrossingPassesTheEdge(t, p[1..], p[1], b, s);
    }
  }

  lemma CrossingEdge(t: Tree, u: NodeId, v: NodeId, s: NodeId)
    requires TreeOk(t) && u in t.depth && v in t.depth && Adjacent(t, u, v) && s in t.parent
             && Under(t, u, s) != Under(t, v, s)
    ensures (u == s && v == t.parent[s]) || (v == s && u == t.parent[s])
  {
  }

  /** A trail is the only path between its ends that visits no node twice. */
  lemma {:induction false} TrailIsTheOnlyPath(t: Tree, p: seq<NodeId>, a: NodeId, target: NodeId)
    requires TreeOk(t) && a in t.depth && target in t.depth && IsPath(t, p, a, target) && NoRepeats(p)
    ensures p == Trail(t, a, target)
    decreases |p|
  {
    if a == target {
      assert p[0] == p[|p| - 1];
    } else {
      PathTail(t, p, a, target);
      assert a !in p[1..];
      assert NoRepeats(p[1..]);
      TrailIsTheOnlyPath(t, p[1..], p[1], target);
      FirstStepIsForced(t, p[1..], p[1], a, target);
      assert p == [a] + p[1..];
    }
  }

  lemma FirstStepIsForced(t: Tree, q: seq<NodeId>, b: NodeId, a: NodeId, target: NodeId)
    requires TreeOk(t) && a in t.depth && b in t.depth && target in t.depth && a != target
    requires IsPath(t, q, b, target) && a !in q && Adjacent(t, a, b)
    ensures (Under(t, target, a) || a in t.parent) && b == NextOn(t, a, target)
  {
    if a in t.parent && t.parent[a] == b {
      if Under(t, target, a) {
        assert !Under(t, b, a) by { if Under(t, b, a) { BelowIsDeeper(t, b, a); } }
        CrossingPassesTheEdge(t, q, b, target, a);
      }
    } else {
      if !Under(t, target, b) {
        CrossingPassesTheEdge(t, q, b, target, b);
      } else {
        BelowTrans(t, target, b, a);
        TowardIsUnique(t, a, target, b);
      }
    }
  }

  /** Following the routes each node knows is following the trail. */
  lemma RouteFollowsTrail(t: Tree, a: NodeId, target: NodeId)
    requires TreeOk(t) && a in t.depth
    ensures match RouteTo(ViewOf(t, a), target)
            case Local => a == target
            case Down(next, epoch) =>
              && a != target && Under(t, target, a) && next == NextOn(t, a, target) && next in t.parent
                 && t.parent[next] == a
              && epoch == t.epoch[next]
            case Up(next) => a != target && !Under(t, target, a) && a in t.parent
              && next == t.parent[a] == NextOn(t, a, target)
            case Unreachable => a != target && !Under(t, target, a) && a !in t.parent
  {
  }
}
