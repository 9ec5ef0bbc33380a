/**
 * That frames get where they are going: a node passes a frame on exactly when nothing speaks against it, towards the
 * target and in the right shape, and with sessions up and the turning node willing every frame arrives.
 */
module RoutingProgress {
  import opened Basics
  import opened Tree
  import opened Routing
  import opened RoutingNetwork

  // ---------------------------------------------------------------- what a link lets in

  /**
   * A link lets in exactly: from a child, anything but control that speaks for a node of that child's subtree and for
   * nobody else; from the parent, control with the epoch of the link, and other frames that speak for nobody else, of
   * which requests only from the parent itself.
   */
  lemma AcceptsExactly(t: Tree, node: NodeId, o: Origin, f: Frame)
    requires TreeOk(t) && node in t.depth
    ensures Accepts(ViewOf(t, node), o, f)
            <==> match o
                 case Here => true
                 case FromChild(c) =>
                   c in t.parent && t.parent[c] == node && !f.phase.Control? && f.principal == 0
                     && Under(t, f.source, c)
                 case FromParent(p) =>
                   if f.phase.Control? then node in t.parent && t.parent[node] == p && f.epoch == t.epoch[node]
                   else f.principal == 0 && (f.phase.Request? ==> f.source == p)
  {
    if o.FromChild? {
      var c := o.child;
      if c in t.parent && t.parent[c] == node {
        SpeaksForSubtree(t, node, c, f.source);
        hide SpeaksFor, Below;
      }
    }
  }

  // ------------------------------------------------------------------- one hop

  /** The turning node can keep one more interest of that message. */
  predicate Trackable(interests: map<MessageId, Interest>, f: Frame, w: World, maxPending: int) {
    w.generation != 0 && w.canTrack && |interests| < maxPending && f.id !in interests
  }

  /** The policy of the turning node lets this request through, and its interest can be kept. */
  predicate Admitted(node: NodeId, interests: map<MessageId, Interest>, f: Frame, w: World, maxPending: int) {
    || Subject(f) == node
    || (&& NeedsAuthority(f.operation) && w.allows(QuestionOf(f))
        && (f.operation.Subscribe? ==> Trackable(interests, f, w, maxPending)))
  }

  /** The event answers an interest that was let through here and that the policy still allows. */
  predicate Awaited(interests: map<MessageId, Interest>, f: Frame, w: World) {
    && f.correlation in interests
    && var x := interests[f.correlation];
       x.source == f.target && x.target == f.source && w.allows(InterestQuestion(x))
  }

  /** There is a way on, and nothing but the session to the next node can keep the frame from taking it. */
  ghost predicate Cleared(t: Tree, interests: map<MessageId, Interest>, f: Flight, w: World, maxPending: int)
    requires TreeOk(t) && f.at in t.depth
  {
    if Under(t, f.frame.target, f.at) then
      && (f.frame.phase.Request? ==> Admitted(f.at, interests, f.frame, w, maxPending))
      && (f.origin.FromChild? && IsEvent(f.frame) ==> Awaited(interests, f.frame, w))
    else f.at in t.parent && !f.frame.phase.Control?
  }

  /** The shape in which a frame leaves for `next`: promoted where it turns, with the epoch of the edge downwards. */
  ghost function Passed(t: Tree, f: Flight, next: NodeId): (g: Frame)
    requires TreeOk(t) && f.at in t.depth && (Under(t, f.frame.target, f.at) ==> next in t.epoch)
  {
    if Under(t, f.frame.target, f.at) && (f.frame.phase.Request? || f.frame.phase.Control?)
    then f.frame.(phase := Control, epoch := t.epoch[next]) else f.frame
  }

  lemma TracksExactly(t: Tree, interests: map<MessageId, Interest>, f: Flight, w: World, maxPending: int)
    requires TreeOk(t) && Placed(t, f) && !f.origin.FromParent? && Under(t, f.frame.target, f.at)
    ensures CanTrack(ViewOf(t, f.at), interests, f.frame, w, maxPending)
            <==> Trackable(interests, f.frame, w, maxPending)
  {
    Climbs(t, f);
    RouteFollowsTrail(t, f.at, f.frame.source);
    RouteFollowsTrail(t, f.at, f.frame.target);
    hide Placed, ViewOf, RouteTo;
  }

  /** Upwards everything but control goes on as it is. */
  lemma GoesUp(v: View, interests: map<MessageId, Interest>, f: Frame, o: Origin, w: World, maxPending: int)
    requires v.local != f.target && RouteTo(v, f.target).Up?
    requires PeerOf(o).Some? ==> NextHop(RouteTo(v, f.target)) != PeerOf(o)
    ensures var fate := RouteFrame(v, interests, f, o, w, maxPending).fate;
            && (fate.Forward? <==> !f.phase.Control? && w.sessionUp)
            && (fate.Forward? ==> fate.next == RouteTo(v, f.target).next && fate.frame == f)
  {
    hide RouteTo, PassDown, Untrack;
  }

  /** Downwards a request has to be admitted and is promoted, and an event from a child has to be awaited. */
  lemma GoesDown(v: View, interests: map<MessageId, Interest>, f: Frame, o: Origin, w: World, maxPending: int)
    requires v.local != f.target && RouteTo(v, f.target).Down? && RouteTo(v, f.target).epoch != 0
    requires PeerOf(o).Some? ==> NextHop(RouteTo(v, f.target)) != PeerOf(o)
    requires f.phase.Request? ==> (CanTrack(v, interests, f, w, maxPending) <==> Trackable(interests, f, w, maxPending))
    ensures var fate := RouteFrame(v, interests, f, o, w, maxPending).fate;
            var route := RouteTo(v, f.target);
            && (fate.Forward? <==> && w.sessionUp
                                   && (f.phase.Request? ==> Admitted(v.local, interests, f, w, maxPending))
                                   && (o.FromChild? && IsEvent(f) ==> Awaited(interests, f, w)))
            && (fate.Forward? ==> && fate.next == route.next
                                  && fate.frame == if f.phase.Request? || f.phase.Control?
                                                   then f.(phase := Control, epoch := route.epoch) else f)
  {
    hide RouteTo, CanTrack, Trackable, InterestQuestion;
  }

  /**
   * A frame in its place and not at its target is passed on exactly when it is cleared and the session is up, and then
   * to the next node of its trail and in the right shape.
   */
  lemma PassedOnExactly(t: Tree, interests: map<MessageId, Interest>, f: Flight, w: World, maxPending: int)
    requires TreeOk(t) && Placed(t, f) && Phased(t, f) && f.at != f.frame.target
    ensures var fate := RouteFrame(ViewOf(t, f.at), interests, f.frame, f.origin, w, maxPending).fate;
            && (fate.Forward? <==> Cleared(t, interests, f, w, maxPending) && w.sessionUp)
            && (fate.Forward? ==> && (Under(t, f.frame.target, f.at) || f.at in t.parent)
                                  && fate.next == NextOn(t, f.at, f.frame.target)
                                  && fate.frame == Passed(t, f, fate.next))
  {
    var v := ViewOf(t, f.at);
    assert v.local == f.at;
    RouteFollowsTrail(t, f.at, f.frame.target);
    NeverTurnsBack(t, f);
    assert f.frame.phase.Request? ==> !f.origin.FromParent?;
    if Under(t, f.frame.target, f.at) {
      ChildEpochs(t, f.at, f.frame.target);
      if f.frame.phase.Request? { TracksExactly(t, interests, f, w, maxPending); }
      hide ViewOf, RouteTo, CanTrack, RouteFrame, Placed, Phased;
      GoesDown(v, interests, f.frame, f.origin, w, maxPending);
    } else if f.at in t.parent {
      hide ViewOf, RouteTo, RouteFrame, Placed, Phased;
      GoesUp(v, interests, f.frame, f.origin, w, maxPending);
    } else {
      hide ViewOf, RouteTo, PassDown, Placed, Phased;
    }
  }

  // ------------------------------------------------------------------------ the whole way

  /** Nothing on the rest of its way keeps the frame: sessions are up, and the turning node lets it through. */
  ghost predicate Free(t: Tree, n: Network, f: Flight, worlds: NodeId -> World, maxPending: int)
    requires TreeOk(t) && f.at in t.depth
  {
    var turn := Turn(t, f.at, f.frame.target);
    && (forall x: NodeId :: worlds(x).sessionUp)
    && Under(t, f.frame.target, turn) && (f.frame.phase.Control? ==> Under(t, f.frame.target, f.at))
    && (turn != f.frame.target ==>
          && (f.frame.phase.Request? ==> Admitted(turn, InterestsAt(n, turn), f.frame, worlds(turn), maxPending))
          && (IsEvent(f.frame) && !f.origin.FromParent? && !(f.origin.Here? && f.at == turn) ==>
                Awaited(InterestsAt(n, turn), f.frame, worlds(turn))))
  }

  /** The same message, as it was or promoted to control on its way down. */
  predicate SameMessage(f: Frame, g: Frame) {
    g == f || ((f.phase.Request? || f.phase.Control?) && g == f.(phase := Control, epoch := g.epoch))
  }

  lemma FreeIsCleared(t: Tree, n: Network, f: Flight, worlds: NodeId -> World, maxPending: int)
    requires TreeOk(t) && Placed(t, f) && Phased(t, f) && f.at != f.frame.target && Free(t, n, f, worlds, maxPending)
    ensures Cleared(t, InterestsAt(n, f.at), f, worlds(f.at), maxPending) && worlds(f.at).sessionUp
  {
    hide Placed, Admitted, Awaited, Trail;
  }

  lemma ForwardIsSilent(v: View, interests: map<MessageId, Interest>, f: Frame, o: Origin, w: World, maxPending: int)
    requires RouteFrame(v, interests, f, o, w, maxPending).fate.Forward?
    ensures !RouteFrame(v, interests, f, o, w, maxPending).replies
  {
    hide RouteTo, Wanted, CanTrack;
  }

  /** What leaves a node in its place arrives in its place. */
  lemma ArrivesInPlace(t: Tree, f: Flight, fate: Fate)
    requires TreeOk(t) && Placed(t, f) && Phased(t, f) && f.at != f.frame.target && fate.Forward?
    requires Under(t, f.frame.target, f.at) || (f.at in t.parent && !f.frame.phase.Control?)
    requires fate.next == NextOn(t, f.at, f.frame.target) && fate.frame == Passed(t, f, fate.next)
    ensures var g := Onward(t, f, fate)[0];
            && Placed(t, g) && Phased(t, g) && SameMessage(f.frame, g.frame)
            && (if Under(t, f.frame.target, f.at) then g.origin.FromParent? && Under(t, f.frame.target, g.at)
                else g.origin.FromChild? && g.frame == f.frame && g.at == t.parent[f.at])
  {
    RouteFollowsTrail(t, f.at, f.frame.target);
    var g := Onward(t, f, fate)[0];
    ForwardIsPlaced(t, f, fate, g);
    hide Placed, ViewOf, RouteTo, Under;
  }

  /** One handling takes a free frame one step along its trail, and leaves everything else alone. */
  lemma OneHop(t: Tree, maxPending: int, n: Network, i: nat, worlds: NodeId -> World, replyId: MessageId)
    requires TreeOk(t) && i < |n.flights| && Placed(t, n.flights[i]) && Phased(t, n.flights[i])
    requires n.flights[i].at != n.flights[i].frame.target && Free(t, n, n.flights[i], worlds, maxPending)
    ensures var f := n.flights[i];
            var m := HandleFlight(t, maxPending, n, i, worlds(f.at), replyId);
            && |m.flights| == |n.flights| && RemoveAt(m.flights, |n.flights| - 1) == RemoveAt(n.flights, i)
            && m.acted == n.acted
            && var g := m.flights[|n.flights| - 1];
               && Placed(t, g) && Phased(t, g) && SameMessage(f.frame, g.frame) && Free(t, m, g, worlds, maxPending)
               && (Under(t, f.frame.target, f.at) || f.at in t.parent) && g.at == NextOn(t, f.at, f.frame.target)
  {
    var f := n.flights[i];
    var interests, w := InterestsAt(n, f.at), worlds(f.at);
    var out := RouteFrame(ViewOf(t, f.at), interests, f.frame, f.origin, w, maxPending);
    var m := HandleFlight(t, maxPending, n, i, w, replyId);
    NeverRefused(t, f);
    FreeIsCleared(t, n, f, worlds, maxPending);
    PassedOnExactly(t, interests, f, w, maxPending);
    ForwardIsSilent(ViewOf(t, f.at), interests, f.frame, f.origin, w, maxPending);
    var g := Onward(t, f, out.fate)[0];
    assert m.flights == RemoveAt(n.flights, i) + [g] && m.acted == n.acted
           && m.interests == n.interests[f.at := out.interests]
    by {
      hide RouteFrame, ViewOf, Placed, Phased, Free, Cleared, Accepts;
      assert Onward(t, f, out.fate) == [g];
      assert RemoveAt(n.flights, i) + [g] + [] == RemoveAt(n.flights, i) + [g];
    }
    assert Under(t, f.frame.target, f.at) || (f.at in t.parent && !f.frame.phase.Control?);
    hide RouteFrame, ViewOf, HandleFlight;
    ArrivesInPlace(t, f, out.fate);
    assert f.origin.FromParent? ==> Under(t, f.frame.target, f.at);
    StaysFree(t, n, f, m, g, worlds, maxPending);
    LastRemoved(RemoveAt(n.flights, i), g);
  }

  lemma LastRemoved<T>(xs: seq<T>, x: T)
    ensures RemoveAt(xs + [x], |xs|) == xs
  {}

  lemma StaysFree(t: Tree, n: Network, f: Flight, m: Network, g: Flight, worlds: NodeId -> World, maxPending: int)
    requires TreeOk(t) && f.at in t.depth && g.at in t.depth && f.at != f.frame.target
    requires Free(t, n, f, worlds, maxPending) && SameMessage(f.frame, g.frame) && Phased(t, g)
    requires forall x :: x != f.at ==> InterestsAt(m, x) == InterestsAt(n, x)
    requires if Under(t, f.frame.target, f.at) then g.origin.FromParent? && Under(t, f.frame.target, g.at)
             else !f.origin.FromParent? && f.at in t.parent && g.origin.FromChild? && g.frame == f.frame
                  && g.at == t.parent[f.at]
    ensures Free(t, m, g, worlds, maxPending)
  {
    hide Admitted, Awaited, Below;
    var turn := Turn(t, f.at, f.frame.target);
    if !Under(t, f.frame.target, f.at) {
      assert turn == Turn(t, g.at, g.frame.target) && turn != f.at;
      assert InterestsAt(m, turn) == InterestsAt(n, turn);
      hide Turn;
    }
  }

  ghost function Steps(t: Tree, maxPending: int, n: Network, actions: seq<Action>): (m: Network)
    requires TreeOk(t)
    decreases |actions|
  {
    if actions == [] then n else Steps(t, maxPending, Step(t, maxPending, n, actions[0]), actions[1..])
  }

  /**
   * Frames arrive: a frame whose way is free, handled once at every node of its trail, reaches its target as the same
   * message, and nothing else in the network changes but what those nodes remember.
   */
  lemma {:induction false} FrameArrives(t: Tree, maxPending: int, n: Network, i: nat, worlds: NodeId -> World,
      replyId: MessageId)
    returns (actions: seq<Action>, k: nat)
    requires TreeOk(t) && i < |n.flights| && Placed(t, n.flights[i]) && Phased(t, n.flights[i])
    requires Free(t, n, n.flights[i], worlds, maxPending)
    ensures |actions| + 1 == |Trail(t, n.flights[i].at, n.flights[i].frame.target)|
    ensures forall j :: 0 <= j < |actions| ==> actions[j].Handle?
    ensures var m := Steps(t, maxPending, n, actions);
            && k < |m.flights| && RemoveAt(m.flights, k) == RemoveAt(n.flights, i) && m.acted == n.acted
            && Placed(t, m.flights[k]) && Phased(t, m.flights[k]) && SameMessage(n.flights[i].frame, m.flights[k].frame)
            && m.flights[k].at == n.flights[i].frame.target
    decreases |Trail(t, n.flights[i].at, n.flights[i].frame.target)|
  {
    hide HandleFlight, Placed, Phased, Free, Trail, Step, Steps, SameMessage;
    var f := n.flights[i];
    if f.at == f.frame.target {
      Arrived(t, maxPending, n, f);
      return [], i;
    }
    HopStep(t, maxPending, n, i, worlds, replyId);
    var first := Handle(i, worlds(f.at), replyId);
    var m, last := Step(t, maxPending, n, first), |n.flights| - 1;
    var rest;
    rest, k := FrameArrives(t, maxPending, m, last, worlds, replyId);
    actions := [first] + rest;
    FirstOfSteps(t, maxPending, n, actions);
    assert actions[1..] == rest;
    SameMessages(f.frame, m.flights[last].frame, Steps(t, maxPending, m, rest).flights[k].frame);
  }

  lemma SameMessages(f: Frame, g: Frame, h: Frame)
    requires SameMessage(f, g) && SameMessage(g, h)
    ensures SameMessage(f, h)
  {}

  lemma Arrived(t: Tree, maxPending: int, n: Network, f: Flight)
    requires TreeOk(t) && Placed(t, f) && f.at == f.frame.target
    ensures f.at in t.depth && Trail(t, f.at, f.frame.target) == [f.at] && Steps(t, maxPending, n, []) == n
            && SameMessage(f.frame, f.frame)
  {}

  /** One step of the network takes a free frame one node along its trail. */
  lemma HopStep(t: Tree, maxPending: int, n: Network, i: nat, worlds: NodeId -> World, replyId: MessageId)
    requires TreeOk(t) && i < |n.flights| && Placed(t, n.flights[i]) && Phased(t, n.flights[i])
    requires n.flights[i].at != n.flights[i].frame.target && Free(t, n, n.flights[i], worlds, maxPending)
    ensures var f := n.flights[i];
            var m := Step(t, maxPending, n, Handle(i, worlds(f.at), replyId));
            && |m.flights| == |n.flights| && RemoveAt(m.flights, |n.flights| - 1) == RemoveAt(n.flights, i)
            && m.acted == n.acted
            && var g := m.flights[|n.flights| - 1];
               && Placed(t, g) && Phased(t, g) && SameMessage(f.frame, g.frame) && Free(t, m, g, worlds, maxPending)
               && g.frame.target == f.frame.target
               && Trail(t, f.at, f.frame.target) == [f.at] + Trail(t, g.at, g.frame.target)
  {
    OneHop(t, maxPending, n, i, worlds, replyId);
    hide HandleFlight, Placed, Phased, Free;
    var f := n.flights[i];
    var next := NextOn(t, f.at, f.frame.target);
    hide NextOn, Trail;
  }

  lemma FirstOfSteps(t: Tree, maxPending: int, n: Network, actions: seq<Action>)
    requires TreeOk(t) && actions != []
    ensures Steps(t, maxPending, n, actions)
            == Steps(t, maxPending, Step(t, maxPending, n, actions[0]), actions[1..])
  {
    hide Step;
  }

  // ------------------------------------------------------------------------ at the target

  /** At its target, and only there, a frame in its place is delivered; nobody's interests change. */
  lemma DeliveredExactly(t: Tree, interests: map<MessageId, Interest>, f: Flight, w: World, maxPending: int)
    requires TreeOk(t) && Placed(t, f)
    ensures var out := RouteFrame(ViewOf(t, f.at), interests, f.frame, f.origin, w, maxPending);
            && (out.fate.Deliver? <==> f.at == f.frame.target)
            && (out.fate.Deliver? ==> out.interests == interests && !out.replies)
  {
    RouteFollowsTrail(t, f.at, f.frame.target);
    assert ViewOf(t, f.at).local == f.at;
    hide ViewOf, RouteTo, Placed;
    if f.at == f.frame.target {
      hide PassDown, Untrack;
    } else {
      hide RouteFrame;
      NotDelivered(ViewOf(t, f.at), interests, f.frame, f.origin, w, maxPending);
    }
  }

  lemma NotDelivered(v: View, interests: map<MessageId, Interest>, f: Frame, o: Origin, w: World, maxPending: int)
    requires v.local != f.target && !RouteTo(v, f.target).Local?
    ensures !RouteFrame(v, interests, f, o, w, maxPending).fate.Deliver?
  {
    var route := RouteTo(v, f.target);
    hide RouteTo, Untrack, PassDown;
    if route.Down? {
      forall kept | true ensures !PassDown(v, kept, f, o, w, maxPending, route.next, route.epoch).fate.Deliver? {
        NotDeliveredDown(v, kept, f, o, w, maxPending, route.next, route.epoch);
      }
    }
  }

  lemma NotDeliveredDown(v: View, interests: map<MessageId, Interest>, f: Frame, o: Origin, w: World, maxPending: int,
      next: NodeId, epoch: nat)
    ensures !PassDown(v, interests, f, o, w, maxPending, next, epoch).fate.Deliver?
  {
    hide Wanted, CanTrack, Untrack;
  }

  /** A delivered request is acted upon exactly when it needs authority and is control, the node's own, or allowed. */
  lemma ActedUponExactly(t: Tree, maxPending: int, n: Network, i: nat, w: World, replyId: MessageId)
    requires TreeOk(t) && i < |n.flights| && Placed(t, n.flights[i]) && Phased(t, n.flights[i])
    requires n.flights[i].at == n.flights[i].frame.target
    ensures var f := n.flights[i];
            var m := HandleFlight(t, maxPending, n, i, w, replyId);
            var acts := NeedsAuthority(f.frame.operation)
                        && (f.frame.phase.Control? || Subject(f.frame) == f.at
                            || (f.frame.phase.Request? && w.allows(QuestionOf(f.frame))));
            && (acts ==> |m.acted| == |n.acted| + 1 && m.acted[..|n.acted|] == n.acted
                         && m.acted[|n.acted|].flight == f)
            && (!acts ==> m.acted == n.acted)
            && m.flights == RemoveAt(n.flights, i)
  {
    var f := n.flights[i];
    NeverRefused(t, f);
    DeliveredExactly(t, InterestsAt(n, f.at), f, w, maxPending);
    assert ViewOf(t, f.at).local == f.at;
    hide RouteFrame, ViewOf, Placed, Phased, Accepts;
    assert RemoveAt(n.flights, i) + [] + [] == RemoveAt(n.flights, i);
  }

  /**
   * A request that needs authority, with sessions up and the node where it turns saying yes, is acted upon at its
   * target after as many handlings as its trail has nodes.
   */
  lemma RequestIsActedUpon(t: Tree, maxPending: int, n: Network, i: nat, worlds: NodeId -> World, replyId: MessageId)
    returns (actions: seq<Action>)
    requires TreeOk(t) && i < |n.flights| && Placed(t, n.flights[i]) && Phased(t, n.flights[i])
    requires n.flights[i].frame.phase.Request? && NeedsAuthority(n.flights[i].frame.operation)
    requires Free(t, n, n.flights[i], worlds, maxPending)
    requires worlds(n.flights[i].frame.target).allows(QuestionOf(n.flights[i].frame))
    ensures |actions| == |Trail(t, n.flights[i].at, n.flights[i].frame.target)|
    ensures forall j :: 0 <= j < |actions| ==> actions[j].Handle?
    ensures var m := Steps(t, maxPending, n, actions);
            && |m.acted| == |n.acted| + 1 && m.acted[..|n.acted|] == n.acted
            && SameMessage(n.flights[i].frame, m.acted[|n.acted|].flight.frame)
            && m.acted[|n.acted|].flight.at == n.flights[i].frame.target && m.flights == RemoveAt(n.flights, i)
  {
    var k;
    actions, k := FrameArrives(t, maxPending, n, i, worlds, replyId);
    var m := Steps(t, maxPending, n, actions);
    var g := m.flights[k];
    var last := Handle(k, worlds(g.at), replyId);
    ActedUponExactly(t, maxPending, m, k, worlds(g.at), replyId);
    assert Step(t, maxPending, m, last) == HandleFlight(t, maxPending, m, k, worlds(g.at), replyId) by {
      hide HandleFlight, Placed, Phased, Free;
    }
    hide HandleFlight, Placed, Phased, Free, Step, Steps, Trail;
    OneMoreStep(t, maxPending, n, actions, last);
    actions := actions + [last];
  }

  /** The same from the making of the request on, in any network whatever. */
  lemma RequestReachesItsTarget(t: Tree, maxPending: int, n: Network, node: NodeId, f: Frame, worlds: NodeId -> World,
      replyId: MessageId)
    returns (actions: seq<Action>)
    requires TreeOk(t) && node in t.depth && MayMake(ViewOf(t, node), f) && f.phase.Request?
    requires NeedsAuthority(f.operation) && (forall x: NodeId :: worlds(x).sessionUp)
    requires var turn := Turn(t, node, f.target);
             && Under(t, f.target, turn) && worlds(f.target).allows(QuestionOf(f))
             && (turn != f.target ==> Admitted(turn, InterestsAt(n, turn), f, worlds(turn), maxPending))
    ensures |actions| == |Trail(t, node, f.target)| + 1 && actions[0] == Make(node, f)
    ensures var m := Steps(t, maxPending, n, actions);
            && |m.acted| == |n.acted| + 1 && m.acted[..|n.acted|] == n.acted && m.flights == n.flights
            && SameMessage(f, m.acted[|n.acted|].flight.frame) && m.acted[|n.acted|].flight.at == f.target
  {
    var flight := Flight(f, node, Here, [], None);
    var made := n.(flights := n.flights + [flight]);
    assert Step(t, maxPending, n, Make(node, f)) == made;
    assert Placed(t, flight) && Phased(t, flight) by {
      assert ViewOf(t, node).local == node && (ViewOf(t, node).parent.None? <==> node !in t.parent);
      assert [] + Trail(t, node, f.target) == Trail(t, node, f.target);
      hide Trail;
    }
    assert Free(t, made, flight, worlds, maxPending);
    hide ViewOf, Placed, Phased, Free, Step, Steps, Trail, Admitted;
    LastRemoved(n.flights, flight);
    var rest := RequestIsActedUpon(t, maxPending, made, |n.flights|, worlds, replyId);
    actions := [Make(node, f)] + rest;
    FirstOfSteps(t, maxPending, n, actions);
    assert actions[1..] == rest;
  }

  lemma {:induction false} OneMoreStep(t: Tree, maxPending: int, n: Network, actions: seq<Action>, last: Action)
    requires TreeOk(t)
    ensures Steps(t, maxPending, n, actions + [last]) == Step(t, maxPending, Steps(t, maxPending, n, actions), last)
    decreases |actions|
  {
    hide Step;
    if actions == [] {
      assert ([] + [last])[1..] == [];
      assert Steps(t, maxPending, Step(t, maxPending, n, last), []) == Step(t, maxPending, n, last);
    } else {
      assert (actions + [last])[1..] == actions[1..] + [last];
      OneMoreStep(t, maxPending, Step(t, maxPending, n, actions[0]), actions[1..], last);
    }
  }

  // ------------------------------------------------------------- what a node remembers and answers

  /** The request turns here and speaks for somebody else. */
  ghost predicate TurnsForAnother(t: Tree, f: Flight)
    requires TreeOk(t)
  {
    f.frame.phase.Request? && f.at != f.frame.target && Under(t, f.frame.target, f.at) && Subject(f.frame) != f.at
  }

  /** The error answers the subscription behind this interest. */
  predicate Fails(f: Frame, id: MessageId, x: Interest) {
    && f.phase.Response? && f.operation.ErrorReply? && id == f.correlation && x.source == f.target
    && x.target == f.source
  }

  /** The request ends the subscription behind this interest. */
  predicate Ends(f: Frame, id: MessageId, x: Interest) {
    f.operation.Unsubscribe? && id == f.correlation && x.source == f.source && x.target == f.target
  }

  /**
   * A node remembers an interest exactly from a subscription it passes down for another, until it passes down the
   * unsubscription or passes on an error that answers it; it never changes one.
   */
  lemma RemembersExactly(t: Tree, interests: map<MessageId, Interest>, f: Flight, w: World, maxPending: int,
      id: MessageId)
    requires TreeOk(t) && Placed(t, f) && Phased(t, f)
    ensures var out := RouteFrame(ViewOf(t, f.at), interests, f.frame, f.origin, w, maxPending);
            && (id in out.interests && id !in interests
                <==> && id !in interests && out.fate.Forward? && TurnsForAnother(t, f) && f.frame.operation.Subscribe?
                     && id == f.frame.id)
            && (id in out.interests && id !in interests ==> out.interests[id] == InterestOf(f.frame))
            && (id in interests && id !in out.interests
                <==> && id in interests && f.at != f.frame.target
                     && (|| Fails(f.frame, id, interests[id])
                         || (out.fate.Forward? && TurnsForAnother(t, f) && Ends(f.frame, id, interests[id]))))
            && (id in interests && id in out.interests ==> out.interests[id] == interests[id])
  {
    var v := ViewOf(t, f.at);
    RouteFollowsTrail(t, f.at, f.frame.target);
    assert v.local == f.at;
    PromotionNeverFails(t, f.at, interests, f.frame, f.origin, w, maxPending);
    hide ViewOf, RouteTo, Placed, Phased;
    if f.at == f.frame.target {
      hide PassDown, Untrack;
    } else if Under(t, f.frame.target, f.at) && f.frame.phase.Request? {
      hide RouteFrame;
      TurnRemembers(v, interests, f.frame, f.origin, w, maxPending, id);
    } else {
      hide RouteFrame;
      PassRemembers(v, interests, f.frame, f.origin, w, maxPending, id);
    }
  }

  lemma PassRemembers(v: View, interests: map<MessageId, Interest>, f: Frame, o: Origin, w: World, maxPending: int,
      id: MessageId)
    requires v.local != f.target && !(RouteTo(v, f.target).Down? && f.phase.Request?)
    ensures var out := RouteFrame(v, interests, f, o, w, maxPending);
            && (id in out.interests <==> id in interests && !Fails(f, id, interests[id]))
            && (id in out.interests ==> out.interests[id] == interests[id])
  {
    hide RouteTo, Wanted, TurnDown;
  }

  lemma TurnRemembers(v: View, interests: map<MessageId, Interest>, f: Frame, o: Origin, w: World, maxPending: int,
      id: MessageId)
    requires v.local != f.target && RouteTo(v, f.target).Down? && f.phase.Request?
    requires RouteFrame(v, interests, f, o, w, maxPending).fate != Drop(NoChildEpoch)
    ensures var out := RouteFrame(v, interests, f, o, w, maxPending);
            && (id in out.interests && id !in interests
                <==> id !in interests && out.fate.Forward? && Subject(f) != v.local && f.operation.Subscribe?
                     && id == f.id)
            && (id in out.interests && id !in interests ==> out.interests[id] == InterestOf(f))
            && (id in interests && id !in out.interests
                <==> id in interests && out.fate.Forward? && Subject(f) != v.local && Ends(f, id, interests[id]))
            && (id in interests && id in out.interests ==> out.interests[id] == interests[id])
  {
    hide RouteTo, Wanted, QuestionOf, NeedsAuthority, Reachable;
  }

  /** The sender of a dropped frame is told so: no way, not admitted where it turns, or the next session is down. */
  ghost predicate Owed(t: Tree, interests: map<MessageId, Interest>, f: Flight, w: World, maxPending: int)
    requires TreeOk(t) && f.at in t.depth
  {
    && f.at != f.frame.target
    && (|| (f.frame.phase.Request? && !Under(t, f.frame.target, f.at) && f.at !in t.parent)
        || (&& f.frame.phase.Request? && Under(t, f.frame.target, f.at)
            && !Admitted(f.at, interests, f.frame, w, maxPending)
            && (f.origin.FromChild? && IsEvent(f.frame) ==> Awaited(interests, f.frame, w)))
        || (&& !w.sessionUp && Cleared(t, interests, f, w, maxPending) && !f.origin.Here?
            && (f.frame.phase.Request? || f.frame.phase.Control?)))
  }

  lemma RepliesUp(v: View, interests: map<MessageId, Interest>, f: Frame, o: Origin, w: World, maxPending: int)
    requires v.local != f.target && !RouteTo(v, f.target).Down?
    requires PeerOf(o).Some? ==> NextHop(RouteTo(v, f.target)) != PeerOf(o)
    ensures RouteFrame(v, interests, f, o, w, maxPending).replies
            <==> match RouteTo(v, f.target)
                 case Unreachable => f.phase.Request?
                 case Up(_) => f.phase.Request? && !o.Here? && !w.sessionUp
                 case _ => false
  {
    hide RouteTo, PassDown, Untrack;
  }

  lemma RepliesDown(v: View, interests: map<MessageId, Interest>, f: Frame, o: Origin, w: World, maxPending: int)
    requires v.local != f.target && RouteTo(v, f.target).Down? && RouteTo(v, f.target).epoch != 0
    requires PeerOf(o).Some? ==> NextHop(RouteTo(v, f.target)) != PeerOf(o)
    requires f.phase.Request? ==> (CanTrack(v, interests, f, w, maxPending) <==> Trackable(interests, f, w, maxPending))
    ensures RouteFrame(v, interests, f, o, w, maxPending).replies
            <==> && (o.FromChild? && IsEvent(f) ==> Awaited(interests, f, w))
                 && (|| (f.phase.Request? && !Admitted(v.local, interests, f, w, maxPending))
                     || (!w.sessionUp && !o.Here? && (f.phase.Request? || f.phase.Control?)))
  {
    hide RouteTo, CanTrack, Trackable, InterestQuestion;
  }

  lemma OwedExactly(t: Tree, interests: map<MessageId, Interest>, f: Flight, w: World, maxPending: int)
    requires TreeOk(t) && Placed(t, f) && Phased(t, f) && f.at != f.frame.target
    ensures RouteFrame(ViewOf(t, f.at), interests, f.frame, f.origin, w, maxPending).replies
            <==> Owed(t, interests, f, w, maxPending)
  {
    var v := ViewOf(t, f.at);
    assert v.local == f.at;
    RouteFollowsTrail(t, f.at, f.frame.target);
    NeverTurnsBack(t, f);
    assert f.frame.phase.Request? ==> !f.origin.FromParent?;
    if Under(t, f.frame.target, f.at) {
      ChildEpochs(t, f.at, f.frame.target);
      if f.frame.phase.Request? { TracksExactly(t, interests, f, w, maxPending); }
      hide RouteFrame, ViewOf, RouteTo, Placed, Phased, CanTrack, Admitted, Awaited;
      RepliesDown(v, interests, f.frame, f.origin, w, maxPending);
    } else {
      hide RouteFrame, ViewOf, RouteTo, Placed, Phased, Admitted, Awaited;
      RepliesUp(v, interests, f.frame, f.origin, w, maxPending);
    }
  }

  /** An error goes back exactly when it is owed, to the sender and about its message. */
  lemma AnswersExactly(t: Tree, maxPending: int, n: Network, i: nat, w: World, replyId: MessageId)
    requires TreeOk(t) && i < |n.flights| && Placed(t, n.flights[i]) && Phased(t, n.flights[i])
    ensures var f := n.flights[i];
            var out := RouteFrame(ViewOf(t, f.at), InterestsAt(n, f.at), f.frame, f.origin, w, maxPending);
            && (out.replies <==> Owed(t, InterestsAt(n, f.at), f, w, maxPending))
            && (out.replies ==>
                  && HandleFlight(t, maxPending, n, i, w, replyId).flights
                     == RemoveAt(n.flights, i)
                        + [Flight(Frame(Response, ErrorReply, replyId, f.frame.id, f.at, 0, f.frame.source, "", "", 0),
                                  f.at, Here, [], None)])
  {
    var f := n.flights[i];
    var interests := InterestsAt(n, f.at);
    NeverRefused(t, f);
    DeliveredExactly(t, interests, f, w, maxPending);
    if RouteFrame(ViewOf(t, f.at), interests, f.frame, f.origin, w, maxPending).fate.Forward? {
      ForwardIsSilent(ViewOf(t, f.at), interests, f.frame, f.origin, w, maxPending);
    }
    if f.at != f.frame.target { OwedExactly(t, interests, f, w, maxPending); }
    assert f.at == f.frame.target ==> !Owed(t, interests, f, w, maxPending);
    hide RouteFrame, ViewOf, Placed, Phased, Accepts, Owed;
    assert RemoveAt(n.flights, i) + [] == RemoveAt(n.flights, i);
  }
}
