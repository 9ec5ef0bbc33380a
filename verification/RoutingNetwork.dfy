/**
 * All nodes of a fixed tree routing frames at once. A run is any interleaving of nodes making
 * frames, handling the frames that reached them, losing frames and forgetting interests.
 */
module RoutingNetwork {
  import opened Basics
  import opened Tree
  import opened Routing

  /** A judgement some node's policy gave in favour of a question. */
  datatype Verdict = Verdict(judge: NodeId, question: Question)

  /**
   * A frame on its way: the node that has to handle it next, the link it came over, and, recorded
   * only to state what is promised, the nodes it has passed and the judgement it carries.
   */
  datatype Flight = Flight(frame: Frame, at: NodeId, origin: Origin, passed: seq<NodeId>, judged: Option<Verdict>)

  /** A request some node acted upon, as it stood when it was delivered there. */
  datatype Acted = Acted(flight: Flight, locally: bool)

  /**
   * `tracked` and `acted` only grow and record what has happened; `hostile` are the nodes that
   * ever sent their parent a frame of their own invention, `looped` and `refused` the neighbours whose
   * frames were dropped as routing loops or made a node close the link.
   */
  datatype Network = Network(
    flights: seq<Flight>, interests: map<NodeId, map<MessageId, Interest>>, tracked: set<(NodeId, Interest)>,
    acted: seq<Acted>, hostile: set<NodeId>, looped: set<NodeId>, refused: set<NodeId>)

  datatype Action =
    | Make(node: NodeId, frame: Frame)
    | Inject(child: NodeId, frame: Frame)
    | Handle(flight: nat, world: World, replyId: MessageId)
    | Lose(flight: nat)
    | Forget(node: NodeId, id: MessageId)

  /**
   * The frames a node makes itself: requests, answers and events in its own name, requests on behalf
   * of a principal only where there is no parent, and control only to end a subscription it let through.
   */
  predicate MayMake(v: View, f: Frame) {
    && f.source == v.local
    && (f.phase.Control? ==> f.operation.Unsubscribe?)
    && (f.principal != 0 ==> f.phase.Control? || (f.phase.Request? && v.parent.None?))
  }

  function InterestsAt(n: Network, node: NodeId): map<MessageId, Interest> {
    if node in n.interests then n.interests[node] else map[]
  }

  function Arrival(t: Tree, from: NodeId, next: NodeId): (o: Origin) {
    if from in t.parent && t.parent[from] == next then FromChild(from) else FromParent(from)
  }

  function Onward(t: Tree, f: Flight, fate: Fate): (r: seq<Flight>) {
    if fate.Forward? then
      var judged := if fate.judged.Some? then Some(Verdict(f.at, fate.judged.value)) else f.judged;
      [Flight(fate.frame, fate.next, Arrival(t, f.at, fate.next), f.passed + [f.at], judged)]
    else []
  }

  function Reply(f: Flight, replies: bool, id: MessageId): (r: seq<Flight>) {
    if replies then [Flight(ErrorFor(f.at, f.frame, id), f.at, Here, [], None)] else []
  }

  function Blamed(o: Origin): (r: set<NodeId>) { if PeerOf(o).Some? then {PeerOf(o).value} else {} }

  /** The nodes from `s` up to its ancestor `c`. */
  ghost function Climb(t: Tree, s: NodeId, c: NodeId): (r: seq<NodeId>)
    requires TreeOk(t) && s in t.depth && Below(t, s, c)
    decreases t.depth[s]
  {
    if s == c then [c] else [s] + Climb(t, t.parent[s], c)
  }

  /** Whatever a child sends its parent, as it arrives there. */
  ghost function Injected(t: Tree, c: NodeId, f: Frame): (r: Flight)
    requires TreeOk(t) && c in t.parent
  {
    var passed := if f.source in t.depth && Below(t, f.source, c) then Climb(t, f.source, c) else [];
    Flight(f, t.parent[c], FromChild(c), passed, None)
  }

  /** One node takes one frame: closes the link on a frame it must not accept, or routes it. */
  ghost function HandleFlight(t: Tree, maxPending: int, n: Network, i: nat, w: World, replyId: MessageId): (r: Network)
    requires TreeOk(t) && i < |n.flights| && n.flights[i].at in t.depth
  {
    var f := n.flights[i];
    var v := ViewOf(t, f.at);
    var rest := RemoveAt(n.flights, i);
    if !Accepts(v, f.origin, f.frame) then n.(flights := rest, refused := n.refused + Blamed(f.origin))
    else
      var out := RouteFrame(v, InterestsAt(n, f.at), f.frame, f.origin, w, maxPending);
      var acts := out.fate.Deliver? && NeedsAuthority(f.frame.operation) && ActsOn(v, f.frame, w);
      var asked := acts && !f.frame.phase.Control? && Subject(f.frame) != f.at;
      Network(
        rest + Onward(t, f, out.fate) + Reply(f, out.replies, replyId),
        n.interests[f.at := out.interests],
        n.tracked + set id | id in out.interests :: (f.at, out.interests[id]),
        if acts then n.acted + [Acted(f, asked)] else n.acted,
        n.hostile,
        if out.fate == Drop(RoutingLoop) then n.looped + Blamed(f.origin) else n.looped,
        n.refused)
  }

  ghost function Step(t: Tree, maxPending: int, n: Network, a: Action): (r: Network)
    requires TreeOk(t)
  {
    match a
    case Make(node, f) =>
      if node in t.depth && MayMake(ViewOf(t, node), f)
      then n.(flights := n.flights + [Flight(f, node, Here, [], None)]) else n
    case Inject(c, f) =>
      if c in t.parent then n.(flights := n.flights + [Injected(t, c, f)], hostile := n.hostile + {c}) else n
    case Handle(i, w, replyId) =>
      if i < |n.flights| && n.flights[i].at in t.depth then HandleFlight(t, maxPending, n, i, w, replyId) else n
    case Lose(i) => if i < |n.flights| then n.(flights := RemoveAt(n.flights, i)) else n
    case Forget(node, id) => n.(interests := n.interests[node := InterestsAt(n, node) - {id}])
  }

  function Quiet(): Network { Network([], map[], {}, [], {}, {}, {}) }

  ghost predicate IsRun(t: Tree, maxPending: int, states: seq<Network>, actions: seq<Action>)
    requires TreeOk(t)
  {
    && |states| == |actions| + 1 && states[0] == Quiet()
    && forall i :: 0 <= i < |actions| ==> states[i + 1] == Step(t, maxPending, states[i], actions[i])
  }

  // ------------------------------------------------------------------------ invariant

  /** The node where the frame turns: the lowest common ancestor of its source and its target. */
  ghost function TurnOf(t: Tree, f: Frame): (r: NodeId)
    requires TreeOk(t) && f.source in t.depth
  {
    Turn(t, f.source, f.target)
  }

  /** The frame is on the trail from its source to its target and came over the last edge of it. */
  ghost predicate Placed(t: Tree, f: Flight)
    requires TreeOk(t)
  {
    && f.at in t.depth && f.frame.source in t.depth
    && f.passed + Trail(t, f.at, f.frame.target) == Trail(t, f.frame.source, f.frame.target)
    && match f.origin
       case Here => f.at == f.frame.source && f.passed == []
       case FromChild(c) =>
         && c in t.parent && t.parent[c] == f.at && Below(t, f.frame.source, c) && !Under(t, f.frame.target, c)
         && TurnOf(t, f.frame) == Turn(t, f.at, f.frame.target)
       case FromParent(p) => f.at in t.parent && t.parent[f.at] == p && Under(t, f.frame.target, f.at) && f.passed != []
  }

  /** Requests only come up, control only comes down and carries the epoch of its edge. */
  ghost predicate Phased(t: Tree, f: Flight)
    requires TreeOk(t)
  {
    match f.origin
    case Here =>
      && (f.frame.phase.Control? ==> f.frame.operation.Unsubscribe?)
      && (f.frame.principal != 0 ==> f.frame.phase.Control? || (f.frame.phase.Request? && f.at !in t.parent))
    case FromChild(_) => !f.frame.phase.Control? && f.frame.principal == 0
    case FromParent(_) =>
      && !f.frame.phase.Request?
      && (f.frame.phase.Control? ==> f.at in t.epoch && f.frame.epoch == t.epoch[f.at])
      && (!f.frame.phase.Control? ==> f.frame.principal == 0)
  }

  predicate IsEvent(f: Frame) { f.operation.ResourceEvent? || f.operation.ResourceGap? }

  /** The frame speaks for the node where it turned, or that node's policy decided for this very frame. */
  ghost predicate JudgedAtTurn(t: Tree, f: Flight)
    requires TreeOk(t) && f.frame.source in t.depth
  {
    Subject(f.frame) == TurnOf(t, f.frame) || f.judged == Some(Verdict(TurnOf(t, f.frame), QuestionOf(f.frame)))
  }

  /** Control was judged where it turned, or is the end of a subscription declared there. */
  ghost predicate ControlJudged(t: Tree, f: Flight)
    requires TreeOk(t) && f.frame.source in t.depth
  {
    JudgedAtTurn(t, f) || (f.frame.operation.Unsubscribe? && f.frame.source == TurnOf(t, f.frame))
  }

  /** The node tracked an interest of the frame's target in the frame's source, and its policy still allowed it. */
  ghost predicate LetThrough(tracked: set<(NodeId, Interest)>, node: NodeId, f: Flight) {
    exists x: Interest :: (node, x) in tracked && x.source == f.frame.target && x.target == f.frame.source
                          && f.judged == Some(Verdict(node, InterestQuestion(x)))
  }

  /** Control was judged where it turned; an event that climbed before it came down was let through there. */
  ghost predicate Warranted(t: Tree, tracked: set<(NodeId, Interest)>, f: Flight)
    requires TreeOk(t) && f.frame.source in t.depth
  {
    && (f.frame.phase.Control? && f.origin.FromParent? ==> ControlJudged(t, f))
    && (f.origin.FromParent? && IsEvent(f.frame) && !f.frame.phase.Control? && TurnOf(t, f.frame) != f.frame.source ==>
          LetThrough(tracked, TurnOf(t, f.frame), f))
  }

  ghost predicate FlightOk(t: Tree, tracked: set<(NodeId, Interest)>, f: Flight)
    requires TreeOk(t)
  {
    Placed(t, f) && Phased(t, f) && Warranted(t, tracked, f)
  }

  /** A frame some child made up, which its parent will refuse, or drop because it leads back to that child. */
  ghost predicate Doomed(t: Tree, hostile: set<NodeId>, f: Flight)
    requires TreeOk(t)
  {
    && f.origin.FromChild? && f.origin.child in hostile && f.origin.child in t.parent
       && t.parent[f.origin.child] == f.at
    && (!Accepts(ViewOf(t, f.at), f.origin, f.frame) || Under(t, f.frame.target, f.origin.child))
  }

  /** Whoever acted on a request did so for the node where it turned, or because that node decided for this frame. */
  ghost predicate ActedOk(t: Tree, a: Acted)
    requires TreeOk(t)
  {
    && a.flight.at == a.flight.frame.target && Placed(t, a.flight)
    && if a.flight.frame.phase.Control? then ControlJudged(t, a.flight)
       else a.flight.at == TurnOf(t, a.flight.frame) && (Subject(a.flight.frame) == a.flight.at || a.locally)
  }

  ghost predicate InterestsOk(n: Network) {
    forall node, id :: node in n.interests && id in n.interests[node] ==> (node, n.interests[node][id]) in n.tracked
  }

  ghost predicate Inv(t: Tree, n: Network)
    requires TreeOk(t)
  {
    && (forall i :: 0 <= i < |n.flights| ==> FlightOk(t, n.tracked, n.flights[i]) || Doomed(t, n.hostile, n.flights[i]))
    && (forall i :: 0 <= i < |n.acted| ==> ActedOk(t, n.acted[i]))
    && InterestsOk(n)
    && n.looped <= n.hostile && n.refused <= n.hostile
  }

  // ----------------------------------------------------------------------- one frame

  lemma Climbs(t: Tree, f: Flight)
    requires TreeOk(t) && Placed(t, f) && !f.origin.FromParent?
    ensures Below(t, f.frame.source, f.at) && TurnOf(t, f.frame) == Turn(t, f.at, f.frame.target)
    ensures Under(t, f.frame.target, f.at) ==> TurnOf(t, f.frame) == f.at
  {
    if f.origin.FromChild? { BelowTrans(t, f.frame.source, f.origin.child, f.at); }
  }

  lemma Shift(passed: seq<NodeId>, x: NodeId, rest: seq<NodeId>)
    ensures passed + ([x] + rest) == (passed + [x]) + rest
  {
  }

  lemma MovesUp(t: Tree, f: Flight, g: Flight)
    requires TreeOk(t) && Placed(t, f) && !f.origin.FromParent? && f.at in t.parent
    requires f.at != f.frame.target && !Under(t, f.frame.target, f.at)
    requires g.frame == f.frame && g.at == t.parent[f.at] && g.origin == FromChild(f.at)
             && g.passed == f.passed + [f.at]
    ensures Placed(t, g)
  {
    Climbs(t, f);
    hide Trail, Below;
    var c := NextOn(t, f.at, f.frame.target);
    Shift(f.passed, f.at, Trail(t, c, f.frame.target));
  }

  lemma MovesDown(t: Tree, f: Flight, g: Flight)
    requires TreeOk(t) && Placed(t, f) && f.at != f.frame.target && Under(t, f.frame.target, f.at)
    requires g.frame.source == f.frame.source && g.frame.target == f.frame.target
    requires g.at == NextOn(t, f.at, f.frame.target) && g.origin == FromParent(f.at) && g.passed == f.passed + [f.at]
    ensures Placed(t, g)
  {
    Shift(f.passed, f.at, Trail(t, g.at, f.frame.target));
    hide Trail, Below;
  }

  /** A frame that is where it should be passes the checks of the link it came over. */
  lemma NeverRefused(t: Tree, f: Flight)
    requires TreeOk(t) && Placed(t, f) && Phased(t, f)
    ensures Accepts(ViewOf(t, f.at), f.origin, f.frame)
  {
    if f.origin.FromChild? { SpeaksForSubtree(t, f.at, f.origin.child, f.frame.source); }
  }

  /** The next hop is never the link the frame came over. */
  lemma NeverTurnsBack(t: Tree, f: Flight)
    requires TreeOk(t) && Placed(t, f) && f.at != f.frame.target
    ensures PeerOf(f.origin).Some? ==> NextHop(RouteTo(ViewOf(t, f.at), f.frame.target)) != PeerOf(f.origin)
  {
    RouteFollowsTrail(t, f.at, f.frame.target);
  }

  /** Shape of what `RouteFrame` passes on. */
  lemma ForwardShape(v: View, f: Frame, o: Origin, interests: map<MessageId, Interest>, w: World, maxPending: int)
    requires RouteFrame(v, interests, f, o, w, maxPending).fate.Forward?
    ensures var fate := RouteFrame(v, interests, f, o, w, maxPending).fate;
            && v.local != f.target
            && match RouteTo(v, f.target)
               case Up(next) => fate == Forward(next, f, None) && !f.phase.Control?
               case Down(next, epoch) =>
                 && fate.next == next
                 && (f.phase.Request? ==>
                       && fate.frame == f.(phase := Control, epoch := epoch)
                       && (Subject(f) == v.local || (fate.judged == Some(QuestionOf(f)) && w.allows(QuestionOf(f)))))
                 && (f.phase.Control? ==> fate.frame == f.(epoch := epoch))
                 && (f.phase.Response? || f.phase.Event? ==>
                       && fate.frame == f
                       && (IsEvent(f) && o.FromChild? ==>
                             exists id :: id in interests && interests[id].source == f.target
                                          && interests[id].target == f.source
                                          && fate.judged == Some(InterestQuestion(interests[id]))))
                 && (!f.phase.Request? && !(IsEvent(f) && o.FromChild?) ==> fate.judged.None?)
                 && (fate.judged.Some? ==> w.allows(fate.judged.value))
               case _ => false
  {
    hide RouteTo;
  }

  lemma ForwardIsPlaced(t: Tree, f: Flight, fate: Fate, g: Flight)
    requires TreeOk(t) && Placed(t, f) && Phased(t, f) && f.at != f.frame.target && fate.Forward?
    requires fate.frame.source == f.frame.source && fate.frame.target == f.frame.target
    requires match RouteTo(ViewOf(t, f.at), f.frame.target)
             case Up(next) => fate.next == next && fate.frame == f.frame
             case Down(next, epoch) => fate.next == next
             case _ => false
    requires g.frame == fate.frame && g.at == fate.next && g.origin == Arrival(t, f.at, fate.next)
             && g.passed == f.passed + [f.at]
    ensures Placed(t, g)
    ensures RouteTo(ViewOf(t, f.at), f.frame.target).Up? <==> g.origin.FromChild?
    ensures RouteTo(ViewOf(t, f.at), f.frame.target).Down? <==> g.origin.FromParent?
    ensures RouteTo(ViewOf(t, f.at), f.frame.target).Down? ==>
              Under(t, f.frame.target, f.at) && RouteTo(ViewOf(t, f.at), f.frame.target).epoch == t.epoch[g.at]
  {
    RouteFollowsTrail(t, f.at, f.frame.target);
    match RouteTo(ViewOf(t, f.at), f.frame.target) {
      case Up(next) =>
        if f.origin.FromParent? { assert false; }
        hide Placed, ViewOf;
        MovesUp(t, f, g);
      case Down(next, epoch) =>
        hide Placed, ViewOf;
        MovesDown(t, f, g);
      case _ =>
    }
  }

  /** The interests a node keeps are among those it ever tracked. */
  ghost predicate AmongTracked(tracked: set<(NodeId, Interest)>, node: NodeId, interests: map<MessageId, Interest>) {
    forall id :: id in interests ==> (node, interests[id]) in tracked
  }

  lemma ForwardIsOk(
    t: Tree, f: Flight, interests: map<MessageId, Interest>, w: World, maxPending: int,
      tracked: set<(NodeId, Interest)>)
    requires TreeOk(t) && FlightOk(t, tracked, f) && AmongTracked(tracked, f.at, interests)
    requires RouteFrame(ViewOf(t, f.at), interests, f.frame, f.origin, w, maxPending).fate.Forward?
    ensures var fate := RouteFrame(ViewOf(t, f.at), interests, f.frame, f.origin, w, maxPending).fate;
            FlightOk(t, tracked, Onward(t, f, fate)[0])
  {
    ForwardShape(ViewOf(t, f.at), f.frame, f.origin, interests, w, maxPending);
    assert ViewOf(t, f.at).local == f.at;
    var fate := RouteFrame(ViewOf(t, f.at), interests, f.frame, f.origin, w, maxPending).fate;
    hide RouteFrame;
    var g := Onward(t, f, fate)[0];
    ForwardIsPlaced(t, f, fate, g);
    if !f.origin.FromParent? { Climbs(t, f); }
    hide Placed, ViewOf, RouteTo, Turn, Under, TreeOk, Arrival;
    if g.origin.FromParent? { ForwardIsWarranted(t, f, fate, g, interests, tracked); }
  }

  /** What turns downwards here was judged here; what came down already keeps its judgement. */
  lemma ForwardIsWarranted(
    t: Tree, f: Flight, fate: Fate, g: Flight, interests: map<MessageId, Interest>, tracked: set<(NodeId, Interest)>)
    requires TreeOk(t) && f.frame.source in t.depth && Warranted(t, tracked, f) && Phased(t, f)
             && AmongTracked(tracked, f.at, interests)
    requires g.frame.source == f.frame.source && g.frame.target == f.frame.target && g.origin.FromParent?
    requires fate.Forward? && g.frame == fate.frame
             && g.judged == if fate.judged.Some? then Some(Verdict(f.at, fate.judged.value)) else f.judged
    requires f.origin.FromParent? || TurnOf(t, f.frame) == f.at
    requires f.origin.Here? ==> f.at == f.frame.source
    requires f.frame.phase.Request? ==>
               && g.frame == f.frame.(phase := Control, epoch := g.frame.epoch)
               && (Subject(f.frame) == f.at || fate.judged == Some(QuestionOf(f.frame)))
    requires f.frame.phase.Control? ==> g.frame == f.frame.(epoch := g.frame.epoch)
    requires f.frame.phase.Response? || f.frame.phase.Event? ==>
               && g.frame == f.frame
               && (IsEvent(f.frame) && f.origin.FromChild? ==>
                     exists id :: id in interests && interests[id].source == f.frame.target
                                  && interests[id].target == f.frame.source
                                  && fate.judged == Some(InterestQuestion(interests[id])))
    requires !f.frame.phase.Request? && !(IsEvent(f.frame) && f.origin.FromChild?) ==> fate.judged.None?
    ensures Warranted(t, tracked, g)
  {
    hide Turn;
    if IsEvent(f.frame) && f.origin.FromChild? && !f.frame.phase.Request? && !f.frame.phase.Control? {
      var id :| id in interests && interests[id].source == f.frame.target && interests[id].target == f.frame.source
                && fate.judged == Some(InterestQuestion(interests[id]));
      assert (f.at, interests[id]) in tracked;
      assert LetThrough(tracked, f.at, g);
    } else if IsEvent(f.frame) && f.origin.FromParent? && !f.frame.phase.Control?
           && TurnOf(t, f.frame) != f.frame.source {
      var x: Interest :| (TurnOf(t, f.frame), x) in tracked && x.source == f.frame.target && x.target == f.frame.source
                         && f.judged == Some(Verdict(TurnOf(t, f.frame), InterestQuestion(x)));
      assert LetThrough(tracked, TurnOf(t, f.frame), g);
    }
  }

  // ------------------------------------------------------------------- hostile children

  /**
   * Outside the subtree of `c`, a way from below `c` leads over `c` to its parent, and turns where it would turn from
   * there.
   */
  lemma {:induction false} TrailLeaves(t: Tree, s: NodeId, c: NodeId, target: NodeId)
    requires TreeOk(t) && s in t.depth && Below(t, s, c) && c in t.parent && !Under(t, target, c)
    ensures Trail(t, s, target) == Climb(t, s, c) + Trail(t, t.parent[c], target)
    ensures Turn(t, s, target) == Turn(t, t.parent[c], target)
    decreases t.depth[s]
  {
    if Under(t, target, s) { BelowTrans(t, target, s, c); }
    if s != c {
      TrailLeaves(t, t.parent[s], c, target);
      Shift([], s, Climb(t, t.parent[s], c) + Trail(t, t.parent[c], target));
      assert [s] + (Climb(t, t.parent[s], c) + Trail(t, t.parent[c], target)) == ([s] + Climb(t, t.parent[s], c))
             + Trail(t, t.parent[c], target);
    }
  }

  /** Whatever a child makes up is a frame its subtree might have sent, or it is doomed. */
  lemma InjectedIsOk(t: Tree, c: NodeId, f: Frame, tracked: set<(NodeId, Interest)>, hostile: set<NodeId>)
    requires TreeOk(t) && c in t.parent && c in hostile
    ensures FlightOk(t, tracked, Injected(t, c, f)) || Doomed(t, hostile, Injected(t, c, f))
  {
    var g := Injected(t, c, f);
    if Accepts(ViewOf(t, g.at), g.origin, f) && !Under(t, f.target, c) {
      SpeaksForSubtree(t, g.at, c, f.source);
      TrailLeaves(t, f.source, c, f.target);
      hide Trail, Turn, Climb, ViewOf;
    }
  }

  /** Handling a doomed frame takes it away and adds nothing: no frame, no reply, no judgement, no act. */
  lemma DoomedIsDropped(t: Tree, maxPending: int, n: Network, i: nat, w: World, replyId: MessageId)
    requires TreeOk(t) && i < |n.flights| && Doomed(t, n.hostile, n.flights[i])
    ensures var m := HandleFlight(t, maxPending, n, i, w, replyId);
            && m.flights == RemoveAt(n.flights, i) && m.acted == n.acted && m.hostile == n.hostile
            && n.flights[i].origin.child in (m.looped + m.refused)
            && m.looped <= n.looped + n.hostile && m.refused <= n.refused + n.hostile
  {
    var f := n.flights[i];
    var v := ViewOf(t, f.at);
    if Accepts(v, f.origin, f.frame) {
      LeadsBack(t, f);
      var out := RouteFrame(v, InterestsAt(n, f.at), f.frame, f.origin, w, maxPending);
      LoopIsDropped(v, InterestsAt(n, f.at), f.frame, f.origin, w, maxPending);
      assert out.fate == Drop(RoutingLoop) && !out.replies;
      hide RouteFrame, ViewOf;
      assert RemoveAt(n.flights, i) + [] + [] == RemoveAt(n.flights, i);
    }
  }

  lemma LeadsBack(t: Tree, f: Flight)
    requires TreeOk(t) && f.origin.FromChild? && f.origin.child in t.parent && t.parent[f.origin.child] == f.at
    requires Under(t, f.frame.target, f.origin.child)
    ensures f.frame.target != f.at && NextHop(RouteTo(ViewOf(t, f.at), f.frame.target)) == Some(f.origin.child)
  {
    var c := f.origin.child;
    BelowIsDeeper(t, f.frame.target, c);
    BelowTrans(t, f.frame.target, c, f.at);
    TowardIsUnique(t, f.at, f.frame.target, c);
  }

  lemma LoopIsDropped(v: View, interests: map<MessageId, Interest>, f: Frame, o: Origin, w: World, maxPending: int)
    requires f.target != v.local && PeerOf(o).Some? && NextHop(RouteTo(v, f.target)) == PeerOf(o)
    ensures var out := RouteFrame(v, interests, f, o, w, maxPending); out.fate == Drop(RoutingLoop) && !out.replies
  {
    hide PassDown, Untrack;
  }

  // ---------------------------------------------------------------------- all frames

  lemma FlightGrows(t: Tree, f: Flight, tracked: set<(NodeId, Interest)>, more: set<(NodeId, Interest)>)
    requires TreeOk(t) && FlightOk(t, tracked, f) && tracked <= more
    ensures FlightOk(t, more, f)
  {
    var node := TurnOf(t, f.frame);
    hide Placed, Phased, TurnOf, ControlJudged;
    if LetThrough(tracked, node, f) {
      var x: Interest :| (node, x) in tracked && x.source == f.frame.target && x.target == f.frame.source
                         && f.judged == Some(Verdict(node, InterestQuestion(x)));
      assert (node, x) in more;
    }
  }

  lemma ReplyIsOk(t: Tree, f: Flight, id: MessageId, tracked: set<(NodeId, Interest)>)
    requires TreeOk(t) && f.at in t.depth
    ensures FlightOk(t, tracked, Flight(ErrorFor(f.at, f.frame, id), f.at, Here, [], None))
  {
  }

  lemma DeliveredIsOk(t: Tree, f: Flight, w: World, tracked: set<(NodeId, Interest)>)
    requires TreeOk(t) && FlightOk(t, tracked, f) && f.at == f.frame.target && ActsOn(ViewOf(t, f.at), f.frame, w)
    ensures ActedOk(t, Acted(f, !f.frame.phase.Control? && Subject(f.frame) != f.at))
  {
    if !f.origin.FromParent? { Climbs(t, f); }
    if !f.frame.phase.Control? && f.origin.FromParent? {
      TargetIsNotSource(t, f);
      assert false;
    }
    hide Placed, ViewOf, Turn;
  }

  /** A frame that comes down to its target was not made there. */
  lemma TargetIsNotSource(t: Tree, f: Flight)
    requires TreeOk(t) && Placed(t, f) && f.origin.FromParent? && f.at == f.frame.target
    ensures f.at != f.frame.source
  {
  }

  /** In a tree no promotion fails: the epoch of a route is the epoch of a child, and that is never zero. */
  lemma PromotionNeverFails(t: Tree, node: NodeId, interests: map<MessageId, Interest>, f: Frame, o: Origin, w: World,
      maxPending: int)
    requires TreeOk(t) && node in t.depth
    ensures RouteFrame(ViewOf(t, node), interests, f, o, w, maxPending).fate != Drop(NoChildEpoch)
  {
    var v, route := ViewOf(t, node), RouteTo(ViewOf(t, node), f.target);
    ChildEpochs(t, node, f.target);
    var kept := if f.phase.Response? && f.operation.ErrorReply?
                then Untrack(interests, f.correlation, f.target, f.source) else interests;
    if route.Down? { PassesDown(v, kept, f, o, w, maxPending, route.next, route.epoch); }
    hide ViewOf, RouteTo, TreeOk, PassDown, Untrack;
  }

  lemma ChildEpochs(t: Tree, node: NodeId, target: NodeId)
    requires TreeOk(t) && node in t.depth
    ensures RouteTo(ViewOf(t, node), target).Down? ==> RouteTo(ViewOf(t, node), target).epoch != 0
  {
  }

  lemma TurnsDown(v: View, interests: map<MessageId, Interest>, f: Frame, o: Origin, w: World, maxPending: int,
      next: NodeId, epoch: nat)
    requires epoch != 0
    ensures TurnDown(v, interests, f, o, w, maxPending, next, epoch).fate != Drop(NoChildEpoch)
  {
    hide CanTrack, Untrack;
  }

  lemma PassesDown(v: View, interests: map<MessageId, Interest>, f: Frame, o: Origin, w: World, maxPending: int,
      next: NodeId, epoch: nat)
    requires epoch != 0
    ensures PassDown(v, interests, f, o, w, maxPending, next, epoch).fate != Drop(NoChildEpoch)
  {
    TurnsDown(v, interests, f, o, w, maxPending, next, epoch);
    hide TurnDown, Wanted;
  }

  ghost predicate KeptOrAllowed(interests: map<MessageId, Interest>, out: Outcome, f: Frame, w: World, id: MessageId)
    requires id in out.interests
  {
    || (id in interests && interests[id] == out.interests[id])
    || (&& (|| out.fate == Drop(NoChildEpoch)
            || (out.fate.Forward? && out.fate.judged == Some(InterestQuestion(out.interests[id]))))
        && f.phase.Request? && f.operation.Subscribe? && out.interests[id] == InterestOf(f)
        && w.allows(QuestionOf(f)))
  }

  lemma TurnKeeps(v: View, interests: map<MessageId, Interest>, f: Frame, o: Origin, w: World, maxPending: int,
      next: NodeId, epoch: nat, id: MessageId)
    requires f.phase.Request? && id in TurnDown(v, interests, f, o, w, maxPending, next, epoch).interests
    ensures KeptOrAllowed(interests, TurnDown(v, interests, f, o, w, maxPending, next, epoch), f, w, id)
  {
    hide CanTrack;
  }

  /** An interest is added only for a subscription the policy allows, together with the judgement on it. */
  lemma InterestsKept(v: View, interests: map<MessageId, Interest>, f: Frame, o: Origin, w: World, maxPending: int,
      id: MessageId)
    requires id in RouteFrame(v, interests, f, o, w, maxPending).interests
    ensures KeptOrAllowed(interests, RouteFrame(v, interests, f, o, w, maxPending), f, w, id)
  {
    var out := RouteFrame(v, interests, f, o, w, maxPending);
    var route := RouteTo(v, f.target);
    if f.phase.Request? && route.Down? {
      hide RouteTo, Wanted, KeptOrAllowed, TurnDown, Untrack;
      if out == TurnDown(v, interests, f, o, w, maxPending, route.next, route.epoch) {
        TurnKeeps(v, interests, f, o, w, maxPending, route.next, route.epoch, id);
      } else {
        assert out.interests == interests;
        assert KeptOrAllowed(interests, out, f, w, id) by { SameKept(interests, out, f, w, id); }
      }
    } else {
      hide RouteTo, Wanted, TurnDown;
    }
  }

  lemma SameKept(interests: map<MessageId, Interest>, out: Outcome, f: Frame, w: World, id: MessageId)
    requires id in out.interests && out.interests == interests
    ensures KeptOrAllowed(interests, out, f, w, id)
  {
  }

  lemma InterestsStayOk(t: Tree, maxPending: int, n: Network, i: nat, w: World, replyId: MessageId)
    requires TreeOk(t) && i < |n.flights| && n.flights[i].at in t.depth && InterestsOk(n)
    ensures InterestsOk(HandleFlight(t, maxPending, n, i, w, replyId))
  {
    hide RouteFrame, ViewOf, Accepts;
  }

  lemma DeliveredHere(v: View, interests: map<MessageId, Interest>, f: Frame, o: Origin, w: World, maxPending: int)
    ensures RouteFrame(v, interests, f, o, w, maxPending).fate.Deliver? ==> f.target == v.local
    ensures RouteFrame(v, interests, f, o, w, maxPending).fate == Drop(RoutingLoop) ==>
              f.target != v.local && PeerOf(o).Some? && NextHop(RouteTo(v, f.target)) == PeerOf(o)
  {
    hide Untrack, CanTrack, Wanted, NeedsAuthority, Subject, QuestionOf, InterestOf, InterestQuestion;
  }

  /** What handling one flight adds to the network is sound. */
  lemma HandleKeeps(t: Tree, maxPending: int, n: Network, i: nat, w: World, replyId: MessageId)
    requires TreeOk(t) && Inv(t, n) && i < |n.flights| && n.flights[i].at in t.depth
    ensures Inv(t, HandleFlight(t, maxPending, n, i, w, replyId))
    ensures n.tracked <= HandleFlight(t, maxPending, n, i, w, replyId).tracked
  {
    InterestsStayOk(t, maxPending, n, i, w, replyId);
    var m := HandleFlight(t, maxPending, n, i, w, replyId);
    assert n.tracked <= m.tracked;
    if FlightOk(t, n.tracked, n.flights[i]) {
      hide InterestsOk, HandleFlight, FlightOk, Doomed, ActedOk;
      SoundHandled(t, maxPending, n, i, w, replyId);
    } else {
      hide InterestsOk, HandleFlight, FlightOk, ActedOk;
      DoomedIsDropped(t, maxPending, n, i, w, replyId);
      hide Doomed;
      RestStaysOk(t, n, i, m, [], []);
    }
  }

  lemma SoundHandled(t: Tree, maxPending: int, n: Network, i: nat, w: World, replyId: MessageId)
    requires TreeOk(t) && Inv(t, n) && i < |n.flights| && n.flights[i].at in t.depth
             && FlightOk(t, n.tracked, n.flights[i])
    ensures var m := HandleFlight(t, maxPending, n, i, w, replyId);
            && m.looped == n.looped && m.refused == n.refused && m.hostile == n.hostile
            && (forall k :: 0 <= k < |m.flights| ==> FlightOk(t, m.tracked, m.flights[k])
                                                     || Doomed(t, m.hostile, m.flights[k]))
            && (forall k :: 0 <= k < |m.acted| ==> ActedOk(t, m.acted[k]))
  {
    var f := n.flights[i];
    var v := ViewOf(t, f.at);
    assert v.local == f.at;
    var interests := InterestsAt(n, f.at);
    var m := HandleFlight(t, maxPending, n, i, w, replyId);
    NeverRefused(t, f);
    var out := RouteFrame(v, interests, f.frame, f.origin, w, maxPending);
    DeliveredHere(v, interests, f.frame, f.origin, w, maxPending);
    if f.at != f.frame.target { NeverTurnsBack(t, f); }
    assert AmongTracked(n.tracked, f.at, interests);
    hide RouteFrame, ViewOf, Accepts, RouteTo, FlightOk, ActedOk, Doomed, InterestsOk;
    if out.fate.Forward? { ForwardIsOk(t, f, interests, w, maxPending, n.tracked); }
    ReplyIsOk(t, f, replyId, n.tracked);
    RestStaysOk(t, n, i, m, Onward(t, f, out.fate), Reply(f, out.replies, replyId));
    if out.fate.Deliver? && NeedsAuthority(f.frame.operation) && ActsOn(v, f.frame, w) {
      DeliveredIsOk(t, f, w, n.tracked);
    }
  }

  lemma RestStaysOk(t: Tree, n: Network, i: nat, m: Network, onward: seq<Flight>, reply: seq<Flight>)
    requires TreeOk(t) && i < |n.flights| && n.tracked <= m.tracked && m.hostile == n.hostile
    requires forall k :: 0 <= k < |n.flights| ==> FlightOk(t, n.tracked, n.flights[k])
                                                  || Doomed(t, n.hostile, n.flights[k])
    requires forall k :: 0 <= k < |onward| ==> FlightOk(t, n.tracked, onward[k])
    requires forall k :: 0 <= k < |reply| ==> FlightOk(t, n.tracked, reply[k])
    requires m.flights == RemoveAt(n.flights, i) + onward + reply
    ensures forall k :: 0 <= k < |m.flights| ==> FlightOk(t, m.tracked, m.flights[k])
                                                 || Doomed(t, m.hostile, m.flights[k])
  {
    hide FlightOk, Doomed;
    forall k | 0 <= k < |m.flights| ensures FlightOk(t, m.tracked, m.flights[k]) || Doomed(t, m.hostile, m.flights[k]) {
      var f := m.flights[k];
      assert FlightOk(t, n.tracked, f) || Doomed(t, n.hostile, f) by {
        if k < i {
          assert f == n.flights[k];
        } else if k < |n.flights| - 1 {
          assert f == n.flights[k + 1];
        } else if k < |n.flights| - 1 + |onward| {
          assert f == onward[k - (|n.flights| - 1)];
        } else {
          assert f == reply[k - (|n.flights| - 1 + |onward|)];
        }
      }
      if FlightOk(t, n.tracked, f) { FlightGrows(t, f, n.tracked, m.tracked); }
    }
  }

  lemma StepKeeps(t: Tree, maxPending: int, n: Network, a: Action)
    requires TreeOk(t) && Inv(t, n)
    ensures Inv(t, Step(t, maxPending, n, a)) && n.tracked <= Step(t, maxPending, n, a).tracked
    ensures n.acted <= Step(t, maxPending, n, a).acted
  {
    match a
    case Handle(i, w, replyId) =>
      hide Inv;
      if i < |n.flights| && n.flights[i].at in t.depth { HandleKeeps(t, maxPending, n, i, w, replyId); }
      hide ViewOf, RouteFrame, Accepts;
    case Make(node, f) => hide FlightOk, ActedOk, Doomed, HandleFlight; MakeKeeps(t, n, node, f);
    case Inject(c, f) => hide ActedOk, HandleFlight, FlightOk, Injected; InjectKeeps(t, n, c, f);
    case Lose(_) => hide FlightOk, ActedOk, Doomed, HandleFlight;
    case Forget(_, _) => hide FlightOk, ActedOk, Doomed, HandleFlight;
  }

  lemma MakeKeeps(t: Tree, n: Network, node: NodeId, f: Frame)
    requires TreeOk(t)
    ensures node in t.depth && MayMake(ViewOf(t, node), f) ==> FlightOk(t, n.tracked, Flight(f, node, Here, [], None))
  {
    if node in t.depth && MayMake(ViewOf(t, node), f) {
      assert [] + Trail(t, node, f.target) == Trail(t, node, f.target);
    }
  }

  lemma InjectKeeps(t: Tree, n: Network, c: NodeId, f: Frame)
    requires TreeOk(t) && Inv(t, n)
    ensures c in t.parent ==>
              Inv(t, n.(flights := n.flights + [Injected(t, c, f)], hostile := n.hostile + {c}))
  {
    if c in t.parent {
      InjectedIsOk(t, c, f, n.tracked, n.hostile + {c});
      forall k | 0 <= k < |n.flights|
        ensures FlightOk(t, n.tracked, n.flights[k]) || Doomed(t, n.hostile + {c}, n.flights[k])
      {
        hide FlightOk, Accepts, ViewOf;
      }
      hide FlightOk, Doomed, ActedOk, Injected;
    }
  }

  lemma {:induction false} RunKeeps(t: Tree, maxPending: int, states: seq<Network>, actions: seq<Action>, i: nat)
    requires TreeOk(t) && IsRun(t, maxPending, states, actions) && i < |states|
    ensures Inv(t, states[i])
  {
    hide Step;
    if i == 0 {
    } else {
      RunKeeps(t, maxPending, states, actions, i - 1);
      hide Inv;
      StepKeeps(t, maxPending, states[i - 1], actions[i - 1]);
      assert states[(i - 1) + 1] == Step(t, maxPending, states[i - 1], actions[i - 1]);
    }
  }

  // ----------------------------------------------------------------- what is promised

  /**
   * What a frame has passed and what is ahead of it make up the path from its source to its target, no node
   * lies on it twice, a request came up and control came down the last edge.
   */
  ghost predicate OnItsWay(t: Tree, f: Flight)
    requires TreeOk(t)
  {
    && f.at in t.depth && f.frame.source in t.depth
    && f.passed + Trail(t, f.at, f.frame.target) == Trail(t, f.frame.source, f.frame.target)
    && NoRepeats(Trail(t, f.frame.source, f.frame.target)) && NoRepeats(f.passed + [f.at])
    && (f.frame.phase.Request? && f.passed != [] ==>
          f.origin.FromChild? && f.origin.child in t.parent && t.parent[f.origin.child] == f.at)
    && (f.frame.phase.Control? && f.passed != [] ==>
          f.origin.FromParent? && f.at in t.parent && t.parent[f.at] == f.origin.parent)
  }

  /**
   * In every run, whatever hostile nodes send their parents, every frame is on the one tree path from its
   * source to its target, or is about to be dropped by the parent of the node that made it up.
   */
  lemma EveryFrameFollowsTheTree(t: Tree, maxPending: int, states: seq<Network>, actions: seq<Action>, i: nat, k: nat)
    requires TreeOk(t) && IsRun(t, maxPending, states, actions) && i < |states| && k < |states[i].flights|
    ensures OnItsWay(t, states[i].flights[k]) || Doomed(t, states[i].hostile, states[i].flights[k])
  {
    RunKeeps(t, maxPending, states, actions, i);
    hide IsRun, Doomed;
    var f := states[i].flights[k];
    if FlightOk(t, states[i].tracked, f) {
      TrailIsSimple(t, f.frame.source, f.frame.target);
      var ahead := Trail(t, f.at, f.frame.target);
      assert ahead[0] == f.at;
      hide Trail, FlightOk, Turn;
      var whole := f.passed + ahead;
      forall x, y | 0 <= x < y < |f.passed| + 1 ensures (f.passed + [f.at])[x] != (f.passed + [f.at])[y] {
        assert (f.passed + [f.at])[x] == whole[x] && (f.passed + [f.at])[y] == whole[y];
      }
    }
  }

  /** A routing loop is met, and a link closed, only on a frame that the child on that link made up. */
  lemma OnlyTheHostileAreRefused(t: Tree, maxPending: int, states: seq<Network>, actions: seq<Action>, i: nat)
    requires TreeOk(t) && IsRun(t, maxPending, states, actions) && i < |states|
    ensures states[i].looped <= states[i].hostile && states[i].refused <= states[i].hostile
    ensures forall c :: c in states[i].hostile ==> exists j :: 0 <= j < i && actions[j].Inject? && actions[j].child == c
  {
    RunKeeps(t, maxPending, states, actions, i);
    HostileInjected(t, maxPending, states, actions, i);
  }

  lemma {:induction false} HostileInjected(t: Tree, maxPending: int, states: seq<Network>, actions: seq<Action>, i: nat)
    requires TreeOk(t) && IsRun(t, maxPending, states, actions) && i < |states|
    ensures forall c :: c in states[i].hostile ==> exists j :: 0 <= j < i && actions[j].Inject? && actions[j].child == c
  {
    if i > 0 {
      HostileInjected(t, maxPending, states, actions, i - 1);
      assert states[(i - 1) + 1] == Step(t, maxPending, states[i - 1], actions[i - 1]);
      HostileGrows(t, maxPending, states[i - 1], actions[i - 1]);
      hide Step;
      forall c | c in states[i].hostile ensures exists j :: 0 <= j < i && actions[j].Inject? && actions[j].child == c {
        if c in states[i - 1].hostile {
          var j :| 0 <= j < i - 1 && actions[j].Inject? && actions[j].child == c;
        } else {
          assert actions[i - 1].Inject? && actions[i - 1].child == c;
        }
      }
    }
  }

  lemma HostileGrows(t: Tree, maxPending: int, n: Network, a: Action)
    requires TreeOk(t)
    ensures Step(t, maxPending, n, a).hostile <= n.hostile + if a.Inject? then {a.child} else {}
  {
    hide RouteFrame, ViewOf, Accepts, Injected;
  }

  /**
   * Every subscribe, unsubscribe, operate and session request that any node ever acted upon speaks for the
   * node where its way turns, the lowest common ancestor of source and target; or the policy of that node
   * decided for this very frame, as it passed or, when the way ends there, as it was delivered; or it is the
   * end of a subscription which that node itself declared.
   */
  lemma NothingActsUnjudged(t: Tree, maxPending: int, states: seq<Network>, actions: seq<Action>, i: nat, k: nat)
    requires TreeOk(t) && IsRun(t, maxPending, states, actions) && i < |states| && k < |states[i].acted|
    ensures var a := states[i].acted[k];
            var f := a.flight;
            && f.at == f.frame.target && f.frame.source in t.depth
            && var turn := Turn(t, f.frame.source, f.frame.target);
               || Subject(f.frame) == turn
               || f.judged == Some(Verdict(turn, QuestionOf(f.frame)))
               || (a.locally && f.at == turn)
               || (f.frame.phase.Control? && f.frame.operation.Unsubscribe? && f.frame.source == turn)
  {
    RunKeeps(t, maxPending, states, actions, i);
    assert ActedOk(t, states[i].acted[k]);
    hide Inv, IsRun;
  }

  /**
   * An event that climbed before it came down was let through where it turned: that node had tracked an
   * interest of the event's target in its source, and its policy still allowed that interest as this event passed.
   */
  lemma NoEventDescendsUnwanted(t: Tree, maxPending: int, states: seq<Network>, actions: seq<Action>, i: nat, k: nat)
    requires TreeOk(t) && IsRun(t, maxPending, states, actions) && i < |states| && k < |states[i].flights|
    requires var f := states[i].flights[k];
             f.origin.FromParent? && IsEvent(f.frame) && !f.frame.phase.Control? && f.frame.source in t.depth
             && Turn(t, f.frame.source, f.frame.target) != f.frame.source
    ensures var f := states[i].flights[k];
            var turn := Turn(t, f.frame.source, f.frame.target);
            exists x: Interest :: (turn, x) in states[i].tracked && x.source == f.frame.target
                                  && x.target == f.frame.source
                                  && f.judged == Some(Verdict(turn, InterestQuestion(x)))
  {
    RunKeeps(t, maxPending, states, actions, i);
    assert FlightOk(t, states[i].tracked, states[i].flights[k]);
    hide Inv, IsRun, Placed;
  }

  /** The same frame, up to the phase and epoch it takes on where it turns. */
  predicate SameFrame(f: Frame, g: Frame) { f.(phase := g.phase, epoch := g.epoch) == g }

  /**
   * A frame carries a judgement only from a step in which it passed the judge and the judge's policy answered
   * yes to that question; otherwise it carries what it carried before.
   */
  lemma JudgementsAreDecisions(t: Tree, maxPending: int, n: Network, a: Action, k: nat)
    requires TreeOk(t) && k < |Step(t, maxPending, n, a).flights| && Step(t, maxPending, n, a).flights[k].judged.Some?
    ensures var g := Step(t, maxPending, n, a).flights[k];
            || (exists j :: 0 <= j < |n.flights| && SameFrame(n.flights[j].frame, g.frame)
                            && n.flights[j].judged == g.judged)
            || (&& a.Handle? && a.flight < |n.flights| && SameFrame(n.flights[a.flight].frame, g.frame)
                && g.judged.value.judge == n.flights[a.flight].at && a.world.allows(g.judged.value.question))
  {
    var m := Step(t, maxPending, n, a);
    var g := m.flights[k];
    if k < |m.flights| && g in n.flights {
      var j :| 0 <= j < |n.flights| && n.flights[j] == g;
      assert SameFrame(n.flights[j].frame, g.frame);
    } else {
      NewFlight(t, maxPending, n, a, k);
    }
  }

  lemma NewFlight(t: Tree, maxPending: int, n: Network, a: Action, k: nat)
    requires TreeOk(t) && k < |Step(t, maxPending, n, a).flights|
    requires Step(t, maxPending, n, a).flights[k].judged.Some? && Step(t, maxPending, n, a).flights[k] !in n.flights
    ensures var g := Step(t, maxPending, n, a).flights[k];
            && a.Handle? && a.flight < |n.flights| && SameFrame(n.flights[a.flight].frame, g.frame)
            && (g.judged == n.flights[a.flight].judged
                || (g.judged.value.judge == n.flights[a.flight].at && a.world.allows(g.judged.value.question)))
  {
    var g := Step(t, maxPending, n, a).flights[k];
    assert a.Handle? && a.flight < |n.flights| && n.flights[a.flight].at in t.depth by { hide HandleFlight, Climb; }
    var f := n.flights[a.flight];
    var view := ViewOf(t, f.at);
    assert view.local == f.at;
    var out := RouteFrame(view, InterestsAt(n, f.at), f.frame, f.origin, a.world, maxPending);
    if out.fate.Forward? { ForwardShape(view, f.frame, f.origin, InterestsAt(n, f.at), a.world, maxPending); }
    hide ViewOf, RouteFrame, RouteTo, Accepts;
    NotOld(n.flights, a.flight, Step(t, maxPending, n, a).flights, k,
           Onward(t, f, out.fate), Reply(f, out.replies, a.replyId), Accepts(view, f.origin, f.frame));
  }

  lemma NotOld(flights: seq<Flight>, i: nat, after: seq<Flight>, k: nat, onward: seq<Flight>, reply: seq<Flight>,
      accepted: bool)
    requires i < |flights| && k < |after|
    requires after == if accepted then RemoveAt(flights, i) + onward + reply else RemoveAt(flights, i)
    ensures after[k] in flights || (accepted && (after[k] in onward || after[k] in reply))
  {
    var rest := RemoveAt(flights, i);
    if k < |rest| { assert after[k] == flights[if k < i then k else k + 1]; }
  }

  /** A node acts on its own judgement only in a step in which its policy answered yes. */
  lemma LocalActsAreDecisions(t: Tree, maxPending: int, n: Network, a: Action)
    requires TreeOk(t) && Step(t, maxPending, n, a).acted != n.acted
    ensures var acted := Step(t, maxPending, n, a).acted;
            && a.Handle? && a.flight < |n.flights| && |acted| == |n.acted| + 1 && acted[..|n.acted|] == n.acted
            && acted[|n.acted|].flight == n.flights[a.flight]
            && (acted[|n.acted|].locally ==> a.world.allows(QuestionOf(n.flights[a.flight].frame)))
  {
    if a.Handle? && a.flight < |n.flights| && n.flights[a.flight].at in t.depth {
      assert ViewOf(t, n.flights[a.flight].at).local == n.flights[a.flight].at;
    }
    hide ViewOf, RouteFrame, Accepts, Injected;
  }

  /** An interest is tracked only in a step in which that node let this subscription through by its policy. */
  lemma TrackingIsADecision(t: Tree, maxPending: int, n: Network, a: Action, node: NodeId, x: Interest)
    requires TreeOk(t) && Inv(t, n) && (node, x) !in n.tracked && (node, x) in Step(t, maxPending, n, a).tracked
    ensures a.Handle? && a.flight < |n.flights| && n.flights[a.flight].at == node
    ensures var f := n.flights[a.flight].frame;
            f.phase.Request? && f.operation.Subscribe? && x == InterestOf(f) && a.world.allows(QuestionOf(f))
  {
    assert a.Handle? && a.flight < |n.flights| by { hide HandleFlight, Injected; }
    var f := n.flights[a.flight];
    var interests := InterestsAt(n, f.at);
    var view := ViewOf(t, f.at);
    var out := RouteFrame(view, interests, f.frame, f.origin, a.world, maxPending);
    assert node == f.at && exists id :: id in out.interests && out.interests[id] == x by
                                        { hide RouteFrame, ViewOf, Accepts; }
    var id :| id in out.interests && out.interests[id] == x;
    InterestsKept(view, interests, f.frame, f.origin, a.world, maxPending, id);
    assert AmongTracked(n.tracked, f.at, interests);
    hide ViewOf, RouteFrame, Accepts, Step;
  }
}
