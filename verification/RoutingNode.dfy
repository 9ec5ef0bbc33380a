/** The routing method of one node, which rewrites the frame and the tracked subscriptions step by step. */
module RoutingNode {
  import opened Basics
  import opened Tree
  import opened Routing

  class Router {
    const maxPending: int
    const view: View
    var interests: map<MessageId, Interest>

    constructor (view: View, maxPending: int)
      ensures this.view == view && this.maxPending == maxPending && interests == map[]
    {
      this.view, this.maxPending, interests := view, maxPending, map[];
    }

    method TrackForwarded(f: Frame, w: World) returns (ok: bool)
      modifies this
      ensures ok <==> CanTrack(view, old(interests), f, w, maxPending)
      ensures interests == if ok then old(interests)[f.id := InterestOf(f)] else old(interests)
    {
      if w.generation == 0 { return false; }
      var sourceRoute, targetRoute := RouteTo(view, f.source), RouteTo(view, f.target);
      if sourceRoute.Unreachable? || targetRoute.Unreachable? { return false; }
      if !w.canTrack || |interests| >= maxPending || f.id in interests { return false; }
      interests := interests[f.id := InterestOf(f)];
      ok := true;
    }

    method UntrackForwarded(id: MessageId, source: NodeId, target: NodeId)
      modifies this
      ensures interests == Untrack(old(interests), id, source, target)
    {
      if id in interests && interests[id].source == source && interests[id].target == target {
        interests := interests - {id};
      }
    }

    /** Routes one accepted frame; the flag says whether an error goes back to the sender. */
    method RouteEnvelope(envelope: Frame, o: Origin, w: World) returns (fate: Fate, replies: bool)
      modifies this
      ensures Outcome(fate, interests, replies) == RouteFrame(view, old(interests), envelope, o, w, maxPending)
    {
      hide Subject, QuestionOf, NeedsAuthority, InterestQuestion, Reachable;
      var f, judged := envelope, None;
      if f.target == view.local { return Deliver, false; }
      if f.phase.Response? && f.operation.ErrorReply? { UntrackForwarded(f.correlation, f.target, f.source); }
      ghost var kept := interests;
      var route := RouteTo(view, f.target);
      assert !route.Local?;
      hide RouteTo;
      if route.Unreachable? { return Drop(NotReachable), f.phase.Request?; }
      if PeerOf(o).Some? && NextHop(route) == PeerOf(o) { return Drop(RoutingLoop), false; }
      if o.FromChild? && route.Down? && (f.operation.ResourceEvent? || f.operation.ResourceGap?) {
        if !Wanted(interests, f, w) { return Drop(NoInterest), false; }
        if !f.phase.Request? && !f.phase.Control? { judged := Some(InterestQuestion(interests[f.correlation])); }
      }
      var tracked, untrack := false, false;
      if route.Down? {
        if f.phase.Request? {
          if Subject(f) != view.local {
            if !NeedsAuthority(f.operation) || !w.allows(QuestionOf(f)) { return Drop(Forbidden), true; }
            judged := Some(QuestionOf(f));
            if f.operation.Subscribe? {
              tracked := TrackForwarded(f, w);
              if !tracked { return Drop(NotTracked), true; }
            } else if f.operation.Unsubscribe? {
              untrack := true;
            }
          }
          if route.epoch == 0 {
            if tracked { UntrackForwarded(0, 0, 0); }
            return Drop(NoChildEpoch), false;
          }
          f := f.(phase := Control, epoch := route.epoch);
        } else if f.phase.Control? {
          if route.epoch == 0 { return Drop(NoChildEpoch), false; }
          f := f.(epoch := route.epoch);
        }
      } else if f.phase.Control? {
        return Drop(ControlTowardParent), false;
      }
      if !w.sessionUp {
        if tracked { UntrackForwarded(f.id, f.source, f.target); }
        assert tracked ==> interests == kept;
        return Drop(SessionDown), !o.Here? && (f.phase.Request? || f.phase.Control?);
      }
      if untrack { UntrackForwarded(f.correlation, f.source, f.target); }
      return Forward(route.next, f, judged), false;
    }
  }
}
