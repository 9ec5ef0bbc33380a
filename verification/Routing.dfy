/**
 * What one node does with a frame: validate it against the link it came over, deliver it, or pass
 * it on. A request climbs as a request; the node where it turns downwards judges it and promotes it
 * to control; control only descends.
 */
module Routing {
  import opened Basics
  import opened Tree

  type MessageId = nat

  datatype Phase = Request | Control | Response | Event

  datatype Operation =
    | Subscribe | Unsubscribe | SubscribeAck | ResourceEvent | ResourceGap | Operate | OperateResult
    | SessionOpen | SessionOpenResult | SessionData | SessionClose | ErrorReply

  datatype Frame = Frame(
    phase: Phase, operation: Operation, id: MessageId, correlation: MessageId, source: NodeId, principal: NodeId,
    target: NodeId, resource: string, capability: string, epoch: nat)

  function Subject(f: Frame): (r: NodeId) { if f.principal != 0 then f.principal else f.source }

  /** The question put to a node's policy. */
  datatype Question = Question(subject: NodeId, capability: string, resource: string)

  function QuestionOf(f: Frame): (q: Question) { Question(Subject(f), f.capability, f.resource) }

  predicate NeedsAuthority(op: Operation) {
    op.Subscribe? || op.Unsubscribe? || op.Operate? || op.SessionOpen? || op.SessionData? || op.SessionClose?
  }

  /** A subscription that was let through and is watched for events coming back. */
  datatype Interest = Interest(source: NodeId, principal: NodeId, target: NodeId, resource: string, capability: string)

  function InterestOf(f: Frame): (i: Interest) { Interest(f.source, f.principal, f.target, f.resource, f.capability) }

  function InterestQuestion(i: Interest): (q: Question) {
    Question(if i.principal != 0 then i.principal else i.source, i.capability, i.resource)
  }

  /** Where a frame came from: made here, or over the link to a child or to the parent. */
  datatype Origin = Here | FromChild(child: NodeId) | FromParent(parent: NodeId)

  /** What the outside contributes while one frame is handled. */
  datatype World = World(allows: Question -> bool, canTrack: bool, generation: nat, sessionUp: bool)

  datatype Fate =
    | Deliver
    | Forward(next: NodeId, frame: Frame, judged: Option<Question>)
    | Drop(why: Reason)

  datatype Reason =
    | NotReachable | RoutingLoop | NoInterest | Forbidden | NotTracked | NoChildEpoch | ControlTowardParent
    | SessionDown

  /** The outcome of handling a frame: its fate, the interests kept afterwards, and whether an error goes back. */
  datatype Outcome = Outcome(fate: Fate, interests: map<MessageId, Interest>, replies: bool)

  // ------------------------------------------------------------------ inbound checks

  predicate Accepts(v: View, o: Origin, f: Frame) {
    match o
    case Here => true
    case FromChild(c) => !f.phase.Control? && f.principal == 0 && SpeaksFor(v, c, f.source)
    case FromParent(p) =>
      if f.phase.Control? then v.parent == Some(p) && v.parentEpoch == f.epoch
      else f.principal == 0 && (f.phase.Request? ==> f.source == p)
  }

  // ------------------------------------------------------------------------- routing

  function Untrack(interests: map<MessageId, Interest>, id: MessageId, source: NodeId,
      target: NodeId): (r: map<MessageId, Interest>) {
    if id in interests && interests[id].source == source && interests[id].target == target then interests - {id}
    else interests
  }

  predicate Reachable(v: View, n: NodeId) { !RouteTo(v, n).Unreachable? }

  predicate CanTrack(v: View, interests: map<MessageId, Interest>, f: Frame, w: World, maxPending: int) {
    && w.generation != 0 && Reachable(v, f.source) && Reachable(v, f.target) && w.canTrack
    && |interests| < maxPending && f.id !in interests
  }

  /** Untracking right after tracking leaves no trace, and untracking with other ends touches nothing. */
  lemma UntrackUndoesTracking(
    v: View, interests: map<MessageId, Interest>, f: Frame, w: World, maxPending: int, source: NodeId, target: NodeId)
    requires CanTrack(v, interests, f, w, maxPending)
    ensures var tracked := interests[f.id := InterestOf(f)];
            && Untrack(tracked, f.id, f.source, f.target) == interests
            && (source != f.source || target != f.target ==> Untrack(tracked, f.id, source, target) == tracked)
  {
    assert interests[f.id := InterestOf(f)] - {f.id} == interests;
  }

  /** Whether a returning event may turn downwards here. */
  predicate Wanted(interests: map<MessageId, Interest>, f: Frame, w: World) {
    && f.correlation in interests && interests[f.correlation].source == f.target
       && interests[f.correlation].target == f.source
    && w.allows(InterestQuestion(interests[f.correlation]))
  }

  function NextHop(r: Route): Option<NodeId> {
    match r case Down(next, _) => Some(next) case Up(next) => Some(next) case _ => None
  }

  function PeerOf(o: Origin): Option<NodeId> {
    match o case Here => None case FromChild(c) => Some(c) case FromParent(p) => Some(p)
  }

  /** Hands the frame to the session of the next hop; nothing was queued when that fails. */
  function Send(
    f: Frame, next: NodeId, judged: Option<Question>, o: Origin, w: World, undo: map<MessageId, Interest>,
      done: map<MessageId, Interest>): (r: Outcome)
  {
    if w.sessionUp then Outcome(Forward(next, f, judged), done, false)
    else Outcome(Drop(SessionDown), undo, !o.Here? && (f.phase.Request? || f.phase.Control?))
  }

  /** A request that turns downwards at this node. */
  function TurnDown(
    v: View, interests: map<MessageId, Interest>, f: Frame, o: Origin, w: World, maxPending: int, next: NodeId,
      epoch: nat): (r: Outcome)
  {
    var control := f.(phase := Control, epoch := epoch);
    if Subject(f) == v.local then
      if epoch == 0 then Outcome(Drop(NoChildEpoch), interests, false)
      else Send(control, next, None, o, w, interests, interests)
    else if !NeedsAuthority(f.operation) || !w.allows(QuestionOf(f)) then Outcome(Drop(Forbidden), interests, true)
    else if f.operation.Subscribe? then
      if !CanTrack(v, interests, f, w, maxPending) then Outcome(Drop(NotTracked), interests, true)
      // A failed promotion clears the frame first, so what is taken back is the interest of an empty frame.
      else if epoch == 0 then
        Outcome(Drop(NoChildEpoch), Untrack(interests[f.id := InterestOf(f)], 0, 0, 0), false)
      else Send(control, next, Some(QuestionOf(f)), o, w, interests, interests[f.id := InterestOf(f)])
    else if epoch == 0 then Outcome(Drop(NoChildEpoch), interests, false)
    else
      var done := if f.operation.Unsubscribe? then Untrack(interests, f.correlation, f.source, f.target) else interests;
      Send(control, next, Some(QuestionOf(f)), o, w, interests, done)
  }

  /** A subscription whose promotion fails leaves its interest behind, unless the frame was empty in the first place. */
  lemma FailedPromotionLeavesInterest(v: View, interests: map<MessageId, Interest>, f: Frame, o: Origin, w: World,
      maxPending: int, next: NodeId)
    requires f.operation.Subscribe? && Subject(f) != v.local && w.allows(QuestionOf(f))
    requires CanTrack(v, interests, f, w, maxPending)
    ensures var out := TurnDown(v, interests, f, o, w, maxPending, next, 0);
            && out.fate == Drop(NoChildEpoch)
            && (f.id in out.interests <==> !(f.id == f.source == f.target == 0))
            && (f.id in out.interests ==> out.interests[f.id] == InterestOf(f))
  {
  }

  function PassDown(
    v: View, interests: map<MessageId, Interest>, f: Frame, o: Origin, w: World, maxPending: int, next: NodeId,
      epoch: nat): (r: Outcome)
  {
    var returning := o.FromChild? && (f.operation.ResourceEvent? || f.operation.ResourceGap?);
    if returning && !Wanted(interests, f, w) then Outcome(Drop(NoInterest), interests, false)
    else
      match f.phase
      case Request => TurnDown(v, interests, f, o, w, maxPending, next, epoch)
      case Control =>
        if epoch == 0 then Outcome(Drop(NoChildEpoch), interests, false)
        else Send(f.(epoch := epoch), next, None, o, w, interests, interests)
      case _ =>
        var judged := if returning then Some(InterestQuestion(interests[f.correlation])) else None;
        Send(f, next, judged, o, w, interests, interests)
  }

  /** What a node does with a frame it has accepted. */
  function RouteFrame(v: View, interests: map<MessageId, Interest>, f: Frame, o: Origin, w: World,
      maxPending: int): (r: Outcome) {
    if f.target == v.local then Outcome(Deliver, interests, false)
    else
      var kept := if f.phase.Response? && f.operation.ErrorReply?
                  then Untrack(interests, f.correlation, f.target, f.source) else interests;
      var route := RouteTo(v, f.target);
      if route.Unreachable? then Outcome(Drop(NotReachable), kept, f.phase.Request?)
      else if PeerOf(o).Some? && NextHop(route) == PeerOf(o) then Outcome(Drop(RoutingLoop), kept, false)
      else
        match route
        case Down(next, epoch) => PassDown(v, kept, f, o, w, maxPending, next, epoch)
        case Up(next) =>
          if f.phase.Control? then Outcome(Drop(ControlTowardParent), kept, false)
          else Send(f, next, None, o, w, kept, kept)
        case _ => Outcome(Deliver, kept, false)
  }

  /** What a node answers to a frame it will not pass on. */
  function ErrorFor(local: NodeId, f: Frame, id: MessageId): (r: Frame) {
    Frame(Response, ErrorReply, id, f.id, local, 0, f.source, "", "", 0)
  }

  /** The last check before a delivered request is acted upon. */
  predicate ActsOn(v: View, f: Frame, w: World) {
    f.phase.Control? || Subject(f) == v.local
      || (f.phase.Request? && NeedsAuthority(f.operation) && w.allows(QuestionOf(f)))
  }
}
