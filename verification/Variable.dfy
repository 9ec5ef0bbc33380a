/**
 * The notification protocol of a Variable. Writers pass one at a time through the mutation gate,
 * every commit queues one notice for the watchers of that moment, and a single drainer delivers
 * the queue in order. Each action below is one critical section or one unlocked step of some
 * thread; a run is any interleaving of them.
 */
module Variable {
  import opened Basics

  type WatchId = nat

  datatype Value = Value(revision: nat, content: string)

  /** What a watcher is told: a committed value, or that the variable is gone. */
  datatype Update = Committed(value: Value) | Gone

  datatype Notice = Notice(update: Update, watchers: seq<WatchId>)

  datatype Limits = Limits(maxQueue: nat, maxSubscribers: nat)

  /** The fields guarded by the variable's lock, and the name of this instance, which never changes. */
  datatype Core = Core(
    instance: string, current: Value, retired: bool, nextWatch: nat, watchers: set<WatchId>, pending: seq<Notice>,
    draining: bool)

  datatype Error = NotFound | QueueFull | RevisionConflict | RevisionRegression | RevisionExhausted | SubscriberLimit

  // -------------------------------------------------------- critical sections

  /** The order in which the watcher map happens to be visited. */
  ghost predicate Visits(order: seq<WatchId>, watchers: set<WatchId>) {
    && (forall w :: w in order <==> w in watchers)
    && (forall i, j :: 0 <= i < j < |order| ==> order[i] != order[j])
  }

  /** Queues a notice for the present watchers; the flag says whether the caller must drain. */
  function Enqueue(c: Core, update: Update, order: seq<WatchId>): (r: (Core, bool)) {
    if c.watchers == {} then (c, false)
    else (c.(pending := c.pending + [Notice(update, order)], draining := true), !c.draining)
  }

  function Commit(l: Limits, c: Core, value: Value, order: seq<WatchId>): (r: Result<(Core, bool), Error>) {
    if c.retired then Err(NotFound)
    else if |c.pending| >= l.maxQueue then Err(QueueFull)
    else Ok(Enqueue(c.(current := value), Committed(value), order))
  }

  function CanCommit(l: Limits, c: Core): (r: Option<Error>) {
    if c.retired then Some(NotFound) else if |c.pending| >= l.maxQueue then Some(QueueFull) else None
  }

  /** The first look of a compare-and-set at the variable. */
  function MatchRevision(c: Core, instance: string, expected: nat): (r: Option<Error>)
  {
    if c.retired then Some(NotFound)
    else if expected == 0 || instance != c.instance || expected != c.current.revision then Some(RevisionConflict)
    else if c.current.revision == U64 - 1 then Some(RevisionExhausted)
    else None
  }

  /** The revision an unconditional write will install; zero asks for the next one. */
  function ChooseRevision(c: Core, requested: nat): (r: Result<nat, Error>)
  {
    if c.retired then Err(NotFound)
    else if c.current.revision == U64 - 1 then Err(RevisionExhausted)
    else
      var revision := if requested == 0 then c.current.revision + 1 else requested;
      if revision <= c.current.revision then Err(RevisionRegression) else Ok(revision)
  }

  function Watch(l: Limits, c: Core): (r: Result<(Core, WatchId), Error>) {
    if c.retired then Err(NotFound)
    else if |c.watchers| >= l.maxSubscribers then Err(SubscriberLimit)
    else
      var w := c.nextWatch + 1;
      Ok((c.(nextWatch := w, watchers := c.watchers + {w}), w))
  }

  function Forget(c: Core, w: WatchId): Core { c.(watchers := c.watchers - {w}) }

  function Retire(c: Core, order: seq<WatchId>): (r: (Core, bool)) {
    if c.retired then (c, false)
    else
      var (d, drain) := Enqueue(c.(retired := true), Gone, order);
      (d.(watchers := {}), drain)
  }

  /** The head of the drain loop: stop when the queue is empty, otherwise take the oldest notice. */
  function Pop(c: Core): (r: (Core, Option<Notice>)) {
    if c.pending == [] then (c.(draining := false), None)
    else (c.(pending := c.pending[1..]), Some(c.pending[0]))
  }

  // ------------------------------------------------------------ the whole system

  /** A thread that owns the right to drain. */
  datatype Drainer =
    | AtLoop                                             // told to drain, or back at the loop head
    | Delivering(update: Update, rest: seq<WatchId>)     // about to look at the next watcher
    | Calling(update: Update, rest: seq<WatchId>)        // saw `rest[0]` not cancelled, about to call it

  /** The writer inside the mutation gate. */
  datatype Writer =
    | Outside
    | Entered
    | Matched(instance: string, expected: nat, proposal: string)      // compare-and-set: instance and revision matched
    | InHandler(instance: string, expected: nat, proposal: string)    // preflight passed, external handler running
    | Chosen(base: nat, revision: nat)                                // unconditional write: revision picked
    | Ready(base: nat, value: Value, claim: Option<string>)           // prepared, about to commit; the instance meant
    | Finished

  /** A successful compare-and-set: the instance and revision it expected, what it replaced, what it installed. */
  datatype CasWin = CasWin(instance: string, expected: nat, replaced: nat, installed: nat)

  /** The record of what has happened, used only to state what is promised. */
  datatype Log = Log(
    commits: seq<Value>, since: map<WatchId, nat>, delivered: map<WatchId, seq<Update>>, cancelled: set<WatchId>,
    wins: seq<CasWin>)

  datatype System = System(core: Core, writer: Writer, drainers: seq<Drainer>, log: Log)

  datatype Action =
    | Acquire
    | CasRead(instance: string, expected: nat, proposal: string)
    | CasPreflight(prepareOk: bool)
    | NoHandler
    | HandlerReturns(confirmed: bool, content: string)
    | ApplyRead(requested: nat)
    | ApplyPrepare(prepareOk: bool, content: string)
    | DoCommit(order: seq<WatchId>)
    | Release
    | DoWatch
    | MarkCancelled(watcher: WatchId)
    | DoForget(watcher: WatchId)
    | DoRetire(order: seq<WatchId>)
    | DrainPop(drainer: nat)
    | DrainLook(drainer: nat)
    | DrainCall(drainer: nat, panics: bool)

  function Start(instance: string, content: string): System {
    System(Core(instance, Value(1, content), false, 0, {}, [], false), Outside, [], Log([], map[], map[], {}, []))
  }

  function AddDrainer(drainers: seq<Drainer>, drain: bool): seq<Drainer> {
    if drain then drainers + [AtLoop] else drainers
  }

  function CommitStep(l: Limits, s: System, order: seq<WatchId>): System
    requires s.writer.Ready?
  {
    match Commit(l, s.core, s.writer.value, order)
    case Err(_) => s.(writer := Finished)
    case Ok((core, drain)) =>
      var value := s.writer.value;
      var wins := if s.writer.claim.None? then s.log.wins
                  else
                    s.log.wins
                    + [CasWin(s.writer.claim.value, s.writer.base, s.core.current.revision, value.revision)];
      System(core, Finished, AddDrainer(s.drainers, drain), s.log.(commits := s.log.commits + [value], wins := wins))
  }

  function RetireStep(s: System, order: seq<WatchId>): System {
    var (core, drain) := Retire(s.core, order);
    s.(core := core, drainers := AddDrainer(s.drainers, drain))
  }

  function PopStep(s: System, i: nat): System
    requires i < |s.drainers|
  {
    var (core, notice) := Pop(s.core);
    match notice
    case None => s.(core := core, drainers := RemoveAt(s.drainers, i))
    case Some(n) => s.(core := core, drainers := s.drainers[i := Delivering(n.update, n.watchers)])
  }

  function LookStep(s: System, i: nat): System
    requires i < |s.drainers| && s.drainers[i].Delivering?
  {
    var d := s.drainers[i];
    var next := if d.rest == [] then AtLoop
                else if d.rest[0] in s.log.cancelled then Delivering(d.update, d.rest[1..])
                else Calling(d.update, d.rest);
    s.(drainers := s.drainers[i := next])
  }

  function CallStep(s: System, i: nat, panics: bool): System
    requires i < |s.drainers| && s.drainers[i].Calling? && s.drainers[i].rest != []
  {
    var d := s.drainers[i];
    var w := d.rest[0];
    var before := if w in s.log.delivered then s.log.delivered[w] else [];
    var log := s.log.(delivered := s.log.delivered[w := before + [d.update]],
                      cancelled := if panics then s.log.cancelled + {w} else s.log.cancelled);
    s.(drainers := s.drainers[i := Delivering(d.update, d.rest[1..])], log := log)
  }

  function WatchStep(l: Limits, s: System): System {
    match Watch(l, s.core)
    case Err(_) => s
    case Ok((core, w)) =>
      s.(core := core, log := s.log.(since := s.log.since[w := |s.log.commits|], delivered := s.log.delivered[w := []]))
  }

  /** One action; an action that is not enabled changes nothing. */
  ghost function Step(l: Limits, s: System, a: Action): System
  {
    match a
    case Acquire => if s.writer.Outside? then s.(writer := Entered) else s
    case CasRead(instance, expected, proposal) =>
      if !s.writer.Entered? then s
      else if MatchRevision(s.core, instance, expected).None? then s.(writer := Matched(instance, expected, proposal))
      else s.(writer := Finished)
    case CasPreflight(ok) =>
      if !s.writer.Matched? then s
      else if ok && CanCommit(l, s.core).None? then
        s.(writer := InHandler(s.writer.instance, s.writer.expected, s.writer.proposal))
      else s.(writer := Finished)
    case NoHandler =>
      if !s.writer.InHandler? then s
      else
        var e := s.writer.expected;
        s.(writer := Ready(e, Value(e + 1, s.writer.proposal), Some(s.writer.instance)))
    case HandlerReturns(confirmed, content) =>
      if !s.writer.InHandler? then s
      else
        var e := s.writer.expected;
        s.(writer := if confirmed then Ready(e, Value(e + 1, content), Some(s.writer.instance)) else Finished)
    case ApplyRead(requested) =>
      if !s.writer.Entered? then s
      else
        var r := ChooseRevision(s.core, requested);
        s.(writer := if r.Ok? then Chosen(s.core.current.revision, r.value) else Finished)
    case ApplyPrepare(ok, content) =>
      if !s.writer.Chosen? then s
      else if ok && CanCommit(l, s.core).None? then
        s.(writer := Ready(s.writer.base, Value(s.writer.revision, content), None))
      else s.(writer := Finished)
    case DoCommit(order) => if s.writer.Ready? && Visits(order, s.core.watchers) then CommitStep(l, s, order) else s
    case Release => if s.writer.Finished? then s.(writer := Outside) else s
    case DoWatch => WatchStep(l, s)
    case MarkCancelled(w) => if w in s.log.since then s.(log := s.log.(cancelled := s.log.cancelled + {w})) else s
    case DoForget(w) => if w in s.log.cancelled then s.(core := Forget(s.core, w)) else s
    case DoRetire(order) =>
      if Visits(order, s.core.watchers) then RetireStep(s, order) else s
    case DrainPop(i) => if i < |s.drainers| && s.drainers[i].AtLoop? then PopStep(s, i) else s
    case DrainLook(i) => if i < |s.drainers| && s.drainers[i].Delivering? then LookStep(s, i) else s
    case DrainCall(i, panics) =>
      if i < |s.drainers| && s.drainers[i].Calling? && s.drainers[i].rest != [] then CallStep(s, i, panics) else s
  }

  ghost predicate IsRun(l: Limits, instance: string, content: string, states: seq<System>, actions: seq<Action>) {
    && |states| == |actions| + 1 && states[0] == Start(instance, content)
    && (forall i :: 0 <= i < |actions| ==> states[i + 1] == Step(l, states[i], actions[i]))
  }
}
