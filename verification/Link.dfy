/**
 * The bounded queues of a link and its writer. Senders reserve bytes by compare-and-swap before they
 * enqueue, consumers give the bytes back after use, and the writer prefers control frames without
 * starving data.
 */
module Link {
  import opened Basics

  // --------------------------------------------------------------------- byte budget

  datatype Frame = Frame(payload: nat, contentType: nat, schema: nat, capability: nat, name: nat)

  /** What a queued frame is charged: its parts and a fixed overhead. */
  function EnvelopeBytes(f: Frame): (n: nat)
    ensures n >= 512
  {
    512 + f.payload + f.contentType + f.schema + f.capability + f.name
  }

  /** A thread inside `push`. */
  datatype Pusher =
    | Starting(frame: Frame)                 // about to load the counter
    | Loaded(frame: Frame, before: int)      // saw the counter, found room, about to swap
    | Reserved(frame: Frame)                 // owns its bytes, about to enqueue
    | Returning(frame: Frame)                // found the channel full, about to give its bytes back

  /** `sent` and `taken` record what went into and came out of the channel. */
  datatype Queue = Queue(
    bytes: int, frames: seq<Frame>, pushers: seq<Pusher>, held: seq<Frame>, sent: seq<Frame>, taken: seq<Frame>)

  datatype Limits = Limits(count: nat, maxBytes: int)

  datatype Action = Arrive(frame: Frame) | Load(i: nat) | Swap(i: nat) | Enqueue(i: nat) | GiveBack(i: nat)
                  | Dequeue | Release(i: nat)

  function Step(l: Limits, q: Queue, a: Action): (r: Queue) {
    match a
    case Arrive(f) => q.(pushers := q.pushers + [Starting(f)])
    case Load(i) =>
      if i < |q.pushers| && q.pushers[i].Starting? then
        if l.maxBytes > 0 && EnvelopeBytes(q.pushers[i].frame) > l.maxBytes - q.bytes
        then q.(pushers := RemoveAt(q.pushers, i))
        else q.(pushers := q.pushers[i := Loaded(q.pushers[i].frame, q.bytes)])
      else q
    case Swap(i) =>
      if i < |q.pushers| && q.pushers[i].Loaded? then
        if q.bytes == q.pushers[i].before then
          q.(bytes := q.pushers[i].before + EnvelopeBytes(q.pushers[i].frame),
            pushers := q.pushers[i := Reserved(q.pushers[i].frame)])
        else q.(pushers := q.pushers[i := Starting(q.pushers[i].frame)])
      else q
    case Enqueue(i) =>
      if i < |q.pushers| && q.pushers[i].Reserved? then
        var f := q.pushers[i].frame;
        if |q.frames| < l.count then
          q.(frames := q.frames + [f], sent := q.sent + [f], pushers := RemoveAt(q.pushers, i))
        else q.(pushers := q.pushers[i := Returning(f)])
      else q
    case GiveBack(i) =>
      if i < |q.pushers| && q.pushers[i].Returning? then
        q.(bytes := q.bytes - EnvelopeBytes(q.pushers[i].frame), pushers := RemoveAt(q.pushers, i))
      else q
    case Dequeue =>
      if q.frames == [] then q
      else q.(frames := q.frames[1..], held := q.held + [q.frames[0]], taken := q.taken + [q.frames[0]])
    case Release(i) =>
      if i < |q.held| then q.(bytes := q.bytes - EnvelopeBytes(q.held[i]), held := RemoveAt(q.held, i)) else q
  }

  function Start(): (q: Queue) { Queue(0, [], [], [], [], []) }

  ghost predicate IsRun(l: Limits, states: seq<Queue>, actions: seq<Action>) {
    && |states| == |actions| + 1 && states[0] == Start()
    && forall i :: 0 <= i < |actions| ==> states[i + 1] == Step(l, states[i], actions[i])
  }

  function Charged(frames: seq<Frame>): (n: nat) {
    if frames == [] then 0 else Charged(frames[..|frames| - 1]) + EnvelopeBytes(frames[|frames| - 1])
  }

  function Owned(p: Pusher): (n: nat) { if p.Reserved? || p.Returning? then EnvelopeBytes(p.frame) else 0 }

  function Pushing(pushers: seq<Pusher>): (n: nat) {
    if pushers == [] then 0 else Pushing(pushers[..|pushers| - 1]) + Owned(pushers[|pushers| - 1])
  }

  lemma ChargedMore(frames: seq<Frame>, f: Frame)
    ensures Charged(frames + [f]) == Charged(frames) + EnvelopeBytes(f)
  {
    assert (frames + [f])[..|frames|] == frames;
  }

  lemma {:induction false} ChargedAt(frames: seq<Frame>, i: nat)
    requires i < |frames|
    ensures Charged(RemoveAt(frames, i)) == Charged(frames) - EnvelopeBytes(frames[i])
  {
    var front, last := frames[..|frames| - 1], frames[|frames| - 1];
    if i == |front| {
      assert RemoveAt(frames, i) == front;
    } else {
      ChargedAt(front, i);
      assert RemoveAt(frames, i) == RemoveAt(front, i) + [last];
      ChargedMore(RemoveAt(front, i), last);
    }
  }

  lemma PushingMore(pushers: seq<Pusher>, p: Pusher)
    ensures Pushing(pushers + [p]) == Pushing(pushers) + Owned(p)
  {
    assert (pushers + [p])[..|pushers|] == pushers;
  }

  lemma {:induction false} PushingAt(pushers: seq<Pusher>, i: nat, p: Pusher)
    requires i < |pushers|
    ensures Pushing(RemoveAt(pushers, i)) == Pushing(pushers) - Owned(pushers[i])
    ensures Pushing(pushers[i := p]) == Pushing(pushers) - Owned(pushers[i]) + Owned(p)
  {
    var front, last := pushers[..|pushers| - 1], pushers[|pushers| - 1];
    if i == |front| {
      assert RemoveAt(pushers, i) == front && pushers[i := p] == front + [p];
      PushingMore(front, p);
    } else {
      PushingAt(front, i, p);
      assert RemoveAt(pushers, i) == RemoveAt(front, i) + [last] && pushers[i := p] == front[i := p] + [last];
      PushingMore(RemoveAt(front, i), last);
      PushingMore(front[i := p], last);
    }
  }

  /** A thread about to swap has seen a counter that leaves room for its frame. */
  predicate SawRoom(l: Limits, p: Pusher) {
    p.Loaded? && l.maxBytes > 0 ==> p.before + EnvelopeBytes(p.frame) <= l.maxBytes
  }

  predicate AllSawRoom(l: Limits, pushers: seq<Pusher>) { forall i :: 0 <= i < |pushers| ==> SawRoom(l, pushers[i]) }

  predicate Balanced(q: Queue) { q.bytes == Pushing(q.pushers) + Charged(q.frames) + Charged(q.held) }

  ghost predicate Inv(l: Limits, q: Queue) {
    && Balanced(q) && (l.maxBytes > 0 ==> q.bytes <= l.maxBytes)
    && AllSawRoom(l, q.pushers) && |q.frames| <= l.count && q.sent == q.taken + q.frames
  }

  lemma PusherKeeps(l: Limits, q: Queue, i: nat, p: Pusher)
    requires AllSawRoom(l, q.pushers) && i < |q.pushers| && SawRoom(l, p)
    ensures AllSawRoom(l, q.pushers[i := p]) && AllSawRoom(l, RemoveAt(q.pushers, i))
  {
    hide SawRoom;
    var r := RemoveAt(q.pushers, i);
    forall j | 0 <= j < |r| ensures SawRoom(l, r[j]) { assert r[j] == q.pushers[if j < i then j else j + 1]; }
  }

  lemma LoadStep(l: Limits, q: Queue, i: nat)
    requires Inv(l, q)
    ensures Inv(l, Step(l, q, Load(i)))
  {
    if i < |q.pushers| && q.pushers[i].Starting? {
      var p := Loaded(q.pushers[i].frame, q.bytes);
      PushingAt(q.pushers, i, p);
      PusherKeeps(l, q, i, Starting(p.frame));
      if SawRoom(l, p) { PusherKeeps(l, q, i, p); }
      hide Pushing, Charged, AllSawRoom, RemoveAt, EnvelopeBytes;
    }
  }

  lemma SwapStep(l: Limits, q: Queue, i: nat)
    requires Inv(l, q)
    ensures Inv(l, Step(l, q, Swap(i)))
  {
    if i < |q.pushers| && q.pushers[i].Loaded? {
      var f := q.pushers[i].frame;
      assert SawRoom(l, q.pushers[i]);
      PushingAt(q.pushers, i, Starting(f));
      PushingAt(q.pushers, i, Reserved(f));
      PusherKeeps(l, q, i, Starting(f));
      PusherKeeps(l, q, i, Reserved(f));
      hide Pushing, Charged, AllSawRoom, RemoveAt, EnvelopeBytes;
    }
  }

  lemma EnqueueStep(l: Limits, q: Queue, i: nat)
    requires Inv(l, q)
    ensures Inv(l, Step(l, q, Enqueue(i)))
  {
    if i < |q.pushers| && q.pushers[i].Reserved? {
      var f := q.pushers[i].frame;
      PushingAt(q.pushers, i, Returning(f));
      PusherKeeps(l, q, i, Returning(f));
      ChargedMore(q.frames, f);
      hide Pushing, Charged, AllSawRoom, RemoveAt, EnvelopeBytes;
      assert q.taken + (q.frames + [f]) == (q.taken + q.frames) + [f];
    }
  }

  lemma GiveBackStep(l: Limits, q: Queue, i: nat)
    requires Inv(l, q)
    ensures Inv(l, Step(l, q, GiveBack(i)))
  {
    if i < |q.pushers| && q.pushers[i].Returning? {
      PushingAt(q.pushers, i, q.pushers[i]);
      PusherKeeps(l, q, i, q.pushers[i]);
      hide Pushing, Charged, AllSawRoom, RemoveAt;
    }
  }

  lemma DequeueStep(l: Limits, q: Queue)
    requires Inv(l, q)
    ensures Inv(l, Step(l, q, Dequeue))
  {
    if q.frames != [] {
      var f := q.frames[0];
      ChargedAt(q.frames, 0);
      ChargedMore(q.held, f);
      hide Pushing, Charged, AllSawRoom, EnvelopeBytes;
      assert RemoveAt(q.frames, 0) == q.frames[1..];
      Passed(q.taken, q.frames);
    }
  }

  lemma Passed(taken: seq<Frame>, frames: seq<Frame>)
    requires frames != []
    ensures (taken + [frames[0]]) + frames[1..] == taken + frames
  {
  }

  lemma ReleaseStep(l: Limits, q: Queue, i: nat)
    requires Inv(l, q)
    ensures Inv(l, Step(l, q, Release(i)))
  {
    if i < |q.held| { ChargedAt(q.held, i); }
    hide Pushing, Charged, AllSawRoom, RemoveAt;
  }

  lemma StepKeeps(l: Limits, q: Queue, a: Action)
    requires Inv(l, q)
    ensures Inv(l, Step(l, q, a))
  {
    match a
    case Arrive(f) =>
      PushingMore(q.pushers, Starting(f));
      hide Pushing, Charged;
    case Load(i) =>
      hide Inv, Step;
      LoadStep(l, q, i);
    case Swap(i) =>
      hide Inv, Step;
      SwapStep(l, q, i);
    case Enqueue(i) =>
      hide Inv, Step;
      EnqueueStep(l, q, i);
    case GiveBack(i) =>
      hide Inv, Step;
      GiveBackStep(l, q, i);
    case Dequeue =>
      hide Inv, Step;
      DequeueStep(l, q);
    case Release(i) =>
      hide Inv, Step;
      ReleaseStep(l, q, i);
  }

  lemma {:induction false} RunKeeps(l: Limits, states: seq<Queue>, actions: seq<Action>, i: nat)
    requires IsRun(l, states, actions) && i < |states|
    ensures Inv(l, states[i])
  {
    if i > 0 {
      hide Inv, Step;
      RunKeeps(l, states, actions, i - 1);
      StepKeeps(l, states[i - 1], actions[i - 1]);
      assert states[(i - 1) + 1] == Step(l, states[i - 1], actions[i - 1]);
    }
  }

  /**
   * Under every interleaving the counter is exactly the bytes reserved, queued and held, a positive
   * budget is never exceeded, and frames leave the channel in the order they entered it.
   */
  lemma BytesAreAccountedFor(l: Limits, states: seq<Queue>, actions: seq<Action>, i: nat)
    requires IsRun(l, states, actions) && i < |states|
    ensures states[i].bytes == Pushing(states[i].pushers) + Charged(states[i].frames) + Charged(states[i].held)
    ensures l.maxBytes > 0 ==> 0 <= states[i].bytes <= l.maxBytes
    ensures |states[i].frames| <= l.count && states[i].taken <= states[i].sent
  {
    RunKeeps(l, states, actions, i);
    hide IsRun, Step;
  }

  // ------------------------------------------------------------------------- the writer

  const MAX_CONTROL_BURST: int := 8

  /** Where the writer is in its loop. */
  datatype Place = Top | TryControl | Wait

  /** The writer and its two queues. */
  datatype Writer = Writer(control: nat, data: nat, at: Place, budget: int)

  datatype WriterAction = PushControl | PushData | Check | Try | TakeControl | TakeData | Heartbeat

  function ControlTaken(w: Writer): (r: Writer)
    requires w.control > 0
  {
    w.(control := w.control - 1, at := Top, budget := w.budget - 1)
  }

  function DataTaken(w: Writer): (r: Writer)
    requires w.data > 0
  {
    w.(data := w.data - 1, at := Top, budget := MAX_CONTROL_BURST)
  }

  function WriterStep(w: Writer, a: WriterAction): (r: Writer) {
    match a
    case PushControl => w.(control := w.control + 1)
    case PushData => w.(data := w.data + 1)
    case Check =>
      if !w.at.Top? then w
      else if w.budget == 0 then (if w.data > 0 then DataTaken(w) else w.(at := TryControl,
                                                                       budget := MAX_CONTROL_BURST))
      else w.(at := TryControl)
    case Try =>
      if !w.at.TryControl? then w
      else if w.control > 0 then ControlTaken(w) else w.(at := Wait)
    case TakeControl => if w.at.Wait? && w.control > 0 then ControlTaken(w) else w
    case TakeData => if w.at.Wait? && w.data > 0 then DataTaken(w) else w
    case Heartbeat => if w.at.Wait? then w.(at := Top) else w
  }

  function WriterStart(): (w: Writer) { Writer(0, 0, Top, MAX_CONTROL_BURST) }

  ghost predicate IsWriterRun(states: seq<Writer>, actions: seq<WriterAction>) {
    && |states| == |actions| + 1 && states[0] == WriterStart()
    && forall i :: 0 <= i < |actions| ==> states[i + 1] == WriterStep(states[i], actions[i])
  }

  /** A step that writes a control frame, and one that writes a data frame: told by the queue that got shorter. */
  predicate WritesControl(w: Writer, a: WriterAction) { WriterStep(w, a).control < w.control }

  predicate WritesData(w: Writer, a: WriterAction) { WriterStep(w, a).data < w.data }

  /** The control frames written in the steps from `i` up to `j`. */
  ghost function ControlWritten(states: seq<Writer>, actions: seq<WriterAction>, i: nat, j: nat): (n: nat)
    requires i <= j <= |actions| && |states| == |actions| + 1
    decreases j
  {
    if i == j then 0
    else ControlWritten(states, actions, i, j - 1) + if WritesControl(states[j - 1], actions[j - 1]) then 1 else 0
  }

  /** Data waits at every moment from `i` to `j`, and none is written meanwhile. */
  ghost predicate DataKeptWaiting(states: seq<Writer>, actions: seq<WriterAction>, i: nat, j: nat)
    requires i <= j <= |actions| && |states| == |actions| + 1
  {
    && (forall k :: i <= k <= j ==> states[k].data > 0)
    && (forall k :: i <= k < j ==> !WritesData(states[k], actions[k]))
  }

  predicate BudgetOk(w: Writer) { 0 <= w.budget <= MAX_CONTROL_BURST && (!w.at.Top? ==> w.budget >= 1) }

  lemma {:induction false} WriterKeeps(states: seq<Writer>, actions: seq<WriterAction>, i: nat)
    requires IsWriterRun(states, actions) && i < |states|
    ensures BudgetOk(states[i])
  {
    if i > 0 {
      WriterKeeps(states, actions, i - 1);
      assert states[(i - 1) + 1] == WriterStep(states[i - 1], actions[i - 1]);
    }
  }

  /** While data is kept waiting, every control frame written is paid for from the budget. */
  lemma {:induction false} BudgetPays(states: seq<Writer>, actions: seq<WriterAction>, i: nat, j: nat)
    requires IsWriterRun(states, actions) && i <= j < |states| && DataKeptWaiting(states, actions, i, j)
    ensures ControlWritten(states, actions, i, j) + states[j].budget <= states[i].budget
    decreases j
  {
    if i < j {
      BudgetPays(states, actions, i, j - 1);
      assert states[(j - 1) + 1] == WriterStep(states[j - 1], actions[j - 1]);
    }
  }

  /**
   * In every run, over any stretch in which data waits and none is written, at most eight control frames are written.
   */
  lemma DataIsNotStarved(states: seq<Writer>, actions: seq<WriterAction>, i: nat, j: nat)
    requires IsWriterRun(states, actions) && i <= j < |states| && DataKeptWaiting(states, actions, i, j)
    ensures ControlWritten(states, actions, i, j) <= MAX_CONTROL_BURST
  {
    WriterKeeps(states, actions, i);
    WriterKeeps(states, actions, j);
    BudgetPays(states, actions, i, j);
  }

  /**
   * In every run, once eight control frames were written past waiting data, the next frame written is a data
   * frame, however long that takes; and the writer has nothing left to do but to write it.
   */
  lemma EightThenData(states: seq<Writer>, actions: seq<WriterAction>, i: nat, j: nat, k: nat)
    requires IsWriterRun(states, actions) && i <= j <= k < |actions| && DataKeptWaiting(states, actions, i, k)
    requires ControlWritten(states, actions, i, j) == MAX_CONTROL_BURST
    ensures states[k].at.Top? && WriterStep(states[k], Check) == DataTaken(states[k])
    ensures !WritesControl(states[k], actions[k])
    ensures actions[k].Check? ==> WritesData(states[k], actions[k])
  {
    MoreWritten(states, actions, i, j, k);
    WriterKeeps(states, actions, i);
    WriterKeeps(states, actions, k);
    BudgetPays(states, actions, i, k);
  }

  lemma {:induction false} MoreWritten(states: seq<Writer>, actions: seq<WriterAction>, i: nat, j: nat, k: nat)
    requires i <= j <= k <= |actions| && |states| == |actions| + 1
    ensures ControlWritten(states, actions, i, j) <= ControlWritten(states, actions, i, k)
    decreases k
  {
    if j < k { MoreWritten(states, actions, i, j, k - 1); }
  }
}
