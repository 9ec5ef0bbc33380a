/** What the byte budget of a link means in frames and lengths, when a push succeeds, and that the writer gets on. */
module LinkMeaning {
  import opened Basics
  import opened Link

  // --------------------------------------------------------------------------- the budget

  /** All the bytes a frame carries: payload, content type, schema, capability and resource name. */
  function Lengths(frames: seq<Frame>): (n: nat) {
    if frames == [] then 0
    else
      var f := frames[|frames| - 1];
      Lengths(frames[..|frames| - 1]) + (f.payload + f.contentType + f.schema + f.capability + f.name)
  }

  /** Frames are charged 512 bytes each and everything they carry. */
  lemma {:induction false} ChargedIsLengths(frames: seq<Frame>)
    ensures Charged(frames) == 512 * |frames| + Lengths(frames)
  {
    if frames != [] { ChargedIsLengths(frames[..|frames| - 1]); }
  }

  /** The frames of the threads that own their bytes. */
  function InHand(pushers: seq<Pusher>): (r: seq<Frame>) {
    if pushers == [] then []
    else
      var p := pushers[|pushers| - 1];
      InHand(pushers[..|pushers| - 1]) + if p.Reserved? || p.Returning? then [p.frame] else []
  }

  lemma {:induction false} PushingIsInHand(pushers: seq<Pusher>)
    ensures Pushing(pushers) == Charged(InHand(pushers))
  {
    if pushers != [] {
      var front, p := pushers[..|pushers| - 1], pushers[|pushers| - 1];
      PushingIsInHand(front);
      if p.Reserved? || p.Returning? {
        ChargedMore(InHand(front), p.frame);
      } else {
        assert InHand(front) + [] == InHand(front);
      }
    }
  }

  /**
   * Under every interleaving the counter is 512 bytes for each frame that is about to be queued, queued or held, and
   * all
   * the bytes these carry; with a positive budget that is never more than the budget.
   */
  lemma BudgetBoundsContents(l: Limits, states: seq<Queue>, actions: seq<Action>, i: nat)
    requires IsRun(l, states, actions) && i < |states|
    ensures var q := states[i];
            var hand := InHand(q.pushers);
            && q.bytes == 512 * (|hand| + |q.frames| + |q.held|) + Lengths(hand) + Lengths(q.frames) + Lengths(q.held)
            && (l.maxBytes > 0 ==> 512 * (|hand| + |q.frames| + |q.held|) <= l.maxBytes)
  {
    var q := states[i];
    BytesAreAccountedFor(l, states, actions, i);
    PushingIsInHand(q.pushers);
    ChargedIsLengths(InHand(q.pushers));
    ChargedIsLengths(q.frames);
    ChargedIsLengths(q.held);
  }

  // --------------------------------------------------------------------------------- pushing

  /** A thread alone with the queue: arrives, loads, swaps, enqueues, and gives back where the channel was full. */
  function PushAlone(l: Limits, q: Queue, f: Frame): (r: Queue) {
    var i := |q.pushers|;
    Step(l, Step(l, Step(l, Step(l, Step(l, q, Arrive(f)), Load(i)), Swap(i)), Enqueue(i)), GiveBack(i))
  }

  /**
   * An undisturbed push queues its frame, behind the others, exactly when the budget, if there is one, has room for 512
   * bytes and all the frame carries and the channel has room for one frame; otherwise it leaves no trace.
   */
  lemma PushSucceedsExactly(l: Limits, q: Queue, f: Frame)
    ensures var size := 512 + f.payload + f.contentType + f.schema + f.capability + f.name;
            PushAlone(l, q, f)
            == if (l.maxBytes <= 0 || q.bytes + size <= l.maxBytes) && |q.frames| < l.count
               then q.(bytes := q.bytes + size, frames := q.frames + [f], sent := q.sent + [f]) else q
  {
    var i := |q.pushers|;
    assert RemoveAt(q.pushers + [Starting(f)], i) == q.pushers;
    assert RemoveAt(q.pushers + [Reserved(f)], i) == q.pushers;
    assert RemoveAt(q.pushers + [Returning(f)], i) == q.pushers;
    assert (q.pushers + [Starting(f)])[i := Loaded(f, q.bytes)] == q.pushers + [Loaded(f, q.bytes)];
    assert (q.pushers + [Loaded(f, q.bytes)])[i := Reserved(f)] == q.pushers + [Reserved(f)];
    assert (q.pushers + [Reserved(f)])[i := Returning(f)] == q.pushers + [Returning(f)];
    hide RemoveAt;
  }

  // ------------------------------------------------------------------------------ the writer

  /** With control waiting the writer writes control next, unless its burst is used up and data waits. */
  lemma ControlGoesFirst(w: Writer)
    requires BudgetOk(w) && w.at.Top? && w.control > 0
    ensures if w.budget == 0 && w.data > 0 then WritesData(w, Check)
            else !WritesData(w, Check) && WritesControl(WriterStep(w, Check), Try)
  {}

  /** The move the writer makes by itself. */
  function Next(w: Writer): (a: WriterAction) {
    match w.at
    case Top => Check
    case TryControl => Try
    case Wait => if w.control > 0 then TakeControl else TakeData
  }

  /** Left to itself the writer writes something within three moves whenever anything waits. */
  lemma WriterGetsOn(w: Writer)
    requires BudgetOk(w) && w.control + w.data > 0
    ensures var v := WriterStep(w, Next(w));
            var u := WriterStep(v, Next(v));
            var t := WriterStep(u, Next(u));
            v.control + v.data < w.control + w.data || u.control + u.data < w.control + w.data
            || t.control + t.data < w.control + w.data
  {}
}
