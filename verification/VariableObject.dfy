/** The Variable as an object: its lock-protected fields and the code of each critical section. */
module VariableObject {
  import opened Basics
  import opened Variable
  import opened VariableInvariant

  datatype Delivery = Delivery(watcher: WatchId, update: Update)

  /** The calls made for one notice: its watchers in order, leaving out the cancelled ones. */
  function CallsForNotice(update: Update, watchers: seq<WatchId>, cancelled: set<WatchId>): (r: seq<Delivery>) {
    if watchers == [] then []
    else
      var last := watchers[|watchers| - 1];
      CallsForNotice(update, watchers[..|watchers| - 1], cancelled)
        + if last in cancelled then [] else [Delivery(last, update)]
  }

  function CallsFor(pending: seq<Notice>, cancelled: set<WatchId>): (r: seq<Delivery>) {
    if pending == [] then []
    else CallsForNotice(pending[0].update, pending[0].watchers, cancelled) + CallsFor(pending[1..], cancelled)
  }

  /** The updates one watcher sees among a series of calls. */
  function SeenBy(calls: seq<Delivery>, w: WatchId): (r: seq<Update>) {
    if calls == [] then []
    else (if calls[0].watcher == w then [calls[0].update] else []) + SeenBy(calls[1..], w)
  }

  lemma {:induction false} SeenByAppend(a: seq<Delivery>, b: seq<Delivery>, w: WatchId)
    ensures SeenBy(a + b, w) == SeenBy(a, w) + SeenBy(b, w)
  {
    if a == [] {
      assert a + b == b;
    } else {
      var first := if a[0].watcher == w then [a[0].update] else [];
      assert (a + b)[0] == a[0] && (a + b)[1..] == a[1..] + b;
      assert SeenBy(a + b, w) == first + SeenBy(a[1..] + b, w) && SeenBy(a, w) == first + SeenBy(a[1..], w);
      hide SeenBy;
      SeenByAppend(a[1..], b, w);
      Assoc(first, SeenBy(a[1..], w), SeenBy(b, w));
    }
  }

  lemma {:induction false} NoticeSeenOnce(update: Update, watchers: seq<WatchId>, cancelled: set<WatchId>, w: WatchId)
    requires Distinct(watchers) && w !in cancelled
    ensures SeenBy(CallsForNotice(update, watchers, cancelled), w) == if w in watchers then [update] else []
  {
    if watchers != [] {
      var front, last := watchers[..|watchers| - 1], watchers[|watchers| - 1];
      assert watchers == front + [last];
      NoticeSeenOnce(update, front, cancelled, w);
      var tail := if last in cancelled then [] else [Delivery(last, update)];
      SeenByAppend(CallsForNotice(update, front, cancelled), tail, w);
      assert tail != [] ==> tail[1..] == [];
    }
  }

  /** Draining the queue gives an uncancelled watcher exactly what was queued for it, in order. */
  lemma {:induction false} DrainDeliversQueue(pending: seq<Notice>, cancelled: set<WatchId>, w: WatchId)
    requires w !in cancelled && forall i :: 0 <= i < |pending| ==> Distinct(pending[i].watchers)
    ensures SeenBy(CallsFor(pending, cancelled), w) == QueuedFor(pending, w)
  {
    if pending != [] {
      NoticeSeenOnce(pending[0].update, pending[0].watchers, cancelled, w);
      DrainDeliversQueue(pending[1..], cancelled, w);
      SeenByAppend(CallsForNotice(pending[0].update, pending[0].watchers, cancelled),
        CallsFor(pending[1..], cancelled), w);
    }
  }

  lemma Assoc<T>(a: seq<T>, b: seq<T>, c: seq<T>)
    ensures (a + b) + c == a + (b + c)
  {}

  /** Calls the watchers of one notice that are not cancelled. */
  method Deliver(notice: Notice, cancelled: set<WatchId>) returns (calls: seq<Delivery>)
    ensures calls == CallsForNotice(notice.update, notice.watchers, cancelled)
  {
    calls := [];
    for i := 0 to |notice.watchers|
      invariant calls == CallsForNotice(notice.update, notice.watchers[..i], cancelled)
    {
      if notice.watchers[i] !in cancelled { calls := calls + [Delivery(notice.watchers[i], notice.update)]; }
      assert notice.watchers[..i + 1][..i] == notice.watchers[..i];
    }
    assert notice.watchers[..|notice.watchers|] == notice.watchers;
  }

  class SharedVariable {
    const limits: Limits
    const instance: string
    var current: Value
    var retired: bool
    var nextWatch: nat
    var watchers: set<WatchId>
    var pending: seq<Notice>
    var draining: bool

    ghost function View(): Core
      reads this
    {
      Core(instance, current, retired, nextWatch, watchers, pending, draining)
    }

    constructor (limits: Limits, instance: string, content: string)
      ensures View() == Start(instance, content).core && this.limits == limits && this.instance == instance
    {
      this.limits, this.instance := limits, instance;
      current, retired, nextWatch, watchers, pending, draining := Value(1, content), false, 0, {}, [], false;
    }

    /** Copies the watcher map into a list, in whatever order it is visited, and queues the notice. */
    method EnqueueLocked(update: Update) returns (drain: bool, ghost order: seq<WatchId>)
      modifies this
      ensures Visits(order, old(watchers))
      ensures (View(), drain) == Enqueue(old(View()), update, order)
    {
      var addressed: seq<WatchId> := [];
      var rest := watchers;
      while rest != {}
        invariant rest <= watchers && unchanged(this)
        invariant Distinct(addressed) && forall w :: w in addressed <==> w in watchers - rest
        decreases |rest|
      {
        var w :| w in rest;
        assert w !in addressed;
        addressed := addressed + [w];
        rest := rest - {w};
      }
      order := addressed;
      if watchers == {} { return false, order; }
      pending := pending + [Notice(update, addressed)];
      if draining { return false, order; }
      draining := true;
      drain := true;
    }

    method CommitPrepared(value: Value) returns (r: Result<bool, Error>, ghost order: seq<WatchId>)
      modifies this
      ensures Visits(order, old(watchers)) || r.Err?
      ensures match Commit(limits, old(View()), value, order)
              case Ok((core, drain)) => View() == core && r == Ok(drain)
              case Err(e) => View() == old(View()) && r == Err(e)
    {
      order := [];
      if retired { return Err(NotFound), order; }
      if |pending| >= limits.maxQueue { return Err(QueueFull), order; }
      current := value;
      var drain;
      drain, order := EnqueueLocked(Committed(value));
      r := Ok(drain);
    }

    method WatchLocked() returns (r: Result<(WatchId, Value), Error>)
      modifies this
      ensures match Watch(limits, old(View()))
              case Ok((core, w)) => View() == core && r == Ok((w, old(current)))
              case Err(e) => View() == old(View()) && r == Err(e)
    {
      if retired { return Err(NotFound); }
      if |watchers| >= limits.maxSubscribers { return Err(SubscriberLimit); }
      nextWatch := nextWatch + 1;
      watchers := watchers + {nextWatch};
      r := Ok((nextWatch, current));
    }

    method PrepareRetire() returns (drain: bool, ghost order: seq<WatchId>)
      modifies this
      ensures Visits(order, old(watchers)) || old(retired)
      ensures (View(), drain) == Retire(old(View()), order)
    {
      order := [];
      if retired { return false, order; }
      retired := true;
      drain, order := EnqueueLocked(Gone);
      watchers := {};
    }

    /** The drain loop run to its end with nobody else stepping in. */
    method Drain(cancelled: set<WatchId>) returns (calls: seq<Delivery>)
      modifies this`pending, this`draining
      ensures pending == [] && !draining
      ensures calls == CallsFor(old(pending), cancelled)
    {
      hide CallsForNotice;
      calls := [];
      while |pending| > 0
        invariant calls + CallsFor(pending, cancelled) == CallsFor(old(pending), cancelled)
        decreases |pending|
      {
        var notice := pending[0];
        var told := Deliver(notice, cancelled);
        Assoc(calls, told, CallsFor(pending[1..], cancelled));
        pending := pending[1..];
        calls := calls + told;
      }
      draining := false;
    }
  }
}
