/** What every interleaving of the notification protocol keeps. */
module VariableInvariant {
  import opened Basics
  import opened Variable

  // ------------------------------------------------------------- what is promised

  function Told(values: seq<Value>): (r: seq<Update>)
    ensures |r| == |values|
  {
    seq(|values|, i requires 0 <= i < |values| => Committed(values[i]))
  }

  /** The notices still queued for one watcher, oldest first. */
  function QueuedFor(pending: seq<Notice>, w: WatchId): (r: seq<Update>) {
    if pending == [] then []
    else (if w in pending[0].watchers then [pending[0].update] else []) + QueuedFor(pending[1..], w)
  }

  /** The notice being delivered, if this watcher is still to receive it. */
  function InFlight(drainers: seq<Drainer>, w: WatchId): (r: seq<Update>) {
    if drainers == [] || drainers[0].AtLoop? || w !in drainers[0].rest then [] else [drainers[0].update]
  }

  /** Everything a watcher is entitled to: the commits after its snapshot, then one terminal failure if retired. */
  function Promised(s: System, w: WatchId): (r: seq<Update>)
    requires w in s.log.since && s.log.since[w] <= |s.log.commits|
  {
    Told(s.log.commits[s.log.since[w]..]) + if s.core.retired then [Gone] else []
  }

  // ------------------------------------------------------------------ invariant

  /** Never two drainers; the flag tells the truth; a non-empty queue has a drainer. */
  ghost predicate OneDrainer(s: System) {
    && |s.drainers| <= 1 && (s.core.draining <==> |s.drainers| == 1) && (s.core.pending != [] ==> s.core.draining)
    && (s.drainers != [] && s.drainers[0].Calling? ==> s.drainers[0].rest != [])
  }

  ghost predicate QueueBounded(l: Limits, s: System) {
    |s.core.pending| <= l.maxQueue + if s.core.retired then 1 else 0
  }

  ghost predicate WatchersKnown(s: System) {
    && (forall w :: w in s.log.since <==> 1 <= w <= s.core.nextWatch)
    && s.log.since.Keys == s.log.delivered.Keys && s.core.watchers <= s.log.since.Keys
       && s.log.cancelled <= s.log.since.Keys
    && (forall w :: w in s.log.since ==> s.log.since[w] <= |s.log.commits|)
    && (s.core.retired ==> s.core.watchers == {})
    && (!s.core.retired ==> forall w :: w in s.log.since && w !in s.log.cancelled ==> w in s.core.watchers)
  }

  ghost predicate RevisionsGrow(s: System) {
    && (forall i, j :: 0 <= i < j < |s.log.commits| ==> s.log.commits[i].revision < s.log.commits[j].revision)
    && (s.log.commits == [] ==> s.core.current.revision == 1)
    && (s.log.commits != [] ==> s.core.current == s.log.commits[|s.log.commits| - 1])
    && (forall i :: 0 <= i < |s.log.commits| ==> 1 < s.log.commits[i].revision)
  }

  /** While a writer holds the gate, the revision it looked at is still current, and it means this instance. */
  ghost predicate WriterCurrent(s: System) {
    match s.writer
    case Matched(x, e, _) => x == s.core.instance && e == s.core.current.revision
    case InHandler(x, e, _) => x == s.core.instance && e == s.core.current.revision
    case Chosen(b, r) => b == s.core.current.revision < r
    case Ready(b, v, claim) =>
      && b == s.core.current.revision < v.revision
      && (claim.Some? ==> claim.value == s.core.instance && v.revision == b + 1)
    case _ => true
  }

  /** A success was meant for this instance and behaved as one atomic exchange. */
  predicate WinOk(instance: string, win: CasWin) {
    win.instance == instance && win.replaced == win.expected && win.installed == win.expected + 1
  }

  /** Every success was one atomic exchange, and no two succeed from the same revision. */
  ghost predicate WinsLinear(s: System) {
    && (forall i :: 0 <= i < |s.log.wins| ==> WinOk(s.core.instance, s.log.wins[i]))
    && (forall i :: 0 <= i < |s.log.wins| ==> s.log.wins[i].expected < s.core.current.revision)
    && (forall i, j :: 0 <= i < j < |s.log.wins| ==> s.log.wins[i].expected < s.log.wins[j].expected)
  }

  /** An uncancelled watcher has received, or has queued, exactly what it is promised, in order. */
  ghost predicate Exact(s: System, w: WatchId)
    requires WatchersKnown(s) && w in s.log.since
  {
    s.log.delivered[w] + InFlight(s.drainers, w) + QueuedFor(s.core.pending, w) == Promised(s, w)
  }

  /** Even a cancelled watcher only ever received the beginning of what it was promised. */
  ghost predicate InOrder(s: System, w: WatchId)
    requires WatchersKnown(s) && w in s.log.since
  {
    && s.log.delivered[w] <= Promised(s, w)
    && (s.drainers != [] && s.drainers[0].Calling? && s.drainers[0].rest != [] && s.drainers[0].rest[0] == w ==>
          s.log.delivered[w] + [s.drainers[0].update] <= Promised(s, w))
  }

  ghost predicate Deliveries(s: System) {
    WatchersKnown(s) && forall w :: w in s.log.since ==> InOrder(s, w) && (w !in s.log.cancelled ==> Exact(s, w))
  }

  /** Every queued or travelling notice is addressed to registered watchers, each at most once. */
  ghost predicate Addressed(s: System) {
    && (forall i :: 0 <= i < |s.core.pending| ==> Distinct(s.core.pending[i].watchers))
    && (forall i, w :: 0 <= i < |s.core.pending| && w in s.core.pending[i].watchers ==> w in s.log.since)
    && (s.drainers != [] && !s.drainers[0].AtLoop? ==>
          Distinct(s.drainers[0].rest) && forall w :: w in s.drainers[0].rest ==> w in s.log.since)
  }

  ghost predicate Shape(l: Limits, s: System) {
    && OneDrainer(s) && QueueBounded(l, s) && Addressed(s) && WatchersKnown(s) && RevisionsGrow(s)
    && WriterCurrent(s) && WinsLinear(s)
  }

  ghost predicate Inv(l: Limits, s: System) {
    Shape(l, s) && Deliveries(s)
  }

  // ------------------------------------------------------------------- helpers

  lemma {:induction false} QueuedForAppend(pending: seq<Notice>, n: Notice, w: WatchId)
    ensures QueuedFor(pending + [n], w) == QueuedFor(pending, w) + if w in n.watchers then [n.update] else []
  {
    if pending == [] {
      assert QueuedFor([n][1..], w) == [];
    } else {
      assert (pending + [n])[1..] == pending[1..] + [n];
      QueuedForAppend(pending[1..], n, w);
    }
  }

  lemma PromisedAfterCommit(s: System, t: System, v: Value, w: WatchId)
    requires w in s.log.since && s.log.since[w] <= |s.log.commits| && !s.core.retired && !t.core.retired
    requires t.log.since == s.log.since && t.log.commits == s.log.commits + [v]
    ensures Promised(t, w) == Promised(s, w) + [Committed(v)]
  {
    var k := s.log.since[w];
    assert t.log.commits[k..] == s.log.commits[k..] + [v];
    assert Told(s.log.commits[k..] + [v]) == Told(s.log.commits[k..]) + [Committed(v)];
  }

  lemma {:induction false} NotQueued(pending: seq<Notice>, w: WatchId)
    requires forall i :: 0 <= i < |pending| ==> w !in pending[i].watchers
    ensures QueuedFor(pending, w) == []
  {
    if pending != [] { NotQueued(pending[1..], w); }
  }

  // ----------------------------------------------------- effects on the bookkeeping

  lemma EnqueueShape(l: Limits, s: System, t: System, update: Update, order: seq<WatchId>)
    requires OneDrainer(s) && Addressed(s) && WatchersKnown(s) && Visits(order, s.core.watchers)
    requires t.log.since == s.log.since
    requires t.core.pending == if s.core.watchers == {} then s.core.pending
                                                             else s.core.pending + [Notice(update, order)]
    requires t.core.draining == (s.core.draining || s.core.watchers != {})
    requires t.drainers == AddDrainer(s.drainers, s.core.watchers != {} && !s.core.draining)
    ensures OneDrainer(t) && Addressed(t)
  {}

  lemma CommitRevisions(s: System, t: System)
    requires RevisionsGrow(s) && WinsLinear(s) && WriterCurrent(s) && s.writer.Ready?
    requires t.core.current == s.writer.value && t.log.commits == s.log.commits + [s.writer.value]
    requires t.core.instance == s.core.instance
    requires t.log.wins == if s.writer.claim.None? then s.log.wins
                           else s.log.wins + [CasWin(s.writer.claim.value, s.writer.base, s.core.current.revision,
                                                     s.writer.value.revision)]
    ensures RevisionsGrow(t) && WinsLinear(t)
  {
    assert RevisionsGrow(t) by { hide WinsLinear; }
    hide RevisionsGrow;
    var n := |s.log.wins|;
    assert forall i :: 0 <= i < n ==> t.log.wins[i] == s.log.wins[i];
    if s.writer.claim.Some? { assert WinOk(t.core.instance, t.log.wins[n]); }
    hide WinOk;
    forall i | 0 <= i < |t.log.wins| ensures WinOk(t.core.instance, t.log.wins[i]) {
      if i < n { assert WinOk(s.core.instance, s.log.wins[i]); }
    }
  }

  lemma CommitShape(l: Limits, s: System, order: seq<WatchId>)
    requires Shape(l, s) && s.writer.Ready? && Visits(order, s.core.watchers)
    ensures Shape(l, CommitStep(l, s, order))
  {
    hide RevisionsGrow, WinsLinear, OneDrainer, Addressed, Visits;
    var t := CommitStep(l, s, order);
    if Commit(l, s.core, s.writer.value, order).Ok? {
      CommitRevisions(s, t);
      EnqueueShape(l, s, t, Committed(s.writer.value), order);
    } else {
      WinsSame(s, t);
      SameShape(s, t);
    }
  }

  lemma SameShape(s: System, t: System)
    requires t.core == s.core && t.drainers == s.drainers && t.log == s.log
    ensures OneDrainer(s) ==> OneDrainer(t)
    ensures Addressed(s) ==> Addressed(t)
  {}

  lemma RetireShape(l: Limits, s: System, order: seq<WatchId>)
    requires Shape(l, s) && Visits(order, s.core.watchers)
    ensures Shape(l, RetireStep(s, order))
  {
    hide WinsLinear, RevisionsGrow;
    var t := RetireStep(s, order);
    WinsSame(s, t);
    if !s.core.retired {
      EnqueueShape(l, s, t, Gone, order);
      hide OneDrainer, Addressed;
    }
  }

  /** The log of wins and commits says the same when neither they nor the current value change. */
  lemma WinsSame(s: System, t: System)
    requires t.core.instance == s.core.instance && t.core.current == s.core.current
             && t.log.wins == s.log.wins && t.log.commits == s.log.commits
    ensures WinsLinear(s) ==> WinsLinear(t)
    ensures RevisionsGrow(s) ==> RevisionsGrow(t)
  {}

  lemma WatchShape(l: Limits, s: System)
    requires Shape(l, s)
    ensures Shape(l, WatchStep(l, s))
  {
    hide WinsLinear, RevisionsGrow;
    WinsSame(s, WatchStep(l, s));
  }

  lemma PopShape(l: Limits, s: System, i: nat)
    requires Shape(l, s) && i < |s.drainers| && s.drainers[i].AtLoop?
    ensures Shape(l, PopStep(s, i))
  {
    hide WinsLinear, RevisionsGrow;
    WinsSame(s, PopStep(s, i));
  }

  lemma LookShape(l: Limits, s: System, i: nat)
    requires Shape(l, s) && i < |s.drainers| && s.drainers[i].Delivering?
    ensures Shape(l, LookStep(s, i))
  {
    hide WinsLinear, RevisionsGrow;
    WinsSame(s, LookStep(s, i));
    var rest := s.drainers[i].rest;
    assert rest != [] ==> forall k :: 0 <= k < |rest| - 1 ==> rest[1..][k] == rest[k + 1];
  }

  lemma CallShape(l: Limits, s: System, i: nat, panics: bool)
    requires Shape(l, s) && i < |s.drainers| && s.drainers[i].Calling? && s.drainers[i].rest != []
    ensures Shape(l, CallStep(s, i, panics))
  {
    hide WinsLinear, RevisionsGrow;
    WinsSame(s, CallStep(s, i, panics));
    var rest := s.drainers[i].rest;
    assert forall k :: 0 <= k < |rest| - 1 ==> rest[1..][k] == rest[k + 1];
    assert rest[0] in rest;
  }

  // --------------------------------------------------------- effects on deliveries

  /** Adding one update for all present watchers, or for nobody when there are none. */
  lemma EnqueueDelivers(s: System, t: System, update: Update, order: seq<WatchId>)
    requires Deliveries(s) && OneDrainer(s) && Visits(order, s.core.watchers) && !s.core.retired
    requires t.log.since == s.log.since && t.log.delivered == s.log.delivered && t.log.cancelled == s.log.cancelled
    requires t.core.pending == if s.core.watchers == {} then s.core.pending
                                                             else s.core.pending + [Notice(update, order)]
    requires t.drainers == AddDrainer(s.drainers, s.core.watchers != {} && !s.core.draining)
    requires WatchersKnown(t)
    requires forall w :: w in s.log.since ==> Promised(t, w) == Promised(s, w) + [update]
    ensures Deliveries(t)
  {
    hide InOrder, Exact, Promised, Visits, OneDrainer, WatchersKnown;
    forall w | w in t.log.since
      ensures InOrder(t, w) && (w !in t.log.cancelled ==> Exact(t, w))
    {
      assert InOrder(s, w) && (w !in s.log.cancelled ==> Exact(s, w));
      EnqueueOne(s, t, update, order, w);
    }
  }

  lemma EnqueueOne(s: System, t: System, update: Update, order: seq<WatchId>, w: WatchId)
    requires WatchersKnown(s) && OneDrainer(s) && Visits(order, s.core.watchers) && !s.core.retired
    requires t.log.since == s.log.since && t.log.delivered == s.log.delivered && t.log.cancelled == s.log.cancelled
    requires t.core.pending == if s.core.watchers == {} then s.core.pending
                                                             else s.core.pending + [Notice(update, order)]
    requires t.drainers == AddDrainer(s.drainers, s.core.watchers != {} && !s.core.draining)
    requires WatchersKnown(t) && w in s.log.since && Promised(t, w) == Promised(s, w) + [update]
    requires InOrder(s, w) && (w !in s.log.cancelled ==> Exact(s, w))
    ensures InOrder(t, w) && (w !in t.log.cancelled ==> Exact(t, w))
  {
    hide Promised;
    EnqueueSame(s, t, update, order, w);
    assert (s.drainers != [] ==> t.drainers == s.drainers)
           && (s.drainers == [] ==> t.drainers == [] || t.drainers[0].AtLoop?);
    hide InFlight, QueuedFor, AddDrainer, OneDrainer, WatchersKnown, Visits;
    Longer(s.log.delivered[w], Promised(s, w), update);
    if s.drainers != [] && s.drainers[0].Calling? {
      Longer(s.log.delivered[w] + [s.drainers[0].update], Promised(s, w), update);
    }
    if w !in s.log.cancelled {
      EndTogether(s.log.delivered[w], InFlight(s.drainers, w), QueuedFor(s.core.pending, w), update);
    }
  }

  lemma EnqueueSame(s: System, t: System, update: Update, order: seq<WatchId>, w: WatchId)
    requires WatchersKnown(s) && OneDrainer(s) && Visits(order, s.core.watchers) && !s.core.retired && w in s.log.since
    requires t.core.pending == if s.core.watchers == {} then s.core.pending
                                                             else s.core.pending + [Notice(update, order)]
    requires t.drainers == AddDrainer(s.drainers, s.core.watchers != {} && !s.core.draining)
    ensures InFlight(t.drainers, w) == InFlight(s.drainers, w)
    ensures w !in s.log.cancelled ==> QueuedFor(t.core.pending, w) == QueuedFor(s.core.pending, w) + [update]
  {
    QueuedForAppend(s.core.pending, Notice(update, order), w);
    if w !in s.log.cancelled { assert w in s.core.watchers && w in order; }
  }

  lemma Longer(a: seq<Update>, b: seq<Update>, u: Update)
    ensures a <= b ==> a <= b + [u]
  {
  }

  lemma EndTogether(a: seq<Update>, b: seq<Update>, c: seq<Update>, u: Update)
    ensures a + b + (c + [u]) == (a + b + c) + [u]
  {
  }

  lemma CommitKeeps(l: Limits, s: System, order: seq<WatchId>)
    requires Inv(l, s) && s.writer.Ready? && Visits(order, s.core.watchers)
    ensures Inv(l, CommitStep(l, s, order))
  {
    hide Deliveries, Visits, RevisionsGrow, WinsLinear, WriterCurrent, Addressed, Promised;
    var t := CommitStep(l, s, order);
    CommitShape(l, s, order);
    if Commit(l, s.core, s.writer.value, order).Ok? {
      forall w | w in s.log.since ensures Promised(t, w) == Promised(s, w) + [Committed(s.writer.value)] {
        PromisedAfterCommit(s, t, s.writer.value, w);
      }
      EnqueueDelivers(s, t, Committed(s.writer.value), order);
    } else {
      SameDeliveries(s, t);
    }
  }

  /** Deliveries depend only on the queue, the drainers, retirement and the log of watchers and commits. */
  lemma SameDeliveries(s: System, t: System)
    requires Deliveries(s)
    requires t.core.pending == s.core.pending && t.drainers == s.drainers && t.core.retired == s.core.retired
    requires t.log.since == s.log.since && t.log.delivered == s.log.delivered && t.log.commits == s.log.commits
    requires s.log.cancelled <= t.log.cancelled && WatchersKnown(t)
    ensures Deliveries(t)
  {
    forall w | w in t.log.since
      ensures InOrder(t, w) && (w !in t.log.cancelled ==> Exact(t, w))
    {
      assert InOrder(s, w) && (w !in s.log.cancelled ==> Exact(s, w));
      assert Promised(t, w) == Promised(s, w);
    }
  }

  lemma RetireKeeps(l: Limits, s: System, order: seq<WatchId>)
    requires Inv(l, s) && Visits(order, s.core.watchers)
    ensures Inv(l, RetireStep(s, order))
  {
    hide Deliveries, Visits, RevisionsGrow, WinsLinear, WriterCurrent, Addressed;
    var t := RetireStep(s, order);
    RetireShape(l, s, order);
    if !s.core.retired {
      EnqueueDelivers(s, t, Gone, order);
    } else {
      SameDeliveries(s, t);
    }
  }

  lemma WatchDelivers(l: Limits, s: System, t: System, n: WatchId)
    requires Deliveries(s) && Addressed(s) && WatchersKnown(t) && n !in s.log.since
    requires t.core.pending == s.core.pending && t.drainers == s.drainers && t.core.retired == s.core.retired == false
    requires t.log.commits == s.log.commits && t.log.cancelled == s.log.cancelled
    requires t.log.since == s.log.since[n := |s.log.commits|] && t.log.delivered == s.log.delivered[n := []]
    ensures Deliveries(t)
  {
    forall w | w in t.log.since
      ensures InOrder(t, w) && (w !in t.log.cancelled ==> Exact(t, w))
    {
      if w == n {
        assert t.log.commits[|t.log.commits|..] == [];
        NotQueued(s.core.pending, n);
      } else {
        assert InOrder(s, w) && (w !in s.log.cancelled ==> Exact(s, w));
        assert Promised(t, w) == Promised(s, w);
      }
    }
  }

  lemma WatchKeeps(l: Limits, s: System)
    requires Inv(l, s)
    ensures Inv(l, WatchStep(l, s))
  {
    hide Deliveries, RevisionsGrow, WinsLinear, WriterCurrent, Addressed;
    WatchShape(l, s);
    if Watch(l, s.core).Ok? { WatchDelivers(l, s, WatchStep(l, s), s.core.nextWatch + 1); }
  }

  lemma PopKeeps(l: Limits, s: System, i: nat)
    requires Inv(l, s) && i < |s.drainers| && s.drainers[i].AtLoop?
    ensures Inv(l, PopStep(s, i))
  {
    hide RevisionsGrow, WinsLinear, WriterCurrent, Addressed;
    var t := PopStep(s, i);
    PopShape(l, s, i);
    assert t.log == s.log && WatchersKnown(s) && WatchersKnown(t);
    hide InOrder, Exact, WatchersKnown;
    forall w | w in t.log.since
      ensures InOrder(t, w) && (w !in t.log.cancelled ==> Exact(t, w))
    {
      assert InOrder(s, w) && (w !in s.log.cancelled ==> Exact(s, w));
      PopOne(s, i, w);
    }
  }

  lemma PopOne(s: System, i: nat, w: WatchId)
    requires OneDrainer(s) && i < |s.drainers| && s.drainers[i].AtLoop? && WatchersKnown(s)
             && WatchersKnown(PopStep(s, i))
    requires w in s.log.since && InOrder(s, w) && (w !in s.log.cancelled ==> Exact(s, w))
    ensures InOrder(PopStep(s, i), w) && (w !in s.log.cancelled ==> Exact(PopStep(s, i), w))
  {
    assert Promised(PopStep(s, i), w) == Promised(s, w);
  }

  lemma LookOne(s: System, t: System, w: WatchId)
    requires WatchersKnown(s) && WatchersKnown(t) && |s.drainers| == 1 && s.drainers[0].Delivering?
    requires t == LookStep(s, 0) && w in s.log.since
    requires InOrder(s, w) && (w !in s.log.cancelled ==> Exact(s, w))
    ensures InOrder(t, w) && (w !in t.log.cancelled ==> Exact(t, w))
  {
    assert Promised(t, w) == Promised(s, w);
    hide WatchersKnown, Promised;
    var rest := s.drainers[0].rest;
    if rest != [] {
      assert rest == [rest[0]] + rest[1..];
      if w == rest[0] && w !in s.log.cancelled {
        assert s.log.delivered[w] + [s.drainers[0].update] <= Promised(s, w);
      }
    }
  }

  lemma LookKeeps(l: Limits, s: System, i: nat)
    requires Inv(l, s) && i < |s.drainers| && s.drainers[i].Delivering?
    ensures Inv(l, LookStep(s, i))
  {
    hide RevisionsGrow, WinsLinear, WriterCurrent, Addressed, InOrder, Exact;
    var t := LookStep(s, i);
    LookShape(l, s, i);
    forall w | w in t.log.since
      ensures InOrder(t, w) && (w !in t.log.cancelled ==> Exact(t, w))
    {
      LookOne(s, t, w);
    }
  }

  lemma CallOne(s: System, t: System, panics: bool, w: WatchId)
    requires WatchersKnown(s) && WatchersKnown(t) && |s.drainers| == 1 && s.drainers[0].Calling?
             && s.drainers[0].rest != []
    requires Distinct(s.drainers[0].rest) && t == CallStep(s, 0, panics) && w in s.log.since
    requires InOrder(s, w) && (w !in s.log.cancelled ==> Exact(s, w))
    ensures InOrder(t, w) && (w !in t.log.cancelled ==> Exact(t, w))
  {
    var rest := s.drainers[0].rest;
    assert rest == [rest[0]] + rest[1..];
    assert rest[0] !in rest[1..];
    assert Promised(t, w) == Promised(s, w);
    hide WatchersKnown, Promised;
  }

  lemma CallKeeps(l: Limits, s: System, i: nat, panics: bool)
    requires Inv(l, s) && i < |s.drainers| && s.drainers[i].Calling? && s.drainers[i].rest != []
    ensures Inv(l, CallStep(s, i, panics))
  {
    hide RevisionsGrow, WinsLinear, WriterCurrent, CallStep, InOrder, Exact;
    var t := CallStep(s, i, panics);
    CallShape(l, s, i, panics);
    assert t.log.since == s.log.since by { CallSince(s, i, panics); }
    forall w | w in t.log.since
      ensures InOrder(t, w) && (w !in t.log.cancelled ==> Exact(t, w))
    {
      CallOne(s, t, panics, w);
    }
  }

  lemma CallSince(s: System, i: nat, panics: bool)
    requires i < |s.drainers| && s.drainers[i].Calling? && s.drainers[i].rest != []
    ensures CallStep(s, i, panics).log.since == s.log.since
  {}

  lemma WriterKeeps(l: Limits, s: System, writer: Writer)
    requires Inv(l, s) && WriterCurrent(s.(writer := writer))
    ensures Inv(l, s.(writer := writer))
  {
    hide Deliveries;
    SameDeliveries(s, s.(writer := writer));
  }

  lemma CancelKeeps(l: Limits, s: System, w: WatchId)
    requires Inv(l, s) && w in s.log.since
    ensures Inv(l, s.(log := s.log.(cancelled := s.log.cancelled + {w})))
  {
    hide Deliveries;
    SameDeliveries(s, s.(log := s.log.(cancelled := s.log.cancelled + {w})));
  }

  lemma ForgetKeeps(l: Limits, s: System, w: WatchId)
    requires Inv(l, s) && w in s.log.cancelled
    ensures Inv(l, s.(core := Forget(s.core, w)))
  {
    hide Deliveries;
    SameDeliveries(s, s.(core := Forget(s.core, w)));
  }

  /** Every action keeps the invariant. */
  lemma StepKeeps(l: Limits, s: System, a: Action)
    requires Inv(l, s)
    ensures Inv(l, Step(l, s, a))
  {
    hide Deliveries, OneDrainer, QueueBounded, Addressed, WatchersKnown, RevisionsGrow, WinsLinear, Visits,
      CommitStep, RetireStep,
      WatchStep, PopStep, LookStep, CallStep, CanCommit;
    match a
    case DoCommit(order) => if s.writer.Ready? && Visits(order, s.core.watchers) { CommitKeeps(l, s, order); }
    case DoWatch => WatchKeeps(l, s);
    case MarkCancelled(w) => if w in s.log.since { CancelKeeps(l, s, w); }
    case DoForget(w) => if w in s.log.cancelled { ForgetKeeps(l, s, w); }
    case DoRetire(order) => if Visits(order, s.core.watchers) { RetireKeeps(l, s, order); }
    case DrainPop(i) => if i < |s.drainers| && s.drainers[i].AtLoop? { PopKeeps(l, s, i); }
    case DrainLook(i) => if i < |s.drainers| && s.drainers[i].Delivering? { LookKeeps(l, s, i); }
    case DrainCall(i, panics) =>
      if i < |s.drainers| && s.drainers[i].Calling? && s.drainers[i].rest != [] { CallKeeps(l, s, i, panics); }
    case _ => WriterKeeps(l, s, Step(l, s, a).writer);
  }

  // ------------------------------------------------------------------------ runs

  lemma StartInv(l: Limits, instance: string, content: string)
    ensures Inv(l, Start(instance, content))
  {}

  lemma {:induction false} RunKeeps(l: Limits, instance: string, content: string,
      states: seq<System>, actions: seq<Action>, i: nat)
    requires IsRun(l, instance, content, states, actions) && i < |states|
    ensures Inv(l, states[i])
  {
    hide Inv, Step, Start;
    if i == 0 {
      StartInv(l, instance, content);
    } else {
      RunKeeps(l, instance, content, states, actions, i - 1);
      StepKeeps(l, states[i - 1], actions[i - 1]);
    }
  }

  /**
   * In every state of every interleaving: a watcher that was not cancelled has been delivered,
   * followed by what is travelling and queued for it, exactly the commits after its snapshot in
   * revision order, then at most one terminal failure; any watcher was delivered a beginning of
   * that; there is at most one drainer, a non-empty queue has one, and the queue is bounded.
   */
  lemma EveryWatcherIsToldInOrder(l: Limits, instance: string, content: string,
      states: seq<System>, actions: seq<Action>, i: nat, w: WatchId)
    requires IsRun(l, instance, content, states, actions) && i < |states| && w in states[i].log.since
    ensures var s := states[i];
            && w in s.log.delivered && s.log.since[w] <= |s.log.commits|
            && s.log.delivered[w] <= Promised(s, w)
            && (w !in s.log.cancelled ==>
                  s.log.delivered[w] + InFlight(s.drainers, w) + QueuedFor(s.core.pending, w) == Promised(s, w))
            && (forall a, b :: 0 <= a < b < |s.log.commits| ==> s.log.commits[a].revision < s.log.commits[b].revision)
            && |s.drainers| <= 1 && (s.core.pending != [] ==> |s.drainers| == 1)
            && |s.core.pending| <= l.maxQueue + 1
  {
    hide IsRun, WinsLinear, WriterCurrent, Addressed, Promised;
    RunKeeps(l, instance, content, states, actions, i);
    assert InOrder(states[i], w);
  }

  /** Once no thread is draining, every uncancelled watcher has received everything it was promised. */
  lemma QuietMeansDelivered(l: Limits, instance: string, content: string,
      states: seq<System>, actions: seq<Action>, i: nat, w: WatchId)
    requires IsRun(l, instance, content, states, actions) && i < |states| && w in states[i].log.since
    requires states[i].drainers == [] && w !in states[i].log.cancelled
    ensures w in states[i].log.delivered && states[i].log.since[w] <= |states[i].log.commits|
    ensures states[i].log.delivered[w] == Promised(states[i], w)
  {
    hide IsRun, WinsLinear, WriterCurrent, Addressed, Promised, RevisionsGrow;
    RunKeeps(l, instance, content, states, actions, i);
    assert Exact(states[i], w);
  }

  /** The instance is the one the variable was made as, in every state of every run. */
  lemma {:induction false} InstanceStays(l: Limits, instance: string, content: string, states: seq<System>,
      actions: seq<Action>, i: nat)
    requires IsRun(l, instance, content, states, actions) && i < |states|
    ensures states[i].core.instance == instance
  {
    if i > 0 {
      InstanceStays(l, instance, content, states, actions, i - 1);
      assert states[(i - 1) + 1] == Step(l, states[i - 1], actions[i - 1]);
      SameInstance(l, states[i - 1], actions[i - 1]);
    }
  }

  lemma SameInstance(l: Limits, s: System, a: Action)
    ensures Step(l, s, a).core.instance == s.core.instance
  {
    hide Visits, MatchRevision, ChooseRevision, CanCommit;
  }

  /**
   * Compare-and-set is linearizable: each success was meant for this instance, replaced exactly the revision it
   * expected and installed the next one.
   */
  lemma CompareAndSetIsLinearizable(l: Limits, instance: string, content: string, states: seq<System>,
      actions: seq<Action>, i: nat, a: nat)
    requires IsRun(l, instance, content, states, actions) && i < |states| && a < |states[i].log.wins|
    ensures var win := states[i].log.wins[a];
            && win.instance == instance == states[i].core.instance
            && win.replaced == win.expected && win.installed == win.expected + 1
  {
    hide IsRun, OneDrainer, QueueBounded, Addressed, WatchersKnown, RevisionsGrow, WriterCurrent, Deliveries;
    InstanceStays(l, instance, content, states, actions, i);
    RunKeeps(l, instance, content, states, actions, i);
  }

  /** No two successes share an expected revision: of writers that expect the same one, at most one wins. */
  lemma OneWinnerPerRevision(l: Limits, instance: string, content: string,
      states: seq<System>, actions: seq<Action>, i: nat, a: nat, b: nat)
    requires IsRun(l, instance, content, states, actions) && i < |states| && a < b < |states[i].log.wins|
    ensures states[i].log.wins[a].expected < states[i].log.wins[b].expected
  {
    hide IsRun, OneDrainer, QueueBounded, Addressed, WatchersKnown, RevisionsGrow, WriterCurrent, Deliveries;
    RunKeeps(l, instance, content, states, actions, i);
  }

  /** Nothing is committed after retirement, even by a writer whose handler was already running. */
  lemma {:induction false} NothingCommitsAfterRetirement(l: Limits, instance: string, content: string,
      states: seq<System>, actions: seq<Action>, i: nat, j: nat)
    requires IsRun(l, instance, content, states, actions) && i <= j < |states| && states[i].core.retired
    ensures states[j].core.retired && states[j].core.current == states[i].core.current
    ensures states[j].log.commits == states[i].log.commits && states[j].log.wins == states[i].log.wins
  {
    hide Visits;
    if i < j {
      NothingCommitsAfterRetirement(l, instance, content, states, actions, i, j - 1);
      RetiredStays(l, states[j - 1], actions[j - 1]);
    }
  }

  lemma RetiredStays(l: Limits, s: System, a: Action)
    requires s.core.retired
    ensures var t := Step(l, s, a);
            && t.core.retired && t.core.current == s.core.current && t.log.commits == s.log.commits
               && t.log.wins == s.log.wins
  {
    hide Visits;
  }
}
