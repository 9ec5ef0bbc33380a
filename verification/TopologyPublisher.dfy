/**
 * The coalescing publisher of topology snapshots. Any number of threads submit snapshots, also from
 * inside a callback; one of them drains, and only the newest snapshot waiting is kept.
 */
module TopologyPublisher {
  import opened Basics

  /** The fields under the publisher's lock. */
  datatype Core = Core(pending: Option<nat>, publishing: bool, published: nat)

  /** What a thread does next after its critical section: nothing, or work on a revision. */
  datatype Turn = Done | Work(revision: nat)

  /** The loop head: take what is pending and mark it published. */
  function Take(c: Core): (r: (Core, Turn))
    requires c.pending.Some?
  {
    (c.(pending := None, published := c.pending.value), Work(c.pending.value))
  }

  /** The first critical section of a submission. */
  function Submit(c: Core, revision: nat): (r: (Core, Turn)) {
    if revision <= c.published || (c.pending.Some? && revision <= c.pending.value) then (c, Done)
    else if c.publishing then (c.(pending := Some(revision)), Done)
    else Take(c.(pending := Some(revision), publishing := true))
  }

  /** The critical section after each piece of work. */
  function Finish(c: Core): (r: (Core, Turn)) {
    if c.pending.None? then (c.(publishing := false), Done) else Take(c)
  }

  // ----------------------------------------------------------------- all threads

  /** `working` holds the revision each draining thread works on; `begun` and `submitted` are the record. */
  datatype System = System(core: Core, working: seq<nat>, begun: seq<nat>, submitted: seq<nat>)

  datatype Action = DoSubmit(revision: nat) | DoFinish(thread: nat)

  function Start(): System { System(Core(None, false, 0), [], [], []) }

  function Step(s: System, a: Action): (r: System) {
    match a
    case DoSubmit(revision) =>
      var (core, turn) := Submit(s.core, revision);
      var submitted := s.submitted + [revision];
      (match turn
       case Done => s.(core := core, submitted := submitted)
       case Work(x) => System(core, s.working + [x], s.begun + [x], submitted))
    case DoFinish(i) =>
      if i >= |s.working| then s
      else
        var (core, turn) := Finish(s.core);
        match turn
        case Done => s.(core := core, working := s.working[..i] + s.working[i + 1..])
        case Work(x) => s.(core := core, working := s.working[i := x], begun := s.begun + [x])
  }

  ghost predicate IsRun(states: seq<System>, actions: seq<Action>) {
    && |states| == |actions| + 1 && states[0] == Start()
    && forall i :: 0 <= i < |actions| ==> states[i + 1] == Step(states[i], actions[i])
  }

  function Largest(xs: seq<nat>): (r: nat) {
    if xs == [] then 0
    else
      var rest := Largest(xs[..|xs| - 1]);
      if xs[|xs| - 1] > rest then xs[|xs| - 1] else rest
  }

  lemma {:induction false} LargestIs(xs: seq<nat>)
    ensures forall i :: 0 <= i < |xs| ==> xs[i] <= Largest(xs)
    ensures Largest(xs) == 0 || Largest(xs) in xs
  {
    if xs != [] { LargestIs(xs[..|xs| - 1]); }
  }

  lemma LargestMore(xs: seq<nat>, x: nat)
    ensures Largest(xs + [x]) == if x > Largest(xs) then x else Largest(xs)
  {
    assert (xs + [x])[..|xs|] == xs;
  }

  predicate Rising(xs: seq<nat>) { forall i, j :: 0 <= i < j < |xs| ==> xs[i] < xs[j] }

  predicate LockOk(c: Core, threads: nat) {
    && threads == (if c.publishing then 1 else 0)
    && (c.pending.Some? ==> c.publishing && c.pending.value > c.published)
  }

  function Newest(c: Core): (r: nat) { if c.pending.Some? then c.pending.value else c.published }

  /** Revisions were taken up in rising order, the last one is the published one and the one being worked on. */
  predicate BegunOk(published: nat, begun: seq<nat>, working: seq<nat>) {
    && Rising(begun) && (forall i :: 0 <= i < |begun| ==> begun[i] <= published)
    && (if begun == [] then published == 0 && working == [] else begun[|begun| - 1] == published)
    && (forall i :: 0 <= i < |working| ==> working[i] == published)
  }

  ghost predicate Inv(s: System) {
    && LockOk(s.core, |s.working|)
    && Largest(s.submitted) == Newest(s.core)
    && BegunOk(s.core.published, s.begun, s.working)
  }

  lemma BeginNext(published: nat, begun: seq<nat>, working: seq<nat>, x: nat)
    requires BegunOk(published, begun, working) && x > published
    ensures BegunOk(x, begun + [x], [x])
  {
  }

  lemma SubmitKeeps(s: System, revision: nat)
    requires Inv(s)
    ensures Inv(Step(s, DoSubmit(revision))) && s.begun <= Step(s, DoSubmit(revision)).begun
  {
    LargestMore(s.submitted, revision);
    hide Largest, BegunOk;
    if revision > s.core.published { BeginNext(s.core.published, s.begun, s.working, revision); }
    if !s.core.publishing { assert s.working + [revision] == [revision]; }
  }

  lemma FinishKeeps(s: System, i: nat)
    requires Inv(s)
    ensures Inv(Step(s, DoFinish(i))) && s.begun <= Step(s, DoFinish(i)).begun
  {
    hide Largest, Rising;
    if i < |s.working| {
      assert i == 0;
      if s.core.pending.Some? {
        BeginNext(s.core.published, s.begun, s.working, s.core.pending.value);
        assert s.working[0 := s.core.pending.value] == [s.core.pending.value];
      }
    }
  }

  lemma StepKeeps(s: System, a: Action)
    requires Inv(s)
    ensures Inv(Step(s, a)) && s.begun <= Step(s, a).begun
  {
    hide Inv, Step;
    match a
    case DoSubmit(revision) => SubmitKeeps(s, revision);
    case DoFinish(i) => FinishKeeps(s, i);
  }

  lemma {:induction false} RunKeeps(states: seq<System>, actions: seq<Action>, i: nat)
    requires IsRun(states, actions) && i < |states|
    ensures Inv(states[i])
  {
    if i > 0 {
      RunKeeps(states, actions, i - 1);
      hide Inv, Step;
      StepKeeps(states[i - 1], actions[i - 1]);
      assert states[(i - 1) + 1] == Step(states[i - 1], actions[i - 1]);
    }
  }

  /** However submissions interleave, at most one thread drains and it takes up strictly rising revisions. */
  lemma OneDrainerRisingRevisions(states: seq<System>, actions: seq<Action>, i: nat)
    requires IsRun(states, actions) && i < |states|
    ensures |states[i].working| <= 1 && Rising(states[i].begun)
    ensures forall x :: x in states[i].begun ==> x <= Largest(states[i].submitted)
  {
    RunKeeps(states, actions, i);
    hide IsRun, Step;
  }

  /** Whenever nobody drains, nothing is pending and the newest snapshot ever submitted is the published one. */
  lemma IdleMeansNewestPublished(states: seq<System>, actions: seq<Action>, i: nat, k: nat)
    requires IsRun(states, actions) && i < |states| && states[i].working == [] && k < |states[i].submitted|
    ensures states[i].core.pending.None? && !states[i].core.publishing
    ensures states[i].core.published == Largest(states[i].submitted)
            && states[i].submitted[k] <= states[i].core.published
    ensures states[i].begun != [] ==> states[i].begun[|states[i].begun| - 1] == states[i].core.published
  {
    RunKeeps(states, actions, i);
    hide IsRun, Step;
    LargestIs(states[i].submitted);
  }

  // ------------------------------------------------------------------- the object

  /** Submissions that arrive while somebody drains. */
  function Arrive(c: Core, revisions: seq<nat>): (r: Core) {
    if revisions == [] then c else Submit(Arrive(c, revisions[..|revisions| - 1]), revisions[|revisions| - 1]).0
  }

  lemma {:induction false} ArriveKeepsPublishing(c: Core, revisions: seq<nat>)
    requires c.publishing
    ensures Arrive(c, revisions).publishing && Arrive(c, revisions).published == c.published
  {
    if revisions != [] { ArriveKeepsPublishing(c, revisions[..|revisions| - 1]); }
  }

  /** The rest of a drain; `rounds[k]` arrives, from callbacks or other threads, during its k-th piece of work. */
  function Drained(c: Core, rounds: seq<seq<nat>>): (r: Core)
    requires c.publishing && c.pending.None?
    decreases |rounds|
  {
    if rounds == [] then Finish(c).0
    else
      ArriveKeepsPublishing(c, rounds[0]);
      var (d, turn) := Finish(Arrive(c, rounds[0]));
      if turn.Done? then d else Drained(d, rounds[1..])
  }

  /** One call of publish: leave the revision to the thread that drains, or drain. */
  function Called(c: Core, revision: nat, rounds: seq<seq<nat>>): (r: Core) {
    var (d, turn) := Submit(c, revision);
    if turn.Done? then d else Drained(d, rounds)
  }

  /** A drain always ends idle, with something at least as new published. */
  lemma {:induction false} DrainEndsIdle(c: Core, rounds: seq<seq<nat>>)
    requires c.publishing && c.pending.None?
    ensures var d := Drained(c, rounds); d.pending.None? && !d.publishing && d.published >= c.published
    decreases |rounds|
  {
    if rounds != [] {
      ArriveKeepsPublishing(c, rounds[0]);
      var (d, turn) := Finish(Arrive(c, rounds[0]));
      ArriveIsNewer(c, rounds[0]);
      if turn.Work? { DrainEndsIdle(d, rounds[1..]); }
    }
  }

  lemma {:induction false} ArriveIsNewer(c: Core, revisions: seq<nat>)
    requires c.publishing && c.pending.None?
    ensures Arrive(c, revisions).pending.Some? ==> Arrive(c, revisions).pending.value > c.published
  {
    if revisions != [] {
      ArriveIsNewer(c, revisions[..|revisions| - 1]);
      ArriveKeepsPublishing(c, revisions[..|revisions| - 1]);
    }
  }

  class Publisher {
    var pending: Option<nat>
    var publishing: bool
    var published: nat

    ghost function View(): Core
      reads this
    {
      Core(pending, publishing, published)
    }

    constructor ()
      ensures View() == Start().core
    {
      pending, publishing, published := None, false, 0;
    }

    /** The first critical section of a call; the result says whether the caller must drain. */
    method Offer(revision: nat) returns (drain: bool)
      modifies this
      ensures (View(), if drain then Work(revision) else Done) == Submit(old(View()), revision)
    {
      if revision <= published || (pending.Some? && revision <= pending.value) { return false; }
      pending := Some(revision);
      if publishing { return false; }
      publishing := true;
      var current := pending.value;
      pending, published := None, current;
      drain := true;
    }

    method OfferAll(revisions: seq<nat>)
      requires publishing
      modifies this
      ensures View() == Arrive(old(View()), revisions)
    {
      ArriveKeepsPublishing(View(), []);
      for i := 0 to |revisions|
        invariant View() == Arrive(old(View()), revisions[..i]) && publishing
      {
        assert revisions[..i + 1][..i] == revisions[..i];
        var drain := Offer(revisions[i]);
      }
      assert revisions[..|revisions|] == revisions;
    }

    /** A whole call, with the submissions that arrive during each piece of its work. */
    method Publish(revision: nat, rounds: seq<seq<nat>>)
      modifies this
      ensures View() == Called(old(View()), revision, rounds)
    {
      var drain := Offer(revision);
      if !drain { return; }
      ghost var begun := View();
      var k := 0;
      while publishing
        invariant k <= |rounds| && (publishing ==> pending.None?)
        invariant if publishing then Drained(begun, rounds) == Drained(View(), rounds[k..])
                                     else Drained(begun, rounds) == View()
        decreases |rounds| - k, publishing
      {
        if k < |rounds| {
          ArriveKeepsPublishing(View(), rounds[k]);
          assert rounds[k..][0] == rounds[k] && rounds[k..][1..] == rounds[k + 1..];
          OfferAll(rounds[k]);
          k := k + 1;
        }
        if pending.None? {
          publishing := false;
        } else {
          var current := pending.value;
          pending, published := None, current;
        }
      }
    }
  }
}
