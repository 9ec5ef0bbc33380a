/**
 * What a pass through the mutation gate installs: of every commit in every interleaving, the content and the revision
 * are those its own writer was given or had confirmed, and a writer that nothing speaks against commits.
 */
module VariableGate {
  import opened Basics
  import opened Variable
  import opened VariableInvariant

  /** The writer that is inside at `k` entered at `a`. */
  ghost predicate Pass(states: seq<System>, actions: seq<Action>, a: nat, k: nat) {
    && a < k < |states| && a < |actions| && states[a].writer.Outside? && actions[a] == Acquire
    && forall j :: a < j <= k ==> !states[j].writer.Outside?
  }

  /** The action moved the writer on. */
  ghost predicate Effective(states: seq<System>, r: nat) {
    r + 1 < |states| && states[r].writer != states[r + 1].writer
  }

  /** Inside this pass a compare-and-set found its instance and revision at `r`. */
  ghost predicate Compared(states: seq<System>, actions: seq<Action>, a: nat, r: nat, k: nat, instance: string,
      expected: nat, proposal: string) {
    && Pass(states, actions, a, k) && a < r < k && r < |actions| && Effective(states, r)
    && actions[r] == CasRead(instance, expected, proposal) && !states[r].core.retired
    && instance == states[r].core.instance && expected == states[r].core.current.revision
  }

  /** Inside this pass an unconditional write chose its revision at `r`: the one asked for, or the next one. */
  ghost predicate Chose(states: seq<System>, actions: seq<Action>, a: nat, r: nat, k: nat, revision: nat) {
    && Pass(states, actions, a, k) && a < r < k && r < |actions| && Effective(states, r)
    && actions[r].ApplyRead? && !states[r].core.retired && states[r].core.current.revision < revision
    && revision == if actions[r].requested == 0 then states[r].core.current.revision + 1 else actions[r].requested
  }

  /** The content is the one the handler confirmed at `h` or, with no handler, the one proposed. */
  predicate Confirmed(action: Action, proposal: string, content: string) {
    action == HandlerReturns(true, content) || (action == NoHandler && content == proposal)
  }

  /** How the value of a writer about to commit came about. */
  ghost predicate MadeReady(states: seq<System>, actions: seq<Action>, a: nat, r: nat, h: nat, k: nat, v: Value,
      claim: Option<string>) {
    && r < h < k < |states| && h < |actions| && Effective(states, h)
    && match claim
       case Some(instance) =>
         && v.revision >= 1 && actions[r].CasRead?
         && Compared(states, actions, a, r, k, instance, v.revision - 1, actions[r].proposal)
         && Confirmed(actions[h], actions[r].proposal, v.content)
       case None =>
         Chose(states, actions, a, r, k, v.revision) && actions[h] == ApplyPrepare(true, v.content)
  }

  /** Where the writer at `k` comes from. */
  ghost predicate Traced(states: seq<System>, actions: seq<Action>, a: nat, r: nat, h: nat, k: nat)
    requires k < |states|
  {
    match states[k].writer
    case Outside => true
    case Entered => Pass(states, actions, a, k)
    case Finished => Pass(states, actions, a, k)
    case Matched(x, e, p) => Compared(states, actions, a, r, k, x, e, p)
    case InHandler(x, e, p) => Compared(states, actions, a, r, k, x, e, p)
    case Chosen(_, revision) => Chose(states, actions, a, r, k, revision)
    case Ready(_, v, claim) => r < |actions| && MadeReady(states, actions, a, r, h, k, v, claim)
  }

  /** What moves the writer. */
  lemma OnlyTheGateMoves(l: Limits, s: System, action: Action)
    ensures var t := Step(l, s, action);
            || t.writer == s.writer
            || (!s.writer.Outside? && t.writer.Finished?)
            || match action
               case Acquire => s.writer.Outside? && t.writer.Entered?
               case CasRead(x, e, p) =>
                 && s.writer.Entered? && t.writer == Matched(x, e, p)
                 && !s.core.retired && x == s.core.instance && e == s.core.current.revision
               case ApplyRead(requested) =>
                 && s.writer.Entered? && t.writer.Chosen? && !s.core.retired
                 && s.core.current.revision < t.writer.revision
                 && t.writer.revision == if requested == 0 then s.core.current.revision + 1 else requested
               case CasPreflight(_) =>
                 s.writer.Matched? && t.writer == InHandler(s.writer.instance, s.writer.expected, s.writer.proposal)
               case NoHandler =>
                 && s.writer.InHandler? && t.writer.Ready? && t.writer.claim == Some(s.writer.instance)
                 && t.writer.value == Value(s.writer.expected + 1, s.writer.proposal)
               case HandlerReturns(confirmed, content) =>
                 && s.writer.InHandler? && t.writer.Ready? && t.writer.claim == Some(s.writer.instance) && confirmed
                 && t.writer.value == Value(s.writer.expected + 1, content)
               case ApplyPrepare(ok, content) =>
                 && s.writer.Chosen? && t.writer.Ready? && t.writer.claim.None? && ok
                 && t.writer.value == Value(s.writer.revision, content)
               case Release => s.writer.Finished? && t.writer.Outside?
               case _ => false
  {
    hide Visits, CanCommit;
  }

  lemma {:induction false} Trace(l: Limits, instance: string, content: string, states: seq<System>,
      actions: seq<Action>, k: nat)
    returns (a: nat, r: nat, h: nat)
    requires IsRun(l, instance, content, states, actions) && k < |states|
    ensures Traced(states, actions, a, r, h, k)
  {
    a, r, h := 0, 0, 0;
    if k > 0 {
      a, r, h := Trace(l, instance, content, states, actions, k - 1);
      assert states[(k - 1) + 1] == Step(l, states[k - 1], actions[k - 1]);
      OnlyTheGateMoves(l, states[k - 1], actions[k - 1]);
      hide Step, IsRun, Traced;
      if states[k].writer == states[k - 1].writer {
        TraceStays(states, actions, a, r, h, k);
      } else {
        a, r, h := TraceMoves(l, states, actions, a, r, h, k);
      }
    }
  }

  lemma LaterPass(states: seq<System>, actions: seq<Action>, a: nat, k: nat)
    requires 0 < k < |states| && Pass(states, actions, a, k - 1) && !states[k].writer.Outside?
    ensures Pass(states, actions, a, k)
  {}

  lemma TraceStays(states: seq<System>, actions: seq<Action>, a: nat, r: nat, h: nat, k: nat)
    requires 0 < k < |states| && Traced(states, actions, a, r, h, k - 1)
    requires states[k].writer == states[k - 1].writer
    ensures Traced(states, actions, a, r, h, k)
  {
    if !states[k].writer.Outside? {
      assert Pass(states, actions, a, k - 1) by { hide Effective; }
      LaterPass(states, actions, a, k);
      hide Pass, Effective;
    }
  }

  lemma TraceMoves(l: Limits, states: seq<System>, actions: seq<Action>, a: nat, r: nat, h: nat, k: nat)
    returns (a': nat, r': nat, h': nat)
    requires 0 < k < |states| && k - 1 < |actions| && Traced(states, actions, a, r, h, k - 1)
    requires states[k] == Step(l, states[k - 1], actions[k - 1]) && states[k].writer != states[k - 1].writer
    ensures Traced(states, actions, a', r', h', k)
  {
    a', r', h' := a, r, h;
    OnlyTheGateMoves(l, states[k - 1], actions[k - 1]);
    hide Step;
    assert Effective(states, k - 1);
    if actions[k - 1].Acquire? && states[k].writer.Entered? {
      a' := k - 1;
    } else if !states[k].writer.Outside? {
      assert Pass(states, actions, a, k - 1) by { hide Effective; }
      LaterPass(states, actions, a, k);
      hide Pass, Effective;
      if states[k].writer.Matched? || states[k].writer.Chosen? { r' := k - 1; }
      if states[k].writer.Ready? { h' := k - 1; }
    }
  }

  /** Step `i` committed what the pass that began at `a` had chosen at `r` and prepared at `h`. */
  ghost predicate Installed(states: seq<System>, actions: seq<Action>, a: nat, r: nat, h: nat, i: nat) {
    && i + 1 < |states| && i < |actions| && actions[i].DoCommit? && r < |actions|
    && var s, t := states[i], states[i + 1];
       var v := t.core.current;
       && t.log.commits == s.log.commits + [v] && s.core.current.revision < v.revision && !s.core.retired
       && if actions[r].CasRead? then
            && MadeReady(states, actions, a, r, h, i, v, Some(s.core.instance))
            && s.core.current.revision + 1 == v.revision
            && t.log.wins == s.log.wins + [CasWin(s.core.instance, v.revision - 1, v.revision - 1, v.revision)]
          else
            MadeReady(states, actions, a, r, h, i, v, None) && t.log.wins == s.log.wins
  }

  /**
   * Whatever is committed in any interleaving was prepared by that same pass through the gate: a compare-and-set
   * installs the revision after the expected one with the content its handler confirmed, or its own proposal where
   * there is no handler; an unconditional write installs the revision and the content it was given.
   */
  lemma CommitInstallsItsOwn(l: Limits, instance: string, content: string, states: seq<System>, actions: seq<Action>,
      i: nat)
    requires IsRun(l, instance, content, states, actions) && i < |actions|
    requires states[i + 1].log.commits != states[i].log.commits || states[i + 1].core.current != states[i].core.current
             || states[i + 1].log.wins != states[i].log.wins
    ensures exists a: nat, r: nat, h: nat :: Installed(states, actions, a, r, h, i)
  {
    var s, t := states[i], states[i + 1];
    assert t == Step(l, s, actions[i]);
    RunKeeps(l, instance, content, states, actions, i);
    var a, r, h := Trace(l, instance, content, states, actions, i);
    CommitMoves(l, s, actions[i]);
    assert WriterCurrent(s);
    hide Inv, Step, IsRun, MadeReady;
    assert MadeReady(states, actions, a, r, h, i, s.writer.value, s.writer.claim);
    assert actions[r].CasRead? <==> s.writer.claim.Some? by { ReadKind(states, actions, a, r, h, i, s.writer); }
    assert Installed(states, actions, a, r, h, i);
  }

  lemma ReadKind(states: seq<System>, actions: seq<Action>, a: nat, r: nat, h: nat, i: nat, w: Writer)
    requires w.Ready? && r < |actions| && MadeReady(states, actions, a, r, h, i, w.value, w.claim)
    ensures actions[r].CasRead? <==> w.claim.Some?
  {
    hide Effective, Pass;
  }

  /** Only a writer that is ready changes the value, and installs exactly what it has ready. */
  lemma CommitMoves(l: Limits, s: System, action: Action)
    requires Step(l, s, action).log.commits != s.log.commits || Step(l, s, action).core.current != s.core.current
             || Step(l, s, action).log.wins != s.log.wins
    ensures action.DoCommit? && s.writer.Ready? && !s.core.retired
    ensures var t := Step(l, s, action);
            && t.core.current == s.writer.value && t.log.commits == s.log.commits + [s.writer.value]
            && t.log.wins == (if s.writer.claim.None? then s.log.wins
                              else s.log.wins + [CasWin(s.writer.claim.value, s.writer.base, s.core.current.revision,
                                                        s.writer.value.revision)])
  {
    hide Visits, MatchRevision, ChooseRevision, CanCommit;
  }

  /** The current value is the one the Variable was made with, or the one installed last. */
  lemma {:induction false} CurrentIsInstalled(l: Limits, instance: string, content: string, states: seq<System>,
      actions: seq<Action>, i: nat)
    requires IsRun(l, instance, content, states, actions) && i < |states|
    ensures if states[i].log.commits == [] then states[i].core.current == Value(1, content)
            else exists j: nat, a: nat, r: nat, h: nat ::
                   j < i && Installed(states, actions, a, r, h, j)
                     && states[j + 1].core.current == states[i].core.current
  {
    if i > 0 {
      CurrentIsInstalled(l, instance, content, states, actions, i - 1);
      var s, t := states[i - 1], states[i];
      if t.core.current != s.core.current || t.log.commits != s.log.commits {
        CommitInstallsItsOwn(l, instance, content, states, actions, i - 1);
        var a: nat, r: nat, h: nat :| Installed(states, actions, a, r, h, i - 1);
      }
      hide IsRun, Installed;
    }
  }

  /** Every won compare-and-set was committed by a step that installed what that very pass had confirmed. */
  lemma {:induction false} EveryWinInstallsWhatWasConfirmed(l: Limits, instance: string, content: string,
      states: seq<System>, actions: seq<Action>, i: nat, n: nat)
    requires IsRun(l, instance, content, states, actions) && i < |states| && n < |states[i].log.wins|
    ensures exists j: nat, a: nat, r: nat, h: nat ::
              && j < i && Installed(states, actions, a, r, h, j) && actions[r].CasRead?
              && |states[j].log.wins| == n && states[j + 1].log.wins[n] == states[i].log.wins[n]
  {
    assert i > 0;
    var s, t := states[i - 1], states[i];
    if t.log.wins == s.log.wins {
      EveryWinInstallsWhatWasConfirmed(l, instance, content, states, actions, i - 1, n);
      hide IsRun, Installed;
    } else {
      CommitInstallsItsOwn(l, instance, content, states, actions, i - 1);
      var a: nat, r: nat, h: nat :| Installed(states, actions, a, r, h, i - 1);
      assert actions[r].CasRead? && |t.log.wins| == |s.log.wins| + 1 by { hide MadeReady; }
      if n < |s.log.wins| {
        EveryWinInstallsWhatWasConfirmed(l, instance, content, states, actions, i - 1, n);
        assert t.log.wins[n] == s.log.wins[n];
      }
      hide IsRun, Installed;
    }
  }

  // ------------------------------------------------------------------------- success

  ghost function Steps(l: Limits, s: System, actions: seq<Action>): (t: System)
    decreases |actions|
  {
    if actions == [] then s else Steps(l, Step(l, s, actions[0]), actions[1..])
  }

  lemma FirstStep(l: Limits, s: System, actions: seq<Action>)
    requires actions != []
    ensures Steps(l, s, actions) == Steps(l, Step(l, s, actions[0]), actions[1..])
  {
    hide Step;
  }

  lemma FiveSteps(l: Limits, s: System, a: Action, b: Action, c: Action, d: Action, e: Action)
    ensures Steps(l, s, [a, b, c, d, e]) == Step(l, Step(l, Step(l, Step(l, Step(l, s, a), b), c), d), e)
  {
    var s1 := Step(l, s, a);
    var s2 := Step(l, s1, b);
    var s3 := Step(l, s2, c);
    var s4 := Step(l, s3, d);
    assert Steps(l, Step(l, s4, e), []) == Step(l, s4, e) by { hide Step; }
    hide Step, Steps;
    FirstStep(l, s, [a, b, c, d, e]);
    assert [a, b, c, d, e][1..] == [b, c, d, e];
    FirstStep(l, s1, [b, c, d, e]);
    assert [b, c, d, e][1..] == [c, d, e];
    FirstStep(l, s2, [c, d, e]);
    assert [c, d, e][1..] == [d, e];
    FirstStep(l, s3, [d, e]);
    assert [d, e][1..] == [e];
    FirstStep(l, s4, [e]);
    assert [e][1..] == [];
  }

  /**
   * A compare-and-set that nobody steps into commits exactly when the Variable stands, instance and revision are those
   * expected, a revision is left, the queue has room and preparation and handler agree; otherwise nothing changes.
   */
  lemma CompareAndSetSucceedsExactly(l: Limits, s: System, instance: string, expected: nat, proposal: string,
      prepareOk: bool, confirmed: bool, content: string, order: seq<WatchId>)
    requires s.writer.Outside? && Visits(order, s.core.watchers) && s.core.current.revision >= 1
    ensures var t := Steps(l, s, [Acquire, CasRead(instance, expected, proposal), CasPreflight(prepareOk),
                                  HandlerReturns(confirmed, content), DoCommit(order)]);
            if && !s.core.retired && instance == s.core.instance && expected == s.core.current.revision
               && expected != U64 - 1 && |s.core.pending| < l.maxQueue && prepareOk && confirmed
            then t.core.current == Value(expected + 1, content)
                 && t.log.commits == s.log.commits + [Value(expected + 1, content)]
            else t.core == s.core && t.log == s.log
  {
    FiveSteps(l, s, Acquire, CasRead(instance, expected, proposal), CasPreflight(prepareOk),
      HandlerReturns(confirmed, content), DoCommit(order));
    hide Visits, Steps;
  }

  /** Where there is no handler the proposal itself is committed. */
  lemma ProposalIsCommitted(l: Limits, s: System, instance: string, expected: nat, proposal: string, prepareOk: bool,
      order: seq<WatchId>)
    requires s.writer.Outside? && Visits(order, s.core.watchers) && s.core.current.revision >= 1
    ensures var t := Steps(l, s, [Acquire, CasRead(instance, expected, proposal), CasPreflight(prepareOk), NoHandler,
                                  DoCommit(order)]);
            if && !s.core.retired && instance == s.core.instance && expected == s.core.current.revision
               && expected != U64 - 1 && |s.core.pending| < l.maxQueue && prepareOk
            then t.core.current == Value(expected + 1, proposal)
                 && t.log.commits == s.log.commits + [Value(expected + 1, proposal)]
            else t.core == s.core && t.log == s.log
  {
    FiveSteps(l, s, Acquire, CasRead(instance, expected, proposal), CasPreflight(prepareOk), NoHandler,
      DoCommit(order));
    hide Visits, Steps;
  }

  /**
   * An unconditional write that nobody steps into commits exactly when the Variable stands, a revision is left, the
   * revision asked for is a later one, the queue has room and preparation succeeds; otherwise nothing changes.
   */
  lemma WriteSucceedsExactly(l: Limits, s: System, requested: nat, prepareOk: bool, content: string,
      order: seq<WatchId>)
    requires s.writer.Outside? && Visits(order, s.core.watchers)
    ensures var t := Steps(l, s, [Acquire, ApplyRead(requested), ApplyPrepare(prepareOk, content), DoCommit(order),
                                  Release]);
            var revision := if requested == 0 then s.core.current.revision + 1 else requested;
            if && !s.core.retired && s.core.current.revision != U64 - 1 && s.core.current.revision < revision
               && |s.core.pending| < l.maxQueue && prepareOk
            then t.core.current == Value(revision, content)
                 && t.log.commits == s.log.commits + [Value(revision, content)]
            else t.core == s.core && t.log == s.log
  {
    FiveSteps(l, s, Acquire, ApplyRead(requested), ApplyPrepare(prepareOk, content), DoCommit(order), Release);
    hide Visits, Steps;
  }

  /**
   * Watching succeeds exactly while the Variable stands and has fewer watchers than its limit; the new watcher has a
   * number nobody had before and is promised what is committed from here on.
   */
  lemma WatchSucceedsExactly(l: Limits, s: System)
    requires Inv(l, s)
    ensures var t := Step(l, s, DoWatch);
            if !s.core.retired && |s.core.watchers| < l.maxSubscribers then
              exists w :: && w !in s.log.since && t.core == s.core.(nextWatch := w, watchers := s.core.watchers + {w})
                          && t.log == s.log.(since := s.log.since[w := |s.log.commits|],
                                             delivered := s.log.delivered[w := []])
            else t == s
  {
    hide Deliveries, Addressed, RevisionsGrow, WinsLinear, WriterCurrent;
    assert s.core.nextWatch + 1 !in s.log.since;
  }

  /** Retiring happens once: the value stays, the watchers are let go, and each of them is told so last. */
  lemma RetireIsFinal(l: Limits, s: System, order: seq<WatchId>)
    requires Visits(order, s.core.watchers)
    ensures var t := Step(l, s, DoRetire(order));
            && t.core.retired && t.core.current == s.core.current && t.log == s.log && t.writer == s.writer
            && (s.core.retired ==> t == s)
            && (!s.core.retired ==>
                  && t.core.watchers == {}
                  && t.core.pending
                     == if s.core.watchers == {} then s.core.pending else s.core.pending + [Notice(Gone, order)])
  {
    hide Visits;
  }

  // ------------------------------------------------------------------------ progress

  function QueueWork(pending: seq<Notice>): (r: nat) {
    if pending == [] then 0 else 3 + 2 * |pending[0].watchers| + QueueWork(pending[1..])
  }

  /** How many steps the drainer still has to take. */
  function Work(s: System): (r: nat) {
    if s.drainers == [] then 0
    else
      QueueWork(s.core.pending)
      + match s.drainers[0]
        case AtLoop => 1
        case Delivering(_, rest) => 2 + 2 * |rest|
        case Calling(_, rest) => 1 + 2 * |rest|
  }

  function NextDrain(s: System): (a: Action)
    requires s.drainers != []
  {
    match s.drainers[0]
    case AtLoop => DrainPop(0)
    case Delivering(_, _) => DrainLook(0)
    case Calling(_, _) => DrainCall(0, false)
  }

  lemma PopAdvances(s: System)
    requires |s.drainers| == 1 && s.drainers[0].AtLoop?
    ensures Work(PopStep(s, 0)) < Work(s)
  {
    assert RemoveAt(s.drainers, 0) == [];
  }

  lemma DeliveryAdvances(s: System)
    requires |s.drainers| == 1
    ensures s.drainers[0].Delivering? ==> Work(LookStep(s, 0)) < Work(s)
    ensures s.drainers[0].Calling? && s.drainers[0].rest != [] ==> Work(CallStep(s, 0, false)) < Work(s)
  {
    hide QueueWork;
  }

  lemma NextDrainIs(l: Limits, s: System)
    requires s.drainers != [] && (s.drainers[0].Calling? ==> s.drainers[0].rest != [])
    ensures Step(l, s, NextDrain(s))
            == match s.drainers[0]
               case AtLoop => PopStep(s, 0)
               case Delivering(_, _) => LookStep(s, 0)
               case Calling(_, _) => CallStep(s, 0, false)
  {
    hide PopStep, LookStep, CallStep;
  }

  lemma DrainAdvances(l: Limits, s: System)
    requires Inv(l, s) && s.drainers != []
    ensures Work(Step(l, s, NextDrain(s))) < Work(s)
  {
    assert |s.drainers| == 1 && (s.drainers[0].Calling? ==> s.drainers[0].rest != []) by {
      hide Deliveries, Addressed, WatchersKnown, RevisionsGrow, WinsLinear, WriterCurrent, QueueBounded;
    }
    hide Inv, Step, Work, PopStep, LookStep, CallStep, NextDrain;
    NextDrainIs(l, s);
    if s.drainers[0].AtLoop? { PopAdvances(s); }
    DeliveryAdvances(s);
  }

  predicate Drains(a: Action) { a.DrainPop? || a.DrainLook? || a.DrainCall? }

  /**
   * From every state of every interleaving the drainer, left to itself, comes to rest in finitely many steps; every
   * uncancelled watcher has then received everything it was promised.
   */
  lemma {:induction false} DrainComesToRest(l: Limits, s: System) returns (actions: seq<Action>)
    requires Inv(l, s)
    ensures forall k :: 0 <= k < |actions| ==> Drains(actions[k])
    ensures var t := Steps(l, s, actions);
            && Inv(l, t) && t.drainers == [] && t.core.pending == []
            && forall w :: w in t.log.since && w !in t.log.cancelled ==> t.log.delivered[w] == Promised(t, w)
    decreases Work(s)
  {
    if s.drainers == [] {
      actions := [];
      AtRest(l, s);
    } else {
      var a := NextDrain(s);
      StepKeeps(l, s, a);
      DrainAdvances(l, s);
      hide Inv, Step, Steps, Work, Promised;
      var rest := DrainComesToRest(l, Step(l, s, a));
      actions := [a] + rest;
      FirstStep(l, s, actions);
      assert actions[1..] == rest;
    }
  }

  lemma AtRest(l: Limits, s: System)
    requires Inv(l, s) && s.drainers == []
    ensures s.core.pending == [] && WatchersKnown(s)
    ensures forall w :: w in s.log.since && w !in s.log.cancelled ==> s.log.delivered[w] == Promised(s, w)
  {
    hide Addressed, RevisionsGrow, WinsLinear, WriterCurrent, QueueBounded, Promised;
    forall w | w in s.log.since && w !in s.log.cancelled ensures s.log.delivered[w] == Promised(s, w) {
      assert Exact(s, w);
    }
  }

  // ---------------------------------------------------------------------- cancellation

  /** The drainer is about to call this watcher. */
  predicate BeingCalled(s: System, w: WatchId) {
    s.drainers != [] && s.drainers[0].Calling? && s.drainers[0].rest != [] && s.drainers[0].rest[0] == w
  }

  /** Cancelled, and not about to be called. */
  predicate Silent(s: System, w: WatchId) { w in s.log.cancelled && !BeingCalled(s, w) }

  function Heard(s: System, w: WatchId): (r: seq<Update>) { if w in s.log.delivered then s.log.delivered[w] else [] }

  lemma OneOrNone(l: Limits, s: System, w: WatchId)
    requires Inv(l, s) && w in s.log.cancelled
    ensures |s.drainers| <= 1
    ensures s.core.draining <==> s.drainers != []
    ensures w in s.log.since && w <= s.core.nextWatch
  {
    hide Deliveries, Addressed, RevisionsGrow, WinsLinear, WriterCurrent, QueueBounded;
  }

  /** What is heard and who is about to be called change only with the drainer. */
  lemma OthersAreSilent(l: Limits, s: System, a: Action, w: WatchId)
    requires |s.drainers| <= 1 && (s.core.draining <==> s.drainers != []) && w in s.log.cancelled
    requires w <= s.core.nextWatch && !Drains(a)
    ensures var t := Step(l, s, a);
            w in t.log.cancelled && Heard(t, w) == Heard(s, w) && (BeingCalled(t, w) ==> BeingCalled(s, w))
  {
    hide Visits, CanCommit, MatchRevision, ChooseRevision;
  }

  lemma DrainerIsHeard(l: Limits, s: System, a: Action, w: WatchId)
    requires |s.drainers| <= 1 && w in s.log.cancelled && Drains(a)
    ensures var t := Step(l, s, a);
            && w in t.log.cancelled && (BeingCalled(t, w) ==> BeingCalled(s, w))
            && (|| Heard(t, w) == Heard(s, w)
                || (BeingCalled(s, w) && !BeingCalled(t, w) && |Heard(t, w)| == |Heard(s, w)| + 1))
  {}

  lemma SilenceLasts(l: Limits, s: System, a: Action, w: WatchId)
    requires Inv(l, s) && w in s.log.cancelled
    ensures var t := Step(l, s, a);
            && w in t.log.cancelled
            && (Silent(s, w) ==> Silent(t, w) && Heard(t, w) == Heard(s, w))
            && (Heard(t, w) == Heard(s, w) || (|Heard(t, w)| == |Heard(s, w)| + 1 && Silent(t, w)))
  {
    OneOrNone(l, s, w);
    hide Inv, Step, Heard, BeingCalled;
    if Drains(a) { DrainerIsHeard(l, s, a, w); } else { OthersAreSilent(l, s, a, w); }
  }

  /** In every interleaving a cancelled watcher hears at most the one notice whose delivery had been decided. */
  lemma {:induction false} CancelledHearsAtMostOnce(l: Limits, instance: string, content: string, states: seq<System>,
      actions: seq<Action>, i: nat, j: nat, w: WatchId)
    requires IsRun(l, instance, content, states, actions) && i <= j < |states| && w in states[i].log.cancelled
    ensures w in states[j].log.cancelled && |Heard(states[j], w)| <= |Heard(states[i], w)| + 1
    ensures Silent(states[i], w) ==> Silent(states[j], w) && Heard(states[j], w) == Heard(states[i], w)
    ensures |Heard(states[j], w)| > |Heard(states[i], w)| ==> Silent(states[j], w)
    decreases j
  {
    hide Silent, Heard, Step, Inv;
    if i < j {
      CancelledHearsAtMostOnce(l, instance, content, states, actions, i, j - 1, w);
      RunKeeps(l, instance, content, states, actions, j - 1);
      assert states[(j - 1) + 1] == Step(l, states[j - 1], actions[j - 1]);
      SilenceLasts(l, states[j - 1], actions[j - 1], w);
    }
  }

  /** Cancelling takes effect: the watcher is marked, and then gives its place to another. */
  lemma CancelFrees(l: Limits, s: System, w: WatchId)
    requires Inv(l, s) && w in s.core.watchers
    ensures var t := Step(l, Step(l, s, MarkCancelled(w)), DoForget(w));
            && w in t.log.cancelled && t.core.watchers == s.core.watchers - {w}
            && t.core == s.core.(watchers := t.core.watchers) && t.log == s.log.(cancelled := s.log.cancelled + {w})
  {
    hide Deliveries, Addressed, RevisionsGrow, WinsLinear, WriterCurrent, OneDrainer, QueueBounded;
  }
}
