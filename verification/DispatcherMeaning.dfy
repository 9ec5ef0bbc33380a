/** What the dispatcher's answers to repetitions say, and that a new command gets through. */
module DispatcherMeaning {
  import opened Basics
  import opened Dispatcher

  /** Step `i` completed the message. */
  ghost predicate Completes(states: seq<System>, actions: seq<Action>, i: nat, id: Id) {
    && i < |actions| && i < |states| && actions[i].DoComplete? && actions[i].k < |states[i].executing|
    && states[i].executing[actions[i].k] == id
  }

  /** Step `i` is the last completion of the message before `j`, and this is the record it left. */
  ghost predicate LastCompletion(l: Limits, states: seq<System>, actions: seq<Action>, i: nat, j: nat, r: Record) {
    && i < j && Completes(states, actions, i, r.id)
    && r.failure == actions[i].failure && r.expires == actions[i].later + l.ttl
    && forall x :: i < x < j ==> !Completes(states, actions, x, r.id)
  }

  lemma BeginRecords(c: Core, id: Id, now: int, r: Record)
    requires r in Begin(c, id, now).0.lru
    ensures r in c.lru
  {
    hide Aged, Find;
  }

  lemma WithoutRecords(lru: seq<Record>, id: Id, r: Record)
    requires r in Without(lru, id)
    ensures r in lru
  {
    hide Find;
  }

  lemma FittingRecords(l: Limits, lru: seq<Record>, r: Record)
    requires r in Fitting(l, lru)
    ensures r in lru
  {}

  lemma CompleteRecords(l: Limits, c: Core, id: Id, failure: Option<string>, now: int, later: int, r: Record)
    requires r in Complete(l, c, id, failure, now, later).lru
    ensures r in c.lru || r == Record(id, failure, later + l.ttl)
  {
    var d := Prune(EndPending(c, id), now);
    assert forall x :: x in d.lru ==> x in c.lru by { hide Aged; }
    hide Aged, Find, Without, Fitting, Prune;
    FittingRecords(l, Without(d.lru, id) + [Record(id, failure, later + l.ttl)], r);
    if r in Without(d.lru, id) { WithoutRecords(d.lru, id, r); }
  }

  /** A step keeps records as they are, and adds only that of a completion. */
  lemma RecordsMove(l: Limits, s: System, a: Action, r: Record)
    requires r in Step(l, s, a).core.lru
    ensures || r in s.core.lru
            || (&& a.DoComplete? && a.k < |s.executing|
                && r == Record(s.executing[a.k], a.failure, a.later + l.ttl))
  {
    hide NoteAged, NoteCrowded, Aged, Begin, Complete, Prune, Without;
    match a
    case DoBegin(id, now) => BeginRecords(s.core, id, now, r);
    case DoComplete(k, failure, now, later) =>
      if k < |s.executing| { CompleteRecords(l, s.core, s.executing[k], failure, now, later, r); }
    case _ =>
  }

  lemma ExecutingIsNotRemembered(l: Limits, s: System, r: Record)
    requires Inv(l, s) && r in s.core.lru
    ensures r.id !in s.executing
  {
    hide OrderOk, HandlersOk, StartedOk, FateOk, ClockOk;
    assert Remembered(s.core.lru, r.id);
  }

  /** In every run a record says how its message was completed last, and when that runs out. */
  lemma {:induction false} RecordsAreCompletions(l: Limits, states: seq<System>, actions: seq<Action>, j: nat,
      r: Record)
    requires LimitsOk(l) && IsRun(l, states, actions) && j < |states| && r in states[j].core.lru
    ensures exists i: nat :: LastCompletion(l, states, actions, i, j, r)
  {
    assert j > 0 && states[(j - 1) + 1] == Step(l, states[j - 1], actions[j - 1]);
    RecordsMove(l, states[j - 1], actions[j - 1], r);
    hide Step, LastCompletion;
    if r in states[j - 1].core.lru {
      RecordsAreCompletions(l, states, actions, j - 1, r);
      NotExecuting(l, states, actions, j - 1, r);
      hide *;
      var i: nat :| LastCompletion(l, states, actions, i, j - 1, r);
      StillLast(l, states, actions, i, j, r);
    } else {
      hide *;
      JustCompleted(l, states, actions, j, r);
    }
  }

  lemma NotExecuting(l: Limits, states: seq<System>, actions: seq<Action>, j: nat, r: Record)
    requires LimitsOk(l) && IsRun(l, states, actions) && j < |states| && r in states[j].core.lru
    ensures r.id !in states[j].executing
  {
    hide *;
    RunKeeps(l, states, actions, j);
    ExecutingIsNotRemembered(l, states[j], r);
  }

  lemma JustCompleted(l: Limits, states: seq<System>, actions: seq<Action>, j: nat, r: Record)
    requires 0 < j <= |actions| && j <= |states| && actions[j - 1].DoComplete?
    requires actions[j - 1].k < |states[j - 1].executing|
    requires r == Record(states[j - 1].executing[actions[j - 1].k], actions[j - 1].failure,
             actions[j - 1].later + l.ttl)
    ensures LastCompletion(l, states, actions, j - 1, j, r)
  {}

  lemma StillLast(l: Limits, states: seq<System>, actions: seq<Action>, i: nat, j: nat, r: Record)
    requires 0 < j <= |states| && LastCompletion(l, states, actions, i, j - 1, r) && r.id !in states[j - 1].executing
    ensures LastCompletion(l, states, actions, i, j, r)
  {
    assert !Completes(states, actions, j - 1, r.id);
    hide Completes;
  }

  /** In every run a repetition answered from the cache is told the failure, if any, its call completed with last. */
  lemma DuplicateIsToldItsOutcome(l: Limits, states: seq<System>, actions: seq<Action>, j: nat, id: Id, now: int)
    requires LimitsOk(l) && IsRun(l, states, actions) && j < |states|
    requires Begin(states[j].core, id, now).1.DuplicateDone?
    ensures exists i: nat :: i < j && Completes(states, actions, i, id)
                             && Begin(states[j].core, id, now).1.previous == actions[i].failure
                             && forall x :: i < x < j ==> !Completes(states, actions, x, id)
  {
    var d := Prune(states[j].core, now);
    var r := d.lru[Find(d.lru, id)];
    assert r in states[j].core.lru by { hide Find, IsRun; }
    RecordsAreCompletions(l, states, actions, j, r);
    var i: nat :| LastCompletion(l, states, actions, i, j, r);
    hide IsRun, Find, Prune;
  }

  // ---------------------------------------------------------------------------- getting through

  /** The list ends with this record, the only one of its message. */
  predicate EndsWith(lru: seq<Record>, r: Record) {
    lru != [] && lru[|lru| - 1] == r && forall i :: 0 <= i < |lru| - 1 ==> lru[i].id != r.id
  }

  lemma WithoutIsWithout(lru: seq<Record>, id: Id)
    requires UniqueIds(lru)
    ensures forall i :: 0 <= i < |Without(lru, id)| ==> Without(lru, id)[i].id != id
  {
    var n := Find(lru, id);
    hide Find;
    if n < |lru| {
      forall i | n < i < |lru| ensures lru[i].id != id { assert lru[n].id != lru[i].id; }
    }
  }

  lemma CompletedIsLast(l: Limits, c: Core, id: Id, failure: Option<string>, now: int, later: int)
    requires LimitsOk(l) && UniqueIds(c.lru)
    ensures EndsWith(Complete(l, c, id, failure, now, later).lru, Record(id, failure, later + l.ttl))
    ensures id !in Complete(l, c, id, failure, now, later).pending
  {
    var d := Prune(EndPending(c, id), now);
    assert UniqueIds(d.lru);
    WithoutIsWithout(d.lru, id);
    hide Aged, Without;
  }

  /** A record that ends the list and has not run out answers a repetition with its outcome. */
  lemma LastAnswers(c: Core, r: Record, at: int)
    requires EndsWith(c.lru, r) && r.expires > at && r.id !in c.pending
    ensures Begin(c, r.id, at).1 == DuplicateDone(r.failure)
  {
    var d := Prune(c, at);
    assert Aged(c.lru, at) < |c.lru|;
    hide Aged;
    assert EndsWith(d.lru, r);
    assert Find(d.lru, r.id) == |d.lru| - 1 by { hide Prune; }
  }

  /** A completed command answers a repetition with its outcome until its record runs out. */
  lemma CompletionIsAnswered(l: Limits, c: Core, id: Id, failure: Option<string>, now: int, later: int, at: int)
    requires LimitsOk(l) && UniqueIds(c.lru) && at < later + l.ttl
    ensures Begin(Complete(l, c, id, failure, now, later), id, at).1 == DuplicateDone(failure)
  {
    CompletedIsLast(l, c, id, failure, now, later);
    hide Complete, Begin, EndsWith;
    LastAnswers(Complete(l, c, id, failure, now, later), Record(id, failure, later + l.ttl), at);
  }

  /** Whatever executes or is remembered has begun. */
  predicate Known(s: System) {
    && (forall id :: id in s.executing ==> id in s.log.started)
    && (forall i :: 0 <= i < |s.core.lru| ==> s.core.lru[i].id in s.log.started)
  }

  lemma {:induction false} RunKnows(l: Limits, states: seq<System>, actions: seq<Action>, j: nat)
    requires IsRun(l, states, actions) && j < |states|
    ensures Known(states[j])
  {
    if j > 0 {
      RunKnows(l, states, actions, j - 1);
      assert states[(j - 1) + 1] == Step(l, states[j - 1], actions[j - 1]);
      StepKnows(l, states[j - 1], actions[j - 1]);
    }
  }

  lemma StepKnows(l: Limits, s: System, a: Action)
    requires Known(s)
    ensures Known(Step(l, s, a))
  {
    var t := Step(l, s, a);
    assert s.log.started <= t.log.started && (t.executing != s.executing ==> !a.DoBegin?) by { StartedGrows(l, s, a); }
    forall i | 0 <= i < |t.core.lru| ensures t.core.lru[i].id in t.log.started {
      assert t.core.lru[i] in t.core.lru;
      RecordsMove(l, s, a, t.core.lru[i]);
    }
    ExecutingMoves(l, s, a);
    hide Step;
  }

  lemma {:induction false} NoteAgedStarts(log: Log, lru: seq<Record>, n: nat, now: int)
    requires n <= |lru|
    ensures NoteAged(log, lru, n, now).started == log.started
  {
    if n > 0 { NoteAgedStarts(log, lru, n - 1, now); }
  }

  lemma StartedGrows(l: Limits, s: System, a: Action)
    ensures s.log.started <= Step(l, s, a).log.started && (Step(l, s, a).executing != s.executing ==> !a.DoBegin?)
  {
    if a.DoBegin? { NoteAgedStarts(s.log, s.core.lru, Aged(s.core.lru, a.now), a.now); }
    if a.DoComplete? { NoteAgedStarts(s.log, s.core.lru, Aged(s.core.lru, a.now), a.now); }
    hide NoteAged, Aged, Complete, Begin;
  }

  lemma ExecutingMoves(l: Limits, s: System, a: Action)
    ensures forall id :: id in Step(l, s, a).executing ==> id in s.executing || id in Step(l, s, a).log.started
  {
    hide NoteAged, Aged, Complete, Begin;
  }

  /** In every run a message that never began and does not wait is admitted. */
  lemma NewMessageIsAdmitted(l: Limits, states: seq<System>, actions: seq<Action>, j: nat, id: Id, now: int)
    requires LimitsOk(l) && IsRun(l, states, actions) && j < |states|
    requires id !in states[j].log.started && id !in states[j].waiting
    ensures Begin(states[j].core, id, now).1.Admitted?
  {
    var s := states[j];
    RunKnows(l, states, actions, j);
    RunKeeps(l, states, actions, j);
    hide IsRun, Step, OrderOk, HandlersOk, StartedOk, FateOk, ClockOk, Apart;
    assert id !in s.core.pending;
    var d := Prune(s.core, now);
    assert forall i :: 0 <= i < |d.lru| ==> d.lru[i].id != id by { hide Find; }
  }

  /**
   * A new command gets through: admitted, begun as long as a handler slot is free, completed, and from then on answered
   * with its outcome until its record runs out.
   */
  lemma CommandGetsThrough(l: Limits, s: System, id: Id, t0: int, failure: Option<string>, now: int, later: int,
      at: int)
    requires LimitsOk(l) && Inv(l, s) && Begin(s.core, id, t0).1.Admitted? && |s.handlers| < l.maxActive
    requires at < later + l.ttl
    ensures var a := Step(l, s, DoBegin(id, t0));
            var b := Step(l, a, TakeSlot(|s.waiting|));
            var c := Step(l, b, DoComplete(|s.executing|, failure, now, later));
            && b.executing == s.executing + [id] && b.handlers == s.handlers + [id] && b.waiting == s.waiting
            && c.executing == s.executing && Begin(c.core, id, at).1 == DuplicateDone(failure)
  {
    var a := Step(l, s, DoBegin(id, t0));
    var b := Step(l, a, TakeSlot(|s.waiting|));
    BeginsAlone(l, s, id, t0);
    StepKeeps(l, s, DoBegin(id, t0));
    StepKeeps(l, a, TakeSlot(|s.waiting|));
    assert UniqueIds(b.core.lru) by { InvIsUnique(l, b); }
    hide Inv, Begin, BeginStep, UniqueIds;
    CompletionIsAnswered(l, b.core, id, failure, now, later, at);
    assert RemoveAt(s.executing + [id], |s.executing|) == s.executing;
    CompletesAlone(l, b, |s.executing|, failure, now, later);
    hide Step, Complete;
  }

  lemma InvIsUnique(l: Limits, s: System)
    requires Inv(l, s)
    ensures UniqueIds(s.core.lru)
  {
    OrderIsUnique(s.core.lru, s.log);
  }

  lemma CompletesAlone(l: Limits, s: System, k: nat, failure: Option<string>, now: int, later: int)
    requires k < |s.executing|
    ensures var t := Step(l, s, DoComplete(k, failure, now, later));
            t.core == Complete(l, s.core, s.executing[k], failure, now, later)
              && t.executing == RemoveAt(s.executing, k)
  {
    hide Complete, NoteAged, NoteCrowded, Aged, Without, Prune;
  }

  lemma BeginsAlone(l: Limits, s: System, id: Id, t0: int)
    requires Begin(s.core, id, t0).1.Admitted? && |s.handlers| < l.maxActive
    ensures var a := Step(l, s, DoBegin(id, t0));
            var b := Step(l, a, TakeSlot(|s.waiting|));
            b.executing == s.executing + [id] && b.handlers == s.handlers + [id] && b.waiting == s.waiting
  {
    hide Begin, NoteAged, Aged;
    assert RemoveAt(s.waiting + [id], |s.waiting|) == s.waiting;
  }
}
