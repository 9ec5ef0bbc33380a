/**
 * Duplicate suppression in the command dispatcher. A message identifier is pending while its command
 * runs and remembered afterwards, until its record ages out or is crowded out of a bounded list kept
 * in the order of use.
 */
module Dispatcher {
  import opened Basics

  type Id = nat

  /** The outcome kept for a message: the code of its failure, if it failed. */
  datatype Record = Record(id: Id, failure: Option<string>, expires: int)

  datatype Limits = Limits(maxActive: nat, maxDedup: nat, ttl: int)

  /** What configuration normalisation guarantees. */
  predicate LimitsOk(l: Limits) { 1 <= l.maxActive <= l.maxDedup && l.ttl > 0 }

  /** The fields under the dispatcher's lock; the list starts with the record used longest ago. */
  datatype Core = Core(pending: set<Id>, lru: seq<Record>)

  datatype Answer = Admitted | DuplicatePending | DuplicateDone(previous: Option<string>)

  // ------------------------------------------------------------- critical sections

  /** How many records at the front have aged out. */
  function Aged(lru: seq<Record>, now: int): (n: nat)
    ensures n <= |lru| && (forall i :: 0 <= i < n ==> lru[i].expires <= now) && (n < |lru| ==> lru[n].expires > now)
  {
    if lru == [] || lru[0].expires > now then 0 else 1 + Aged(lru[1..], now)
  }

  function Prune(c: Core, now: int): (r: Core) { c.(lru := c.lru[Aged(c.lru, now)..]) }

  /** Where a record is, or the length of the list when there is none. */
  function Find(lru: seq<Record>, id: Id): (n: nat)
    ensures n <= |lru| && (n < |lru| ==> lru[n].id == id) && (forall i :: 0 <= i < n ==> lru[i].id != id)
  {
    if lru == [] || lru[0].id == id then 0 else 1 + Find(lru[1..], id)
  }

  function ToBack(lru: seq<Record>, n: nat): (r: seq<Record>)
    requires n < |lru|
  {
    lru[..n] + lru[n + 1..] + [lru[n]]
  }

  function Begin(c: Core, id: Id, now: int): (r: (Core, Answer)) {
    var d := Prune(c, now);
    var n := Find(d.lru, id);
    if id in d.pending then (d, DuplicatePending)
    else if n < |d.lru| then (d.(lru := ToBack(d.lru, n)), DuplicateDone(d.lru[n].failure))
    else (d.(pending := d.pending + {id}), Admitted)
  }

  function EndPending(c: Core, id: Id): (r: Core) { c.(pending := c.pending - {id}) }

  /** The part of the list that fits after a record was added. */
  function Fitting(l: Limits, lru: seq<Record>): (r: seq<Record>) {
    if |lru| > l.maxDedup then lru[|lru| - l.maxDedup..] else lru
  }

  function Without(lru: seq<Record>, id: Id): (r: seq<Record>) {
    var n := Find(lru, id);
    if n < |lru| then lru[..n] + lru[n + 1..] else lru
  }

  /** Completion reads the clock twice: once to prune, once to date the record. */
  function Complete(l: Limits, c: Core, id: Id, failure: Option<string>, now: int, later: int): (r: Core) {
    var d := Prune(EndPending(c, id), now);
    d.(lru := Fitting(l, Without(d.lru, id) + [Record(id, failure, later + l.ttl)]))
  }

  // -------------------------------------------------------------------- the system

  /** Why a message is no longer remembered. */
  datatype Fate = AgedOut(expired: int, seen: int) | CrowdedOut(others: set<Id>)

  /**
   * The record of what has happened, used only to state what is promised: which messages ever began
   * executing and which more than once, when each was last used, when its record expires, and how its record
   * was lost since it last began.
   */
  datatype Log = Log(
    started: set<Id>, restarted: set<Id>, last: map<Id, nat>, uses: nat, expiry: map<Id, int>, fate: map<Id, Fate>)

  /**
   * `waiting` were admitted and have no slot yet; `executing` have begun and not completed; `handlers` are
   * the messages whose handlers hold a slot. A call whose deadline passes completes while its handler runs on,
   * and a handler that has handed over its result may be gone before the call completes.
   */
  datatype System = System(core: Core, waiting: seq<Id>, executing: seq<Id>, handlers: seq<Id>, log: Log)

  datatype Action =
    | DoBegin(id: Id, now: int)
    | TakeSlot(k: nat)
    | GiveUp(k: nat)
    | DoComplete(k: nat, failure: Option<string>, now: int, later: int)
    | HandlerExits(k: nat)

  function Ids(lru: seq<Record>): (r: set<Id>) { set i | 0 <= i < |lru| :: lru[i].id }

  function Use(log: Log, id: Id): (r: Log) { log.(last := log.last[id := log.uses], uses := log.uses + 1) }

  /** Notes the fate of the first `n` records. */
  function NoteAged(log: Log, lru: seq<Record>, n: nat, now: int): (r: Log)
    requires n <= |lru|
  {
    if n == 0 then log else
      var before := NoteAged(log, lru, n - 1, now);
      before.(fate := before.fate[lru[n - 1].id := AgedOut(lru[n - 1].expires, now)])
  }

  /** Notes what crowded the front record out. */
  function NoteCrowded(l: Limits, log: Log, lru: seq<Record>): (r: Log) {
    if |lru| > l.maxDedup && |lru| > 0 then log.(fate := log.fate[lru[0].id := CrowdedOut(Ids(lru[1..]))]) else log
  }

  function BeginStep(s: System, id: Id, now: int): (r: System) {
    var (core, answer) := Begin(s.core, id, now);
    var log := NoteAged(s.log, s.core.lru, Aged(s.core.lru, now), now);
    match answer
    case Admitted => s.(core := core, waiting := s.waiting + [id], log := log)
    case DuplicatePending => s.(core := core, log := log)
    case DuplicateDone(_) => s.(core := core, log := Use(log, id))
  }

  function CompleteStep(l: Limits, s: System, k: nat, failure: Option<string>, now: int, later: int): (r: System)
    requires k < |s.executing|
  {
    var id := s.executing[k];
    var d := Prune(EndPending(s.core, id), now);
    var grown := Without(d.lru, id) + [Record(id, failure, later + l.ttl)];
    var aged := NoteAged(s.log, s.core.lru, Aged(s.core.lru, now), now);
    var used := Use(aged, id).(expiry := aged.expiry[id := later + l.ttl]);
    System(Complete(l, s.core, id, failure, now, later), s.waiting, RemoveAt(s.executing, k), s.handlers,
      NoteCrowded(l, used, grown))
  }

  function Begun(log: Log, id: Id): (r: Log) {
    log.(started := log.started + {id}, restarted := if id in log.started then log.restarted + {id} else log.restarted,
         fate := log.fate - {id})
  }

  function Step(l: Limits, s: System, a: Action): (r: System) {
    match a
    case DoBegin(id, now) => BeginStep(s, id, now)
    case TakeSlot(k) =>
      if k >= |s.waiting| then s
      else if |s.handlers| < l.maxActive then
        s.(waiting := RemoveAt(s.waiting, k), executing := s.executing + [s.waiting[k]],
           handlers := s.handlers + [s.waiting[k]], log := Begun(s.log, s.waiting[k]))
      else s.(core := EndPending(s.core, s.waiting[k]), waiting := RemoveAt(s.waiting, k))
    case GiveUp(k) =>
      if k >= |s.waiting| then s else s.(core := EndPending(s.core, s.waiting[k]), waiting := RemoveAt(s.waiting, k))
    case DoComplete(k, failure, now, later) =>
      if k >= |s.executing| then s else CompleteStep(l, s, k, failure, now, later)
    case HandlerExits(k) => if k >= |s.handlers| then s else s.(handlers := RemoveAt(s.handlers, k))
  }

  function Start(): (s: System) { System(Core({}, []), [], [], [], Log({}, {}, map[], 0, map[], map[])) }

  ghost predicate IsRun(l: Limits, states: seq<System>, actions: seq<Action>) {
    && |states| == |actions| + 1 && states[0] == Start()
    && forall i :: 0 <= i < |actions| ==> states[i + 1] == Step(l, states[i], actions[i])
  }

  // --------------------------------------------------------------------- invariant

  /** The pending set is exactly the messages being handled, each once. */
  ghost predicate PendingOk(pending: set<Id>, waiting: seq<Id>, executing: seq<Id>) {
    && Distinct(waiting) && Distinct(executing) && (forall id :: id in waiting ==> id !in executing)
    && (forall id :: id in pending <==> id in waiting || id in executing)
  }

  /** Every record was used before the ones behind it, and knows when it expires. */
  predicate OrderOk(lru: seq<Record>, log: Log) {
    && (forall i :: 0 <= i < |lru| ==> lru[i].id in log.last && log.last[lru[i].id] < log.uses
                                       && lru[i].id in log.expiry && log.expiry[lru[i].id] == lru[i].expires)
    && (forall i, j :: 0 <= i < j < |lru| ==> log.last[lru[i].id] < log.last[lru[j].id])
  }

  /** The message was lost for a good reason. */
  predicate Forgotten(l: Limits, log: Log, id: Id) {
    && id in log.fate && id in log.last
    && match log.fate[id]
       case AgedOut(expired, seen) => expired <= seen && id in log.expiry && log.expiry[id] == expired
       case CrowdedOut(others) =>
         && |others| >= l.maxDedup && id !in others
         && forall x :: x in others ==> x in log.last && log.last[x] > log.last[id]
  }

  predicate Remembered(lru: seq<Record>, id: Id) { exists i :: 0 <= i < |lru| && lru[i].id == id }

  /** Everything that ever began executing is executing, remembered, or forgotten for a good reason. */
  ghost predicate StartedOk(l: Limits, executing: seq<Id>, lru: seq<Record>, log: Log) {
    forall id :: id in log.started ==> id in executing || Remembered(lru, id) || Forgotten(l, log, id)
  }

  /** A message whose record was lost neither executes nor is remembered. */
  ghost predicate FateOk(executing: seq<Id>, lru: seq<Record>, log: Log) {
    forall id :: id in log.fate ==> id !in executing && !Remembered(lru, id)
  }

  /** Handlers run for messages that began, and two for one message only if it began again. */
  ghost predicate HandlersOk(l: Limits, handlers: seq<Id>, log: Log) {
    && |handlers| <= l.maxActive && (forall h :: h in handlers ==> h in log.started)
    && (forall j, k :: 0 <= j < k < |handlers| && handlers[j] == handlers[k] ==> handlers[j] in log.restarted)
  }

  ghost predicate Apart(pending: set<Id>, lru: seq<Record>) { forall id :: id in pending ==> !Remembered(lru, id) }

  predicate ClockOk(log: Log) { forall id :: id in log.last ==> log.last[id] < log.uses }

  ghost predicate Inv(l: Limits, s: System) {
    && PendingOk(s.core.pending, s.waiting, s.executing)
    && OrderOk(s.core.lru, s.log) && |s.core.lru| <= l.maxDedup && HandlersOk(l, s.handlers, s.log)
    && Apart(s.core.pending, s.core.lru) && ClockOk(s.log)
    && StartedOk(l, s.executing, s.core.lru, s.log) && FateOk(s.executing, s.core.lru, s.log)
  }

  // ----------------------------------------------------------------------- pruning

  predicate UniqueIds(lru: seq<Record>) { forall i, j :: 0 <= i < j < |lru| ==> lru[i].id != lru[j].id }

  lemma OrderIsUnique(lru: seq<Record>, log: Log)
    requires OrderOk(lru, log)
    ensures UniqueIds(lru)
  {
    forall i, j | 0 <= i < j < |lru| ensures lru[i].id != lru[j].id {
      assert log.last[lru[i].id] < log.last[lru[j].id];
    }
  }

  /** Noting fates touches nothing but the fates of the records noted. */
  lemma {:induction false} NoteAgedIs(log: Log, lru: seq<Record>, n: nat, now: int)
    requires n <= |lru| && UniqueIds(lru)
    ensures var m := NoteAged(log, lru, n, now);
            && m == log.(fate := m.fate)
            && (forall i :: 0 <= i < n ==> lru[i].id in m.fate && m.fate[lru[i].id] == AgedOut(lru[i].expires, now))
            && (forall id :: id in log.fate ==> id in m.fate)
            && (forall id :: id in m.fate ==> id in log.fate || exists i :: 0 <= i < n && lru[i].id == id)
            && (forall id :: id in log.fate && (forall i :: 0 <= i < n ==> lru[i].id != id)
                             ==> m.fate[id] == log.fate[id])
  {
    if n > 0 { NoteAgedIs(log, lru, n - 1, now); }
  }

  /** The state after pruning, before anything else. */
  function Pruned(s: System, now: int): (r: System) {
    s.(core := Prune(s.core, now), log := NoteAged(s.log, s.core.lru, Aged(s.core.lru, now), now))
  }

  lemma LostStaysLost(l: Limits, log: Log, lru: seq<Record>, n: nat, now: int, id: Id)
    requires UniqueIds(lru) && n <= |lru| && Forgotten(l, log, id) && !Remembered(lru, id)
    ensures Forgotten(l, NoteAged(log, lru, n, now), id)
  {
    NoteAgedIs(log, lru, n, now);
    hide NoteAged;
  }

  lemma KeptOrAged(l: Limits, log: Log, lru: seq<Record>, now: int, i: nat)
    requires OrderOk(lru, log) && i < |lru|
    ensures var n := Aged(lru, now);
            Remembered(lru[n..], lru[i].id) || Forgotten(l, NoteAged(log, lru, n, now), lru[i].id)
  {
    var n := Aged(lru, now);
    OrderIsUnique(lru, log);
    NoteAgedIs(log, lru, n, now);
    hide NoteAged, Aged;
    if i >= n { assert lru[n..][i - n].id == lru[i].id; }
  }

  lemma PruneOne(l: Limits, s: System, now: int, id: Id)
    requires Inv(l, s) && id in s.log.started
    ensures var t := Pruned(s, now);
            id in t.executing || Remembered(t.core.lru, id) || Forgotten(l, t.log, id)
  {
    hide NoteAged, PendingOk, Apart, ClockOk, Aged, Forgotten, FateOk, HandlersOk, OrderOk, UniqueIds;
    OrderIsUnique(s.core.lru, s.log);
    if Remembered(s.core.lru, id) {
      var i :| 0 <= i < |s.core.lru| && s.core.lru[i].id == id;
      KeptOrAged(l, s.log, s.core.lru, now, i);
    } else if id !in s.executing {
      LostStaysLost(l, s.log, s.core.lru, Aged(s.core.lru, now), now, id);
    }
  }

  lemma PruneKeeps(l: Limits, s: System, now: int)
    requires Inv(l, s)
    ensures Inv(l, Pruned(s, now)) && Pruned(s, now).log.started == s.log.started
  {
    var n := Aged(s.core.lru, now);
    var t := Pruned(s, now);
    OrderIsUnique(s.core.lru, s.log);
    NoteAgedIs(s.log, s.core.lru, n, now);
    PruneFate(l, s, now);
    PruneStarted(l, s, now);
    hide NoteAged, PendingOk, Forgotten, Aged, FateOk, StartedOk, UniqueIds;
    ApartSub(s.core.pending, s.core.lru, t.core.lru);
    OrderSuffix(s.core.lru, s.log, t.log, n);
  }

  lemma PruneStarted(l: Limits, s: System, now: int)
    requires Inv(l, s)
    ensures StartedOk(l, s.executing, Pruned(s, now).core.lru, Pruned(s, now).log)
  {
    var t := Pruned(s, now);
    OrderIsUnique(s.core.lru, s.log);
    NoteAgedIs(s.log, s.core.lru, Aged(s.core.lru, now), now);
    assert t.log.started == s.log.started && t.executing == s.executing;
    hide Inv, Pruned, Forgotten, Remembered;
    forall id | id in t.log.started ensures id in s.executing || Remembered(t.core.lru, id) || Forgotten(l, t.log, id) {
      PruneOne(l, s, now, id);
    }
  }

  lemma PruneFate(l: Limits, s: System, now: int)
    requires Inv(l, s)
    ensures FateOk(s.executing, Pruned(s, now).core.lru, Pruned(s, now).log)
  {
    var n, lru := Aged(s.core.lru, now), s.core.lru;
    var t := Pruned(s, now);
    OrderIsUnique(lru, s.log);
    NoteAgedIs(s.log, lru, n, now);
    hide NoteAged, OrderOk, ClockOk, StartedOk, Aged, HandlersOk;
    forall j | 0 <= j < |t.core.lru| ensures t.core.lru[j] == lru[n + j] && Remembered(lru, t.core.lru[j].id) {}
    forall id | id in t.log.fate ensures id !in s.executing && !Remembered(t.core.lru, id) {
      if id !in s.log.fate {
        var i :| 0 <= i < n && lru[i].id == id;
        assert Remembered(lru, id);
      }
    }
  }

  lemma OrderSuffix(lru: seq<Record>, log: Log, log': Log, n: nat)
    requires OrderOk(lru, log) && n <= |lru| && log' == log.(fate := log'.fate)
    ensures OrderOk(lru[n..], log')
  {
    var rest := lru[n..];
    forall i, j | 0 <= i < j < |rest| ensures log'.last[rest[i].id] < log'.last[rest[j].id] {
      assert rest[i] == lru[n + i] && rest[j] == lru[n + j];
    }
  }

  /** A list without new identifiers stays apart from what is pending. */
  lemma ApartSub(pending: set<Id>, lru: seq<Record>, part: seq<Record>)
    requires Apart(pending, lru) && forall i :: 0 <= i < |part| ==> part[i] in lru
    ensures Apart(pending, part)
  {
    forall i | 0 <= i < |part| ensures part[i].id !in pending {
      var j :| 0 <= j < |lru| && lru[j] == part[i];
      assert Remembered(lru, lru[j].id);
    }
  }

  // --------------------------------------------------------------------- each action

  /** A good reason stays good while the message itself is not used again. */
  lemma StaysForgotten(l: Limits, log: Log, log': Log, id: Id)
    requires Forgotten(l, log, id) && id in log'.fate && log'.fate[id] == log.fate[id]
    requires id in log'.last && log'.last[id] == log.last[id]
             && (id in log.expiry ==> id in log'.expiry && log'.expiry[id] == log.expiry[id])
    requires forall x :: x in log.last ==> x in log'.last && log'.last[x] >= log.last[x]
    ensures Forgotten(l, log', id)
  {
  }

  lemma UseIs(log: Log, id: Id)
    requires ClockOk(log)
    ensures var m := Use(log, id);
            && ClockOk(m) && (forall x :: x in log.last ==> x in m.last && m.last[x] >= log.last[x])
            && (forall x :: x in log.last && x != id ==> m.last[x] == log.last[x])
            && m.last[id] == log.uses && m.started == log.started && m.restarted == log.restarted
            && m.expiry == log.expiry && m.fate == log.fate
  {
  }

  lemma ToBackIs(lru: seq<Record>, n: nat)
    requires n < |lru|
    ensures var r := ToBack(lru, n);
            && |r| == |lru| && (forall i :: 0 <= i < |r| ==> r[i] in lru)
            && (forall x :: x in lru ==> x in r)
            && (forall i :: 0 <= i < |r| - 1 ==> r[i] == lru[if i < n then i else i + 1]) && r[|r| - 1] == lru[n]
  {
    var r := ToBack(lru, n);
    forall x | x in lru ensures x in r {
      var i :| 0 <= i < |lru| && lru[i] == x;
      assert i < n ==> r[i] == x;
      assert i > n ==> r[i - 1] == x;
      assert i == n ==> r[|r| - 1] == x;
    }
  }

  lemma ToBackOrder(lru: seq<Record>, n: nat, log: Log)
    requires OrderOk(lru, log) && n < |lru| && ClockOk(log)
    ensures OrderOk(ToBack(lru, n), Use(log, lru[n].id))
  {
    ToBackIs(lru, n);
    OrderIsUnique(lru, log);
    UseIs(log, lru[n].id);
    hide Use, ToBack;
    var r, m := ToBack(lru, n), Use(log, lru[n].id);
    forall i | 0 <= i < |r| - 1
      ensures r[i].id in m.last && m.last[r[i].id] == log.last[r[i].id] < log.uses && r[i].id != lru[n].id {
      assert r[i] == lru[if i < n then i else i + 1];
    }
    assert m.uses == log.uses + 1 by { UsesGrow(log, lru[n].id); }
    forall i, j | 0 <= i < j < |r| ensures m.last[r[i].id] < m.last[r[j].id] {
      if j < |r| - 1 {
        assert log.last[lru[if i < n then i else i + 1].id] < log.last[lru[if j < n then j else j + 1].id];
      }
    }
    forall i | 0 <= i < |r|
      ensures r[i].id in m.expiry && m.expiry[r[i].id] == r[i].expires && m.last[r[i].id] < m.uses {
      assert r[i] in lru;
      var k :| 0 <= k < |lru| && lru[k] == r[i];
    }
  }

  lemma UsesGrow(log: Log, id: Id)
    ensures Use(log, id).uses == log.uses + 1
  {
  }

  lemma RememberedIn(lru: seq<Record>, r: seq<Record>, id: Id)
    requires Remembered(lru, id) && forall x :: x in lru ==> x in r
    ensures Remembered(r, id)
  {
    var i :| 0 <= i < |lru| && lru[i].id == id;
    assert lru[i] in r;
    var j :| 0 <= j < |r| && r[j] == lru[i];
  }

  /** Using a remembered message moves it to the back. */
  lemma UseKeeps(l: Limits, s: System, n: nat)
    requires Inv(l, s) && n < |s.core.lru|
    ensures Inv(l, s.(core := s.core.(lru := ToBack(s.core.lru, n)), log := Use(s.log, s.core.lru[n].id)))
  {
    var lru, id := s.core.lru, s.core.lru[n].id;
    var r, m := ToBack(lru, n), Use(s.log, id);
    ToBackIs(lru, n);
    ToBackOrder(lru, n, s.log);
    UseIs(s.log, id);
    ApartSub(s.core.pending, lru, r);
    hide Use, ToBack, OrderOk, Apart, ClockOk, PendingOk;
    forall x | Remembered(r, x) ensures Remembered(lru, x) { RememberedIn(r, lru, x); }
    forall x | x in m.started ensures x in s.executing || Remembered(r, x) || Forgotten(l, m, x) {
      if x !in s.executing {
        if Remembered(lru, x) {
          RememberedIn(lru, r, x);
        } else {
          assert x != id;
          StaysForgotten(l, s.log, m, x);
        }
      }
    }
  }

  lemma BeginKeeps(l: Limits, s: System, id: Id, now: int)
    requires Inv(l, s)
    ensures Inv(l, BeginStep(s, id, now))
  {
    var p := Pruned(s, now);
    PruneKeeps(l, s, now);
    var n := Find(p.core.lru, id);
    assert BeginStep(s, id, now) ==
           if id in p.core.pending then p
           else if n < |p.core.lru| then p.(core := p.core.(lru := ToBack(p.core.lru, n)), log := Use(p.log, id))
           else p.(core := p.core.(pending := p.core.pending + {id}), waiting := p.waiting + [id]);
    hide Pruned, BeginStep;
    if id !in p.core.pending {
      if n < |p.core.lru| {
        UseKeeps(l, p, n);
      } else {
        AdmitKeeps(l, p, id);
      }
    }
  }

  lemma AdmitKeeps(l: Limits, s: System, id: Id)
    requires Inv(l, s) && id !in s.core.pending && Find(s.core.lru, id) == |s.core.lru|
    ensures Inv(l, s.(core := s.core.(pending := s.core.pending + {id}), waiting := s.waiting + [id]))
  {
    hide OrderOk, ClockOk, StartedOk, HandlersOk, FateOk;
    assert !Remembered(s.core.lru, id);
  }

  lemma SlotKeeps(l: Limits, s: System, k: nat)
    requires Inv(l, s) && k < |s.waiting|
    ensures |s.handlers| < l.maxActive ==> Inv(l, Step(l, s, TakeSlot(k)))
    ensures Inv(l, s.(core := EndPending(s.core, s.waiting[k]), waiting := RemoveAt(s.waiting, k)))
  {
    var id := s.waiting[k];
    RemoveIs(s.waiting, k);
    assert id in s.waiting;
    var log := Begun(s.log, id);
    SlotStarted(l, s, id);
    OrderSame(s.core.lru, s.log, id);
    hide OrderOk, ClockOk, RemoveAt, Remembered, Forgotten, StartedOk, Begun;
    assert PendingOk(s.core.pending, RemoveAt(s.waiting, k), s.executing + [id]);
    assert PendingOk(s.core.pending - {id}, RemoveAt(s.waiting, k), s.executing);
  }

  lemma SlotStarted(l: Limits, s: System, id: Id)
    requires Inv(l, s) && id in s.waiting
    ensures StartedOk(l, s.executing + [id], s.core.lru, Begun(s.log, id))
    ensures FateOk(s.executing + [id], s.core.lru, Begun(s.log, id))
    ensures |s.handlers| < l.maxActive ==> HandlersOk(l, s.handlers + [id], Begun(s.log, id))
  {
    var log := Begun(s.log, id);
    hide OrderOk, ClockOk, PendingOk, Apart, Remembered;
    forall x | x in log.started ensures x in s.executing + [id] || Remembered(s.core.lru, x) || Forgotten(l, log, x) {
      if x != id && x !in s.executing && !Remembered(s.core.lru, x) { StaysForgotten(l, s.log, log, x); }
    }
  }

  lemma OrderSame(lru: seq<Record>, log: Log, id: Id)
    ensures OrderOk(lru, log) == OrderOk(lru, Begun(log, id)) && ClockOk(log) == ClockOk(Begun(log, id))
  {
  }

  lemma RemoveIs(xs: seq<Id>, k: nat)
    requires k < |xs| && Distinct(xs)
    ensures var r := RemoveAt(xs, k);
            && Distinct(r) && forall x :: x in r <==> x in xs && x != xs[k]
  {
    var r := RemoveAt(xs, k);
    forall x | x in xs && x != xs[k] ensures x in r {
      var i :| 0 <= i < |xs| && xs[i] == x;
      assert i < k ==> r[i] == x;
      assert i > k ==> r[i - 1] == x;
    }
    forall x | x in r ensures x in xs && x != xs[k] {
      var i :| 0 <= i < |r| && r[i] == x;
      assert r[i] == xs[if i < k then i else i + 1];
    }
  }

  /** The list and the log right after the completed record was added. */
  function Grown(lru: seq<Record>, id: Id, failure: Option<string>, expires: int): (r: seq<Record>)
  {
    lru + [Record(id, failure, expires)]
  }

  function Noted(log: Log, id: Id, expires: int): (r: Log) { Use(log, id).(expiry := log.expiry[id := expires]) }

  lemma NotedIs(log: Log, id: Id, expires: int)
    requires ClockOk(log)
    ensures var m := Noted(log, id, expires);
            && ClockOk(m) && m.uses == log.uses + 1
               && (forall x :: x in log.last ==> x in m.last && m.last[x] >= log.last[x])
            && (forall x :: x in log.last && x != id ==> m.last[x] == log.last[x]) && id in m.last
               && m.last[id] == log.uses
            && id in m.expiry && m.expiry[id] == expires
               && (forall x :: x in log.expiry && x != id ==> x in m.expiry && m.expiry[x] == log.expiry[x])
            && m.started == log.started && m.restarted == log.restarted && m.fate == log.fate
  {
  }

  lemma GrownOrder(lru: seq<Record>, log: Log, id: Id, failure: Option<string>, expires: int)
    requires OrderOk(lru, log) && ClockOk(log) && !Remembered(lru, id)
    ensures OrderOk(Grown(lru, id, failure, expires), Noted(log, id, expires))
  {
    NotedIs(log, id, expires);
    hide Noted;
    var r, m := Grown(lru, id, failure, expires), Noted(log, id, expires);
    forall i | 0 <= i < |lru|
      ensures r[i] == lru[i] && r[i].id != id && m.last[r[i].id] == log.last[lru[i].id] < log.uses {}
    forall i, j | 0 <= i < j < |r| ensures m.last[r[i].id] < m.last[r[j].id] {
      if j < |lru| { assert log.last[lru[i].id] < log.last[lru[j].id]; }
    }
  }

  lemma {:induction false} IdsSize(lru: seq<Record>)
    requires UniqueIds(lru)
    ensures |Ids(lru)| == |lru|
  {
    if lru == [] {
      assert Ids(lru) == {};
    } else {
      var front, last := lru[..|lru| - 1], lru[|lru| - 1];
      IdsSize(front);
      assert Ids(lru) == Ids(front) + {last.id} by {
        forall x ensures x in Ids(lru) <==> x in Ids(front) + {last.id} {
          if x in Ids(lru) {
            var i :| 0 <= i < |lru| && lru[i].id == x;
            if i < |front| { assert front[i].id == x; }
          }
          if x in Ids(front) {
            var i :| 0 <= i < |front| && front[i].id == x;
            assert lru[i].id == x;
          }
          if x == last.id { assert lru[|lru| - 1].id == x; }
        }
      }
      assert last.id !in Ids(front);
    }
  }

  /** A record dropped at the front was followed by enough messages used later. */
  lemma FrontIsCrowded(l: Limits, lru: seq<Record>, log: Log)
    requires OrderOk(lru, log) && |lru| == l.maxDedup + 1
    ensures Forgotten(l, NoteCrowded(l, log, lru), lru[0].id)
  {
    var rest := lru[1..];
    OrderIsUnique(lru, log);
    IdsSize(rest);
    forall x | x in Ids(rest) ensures x in log.last && log.last[x] > log.last[lru[0].id] {
      var i :| 0 <= i < |rest| && rest[i].id == x;
      assert log.last[lru[0].id] < log.last[lru[i + 1].id];
    }
    assert lru[0].id !in Ids(rest);
  }

  lemma CompletedOne(l: Limits, s: System, id: Id, failure: Option<string>, expires: int, x: Id)
    requires LimitsOk(l) && Inv(l, s) && !Remembered(s.core.lru, id) && x in s.log.started
             && (x in s.executing ==> x == id)
    ensures var grown, noted := Grown(s.core.lru, id, failure, expires), Noted(s.log, id, expires);
            Remembered(Fitting(l, grown), x) || Forgotten(l, NoteCrowded(l, noted, grown), x)
  {
    var grown, noted := Grown(s.core.lru, id, failure, expires), Noted(s.log, id, expires);
    var fit := Fitting(l, grown);
    GrownOrder(s.core.lru, s.log, id, failure, expires);
    NotedIs(s.log, id, expires);
    hide Noted, PendingOk, Apart, ClockOk, FateOk, HandlersOk;
    if x == id {
      assert fit[|fit| - 1].id == id;
    } else if Remembered(s.core.lru, x) {
      var i :| 0 <= i < |s.core.lru| && s.core.lru[i].id == x;
      assert grown[i].id == x;
      if |grown| > l.maxDedup {
        if i == 0 { FrontIsCrowded(l, grown, noted); } else { assert fit[i - 1].id == x; }
      } else {
        assert fit[i].id == x;
      }
    } else {
      hide OrderOk;
      StaysForgotten(l, s.log, noted, x);
      if |grown| > l.maxDedup { NotFront(s, grown, id, failure, expires, x); }
      CrowdSame(l, noted, grown, x);
    }
  }

  lemma NotFront(s: System, grown: seq<Record>, id: Id, failure: Option<string>, expires: int, x: Id)
    requires grown == Grown(s.core.lru, id, failure, expires) && x != id && !Remembered(s.core.lru, x)
    ensures grown[0].id != x
  {
  }

  lemma CrowdSame(l: Limits, log: Log, lru: seq<Record>, x: Id)
    requires Forgotten(l, log, x) && (|lru| > l.maxDedup ==> lru[0].id != x)
    ensures Forgotten(l, NoteCrowded(l, log, lru), x)
  {
  }

  lemma CompleteKeeps(l: Limits, s: System, k: nat, failure: Option<string>, now: int, later: int)
    requires LimitsOk(l) && Inv(l, s) && k < |s.executing|
    ensures Inv(l, CompleteStep(l, s, k, failure, now, later))
  {
    var id := s.executing[k];
    assert id in s.executing;
    var p := Pruned(s, now);
    PruneKeeps(l, s, now);
    assert !Remembered(p.core.lru, id);
    NotFound(p.core.lru, id);
    var expires := later + l.ttl;
    var t := CompleteStep(l, s, k, failure, now, later);
    var grown, noted := Grown(p.core.lru, id, failure, expires), Noted(p.log, id, expires);
    assert t == System(Core(s.core.pending - {id}, Fitting(l, grown)), s.waiting, RemoveAt(s.executing, k),
           s.handlers, NoteCrowded(l, noted, grown));
    RemoveIs(s.executing, k);
    assert p.executing == s.executing && p.waiting == s.waiting && p.core.pending == s.core.pending
           && p.handlers == s.handlers;
    hide Pruned, CompleteStep, RemoveAt;
    CompletedInv(l, p, k, failure, expires, t);
  }

  lemma NotFound(lru: seq<Record>, id: Id)
    requires !Remembered(lru, id)
    ensures Without(lru, id) == lru
  {
  }

  lemma CompletedInv(l: Limits, p: System, k: nat, failure: Option<string>, expires: int, t: System)
    requires LimitsOk(l) && Inv(l, p) && k < |p.executing| && !Remembered(p.core.lru, p.executing[k])
    requires var id := p.executing[k];
             var grown, noted := Grown(p.core.lru, id, failure, expires), Noted(p.log, id, expires);
             && t == System(Core(p.core.pending - {id}, Fitting(l, grown)), p.waiting, RemoveAt(p.executing, k),
                p.handlers, NoteCrowded(l, noted, grown))
             && Distinct(RemoveAt(p.executing, k)) && forall x :: x in RemoveAt(p.executing, k)
                                                                  <==> x in p.executing && x != id
    ensures Inv(l, t)
  {
    var id := p.executing[k];
    var grown, noted := Grown(p.core.lru, id, failure, expires), Noted(p.log, id, expires);
    GrownOrder(p.core.lru, p.log, id, failure, expires);
    NotedIs(p.log, id, expires);
    assert id in p.executing;
    CompletedFate(l, p, id, failure, expires, t.executing);
    hide Noted, RemoveAt, FateOk;
    assert PendingOk(t.core.pending, t.waiting, t.executing);
    hide PendingOk;
    forall x | x in t.log.started ensures x in t.executing || Remembered(t.core.lru, x) || Forgotten(l, t.log, x) {
      if x !in t.executing { CompletedOne(l, p, id, failure, expires, x); }
    }
    assert StartedOk(l, t.executing, t.core.lru, t.log);
    hide StartedOk;
    FittingKeeps(l, p.core.pending, p.core.lru, grown, noted, id, failure, expires);
  }

  lemma CompletedFate(l: Limits, s: System, id: Id, failure: Option<string>, expires: int, executing: seq<Id>)
    requires Inv(l, s) && id in s.executing && (forall x :: x in executing ==> x in s.executing && x != id)
    ensures var grown, noted := Grown(s.core.lru, id, failure, expires), Noted(s.log, id, expires);
            FateOk(executing, Fitting(l, grown), NoteCrowded(l, noted, grown))
  {
    var grown, noted := Grown(s.core.lru, id, failure, expires), Noted(s.log, id, expires);
    var fit, log := Fitting(l, grown), NoteCrowded(l, noted, grown);
    GrownIsUnique(s, id, failure, expires);
    NotedIs(s.log, id, expires);
    hide Noted, OrderOk, ClockOk, StartedOk, HandlersOk;
    var n := |grown| - |fit|;
    forall j | 0 <= j < |fit|
      ensures fit[j] == grown[n + j] && (fit[j].id == id || Remembered(s.core.lru, fit[j].id))
    {
      if n + j < |s.core.lru| { assert fit[j] == s.core.lru[n + j]; }
    }
    forall i | 0 <= i < |s.core.lru| ensures s.core.lru[i].id !in executing {
      assert Remembered(s.core.lru, s.core.lru[i].id);
    }
    assert forall x :: x in log.fate ==> x in s.log.fate || (n > 0 && x == grown[0].id);
  }

  lemma GrownIsUnique(s: System, id: Id, failure: Option<string>, expires: int)
    requires OrderOk(s.core.lru, s.log) && ClockOk(s.log)
    requires !Remembered(s.core.lru, id)
    ensures UniqueIds(Grown(s.core.lru, id, failure, expires))
  {
    GrownOrder(s.core.lru, s.log, id, failure, expires);
    OrderIsUnique(Grown(s.core.lru, id, failure, expires), Noted(s.log, id, expires));
  }

  lemma FittingKeeps(
    l: Limits, pending: set<Id>, lru: seq<Record>, grown: seq<Record>, noted: Log, id: Id, failure: Option<string>,
      expires: int)
    requires grown == Grown(lru, id, failure, expires) && OrderOk(grown, noted) && ClockOk(noted) && Apart(pending, lru)
    ensures var log := NoteCrowded(l, noted, grown);
            && OrderOk(Fitting(l, grown), log) && |Fitting(l, grown)| <= l.maxDedup && ClockOk(log)
            && Apart(pending - {id}, Fitting(l, grown)) && log.started == noted.started
               && log.restarted == noted.restarted
  {
    var fit, log := Fitting(l, grown), NoteCrowded(l, noted, grown);
    OrderSuffix(grown, noted, log, if |grown| > l.maxDedup then |grown| - l.maxDedup else 0);
    assert grown[0..] == grown;
    forall i | 0 <= i < |fit| ensures fit[i].id !in pending - {id} {
      assert fit[i] in grown;
      var j :| 0 <= j < |grown| && grown[j] == fit[i];
      if j < |lru| { assert Remembered(lru, lru[j].id); }
    }
  }

  lemma ExitKeeps(l: Limits, handlers: seq<Id>, k: nat, log: Log)
    requires k < |handlers| && HandlersOk(l, handlers, log)
    ensures HandlersOk(l, RemoveAt(handlers, k), log)
  {
    var rest := RemoveAt(handlers, k);
    forall i | 0 <= i < |rest| ensures rest[i] == handlers[if i < k then i else i + 1] {}
    forall h | h in rest ensures h in log.started {
      var i :| 0 <= i < |rest| && rest[i] == h;
      assert handlers[if i < k then i else i + 1] in handlers;
    }
    forall i, j | 0 <= i < j < |rest| && rest[i] == rest[j] ensures rest[i] in log.restarted {
      assert handlers[if i < k then i else i + 1] == handlers[if j < k then j else j + 1];
    }
  }

  // ------------------------------------------------------------------- what is promised

  lemma StepKeeps(l: Limits, s: System, a: Action)
    requires LimitsOk(l) && Inv(l, s)
    ensures Inv(l, Step(l, s, a))
  {
    match a
    case DoBegin(id, now) =>
      BeginKeeps(l, s, id, now);
      hide Inv, BeginStep;
    case TakeSlot(k) =>
      if k < |s.waiting| { SlotKeeps(l, s, k); }
      hide Inv, RemoveAt;
    case GiveUp(k) =>
      if k < |s.waiting| { SlotKeeps(l, s, k); }
      hide Inv, RemoveAt;
    case DoComplete(k, failure, now, later) =>
      if k < |s.executing| { CompleteKeeps(l, s, k, failure, now, later); }
      hide Inv, CompleteStep;
    case HandlerExits(k) =>
      if k < |s.handlers| { ExitKeeps(l, s.handlers, k, s.log); }
      hide PendingOk, OrderOk, Apart, ClockOk, StartedOk, FateOk, HandlersOk;
  }

  lemma {:induction false} RunKeeps(l: Limits, states: seq<System>, actions: seq<Action>, i: nat)
    requires LimitsOk(l) && IsRun(l, states, actions) && i < |states|
    ensures Inv(l, states[i])
  {
    hide Step;
    if i > 0 {
      hide Inv;
      RunKeeps(l, states, actions, i - 1);
      StepKeeps(l, states[i - 1], actions[i - 1]);
      assert states[(i - 1) + 1] == Step(l, states[i - 1], actions[i - 1]);
    }
  }

  /**
   * In every run, when a message that once began executing is about to execute again, its record had
   * reached its time to live, or at least as many other messages as the list can hold were used after
   * its own last use.
   */
  lemma RunsAgainOnlyWhenForgotten(l: Limits, states: seq<System>, actions: seq<Action>, i: nat, k: nat)
    requires LimitsOk(l) && IsRun(l, states, actions) && i < |states| && k < |states[i].waiting|
    requires states[i].waiting[k] in states[i].log.started
    ensures Forgotten(l, states[i].log, states[i].waiting[k])
  {
    RunKeeps(l, states, actions, i);
    var s := states[i];
    assert s.waiting[k] in s.waiting;
    hide IsRun, Step, OrderOk, ClockOk, Forgotten, Remembered;
  }

  /** Until it completes, a message that began is not admitted again, not remembered, and does not begin again. */
  lemma NeverTwiceBeforeCompletion(l: Limits, states: seq<System>, actions: seq<Action>, i: nat, j: nat, k: nat)
    requires LimitsOk(l) && IsRun(l, states, actions) && i < |states| && j < |states[i].executing|
    ensures k < |states[i].waiting| ==> states[i].waiting[k] != states[i].executing[j]
    ensures k < |states[i].executing| && k != j ==> states[i].executing[k] != states[i].executing[j]
    ensures !Remembered(states[i].core.lru, states[i].executing[j])
  {
    RunKeeps(l, states, actions, i);
    var s := states[i];
    assert s.executing[j] in s.executing;
    if k < |s.waiting| { assert s.waiting[k] in s.waiting; }
    hide IsRun, Step, OrderOk, ClockOk, StartedOk, Remembered, FateOk, HandlersOk;
  }

  /**
   * In every run a message that ever began is admitted again exactly when it is not being handled and its
   * record was lost since: it aged out, or was crowded out by as many messages as the list can hold.
   */
  lemma AdmittedAgainExactlyWhenForgotten(l: Limits, states: seq<System>, actions: seq<Action>, i: nat, id: Id,
      now: int)
    requires LimitsOk(l) && IsRun(l, states, actions) && i < |states| && id in states[i].log.started
    ensures Begin(states[i].core, id, now).1 == Admitted
            <==> id !in states[i].core.pending && Forgotten(l, Pruned(states[i], now).log, id)
  {
    RunKeeps(l, states, actions, i);
    var p := Pruned(states[i], now);
    PruneKeeps(l, states[i], now);
    assert p.core.lru == Prune(states[i].core, now).lru && p.core.pending == states[i].core.pending;
    hide IsRun, Step, OrderOk, ClockOk, HandlersOk, Pruned, Prune, Apart;
    assert Remembered(p.core.lru, id) <==> Find(p.core.lru, id) < |p.core.lru|;
    if id !in p.core.pending { assert id !in p.executing; }
  }

  /**
   * In every run, while a handler of a message still runs, a repetition of the message starts a second handler
   * exactly when the first call has completed, its record was lost since, and a slot is free.
   */
  lemma SecondHandlerExactlyWhenForgotten(l: Limits, states: seq<System>, actions: seq<Action>, i: nat, id: Id,
      now: int)
    requires LimitsOk(l) && IsRun(l, states, actions) && i < |states| && id in states[i].handlers
    ensures var s := states[i];
            Step(l, Step(l, s, DoBegin(id, now)), TakeSlot(|s.waiting|)).handlers == s.handlers + [id]
            <==> id !in s.core.pending && Forgotten(l, Pruned(s, now).log, id) && |s.handlers| < l.maxActive
  {
    RunKeeps(l, states, actions, i);
    var s := states[i];
    InvHandlers(l, s);
    hide Inv, IsRun;
    AdmittedAgainExactlyWhenForgotten(l, states, actions, i, id, now);
    hide Begin, Forgotten, Pruned, NoteAged, RemoveAt, HandlersOk;
    assert |s.handlers + [id]| == |s.handlers| + 1;
  }

  /** In every run a message that was admitted and got no slot is admitted when it comes again, at any time. */
  lemma GivenUpMayComeAgain(l: Limits, states: seq<System>, actions: seq<Action>, i: nat, k: nat, now: int)
    requires LimitsOk(l) && IsRun(l, states, actions) && i < |states| && k < |states[i].waiting|
    ensures Begin(EndPending(states[i].core, states[i].waiting[k]), states[i].waiting[k], now).1 == Admitted
  {
    RunKeeps(l, states, actions, i);
    var s, id := states[i], states[i].waiting[k];
    assert id in s.waiting;
    assert !Remembered(s.core.lru, id);
    hide IsRun, Step, Inv;
    var rest := Prune(EndPending(s.core, id), now).lru;
    forall j | 0 <= j < |rest| ensures rest[j].id != id { assert rest[j] == s.core.lru[Aged(s.core.lru, now) + j]; }
    hide Prune;
  }

  /**
   * In every run two handlers of one message run side by side only if the message began again after its
   * first call completed and its record was lost.
   */
  lemma HandlersRunApart(l: Limits, states: seq<System>, actions: seq<Action>, i: nat, j: nat, k: nat)
    requires LimitsOk(l) && IsRun(l, states, actions) && i < |states| && j < k < |states[i].handlers|
    requires states[i].handlers[j] == states[i].handlers[k]
    ensures exists m :: 0 <= m < i && BeginsAgain(l, states[m], actions[m], states[i].handlers[k])
  {
    RunKeeps(l, states, actions, i);
    hide Inv, IsRun, Step, BeginsAgain;
    assert HandlersOk(l, states[i].handlers, states[i].log) by { assert Inv(l, states[i]); InvHandlers(l, states[i]); }
    RestartsWereForgotten(l, states, actions, i, states[i].handlers[k]);
  }

  lemma InvHandlers(l: Limits, s: System)
    requires Inv(l, s)
    ensures HandlersOk(l, s.handlers, s.log)
  {
  }

  /** A slot is taken for a message that began before, whose call completed, and whose record was lost. */
  predicate BeginsAgain(l: Limits, s: System, a: Action, id: Id) {
    && a.TakeSlot? && a.k < |s.waiting| && s.waiting[a.k] == id && |s.handlers| < l.maxActive
    && id in s.log.started && id !in s.executing && Forgotten(l, s.log, id)
  }

  lemma {:induction false} RestartsWereForgotten(l: Limits, states: seq<System>, actions: seq<Action>, i: nat, id: Id)
    requires LimitsOk(l) && IsRun(l, states, actions) && i < |states| && id in states[i].log.restarted
    ensures exists m :: 0 <= m < i && BeginsAgain(l, states[m], actions[m], id)
  {
    assert i > 0;
    assert states[(i - 1) + 1] == Step(l, states[i - 1], actions[i - 1]);
    if id in states[i - 1].log.restarted {
      hide Step, BeginsAgain;
      RestartsWereForgotten(l, states, actions, i - 1, id);
    } else {
      RunKeeps(l, states, actions, i - 1);
      RestartIsForgotten(l, states[i - 1], actions[i - 1], id);
    }
  }

  lemma RestartIsForgotten(l: Limits, s: System, a: Action, id: Id)
    requires Inv(l, s) && id !in s.log.restarted && id in Step(l, s, a).log.restarted
    ensures BeginsAgain(l, s, a, id)
  {
    OrderIsUnique(s.core.lru, s.log);
    if a.DoBegin? { NoteAgedIs(s.log, s.core.lru, Aged(s.core.lru, a.now), a.now); }
    if a.DoComplete? { NoteAgedIs(s.log, s.core.lru, Aged(s.core.lru, a.now), a.now); }
    hide OrderOk, ClockOk, HandlersOk, FateOk, NoteAged, Forgotten, Remembered, Prune, Find, Fitting, Without,
      RemoveAt, UniqueIds;
    assert id in s.waiting;
  }

  lemma OneAdmitted(l: Limits, s: System, id: Id, now: int)
    requires Begin(s.core, id, now).1 == Admitted
    ensures var t := Step(l, s, DoBegin(id, now));
            && t.core == Begin(s.core, id, now).0 && t.waiting == s.waiting + [id] && t.executing == s.executing
            && t.handlers == s.handlers && t.log.started == s.log.started
  {
    StartedSame(s.log, s.core.lru, Aged(s.core.lru, now), now);
    hide Begin, Aged, NoteAged;
  }

  lemma {:induction false} StartedSame(log: Log, lru: seq<Record>, n: nat, now: int)
    requires n <= |lru|
    ensures NoteAged(log, lru, n, now).started == log.started
  {
    if n > 0 { StartedSame(log, lru, n - 1, now); }
  }

  lemma OneStarted(l: Limits, s: System, id: Id)
    requires s.waiting == [id] && |s.handlers| < l.maxActive
    ensures var t := Step(l, s, TakeSlot(0));
            && t.core == s.core && t.waiting == [] && t.executing == s.executing + [id]
            && t.handlers == s.handlers + [id] && t.log.started == s.log.started + {id}
  {
  }

  lemma OneCompleted(l: Limits, s: System, id: Id, failure: Option<string>, at: int)
    requires s.executing == [id]
    ensures var t := Step(l, s, DoComplete(0, failure, at, at));
            && t.core == Complete(l, s.core, id, failure, at, at) && t.waiting == s.waiting && t.executing == []
            && t.handlers == s.handlers && t.log.started == s.log.started
  {
    StartedSame(s.log, s.core.lru, Aged(s.core.lru, at), at);
    hide Complete, Aged, NoteAged, Prune, Without;
  }

  lemma OneDuplicate(l: Limits, s: System, id: Id, now: int)
    requires Begin(s.core, id, now).1.DuplicateDone?
    ensures Step(l, s, DoBegin(id, now)).core == Begin(s.core, id, now).0
  {
    hide Begin;
  }

  /**
   * A call ends at its deadline while its handler runs on; its record ages out, and a second handler begins beside
   * the first.
   */
  lemma LateHandlerRunsTwice() returns (l: Limits, states: seq<System>, actions: seq<Action>)
    ensures LimitsOk(l) && IsRun(l, states, actions) && |states| == 6
    ensures Remembered(states[3].core.lru, 1) && states[3].handlers == [1]
    ensures states[5].handlers == [1, 1] && states[5].log.started == {1}
  {
    l := Limits(2, 2, 1);
    actions := [DoBegin(1, 0), TakeSlot(0), DoComplete(0, Some("timeout"), 5, 5), DoBegin(1, 10), TakeSlot(0)];
    var s0 := Start();
    var s1 := Step(l, s0, actions[0]);
    var s2 := Step(l, s1, actions[1]);
    var s3 := Step(l, s2, actions[2]);
    var s4 := Step(l, s3, actions[3]);
    states := [s0, s1, s2, s3, s4, Step(l, s4, actions[4])];
    var none: set<Id> := {};
    assert none + {1} == {1};
    assert Begin(Core({}, []), 1, 0) == (Core({1}, []), Admitted);
    var timeout := [Record(1, Some("timeout"), 6)];
    assert Complete(l, Core({1}, []), 1, Some("timeout"), 5, 5) == Core({}, timeout);
    assert Begin(Core({}, timeout), 1, 10) == (Core({1}, []), Admitted) by {
      assert Aged(timeout, 10) == 1 && timeout[1..] == [];
    }
    hide Step, Begin, Complete;
    OneAdmitted(l, s0, 1, 0);
    OneStarted(l, s1, 1);
    OneCompleted(l, s2, 1, Some("timeout"), 5);
    OneAdmitted(l, s3, 1, 10);
    OneStarted(l, s4, 1);
    assert s3.core.lru[0].id == 1;
  }

  // --------------------------------------------------------------- how long a record is kept

  /** Pruning keeps a record exactly when it, or some record in front of it, has not reached its time. */
  lemma KeptExactlyBehindALiveRecord(c: Core, now: int, n: nat)
    requires UniqueIds(c.lru) && n < |c.lru|
    ensures Remembered(Prune(c, now).lru, c.lru[n].id) <==> exists j :: 0 <= j <= n && c.lru[j].expires > now
  {
    var a := Aged(c.lru, now);
    var rest := Prune(c, now).lru;
    if n >= a {
      assert rest[n - a].id == c.lru[n].id;
      assert c.lru[a].expires > now;
    } else {
      forall k | 0 <= k < |rest| ensures rest[k].id != c.lru[n].id { assert rest[k] == c.lru[a + k]; }
    }
  }

  /**
   * In every run a remembered message is still answered as a duplicate exactly when some remembered message
   * used no later than it, possibly itself, has not reached its time. So a record may outlive its time.
   */
  lemma AnsweredExactlyBehindALiveRecord(l: Limits, states: seq<System>, actions: seq<Action>, i: nat, n: nat, now: int)
    requires LimitsOk(l) && IsRun(l, states, actions) && i < |states| && n < |states[i].core.lru|
    ensures var s := states[i];
            var id := s.core.lru[n].id;
            && id in s.log.last
            && (Begin(s.core, id, now).1.DuplicateDone?
                <==> exists j :: 0 <= j < |s.core.lru| && s.core.lru[j].id in s.log.last
                                 && s.log.last[s.core.lru[j].id] <= s.log.last[id] && s.core.lru[j].expires > now)
  {
    RunKeeps(l, states, actions, i);
    var s := states[i];
    var lru, id := s.core.lru, s.core.lru[n].id;
    assert OrderOk(lru, s.log) && Apart(s.core.pending, lru);
    hide Inv, IsRun, Step;
    OrderIsUnique(lru, s.log);
    KeptExactlyBehindALiveRecord(s.core, now, n);
    assert Remembered(lru, id);
    BehindMeansUsedLater(lru, s.log, n);
    assert Remembered(Prune(s.core, now).lru, id) <==> Find(Prune(s.core, now).lru, id) < |Prune(s.core, now).lru|;
    hide Prune, OrderOk, UniqueIds;
    if Begin(s.core, id, now).1.DuplicateDone? {
      var j :| 0 <= j <= n && lru[j].expires > now;
      assert s.log.last[lru[j].id] <= s.log.last[id];
    }
  }

  lemma BehindMeansUsedLater(lru: seq<Record>, log: Log, n: nat)
    requires OrderOk(lru, log) && n < |lru|
    ensures forall j :: 0 <= j < |lru| ==> lru[j].id in log.last
                                           && (log.last[lru[j].id] <= log.last[lru[n].id] <==> j <= n)
  {
  }

  /** A record that expires at 10 still answers at 12, because a duplicate moved it behind one that expires at 15. */
  lemma RecordOutlivesItsTime() returns (l: Limits, states: seq<System>, actions: seq<Action>)
    ensures LimitsOk(l) && IsRun(l, states, actions) && |states| == 8
    ensures states[7].core.lru == [Record(2, None, 15), Record(1, None, 10)]
    ensures Begin(states[7].core, 1, 12).1 == DuplicateDone(None)
  {
    hide Step, Begin, Complete, IsRun;
    l := Limits(2, 2, 10);
    actions := [DoBegin(1, 0), TakeSlot(0), DoComplete(0, None, 0, 0), DoBegin(2, 5), TakeSlot(0),
      DoComplete(0, None, 5, 5), DoBegin(1, 6)];
    var s0 := Start();
    var s1 := Step(l, s0, actions[0]);
    var s2 := Step(l, s1, actions[1]);
    var s3 := Step(l, s2, actions[2]);
    var s4 := Step(l, s3, actions[3]);
    var s5 := Step(l, s4, actions[4]);
    var s6 := Step(l, s5, actions[5]);
    states := [s0, s1, s2, s3, s4, s5, s6, Step(l, s6, actions[6])];
    var one, two := Record(1, None, 10), Record(2, None, 15);
    CallsOneAndTwo(l, one, two);
    OneAdmitted(l, s0, 1, 0);
    OneStarted(l, s1, 1);
    OneCompleted(l, s2, 1, None, 0);
    OneAdmitted(l, s3, 2, 5);
    OneStarted(l, s4, 2);
    OneCompleted(l, s5, 2, None, 5);
    OneDuplicate(l, s6, 1, 6);
    SevenSteps(l, states, actions);
  }

  lemma SevenSteps(l: Limits, states: seq<System>, actions: seq<Action>)
    requires |states| == 8 && |actions| == 7 && states[0] == Start()
    requires states[1] == Step(l, states[0], actions[0]) && states[2] == Step(l, states[1], actions[1])
    requires states[3] == Step(l, states[2], actions[2]) && states[4] == Step(l, states[3], actions[3])
    requires states[5] == Step(l, states[4], actions[4]) && states[6] == Step(l, states[5], actions[5])
    requires states[7] == Step(l, states[6], actions[6])
    ensures IsRun(l, states, actions)
  {
    hide Step;
  }

  /** What the calls of that run do to the fields under the lock. */
  lemma CallsOneAndTwo(l: Limits, one: Record, two: Record)
    requires l == Limits(2, 2, 10) && one == Record(1, None, 10) && two == Record(2, None, 15)
    ensures Begin(Core({}, []), 1, 0) == (Core({1}, []), Admitted)
    ensures Complete(l, Core({1}, []), 1, None, 0, 0) == Core({}, [one])
    ensures Begin(Core({}, [one]), 2, 5) == (Core({2}, [one]), Admitted)
    ensures Complete(l, Core({2}, [one]), 2, None, 5, 5) == Core({}, [one, two])
    ensures Begin(Core({}, [one, two]), 1, 6) == (Core({}, [two, one]), DuplicateDone(None))
    ensures Begin(Core({}, [two, one]), 1, 12).1 == DuplicateDone(None)
  {
    var none: set<Id> := {};
    assert none + {1} == {1} && none + {2} == {2};
    assert Aged([one], 5) == 0 && Aged([one, two], 6) == 0 && Aged([two, one], 12) == 0;
    assert [one][0..] == [one] && [one, two][0..] == [one, two] && [two, one][0..] == [two, one];
    assert Find([one], 2) == 1 && Find([one, two], 1) == 0 && Find([two, one], 1) == 1;
    assert ToBack([one, two], 0) == [two, one] && Without([one], 2) == [one] && [one] + [two] == [one, two];
  }

  /** Running handlers and remembered messages stay within their limits. */
  lemma WithinLimits(l: Limits, states: seq<System>, actions: seq<Action>, i: nat)
    requires LimitsOk(l) && IsRun(l, states, actions) && i < |states|
    ensures |states[i].handlers| <= l.maxActive && |states[i].core.lru| <= l.maxDedup && UniqueIds(states[i].core.lru)
  {
    RunKeeps(l, states, actions, i);
    hide IsRun, Step;
    OrderIsUnique(states[i].core.lru, states[i].log);
  }
}
