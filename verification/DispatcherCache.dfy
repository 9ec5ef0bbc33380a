/** The duplicate cache as the object it is: a list of records in order of use, and a map into it. */
module DispatcherCache {
  import opened Basics
  import opened Dispatcher

  /** Map and list agree: every listed record is filed under its identifier, and nothing else is filed. */
  ghost predicate Agree(cache: map<Id, Record>, list: seq<Record>) {
    && UniqueIds(list)
    && (forall i :: 0 <= i < |list| ==> Filed(cache, list[i]))
    && (forall id :: id in cache ==> cache[id].id == id && cache[id] in list)
  }

  predicate Filed(cache: map<Id, Record>, r: Record) { r.id in cache && cache[r.id] == r }

  lemma WhereIs(cache: map<Id, Record>, list: seq<Record>, id: Id)
    requires Agree(cache, list)
    ensures id in cache <==> Find(list, id) < |list|
    ensures id in cache ==> list[Find(list, id)] == cache[id]
  {
    var n := Find(list, id);
    if id in cache {
      var i :| 0 <= i < |list| && list[i] == cache[id];
    }
    if n < |list| { assert Filed(cache, list[n]); }
  }

  lemma WithoutNone(list: seq<Record>, id: Id)
    ensures Find(list, id) == |list| ==> Without(list, id) == list
  {
  }

  class Cache {
    const limits: Limits
    var pending: set<Id>
    var cache: map<Id, Record>
    var list: seq<Record>

    ghost predicate Valid()
      reads this
    {
      LimitsOk(limits) && Agree(cache, list)
    }

    ghost function View(): Core
      reads this
    {
      Core(pending, list)
    }

    constructor (limits: Limits)
      requires LimitsOk(limits)
      ensures Valid() && View() == Start().core && this.limits == limits
    {
      this.limits := limits;
      pending, cache, list := {}, map[], [];
    }

    method RemoveOldest()
      requires Valid() && list != []
      modifies this`cache, this`list
      ensures Valid() && list == old(list)[1..]
    {
      hide Agree;
      FrontDropped(cache, list);
      var front := list[0];
      list, cache := list[1..], cache - {front.id};
    }

    /** Drops records from the front while they have aged out. */
    method PruneLocked(now: int)
      requires Valid()
      modifies this`cache, this`list
      ensures Valid() && View() == Prune(old(View()), now)
    {
      hide Agree;
      ghost var lru := list;
      ghost var n := 0;
      while |list| > 0 && list[0].expires <= now
        invariant Valid() && n <= |lru| && list == lru[n..]
        invariant Aged(lru, now) == n + Aged(lru[n..], now)
        decreases |list|
      {
        assert lru[n..][1..] == lru[n + 1..];
        RemoveOldest();
        n := n + 1;
      }
    }

    /** Admits a message, or says it is a duplicate and counts as used again. */
    method BeginLocked(id: Id, now: int) returns (answer: Answer)
      requires Valid()
      modifies this
      ensures Valid() && (View(), answer) == Begin(old(View()), id, now)
    {
      PruneLocked(now);
      hide Aged, Prune, Agree;
      if id in pending { return DuplicatePending; }
      WhereIs(cache, list, id);
      if id in cache {
        answer := DuplicateDone(cache[id].failure);
        MoveToBack(id);
        return;
      }
      pending := pending + {id};
      answer := Admitted;
    }

    method MoveToBack(id: Id)
      requires Valid() && Find(list, id) < |list|
      modifies this`list
      ensures Valid() && list == ToBack(old(list), Find(old(list), id))
    {
      var at := 0;
      while list[at].id != id
        invariant at <= Find(list, id)
        decreases |list| - at
      {
        at := at + 1;
      }
      assert at == Find(list, id);
      MovedAgree(cache, list, at);
      hide Agree;
      list := list[..at] + list[at + 1..] + [list[at]];
    }

    method Forget(id: Id)
      requires Valid() && Find(list, id) < |list|
      modifies this`list, this`cache
      ensures Valid() && list == Without(old(list), id) && id !in cache
    {
      var at := 0;
      while list[at].id != id
        invariant at <= Find(list, id)
        decreases |list| - at
      {
        at := at + 1;
      }
      assert at == Find(list, id);
      DroppedAgree(cache, list, at);
      hide Agree;
      list, cache := list[..at] + list[at + 1..], cache - {id};
    }

    method EndPendingLocked(id: Id)
      requires Valid()
      modifies this`pending
      ensures Valid() && View() == EndPending(old(View()), id)
    {
      pending := pending - {id};
    }

    /** Files the outcome of a message and drops the oldest records that no longer fit. */
    method CompleteLocked(id: Id, failure: Option<string>, now: int, later: int)
      requires Valid()
      modifies this
      ensures Valid() && View() == Complete(limits, old(View()), id, failure, now, later)
    {
      hide Agree, Prune, Without, Find, Fitting, EndPending, LimitsOk;
      EndPendingLocked(id);
      PruneLocked(now);
      WhereIs(cache, list, id);
      WithoutNone(list, id);
      if id in cache { Forget(id); }
      File(Record(id, failure, later + limits.ttl));
      EvictLocked();
    }

    method File(record: Record)
      requires Valid() && record.id !in cache
      modifies this`cache, this`list
      ensures Valid() && list == old(list) + [record]
    {
      hide Agree;
      AddedAgree(cache, list, record);
      cache, list := cache[record.id := record], list + [record];
    }

    method EvictLocked()
      requires Valid()
      modifies this`cache, this`list
      ensures Valid() && list == Fitting(limits, old(list))
    {
      hide Agree;
      ghost var grown, n := list, 0;
      AgreeSize(cache, list);
      while |cache| > limits.maxDedup
        invariant Valid() && |cache| == |list| && n <= |grown| && list == grown[n..]
        invariant n == 0 || |grown| - n >= limits.maxDedup
        decreases |list|
      {
        assert grown[n..][1..] == grown[n + 1..];
        RemoveOldest();
        AgreeSize(cache, list);
        n := n + 1;
      }
    }
  }

  lemma {:induction false} AgreeSize(cache: map<Id, Record>, list: seq<Record>)
    requires Agree(cache, list)
    ensures |cache| == |list|
  {
    if list == [] {
      assert cache == map[];
    } else {
      hide *;
      FrontDropped(cache, list);
      AgreeSize(cache - {list[0].id}, list[1..]);
      OneLess(cache, list[0].id);
    }
  }

  lemma FrontDropped(cache: map<Id, Record>, list: seq<Record>)
    requires Agree(cache, list) && list != []
    ensures Agree(cache - {list[0].id}, list[1..]) && list[0].id in cache
  {
    DroppedAgree(cache, list, 0);
    assert Filed(cache, list[0]);
    hide Agree;
    assert list[..0] + list[1..] == list[1..];
  }

  lemma MovedAgree(cache: map<Id, Record>, list: seq<Record>, at: nat)
    requires Agree(cache, list) && at < |list|
    ensures Agree(cache, ToBack(list, at))
  {
    var moved := ToBack(list, at);
    ToBackIs(list, at);
    hide ToBack;
    forall i | 0 <= i < |moved| ensures Filed(cache, moved[i]) {
      assert moved[i] in list;
      var j :| 0 <= j < |list| && list[j] == moved[i];
    }
    MovedUnique(list, at);
  }

  lemma MovedUnique(list: seq<Record>, at: nat)
    requires UniqueIds(list) && at < |list|
    ensures UniqueIds(ToBack(list, at))
  {
    var moved := ToBack(list, at);
    ToBackIs(list, at);
    hide ToBack;
    forall i, j | 0 <= i < j < |moved| ensures moved[i].id != moved[j].id {
      var a := if i < at then i else i + 1;
      assert moved[i] == list[a];
      if j < |moved| - 1 {
        var b := if j < at then j else j + 1;
        assert moved[j] == list[b];
      }
    }
  }

  lemma DroppedAgree(cache: map<Id, Record>, list: seq<Record>, at: nat)
    requires Agree(cache, list) && at < |list|
    ensures Agree(cache - {list[at].id}, list[..at] + list[at + 1..])
  {
    var rest, less := list[..at] + list[at + 1..], cache - {list[at].id};
    forall i | 0 <= i < |rest| ensures Filed(less, rest[i]) && rest[i] == list[if i < at then i else i + 1] {
      var j := if i < at then i else i + 1;
      assert rest[i] == list[j] && Filed(cache, list[j]);
    }
    forall id | id in less ensures less[id].id == id && less[id] in rest {
      var i :| 0 <= i < |list| && list[i] == cache[id];
      assert rest[if i < at then i else i - 1] == list[i];
    }
    DroppedUnique(list, at);
  }

  lemma DroppedUnique(list: seq<Record>, at: nat)
    requires UniqueIds(list) && at < |list|
    ensures UniqueIds(list[..at] + list[at + 1..])
  {
    var rest := list[..at] + list[at + 1..];
    forall i, j | 0 <= i < j < |rest| ensures rest[i].id != rest[j].id {
      var a, b := if i < at then i else i + 1, if j < at then j else j + 1;
      assert rest[i] == list[a] && rest[j] == list[b];
    }
  }

  lemma AddedAgree(cache: map<Id, Record>, list: seq<Record>, record: Record)
    requires Agree(cache, list) && record.id !in cache
    ensures Agree(cache[record.id := record], list + [record])
  {
    var more, longer := cache[record.id := record], list + [record];
    forall i | 0 <= i < |longer| ensures Filed(more, longer[i]) {
      if i < |list| { assert Filed(cache, list[i]); }
    }
    forall i | 0 <= i < |list| ensures list[i].id != record.id { assert Filed(cache, list[i]); }
  }
}
