/**
 * The policy as the object it is: an index of binding identifiers by subject, rebuilt after every
 * commit, and an evaluation that walks the index and searches the sorted capability lists.
 */
module PolicyState {
  import opened Basics
  import opened Ordering
  import opened Policy
  import opened PolicyRules

  // ------------------------------------------------------------------- matching

  /** Binary search over the sorted values finds exactly the capabilities that are listed. */
  method MatchRule(r: Rule, name: string, capability: string) returns (ok: bool)
    requires RuleOk(r)
    ensures ok <==> RuleMatches(r, name, capability)
  {
    var named := match r.resource
                 case AnyResource => true
                 case Exactly(n) => name == n
                 case Under(p) => name == p || p + "/" <= name;
    if !named { return false; }
    if r.capability.AnyCapability? { return true; }
    var values := r.capability.values;
    var index := SearchSorted(values, capability);
    SearchFinds(values, capability, index);
    ok := index < |values| && values[index] == capability;
  }

  lemma SearchFinds(values: seq<string>, key: string, index: nat)
    requires StrictlySorted(values) && index <= |values|
    requires forall i :: 0 <= i < index ==> Less(values[i], key)
    requires forall i :: index <= i < |values| ==> !Less(values[i], key)
    ensures key in values <==> index < |values| && values[index] == key
  {
    if key in values {
      var i :| 0 <= i < |values| && values[i] == key;
      LessIrreflexive(key);
      if index < i { assert Less(values[index], values[i]); }
    }
  }

  /** The first rule that matches, if any. */
  method FindRule(rules: seq<Rule>, q: Question) returns (r: Option<nat>)
    requires forall i :: 0 <= i < |rules| ==> RuleOk(rules[i])
    ensures r.Some? <==> SomeRule(rules, q)
    ensures r.Some? ==> FirstRule(rules, q, r.value)
  {
    hide RuleOk, RuleMatches;
    for i := 0 to |rules|
      invariant forall j :: 0 <= j < i ==> !RuleMatches(rules[j], q.name, q.capability)
    {
      var ok := MatchRule(rules[i], q.name, q.capability);
      if ok { return Some(i); }
    }
    r := None;
  }

  // ---------------------------------------------------------------------- index

  function IdsOf(bindings: map<string, Binding>, subject: NodeId): (r: set<string>) {
    set id | id in bindings && bindings[id].subject == subject
  }

  function Entry(index: map<NodeId, seq<string>>, subject: NodeId): (r: seq<string>) {
    if subject in index then index[subject] else []
  }

  /** The index lists, for every subject, the identifiers of its bindings in order. */
  ghost predicate IndexOk(bindings: map<string, Binding>, index: map<NodeId, seq<string>>) {
    forall subject :: Lists(Entry(index, subject), IdsOf(bindings, subject))
  }

  /** The identifiers each subject has among those visited, in the order of the visit. */
  ghost predicate Grouped(bindings: map<string, Binding>, visited: set<string>, groups: map<NodeId, seq<string>>) {
    forall subject, id :: id in Entry(groups, subject) <==> id in visited && id in bindings
                                                            && bindings[id].subject == subject
  }

  method GroupBySubject(bindings: map<string, Binding>) returns (groups: map<NodeId, seq<string>>)
    ensures Grouped(bindings, bindings.Keys, groups)
  {
    hide *;
    groups := map[];
    NothingGrouped(bindings);
    var left := bindings.Keys;
    ghost var visited: set<string> := {};
    while left != {}
      invariant left <= bindings.Keys && visited == bindings.Keys - left && Grouped(bindings, visited, groups)
      decreases |left|
    {
      var id :| id in left;
      var subject := bindings[id].subject;
      var longer := groups[subject := Entry(groups, subject) + [id]];
      GroupOne(bindings, visited, groups, id, longer);
      groups, left, visited := longer, left - {id}, visited + {id};
    }
    assert visited == bindings.Keys;
  }

  lemma NothingGrouped(bindings: map<string, Binding>)
    ensures Grouped(bindings, {}, map[])
  {
  }

  lemma GroupOne(bindings: map<string, Binding>, visited: set<string>, groups: map<NodeId, seq<string>>, id: string,
      longer: map<NodeId, seq<string>>)
    requires Grouped(bindings, visited, groups) && id in bindings
    requires longer == groups[bindings[id].subject := Entry(groups, bindings[id].subject) + [id]]
    ensures Grouped(bindings, visited + {id}, longer)
  {
    forall subject, x
      ensures x in Entry(longer, subject) <==> x in visited + {id} && x in bindings && bindings[x].subject == subject {
      assert x in Entry(groups, subject) <==> x in visited && x in bindings && bindings[x].subject == subject;
    }
  }

  /** Sorts every group. */
  method SortGroups(bindings: map<string, Binding>, groups: map<NodeId, seq<string>>)
      returns (index: map<NodeId, seq<string>>)
    requires Grouped(bindings, bindings.Keys, groups)
    ensures IndexOk(bindings, index)
  {
    index := groups;
    var left := groups.Keys;
    while left != {}
      invariant left <= groups.Keys && index.Keys == groups.Keys
      invariant forall subject :: subject in groups && subject !in left
                                  ==> Lists(index[subject], IdsOf(bindings, subject))
      invariant forall subject :: subject in left ==> index[subject] == groups[subject]
      decreases |left|
    {
      hide Lists, IdsOf;
      var subject :| subject in left;
      var sorted := SortedKeys(set id | id in index[subject]);
      GroupIs(bindings, groups, subject, index[subject]);
      index, left := index[subject := sorted], left - {subject};
    }
    forall subject ensures Lists(Entry(index, subject), IdsOf(bindings, subject)) {
      if subject !in groups { EmptyGroup(bindings, groups, subject); }
    }
  }

  lemma GroupIs(bindings: map<string, Binding>, groups: map<NodeId, seq<string>>, subject: NodeId, group: seq<string>)
    requires Grouped(bindings, bindings.Keys, groups) && subject in groups && group == groups[subject]
    ensures (set id | id in group) == IdsOf(bindings, subject)
  {
    assert Entry(groups, subject) == group;
  }

  lemma EmptyGroup(bindings: map<string, Binding>, groups: map<NodeId, seq<string>>, subject: NodeId)
    requires Grouped(bindings, bindings.Keys, groups) && subject !in groups
    ensures Lists([], IdsOf(bindings, subject))
  {
    assert Entry(groups, subject) == [];
    assert IdsOf(bindings, subject) == {} by {
      forall id | id in bindings ensures bindings[id].subject != subject { assert id !in Entry(groups, subject); }
    }
  }

  // ------------------------------------------------------------------ evaluation

  /** Nothing decisive among the identifiers already looked at. */
  ghost predicate NoneYet(s: Store, ids: seq<string>, i: nat, q: Question, now: int, resolve: Resolver)
    requires i <= |ids|
  {
    forall j :: 0 <= j < i ==> !Decisive(s, ids[j], q, now, resolve)
  }

  lemma FirstInOrder(s: Store, ids: seq<string>, i: nat, q: Question, now: int, resolve: Resolver)
    requires Lists(ids, IdsOf(s.bindings, q.subject)) && i < |ids|
    requires NoneYet(s, ids, i, q, now, resolve) && Decisive(s, ids[i], q, now, resolve)
    ensures FirstDecisive(s, ids[i], q, now, resolve)
  {
    forall other | Decisive(s, other, q, now, resolve) && other != ids[i] ensures Less(ids[i], other) {
      assert other in IdsOf(s.bindings, q.subject);
      var j :| 0 <= j < |ids| && ids[j] == other;
    }
  }

  lemma NoneAtAll(s: Store, ids: seq<string>, q: Question, now: int, resolve: Resolver)
    requires Lists(ids, IdsOf(s.bindings, q.subject)) && NoneYet(s, ids, |ids|, q, now, resolve)
    ensures forall id :: !Decisive(s, id, q, now, resolve)
  {
    forall id ensures !Decisive(s, id, q, now, resolve) {
      if id in IdsOf(s.bindings, q.subject) {
        var j :| 0 <= j < |ids| && ids[j] == id;
      }
    }
  }

  lemma ListedBinding(s: Store, ids: seq<string>, subject: NodeId, i: nat)
    requires Lists(ids, IdsOf(s.bindings, subject)) && i < |ids|
    ensures ids[i] in s.bindings && s.bindings[ids[i]].subject == subject
  {
    assert ids[i] in ids;
  }

  /** Walks the subject's bindings with a resolver at hand. */
  method Walk(s: Store, ids: seq<string>, q: Question, now: int, resolve: Resolver)
      returns (r: Result<Verdict, EvalError>)
    requires Inv(s) && q !in s.grants && Lists(ids, IdsOf(s.bindings, q.subject))
    ensures RightAnswer(s, q, now, Some(resolve), r)
  {
    hide Inv, Lists, SomeRule, FirstRule, IdsOf, FirstDecisive;
    for i := 0 to |ids|
      invariant NoneYet(s, ids, i, q, now, resolve)
    {
      var id := ids[i];
      ListedBinding(s, ids, q.subject, i);
      var b := s.bindings[id];
      if Live(b, now) {
        var answer := resolve(b.scope, q.owner);
        if answer.ScopeFails? {
          FirstInOrder(s, ids, i, q, now, resolve);
          return Err(ScopeFailed(id));
        }
        if answer.InScope? {
          BoundDefinition(s, id);
          var d := s.definitions[b.definition];
          var rule := FindRule(d.rules, q);
          if rule.Some? {
            FirstInOrder(s, ids, i, q, now, resolve);
            return Ok(ByBinding(s.generation, answer.epoch, id, b.definition, d.revision, rule.value, b.scope));
          }
        }
      }
    }
    NoneAtAll(s, ids, q, now, resolve);
    r := Ok(Denied(s.generation));
  }

  lemma BoundDefinition(s: Store, id: string)
    requires Inv(s) && id in s.bindings
    ensures s.bindings[id].definition in s.definitions
    ensures forall i :: 0 <= i < |s.definitions[s.bindings[id].definition].rules|
                        ==> RuleOk(s.definitions[s.bindings[id].definition].rules[i])
  {
    assert DefinitionOk(s.bindings[id].definition, s.definitions[s.bindings[id].definition]);
  }

  /** Walks the subject's bindings with no resolver bound: the first live one is an error. */
  method WalkUnresolved(s: Store, ids: seq<string>, q: Question, now: int) returns (r: Result<Verdict, EvalError>)
    requires q !in s.grants && Lists(ids, IdsOf(s.bindings, q.subject))
    ensures RightAnswer(s, q, now, None, r)
  {
    hide Lists, IdsOf, Live;
    for i := 0 to |ids|
      invariant forall j :: 0 <= j < i ==> ids[j] in s.bindings && !Live(s.bindings[ids[j]], now)
    {
      ListedBinding(s, ids, q.subject, i);
      if Live(s.bindings[ids[i]], now) { return Err(ScopeUnavailable); }
    }
    NoLive(s, ids, q, now);
    r := Ok(Denied(s.generation));
  }

  lemma NoLive(s: Store, ids: seq<string>, q: Question, now: int)
    requires Lists(ids, IdsOf(s.bindings, q.subject)) && forall j :: 0 <= j < |ids|
                                                                     ==> ids[j] in s.bindings
                                                                         && !Live(s.bindings[ids[j]], now)
    ensures !SomeLive(s, q, now)
  {
    forall id | id in s.bindings && s.bindings[id].subject == q.subject ensures !Live(s.bindings[id], now) {
      assert id in IdsOf(s.bindings, q.subject);
      var j :| 0 <= j < |ids| && ids[j] == id;
    }
  }

  // ------------------------------------------------------------------- the object

  class State {
    var generation: nat
    var grants: set<Question>
    var definitions: map<string, Definition>
    var bindings: map<string, Binding>
    var bySubject: map<NodeId, seq<string>>
    var closed: bool

    ghost function View(): Store
      reads this
    {
      Store(generation, grants, definitions, bindings, closed)
    }

    ghost predicate Valid()
      reads this
    {
      Inv(View()) && IndexOk(bindings, bySubject)
    }

    constructor ()
      ensures Valid() && View() == Fresh()
    {
      FreshInv();
      generation, grants, definitions, bindings, closed := 1, {}, map[SUPERADMIN := Superadmin()], map[], false;
      bySubject := map[];
    }

    /** The answer is the right one, in spite of index and searches. */
    method Evaluate(q: Question, now: int, resolver: Option<Resolver>) returns (r: Result<Verdict, EvalError>)
      requires Valid()
      ensures RightAnswer(View(), q, now, resolver, r)
    {
      if q in grants { return Ok(ByGrant(generation)); }
      var ids := Entry(bySubject, q.subject);
      var s := Store(generation, grants, definitions, bindings, closed);
      assert Lists(ids, IdsOf(s.bindings, q.subject));
      hide Inv, IndexOk, RightAnswer, Lists, IdsOf;
      match resolver {
        case None => r := WalkUnresolved(s, ids, q, now);
        case Some(resolve) => r := Walk(s, ids, q, now, resolve);
      }
    }

    /** Saves the next state, installs it and rebuilds the index. */
    method CommitLocked(grants': set<Question>, definitions': map<string, Definition>,
        bindings': map<string, Binding>, saveOk: bool)
      returns (r: Result<(), Error>)
      requires Valid()
      modifies this
      ensures (View(), r) == Commit(old(View()), grants', definitions', bindings', saveOk)
      ensures IndexOk(bindings, bySubject)
    {
      hide IndexOk;
      if closed { return Err(Closed); }
      if generation >= MAX_REVISION { return Err(Exhausted); }
      if !saveOk { return Err(SaveFailed); }
      grants, definitions, bindings := grants', definitions', bindings';
      generation := generation + 1;
      var groups := GroupBySubject(bindings);
      bySubject := SortGroups(bindings, groups);
      r := Ok(());
    }

    method Grant(q: Question, wellFormed: bool, saveOk: bool) returns (r: Result<(), Error>)
      requires Valid()
      modifies this
      ensures Valid() && (View(), r) == Policy.Grant(old(View()), q, wellFormed, saveOk)
    {
      hide IndexOk, Commit;
      GrantKeeps(View(), q, wellFormed, saveOk);
      hide Inv;
      if !wellFormed || q.subject == 0 { return Err(InvalidInput); }
      if q in grants { return Ok(()); }
      if |grants| >= MAX_ITEMS { return Err(LimitReached); }
      r := CommitLocked(grants + {q}, definitions, bindings, saveOk);
    }

    method Revoke(q: Question, wellFormed: bool, saveOk: bool) returns (r: Result<(), Error>)
      requires Valid()
      modifies this
      ensures Valid() && (View(), r) == Policy.Revoke(old(View()), q, wellFormed, saveOk)
    {
      hide IndexOk, Commit;
      GrantKeeps(View(), q, wellFormed, saveOk);
      hide Inv;
      if !wellFormed || q.subject == 0 { return Err(InvalidInput); }
      if q !in grants { return Ok(()); }
      r := CommitLocked(grants - {q}, definitions, bindings, saveOk);
    }

    /** Deletes every grant and every binding of a subject, one by one. */
    method RevokeSubject(subject: NodeId, saveOk: bool) returns (r: Result<(), Error>)
      requires Valid()
      modifies this
      ensures Valid() && (View(), r) == Policy.RevokeSubject(old(View()), subject, saveOk)
    {
      hide IndexOk, Commit;
      RevokeSubjectKeeps(View(), subject, saveOk);
      hide Inv;
      if subject == 0 { return Err(InvalidInput); }
      var nextGrants, leftGrants := grants, grants;
      while leftGrants != {}
        invariant leftGrants <= grants
        invariant forall q :: q in nextGrants <==> q in grants && (q in leftGrants || q.subject != subject)
        decreases |leftGrants|
      {
        var q :| q in leftGrants;
        leftGrants := leftGrants - {q};
        if q.subject == subject { nextGrants := nextGrants - {q}; }
      }
      var nextBindings := DropSubject(bindings, subject);
      assert nextGrants == set q | q in grants && q.subject != subject;
      if nextGrants == grants && nextBindings == bindings { return Ok(()); }
      r := CommitLocked(nextGrants, definitions, nextBindings, saveOk);
    }

    method PutDefinition(p: Put, saveOk: bool) returns (r: Result<(), Error>)
      requires Valid()
      modifies this
      ensures Valid() && (View(), r) == Policy.PutDefinition(old(View()), p, saveOk)
    {
      hide IndexOk, Commit, RulesOk, SortedRules;
      PutKeeps(View(), p, saveOk);
      hide Inv;
      var wellFormed := RulesOk(p.rules);
      if !p.texts || p.expected > MAX_REVISION || !wellFormed { return Err(InvalidInput); }
      if p.expected == 0 {
        if p.id in definitions { return Err(Conflict); }
        if |definitions| >= MAX_ITEMS { return Err(LimitReached); }
      } else {
        if p.id !in definitions { return Err(NotFound); }
        if definitions[p.id].immutable { return Err(Immutable); }
        if definitions[p.id].revision != p.expected { return Err(Conflict); }
        if definitions[p.id].revision == MAX_REVISION { return Err(Exhausted); }
      }
      var revision := 1;
      if p.id in definitions { revision := definitions[p.id].revision + 1; }
      r := CommitLocked(grants, definitions[p.id := Definition(p.id, p.title, revision, false, SortedRules(p.rules))],
        bindings, saveOk);
    }

    method DeleteDefinition(id: string, expected: nat, texts: bool, saveOk: bool) returns (r: Result<(), Error>)
      requires Valid()
      modifies this
      ensures Valid() && (View(), r) == Policy.DeleteDefinition(old(View()), id, expected, texts, saveOk)
    {
      hide IndexOk, Commit;
      DeleteKeeps(View(), id, expected, texts, saveOk);
      hide Inv;
      if !texts || expected == 0 || expected > MAX_REVISION { return Err(InvalidInput); }
      if id !in definitions { return Err(NotFound); }
      if definitions[id].immutable { return Err(Immutable); }
      if definitions[id].revision != expected { return Err(Conflict); }
      var left := bindings.Keys;
      while left != {}
        invariant left <= bindings.Keys && forall b :: b in bindings && b !in left ==> bindings[b].definition != id
        decreases |left|
      {
        var b :| b in left;
        if bindings[b].definition == id { return Err(Conflict); }
        left := left - {b};
      }
      r := CommitLocked(grants, definitions - {id}, bindings, saveOk);
    }

    method CreateBinding(c: Create, actor: NodeId, now: int, saveOk: bool) returns (r: Result<(), Error>)
      requires Valid()
      modifies this
      ensures Valid() && (View(), r) == Policy.CreateBinding(old(View()), c, actor, now, saveOk)
    {
      hide IndexOk, Commit, HexId;
      CreateKeeps(View(), c, actor, now, saveOk);
      hide Inv;
      if !c.texts || !HexId(c.id, 16) || c.subject == 0 || c.expiresAt < 0 || actor == 0 { return Err(InvalidInput); }
      if c.definition !in definitions { return Err(NotFound); }
      if c.id in bindings {
        if SameAs(bindings[c.id], c) { return Ok(()); }
        return Err(Conflict);
      }
      if |bindings| >= MAX_ITEMS { return Err(LimitReached); }
      if c.expiresAt != 0 && c.expiresAt <= now { return Err(InvalidInput); }
      if now <= 0 { return Err(InvalidInput); }
      var b := Binding(c.id, c.subject, c.definition, c.scope, actor, now, c.expiresAt);
      r := CommitLocked(grants, definitions, bindings[c.id := b], saveOk);
    }

    method RevokeBinding(id: string, saveOk: bool) returns (r: Result<(), Error>)
      requires Valid()
      modifies this
      ensures Valid() && (View(), r) == Policy.RevokeBinding(old(View()), id, saveOk)
    {
      hide IndexOk, Commit, HexId;
      DropKeeps(View(), id, 0, saveOk);
      hide Inv, Policy.ExpireBindings;
      if !HexId(id, 16) { return Err(InvalidInput); }
      if id !in bindings { return Ok(()); }
      r := CommitLocked(grants, definitions, bindings - {id}, saveOk);
    }

    /** The expiry timer: deletes what has expired, if anything has. */
    method ExpireBindings(now: int, saveOk: bool) returns (r: Result<(), Error>)
      requires Valid()
      modifies this
      ensures Valid() && (View(), r) == Policy.ExpireBindings(old(View()), now, saveOk)
    {
      hide IndexOk, Commit, Live;
      DropKeeps(View(), "", now, saveOk);
      hide Inv, Policy.RevokeBinding;
      if closed { return Err(Closed); }
      var next := DropExpired(bindings, now);
      if next == bindings { return Ok(()); }
      r := CommitLocked(grants, definitions, next, saveOk);
    }

    method Close()
      requires Valid()
      modifies this
      ensures Valid() && View() == Policy.Close(old(View()))
    {
      hide IndexOk;
      CloseKeeps(View());
      hide Inv;
      closed := true;
    }
  }

  method DropSubject(bindings: map<string, Binding>, subject: NodeId) returns (r: map<string, Binding>)
    ensures r == map id | id in bindings && bindings[id].subject != subject :: bindings[id]
  {
    r := bindings;
    var left := bindings.Keys;
    while left != {}
      invariant left <= bindings.Keys && r.Keys <= bindings.Keys
      invariant forall id :: id in bindings ==> (id in r <==> id in left || bindings[id].subject != subject)
      invariant forall id :: id in r ==> r[id] == bindings[id]
      decreases |left|
    {
      var id :| id in left;
      left := left - {id};
      if bindings[id].subject == subject { r := r - {id}; }
    }
  }

  method DropExpired(bindings: map<string, Binding>, now: int) returns (r: map<string, Binding>)
    ensures r == LiveOnly(bindings, now)
  {
    r := bindings;
    var left := bindings.Keys;
    while left != {}
      invariant left <= bindings.Keys && r.Keys <= bindings.Keys
      invariant forall id :: id in bindings ==> (id in r <==> id in left || Live(bindings[id], now))
      invariant forall id :: id in r ==> r[id] == bindings[id]
      decreases |left|
    {
      var id :| id in left;
      left := left - {id};
      if bindings[id].expiresAt != 0 && bindings[id].expiresAt <= now { r := r - {id}; }
    }
  }
}
