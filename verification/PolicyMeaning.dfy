/**
 * What a change of the policy means: exactly when each call succeeds, what it leaves in the store, and what it makes of
 * the answers the policy gives. Stated on the contents of the store before and after and on `Permitted`.
 */
module PolicyMeaning {
  import opened Basics
  import opened Ordering
  import opened PolicyRules
  import opened Policy

  predicate CanSave(s: Store, saveOk: bool) { !s.closed && s.generation < MAX_REVISION && saveOk }

  /** The store holds exactly this now; a new generation counts the change, if there was one. */
  predicate Holds(s: Store, t: Store, grants: set<Question>, definitions: map<string, Definition>,
      bindings: map<string, Binding>) {
    && t.grants == grants && t.definitions == definitions && t.bindings == bindings && t.closed == s.closed
    && t.generation
       == if grants == s.grants && definitions == s.definitions && bindings == s.bindings then s.generation
          else s.generation + 1
  }

  /** The answers are the same but for the questions the change is about. */
  ghost predicate SameAnswers(s: Store, t: Store, about: Question -> bool, from: int) {
    forall q: Question, now: int, resolve: Resolver :: !about(q) && now >= from ==>
      (Permitted(t, q, now, resolve) <==> Permitted(s, q, now, resolve))
  }

  /** This binding answers the question with yes. */
  predicate Answers(b: Binding, definitions: map<string, Definition>, q: Question, now: int, resolve: Resolver) {
    && b.subject == q.subject && Live(b, now) && resolve(b.scope, q.owner).InScope? && b.definition in definitions
    && SomeRule(definitions[b.definition].rules, q)
  }

  lemma PermittedIs(s: Store, q: Question, now: int, resolve: Resolver)
    ensures Permitted(s, q, now, resolve)
            <==> q in s.grants || exists id :: id in s.bindings
                                               && Answers(s.bindings[id], s.definitions, q, now, resolve)
  {
    hide SomeRule, Live;
    if id :| id in s.bindings && Answers(s.bindings[id], s.definitions, q, now, resolve) {
      assert s.bindings[id].subject == q.subject;
    }
  }

  // --------------------------------------------------------------------------- grants

  /** Granting succeeds exactly for a well-formed question that is granted already or can be added and saved. */
  lemma GrantMeans(s: Store, q: Question, wellFormed: bool, e: Event)
    requires e.call == DoGrant(q, wellFormed)
    ensures var (t, r) := Step(s, e);
            && (r.Ok? <==> && wellFormed && q.subject != 0
                           && (q in s.grants || (|s.grants| < MAX_ITEMS && CanSave(s, e.saveOk))))
            && (r.Ok? ==> Holds(s, t, s.grants + {q}, s.definitions, s.bindings)) && (r.Err? ==> t == s)
  {
    if q in s.grants { assert s.grants + {q} == s.grants; }
  }

  /** After a grant the question is permitted whatever the time and the topology, and nothing else is different. */
  lemma GrantPermits(s: Store, q: Question, wellFormed: bool, e: Event)
    requires e.call == DoGrant(q, wellFormed) && Step(s, e).1.Ok?
    ensures forall now: int, resolve: Resolver :: Permitted(Step(s, e).0, q, now, resolve)
    ensures SameAnswers(s, Step(s, e).0, (x: Question) => x == q, e.now)
  {
    GrantMeans(s, q, wellFormed, e);
    hide Step;
  }

  /** Revoking succeeds exactly for a well-formed question that is not granted or can be taken out and saved. */
  lemma RevokeMeans(s: Store, q: Question, wellFormed: bool, e: Event)
    requires e.call == DoRevoke(q, wellFormed)
    ensures var (t, r) := Step(s, e);
            && (r.Ok? <==> wellFormed && q.subject != 0 && (q in s.grants ==> CanSave(s, e.saveOk)))
            && (r.Ok? ==> Holds(s, t, s.grants - {q}, s.definitions, s.bindings)) && (r.Err? ==> t == s)
  {
    if q !in s.grants { assert s.grants - {q} == s.grants; }
  }

  /** After a revocation the question is permitted only by a binding, and nothing else is different. */
  lemma RevokeForbids(s: Store, q: Question, wellFormed: bool, e: Event)
    requires e.call == DoRevoke(q, wellFormed) && Step(s, e).1.Ok?
    ensures var t := Step(s, e).0;
            && q !in t.grants && SameAnswers(s, t, (x: Question) => x == q, e.now)
            && forall now: int, resolve: Resolver ::
                 Permitted(t, q, now, resolve)
                 <==> exists id :: id in s.bindings && Answers(s.bindings[id], s.definitions, q, now, resolve)
  {
    RevokeMeans(s, q, wellFormed, e);
    hide Step;
    var t := Step(s, e).0;
    forall now: int, resolve: Resolver | true
      ensures Permitted(t, q, now, resolve)
              <==> exists id :: id in s.bindings && Answers(s.bindings[id], s.definitions, q, now, resolve)
    {
      PermittedIs(t, q, now, resolve);
    }
    hide Answers;
  }

  /** Revoking a subject succeeds exactly when there is nothing of it, or it can be taken out and saved. */
  lemma RevokeSubjectMeans(s: Store, subject: NodeId, e: Event)
    requires e.call == DoRevokeSubject(subject)
    ensures var (t, r) := Step(s, e);
            var grants := set q | q in s.grants && q.subject != subject;
            var bindings := map id | id in s.bindings && s.bindings[id].subject != subject :: s.bindings[id];
            && (r.Ok? <==> && subject != 0
                           && (|| CanSave(s, e.saveOk)
                               || ((forall q :: q in s.grants ==> q.subject != subject)
                                   && (forall id :: id in s.bindings ==> s.bindings[id].subject != subject))))
            && (r.Ok? ==> Holds(s, t, grants, s.definitions, bindings)) && (r.Err? ==> t == s)
  {
    var grants := set q | q in s.grants && q.subject != subject;
    var bindings := map id | id in s.bindings && s.bindings[id].subject != subject :: s.bindings[id];
    assert grants == s.grants <==> forall q :: q in s.grants ==> q.subject != subject by {
      if q :| q in s.grants && q.subject == subject { assert q !in grants; }
    }
    assert bindings == s.bindings <==> forall id :: id in s.bindings ==> s.bindings[id].subject != subject by {
      if id :| id in s.bindings && s.bindings[id].subject == subject { assert id !in bindings; }
    }
  }

  /** Nothing at all is permitted to a revoked subject, and nothing is different for any other. */
  lemma RevokedSubjectMayNothing(s: Store, subject: NodeId, e: Event)
    requires e.call == DoRevokeSubject(subject) && Step(s, e).1.Ok?
    ensures var t := Step(s, e).0;
            && SameAnswers(s, t, (q: Question) => q.subject == subject, e.now)
            && forall q: Question, now: int, resolve: Resolver ::
                 q.subject == subject ==> !Permitted(t, q, now, resolve)
  {
    RevokeSubjectMeans(s, subject, e);
    hide Step;
    var t := Step(s, e).0;
    forall q: Question, now: int, resolve: Resolver | q.subject != subject
      ensures Permitted(t, q, now, resolve) <==> Permitted(s, q, now, resolve)
    {
      PermittedIs(s, q, now, resolve);
      PermittedIs(t, q, now, resolve);
      hide Permitted;
      if id :| id in s.bindings && Answers(s.bindings[id], s.definitions, q, now, resolve) { assert id in t.bindings; }
      if id :| id in t.bindings && Answers(t.bindings[id], s.definitions, q, now, resolve) { assert id in s.bindings; }
    }
  }

  // ----------------------------------------------------------------------- definitions

  /** The expected revision is that of the definition, or none where there is none yet. */
  predicate Expected(s: Store, id: string, expected: nat) {
    if expected == 0 then id !in s.definitions && |s.definitions| < MAX_ITEMS
    else
      && id in s.definitions && !s.definitions[id].immutable && s.definitions[id].revision == expected
      && expected < MAX_REVISION
  }

  /**
   * Putting a definition succeeds exactly for well-formed rules and the revision that is there, if it can be saved; it
   * then has the next revision, and matches exactly what the given rules match.
   */
  lemma PutMeans(s: Store, p: Put, e: Event)
    requires e.call == DoPut(p)
    ensures var (t, r) := Step(s, e);
            && (r.Ok? <==> p.texts && RulesOk(p.rules) && Expected(s, p.id, p.expected) && CanSave(s, e.saveOk))
            && (r.Err? ==> t == s)
            && (r.Ok? ==>
                  && p.id in t.definitions && t.definitions - {p.id} == s.definitions - {p.id}
                  && t.grants == s.grants && t.bindings == s.bindings && t.generation == s.generation + 1 && !t.closed
                  && var d := t.definitions[p.id];
                     && d.id == p.id && d.title == p.title && d.revision == p.expected + 1 && !d.immutable
                     && forall q: Question :: SomeRule(d.rules, q) <==> SomeRule(p.rules, q))
  {
    PutCall(s, p, e);
    hide Step;
    var (t, r) := Step(s, e);
    if r.Ok? {
      var d := t.definitions[p.id];
      forall q: Question | true ensures SomeRule(d.rules, q) <==> SomeRule(p.rules, q) {
        StoredMatch(p.rules, q);
      }
    }
  }

  lemma StoredMatch(rules: seq<Rule>, q: Question)
    requires RulesOk(rules)
    ensures SomeRule(SortedRules(rules), q) <==> SomeRule(rules, q)
  {
    StoredRulesMeanTheSame(rules, q.name, q.capability);
    hide SortedRules, RulesOk, RuleMatches;
  }

  lemma PutCall(s: Store, p: Put, e: Event)
    requires e.call == DoPut(p)
    ensures var (t, r) := Step(s, e);
            && (r.Ok? <==> p.texts && RulesOk(p.rules) && Expected(s, p.id, p.expected) && CanSave(s, e.saveOk))
            && (r.Err? ==> t == s)
            && (r.Ok? ==>
                  && p.id in t.definitions && t.definitions - {p.id} == s.definitions - {p.id}
                  && t.grants == s.grants && t.bindings == s.bindings && t.generation == s.generation + 1 && !t.closed
                  && t.definitions[p.id] == Definition(p.id, p.title, p.expected + 1, false, SortedRules(p.rules)))
  {
    hide RulesOk, SortedRules;
  }

  /** Deleting succeeds exactly for the revision that is there, if no binding refers to it and it can be saved. */
  lemma DeleteMeans(s: Store, id: string, expected: nat, texts: bool, e: Event)
    requires e.call == DoDelete(id, expected, texts)
    ensures var (t, r) := Step(s, e);
            && (r.Ok? <==> && texts && 0 < expected <= MAX_REVISION && id in s.definitions
                           && !s.definitions[id].immutable && s.definitions[id].revision == expected
                           && (forall b :: b in s.bindings ==> s.bindings[b].definition != id) && CanSave(s, e.saveOk))
            && (r.Ok? ==> Holds(s, t, s.grants, s.definitions - {id}, s.bindings)) && (r.Err? ==> t == s)
  {}

  /** Deleting a definition changes no answer: nobody used it. */
  lemma DeleteChangesNoAnswer(s: Store, id: string, expected: nat, texts: bool, e: Event)
    requires e.call == DoDelete(id, expected, texts) && Step(s, e).1.Ok?
    ensures SameAnswers(s, Step(s, e).0, (q: Question) => false, e.now)
  {
    DeleteMeans(s, id, expected, texts, e);
    hide Step;
    var t := Step(s, e).0;
    forall q: Question, now: int, resolve: Resolver | true
      ensures Permitted(t, q, now, resolve) <==> Permitted(s, q, now, resolve)
    {
      PermittedIs(s, q, now, resolve);
      PermittedIs(t, q, now, resolve);
      hide Permitted, SomeRule, Live;
    }
  }

  // -------------------------------------------------------------------------- bindings

  /**
   * Creating a binding succeeds exactly when it is there as wanted, or is well formed, new, in time and can be saved.
   */
  lemma CreateMeans(s: Store, c: Create, actor: NodeId, e: Event)
    requires e.call == DoCreate(c, actor)
    ensures var (t, r) := Step(s, e);
            var made := Binding(c.id, c.subject, c.definition, c.scope, actor, e.now, c.expiresAt);
            && (r.Ok? <==> && c.texts && HexId(c.id, 16) && c.subject != 0 && c.expiresAt >= 0 && actor != 0
                           && c.definition in s.definitions
                           && (if c.id in s.bindings then SameAs(s.bindings[c.id], c)
                               else && |s.bindings| < MAX_ITEMS && e.now > 0 && Live(made, e.now)
                                    && CanSave(s, e.saveOk)))
            && (r.Ok? ==> Holds(s, t, s.grants, s.definitions,
                                if c.id in s.bindings then s.bindings else s.bindings[c.id := made]))
            && (r.Err? ==> t == s)
  {
    hide HexId;
  }

  /** A new binding permits exactly what its definition matches, to its subject, in its scope, until it expires. */
  lemma CreatePermits(s: Store, c: Create, actor: NodeId, e: Event, q: Question, now: int, resolve: Resolver)
    requires e.call == DoCreate(c, actor) && Step(s, e).1.Ok? && c.id !in s.bindings
    ensures var t := Step(s, e).0;
            && c.id in t.bindings
            && (Permitted(t, q, now, resolve)
                <==> || Permitted(s, q, now, resolve)
                     || (&& q.subject == c.subject && (c.expiresAt == 0 || now < c.expiresAt)
                         && resolve(c.scope, q.owner).InScope? && SomeRule(s.definitions[c.definition].rules, q)))
  {
    CreateMeans(s, c, actor, e);
    hide Step;
    var t := Step(s, e).0;
    PermittedIs(s, q, now, resolve);
    PermittedIs(t, q, now, resolve);
    hide Permitted, SomeRule, HexId;
    if id :| id in s.bindings && Answers(s.bindings[id], s.definitions, q, now, resolve) {
      assert t.bindings[id] == s.bindings[id];
    }
    if id :| id in t.bindings && Answers(t.bindings[id], s.definitions, q, now, resolve) {
      assert id == c.id || s.bindings[id] == t.bindings[id];
    }
  }

  /** Revoking a binding succeeds exactly when it is not there, or can be taken out and saved; no other is touched. */
  lemma RevokeBindingMeans(s: Store, id: string, e: Event)
    requires e.call == DoRevokeBinding(id)
    ensures var (t, r) := Step(s, e);
            && (r.Ok? <==> HexId(id, 16) && (id in s.bindings ==> CanSave(s, e.saveOk)))
            && (r.Ok? ==> Holds(s, t, s.grants, s.definitions, s.bindings - {id})) && (r.Err? ==> t == s)
  {
    hide HexId;
    if id !in s.bindings { assert s.bindings - {id} == s.bindings; }
  }

  /** Expiring succeeds exactly on an open store with nothing to expire, or one that can be saved. */
  lemma ExpireMeans(s: Store, e: Event)
    requires e.call == DoExpire
    ensures var (t, r) := Step(s, e);
            && (r.Ok? <==> && !s.closed
                           && ((forall id :: id in s.bindings ==> Live(s.bindings[id], e.now)) || CanSave(s, e.saveOk)))
            && (r.Err? ==> t == s)
            && (r.Ok? ==>
                  && (forall id :: id in t.bindings <==> id in s.bindings && Live(s.bindings[id], e.now))
                  && Holds(s, t, s.grants, s.definitions, t.bindings)
                  && forall id :: id in t.bindings ==> t.bindings[id] == s.bindings[id])
  {
    hide Live;
    var left := LiveOnly(s.bindings, e.now);
    if forall id :: id in s.bindings ==> Live(s.bindings[id], e.now) {
      assert left == s.bindings;
    } else {
      var id :| id in s.bindings && !Live(s.bindings[id], e.now);
      assert id !in left;
    }
  }

  /** Expired bindings are forgotten without changing any answer from then on. */
  lemma ExpireChangesNoAnswer(s: Store, e: Event)
    requires e.call == DoExpire && Step(s, e).1.Ok?
    ensures SameAnswers(s, Step(s, e).0, (q: Question) => false, e.now)
  {
    ExpireMeans(s, e);
    hide Step;
    var t := Step(s, e).0;
    forall q: Question, now: int, resolve: Resolver | now >= e.now
      ensures Permitted(t, q, now, resolve) <==> Permitted(s, q, now, resolve)
    {
      PermittedIs(s, q, now, resolve);
      PermittedIs(t, q, now, resolve);
      hide Permitted, SomeRule;
      if id :| id in s.bindings && Answers(s.bindings[id], s.definitions, q, now, resolve) {
        assert Live(s.bindings[id], e.now) && id in t.bindings;
      }
    }
  }

  // ------------------------------------------------------------------------------ runs

  /** The call took this grant away. */
  predicate TakesGrant(c: Call, q: Question) {
    match c
    case DoRevoke(x, _) => x == q
    case DoRevokeSubject(subject) => q.subject == subject
    case _ => false
  }

  lemma GrantsMove(s: Store, e: Event, q: Question)
    ensures var (t, r) := Step(s, e);
            q in t.grants
            <==> || (r.Ok? && e.call.DoGrant? && e.call.question == q)
                 || (q in s.grants && !(r.Ok? && TakesGrant(e.call, q)))
  {
    match e.call {
      case DoGrant(x, wf) => GrantMeans(s, x, wf, e);
      case DoRevoke(x, wf) => RevokeMeans(s, x, wf, e);
      case DoRevokeSubject(subject) => RevokeSubjectMeans(s, subject, e);
      case _ => OtherGrants(s, e);
    }
    hide Step, CanSave;
  }

  lemma OtherGrants(s: Store, e: Event)
    requires !e.call.DoGrant? && !e.call.DoRevoke? && !e.call.DoRevokeSubject?
    ensures Step(s, e).0.grants == s.grants
  {
    hide HexId, RulesOk, SortedRules, Live;
  }

  /** The grant of step `i` still stands at `j`. */
  ghost predicate StandsSince(states: seq<Store>, events: seq<Event>, i: nat, j: nat, q: Question) {
    && i < j < |states| && j <= |events| && events[i].call.DoGrant? && events[i].call.question == q
    && Step(states[i], events[i]).1.Ok?
    && forall k :: i < k < j ==> !(Step(states[k], events[k]).1.Ok? && TakesGrant(events[k].call, q))
  }

  /** In every run a question is granted exactly when it was granted once and not taken away since. */
  lemma {:induction false} GrantStandsExactly(states: seq<Store>, events: seq<Event>, j: nat, q: Question)
    requires IsRun(states, events) && j < |states|
    ensures q in states[j].grants <==> exists i: nat :: StandsSince(states, events, i, j, q)
  {
    hide Step;
    if j > 0 {
      GrantStandsExactly(states, events, j - 1, q);
      var s, e := states[j - 1], events[j - 1];
      assert states[(j - 1) + 1] == Step(s, e).0;
      GrantsMove(s, e, q);
      if q in states[j].grants {
        if Step(s, e).1.Ok? && e.call.DoGrant? && e.call.question == q {
          assert StandsSince(states, events, j - 1, j, q);
        } else {
          var i: nat :| StandsSince(states, events, i, j - 1, q);
          assert StandsSince(states, events, i, j, q);
        }
      }
      if i: nat :| StandsSince(states, events, i, j, q) && i < j - 1 {
        assert StandsSince(states, events, i, j - 1, q);
      }
    } else {
      assert states[0] == Fresh();
    }
  }

  /** The call took this binding away at that time. */
  predicate TakesBinding(e: Event, id: string, b: Binding) {
    match e.call
    case DoRevokeBinding(x) => x == id
    case DoRevokeSubject(subject) => b.subject == subject
    case DoExpire => !Live(b, e.now)
    case _ => false
  }

  /** The call made this binding. */
  predicate MakesBinding(e: Event, id: string, b: Binding) {
    && e.call.DoCreate?
    && var c := e.call.create;
       c.id == id && b == Binding(c.id, c.subject, c.definition, c.scope, e.call.actor, e.now, c.expiresAt)
  }

  lemma BindingsMove(s: Store, e: Event, id: string, b: Binding)
    ensures var (t, r) := Step(s, e);
            id in t.bindings && t.bindings[id] == b
            <==> || (r.Ok? && id !in s.bindings && MakesBinding(e, id, b))
                 || (id in s.bindings && s.bindings[id] == b && !(r.Ok? && TakesBinding(e, id, b)))
  {
    hide HexId, Live;
    match e.call {
      case DoCreate(c, actor) => CreateMeans(s, c, actor, e);
      case DoRevokeBinding(x) => RevokeBindingMeans(s, x, e);
      case DoRevokeSubject(subject) => RevokeSubjectMeans(s, subject, e);
      case DoExpire => ExpireMeans(s, e);
      case _ => OtherBindings(s, e);
    }
    hide Step, CanSave;
  }

  lemma OtherBindings(s: Store, e: Event)
    requires !e.call.DoCreate? && !e.call.DoRevokeBinding? && !e.call.DoRevokeSubject? && !e.call.DoExpire?
    ensures Step(s, e).0.bindings == s.bindings
  {
    hide HexId, RulesOk, SortedRules, Live;
  }

  /** The binding made by step `i` still stands at `j`. */
  ghost predicate BoundSince(states: seq<Store>, events: seq<Event>, i: nat, j: nat, id: string, b: Binding) {
    && i < j < |states| && j <= |events| && id !in states[i].bindings && MakesBinding(events[i], id, b)
    && Step(states[i], events[i]).1.Ok?
    && forall k :: i < k < j ==> !(Step(states[k], events[k]).1.Ok? && TakesBinding(events[k], id, b))
  }

  /** In every run a binding is there exactly when it was made once and not taken away since. */
  lemma {:induction false} BindingStandsExactly(states: seq<Store>, events: seq<Event>, j: nat, id: string, b: Binding)
    requires IsRun(states, events) && j < |states|
    ensures id in states[j].bindings && states[j].bindings[id] == b
            <==> exists i: nat :: BoundSince(states, events, i, j, id, b)
  {
    hide Step, MakesBinding, TakesBinding;
    if j > 0 {
      BindingStandsExactly(states, events, j - 1, id, b);
      var s, e := states[j - 1], events[j - 1];
      assert states[(j - 1) + 1] == Step(s, e).0;
      BindingsMove(s, e, id, b);
      if id in states[j].bindings && states[j].bindings[id] == b {
        if Step(s, e).1.Ok? && id !in s.bindings && MakesBinding(e, id, b) {
          assert BoundSince(states, events, j - 1, j, id, b);
        } else {
          var i: nat :| BoundSince(states, events, i, j - 1, id, b);
          assert BoundSince(states, events, i, j, id, b);
        }
      }
      if i: nat :| BoundSince(states, events, i, j, id, b) && i < j - 1 {
        assert BoundSince(states, events, i, j - 1, id, b);
      }
    } else {
      assert states[0] == Fresh();
    }
  }
}
