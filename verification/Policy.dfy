/**
 * The policy of an authority: exact grants, rule definitions, and bindings that apply a definition to
 * a subject within an owner scope until they expire.
 */
module Policy {
  import opened Basics
  import opened Ordering
  import opened PolicyRules

  const MAX_ITEMS: int := 4096
  const MAX_REVISION: int := 0x1F_FFFF_FFFF_FFFF
  const SUPERADMIN: string := "superadmin"

  datatype Definition = Definition(id: string, title: string, revision: nat, immutable: bool, rules: seq<Rule>)

  datatype Scope = Scope(kind: string, node: NodeId)

  datatype Binding = Binding(
    id: string, subject: NodeId, definition: string, scope: Scope, createdBy: NodeId, createdAt: int, expiresAt: int)

  /** A question: may this subject use this capability on this resource? */
  datatype Question = Question(subject: NodeId, capability: string, owner: NodeId, name: string)

  datatype Store = Store(
    generation: nat, grants: set<Question>, definitions: map<string, Definition>, bindings: map<string, Binding>,
      closed: bool)

  function Superadmin(): (d: Definition) {
    Definition(SUPERADMIN, "Super administrator", 1, true, [Rule(AnyResource, AnyCapability)])
  }

  // ------------------------------------------------------------- what evaluation means

  /** The topology's answer about a scope. */
  datatype ScopeAnswer = InScope(epoch: nat) | OutOfScope | ScopeFails

  type Resolver = (Scope, NodeId) -> ScopeAnswer

  predicate Live(b: Binding, now: int) { b.expiresAt == 0 || b.expiresAt > now }

  predicate SomeRule(rules: seq<Rule>, q: Question)
  {
    exists i :: 0 <= i < |rules| && RuleMatches(rules[i], q.name, q.capability)
  }

  predicate FirstRule(rules: seq<Rule>, q: Question, i: nat) {
    && i < |rules| && RuleMatches(rules[i], q.name, q.capability)
    && forall j :: 0 <= j < i ==> !RuleMatches(rules[j], q.name, q.capability)
  }

  /** A live binding of the subject whose scope cannot be resolved, or covers the resource with a matching rule. */
  predicate Decisive(s: Store, id: string, q: Question, now: int, resolve: Resolver) {
    && id in s.bindings && s.bindings[id].subject == q.subject && Live(s.bindings[id], now)
    && var answer := resolve(s.bindings[id].scope, q.owner);
       answer.ScopeFails? || (answer.InScope? && s.bindings[id].definition in s.definitions
                              && SomeRule(s.definitions[s.bindings[id].definition].rules, q))
  }

  /** The decisive binding with the smallest identifier. */
  ghost predicate FirstDecisive(s: Store, id: string, q: Question, now: int, resolve: Resolver) {
    Decisive(s, id, q, now, resolve) && forall other :: Decisive(s, other, q, now, resolve) && other != id
                                                        ==> Less(id, other)
  }

  /** A live binding of the subject, whatever its scope. */
  predicate SomeLive(s: Store, q: Question, now: int) {
    exists id :: id in s.bindings && s.bindings[id].subject == q.subject && Live(s.bindings[id], now)
  }

  datatype Verdict =
    | ByGrant(generation: nat)
    | ByBinding(generation: nat, epoch: nat, binding: string, definition: string, revision: nat, rule: nat,
      scope: Scope)
    | Denied(generation: nat)

  datatype EvalError = ScopeUnavailable | ScopeFailed(binding: string)

  /** What an evaluation is allowed to answer, stated without any search order. */
  ghost predicate RightAnswer(s: Store, q: Question, now: int, resolver: Option<Resolver>,
      r: Result<Verdict, EvalError>) {
    if q in s.grants then r == Ok(ByGrant(s.generation))
    else if resolver.None? then
      if SomeLive(s, q, now) then r == Err(ScopeUnavailable) else r == Ok(Denied(s.generation))
    else
      match r
      case Err(ScopeUnavailable) => false
      case Err(ScopeFailed(id)) =>
        FirstDecisive(s, id, q, now, resolver.value) && resolver.value(s.bindings[id].scope, q.owner).ScopeFails?
      case Ok(ByGrant(_)) => false
      case Ok(Denied(generation)) => generation == s.generation && forall id :: !Decisive(s, id, q, now, resolver.value)
      case Ok(ByBinding(generation, epoch, id, definition, revision, rule, scope)) =>
        && FirstDecisive(s, id, q, now, resolver.value) && generation == s.generation
        && resolver.value(s.bindings[id].scope, q.owner) == InScope(epoch) && scope == s.bindings[id].scope
        && definition == s.bindings[id].definition && definition in s.definitions
           && revision == s.definitions[definition].revision
        && FirstRule(s.definitions[definition].rules, q, rule)
  }

  /** The plain meaning: an exact grant, or a live in-scope binding with a matching rule. */
  ghost predicate Permitted(s: Store, q: Question, now: int, resolve: Resolver) {
    q in s.grants
    || exists id :: id in s.bindings && s.bindings[id].subject == q.subject && Live(s.bindings[id], now)
                    && resolve(s.bindings[id].scope, q.owner).InScope?
                    && s.bindings[id].definition in s.definitions
                       && SomeRule(s.definitions[s.bindings[id].definition].rules, q)
  }

  ghost predicate NeverFails(resolve: Resolver, s: Store, q: Question) {
    forall id :: id in s.bindings ==> !resolve(s.bindings[id].scope, q.owner).ScopeFails?
  }

  /** Whatever the scope resolver does, an answer that is not an error allows exactly what is permitted. */
  lemma AnswersArePermissions(s: Store, q: Question, now: int, resolver: Option<Resolver>,
      r: Result<Verdict, EvalError>)
    requires RightAnswer(s, q, now, resolver, r) && r.Ok?
    ensures !r.value.Denied?
            <==> q in s.grants || (resolver.Some? && Permitted(s, q, now, resolver.value))
  {
    hide SomeRule, FirstRule, Live;
    if q !in s.grants && resolver.Some? {
      match r.value {
        case Denied(_) =>
          forall id | id in s.bindings ensures !Decisive(s, id, q, now, resolver.value) {}
        case _ =>
      }
    }
  }

  /** With a scope resolver that does not fail, evaluation allows exactly what is permitted. */
  lemma AllowsExactlyWhatIsPermitted(s: Store, q: Question, now: int, resolve: Resolver, r: Result<Verdict, EvalError>)
    requires RightAnswer(s, q, now, Some(resolve), r) && NeverFails(resolve, s, q)
    ensures r.Ok? && (!r.value.Denied? <==> Permitted(s, q, now, resolve))
  {
    assert r.Ok? by { hide Permitted, Live; }
    hide *;
    AnswersArePermissions(s, q, now, Some(resolve), r);
    GrantIsPermitted(s, q, now, resolve);
  }

  lemma GrantIsPermitted(s: Store, q: Question, now: int, resolve: Resolver)
    ensures q in s.grants ==> Permitted(s, q, now, resolve)
  {
  }

  /** There is only one right answer. */
  lemma AnswerIsUnique(s: Store, q: Question, now: int, resolver: Option<Resolver>, a: Result<Verdict, EvalError>,
      b: Result<Verdict, EvalError>)
    requires RightAnswer(s, q, now, resolver, a) && RightAnswer(s, q, now, resolver, b)
    ensures a == b
  {
    hide Decisive, FirstRule;
    if q !in s.grants && resolver.Some? {
      var ia, ib := NamedBinding(a), NamedBinding(b);
      if ia.Some? && ib.Some? {
        if ia != ib {
          LessAsymmetric(ia.value, ib.value);
        }
        OneFirstRule(s, q, a, b);
      }
    }
  }

  function NamedBinding(r: Result<Verdict, EvalError>): Option<string> {
    match r
    case Err(ScopeFailed(id)) => Some(id)
    case Ok(ByBinding(_, _, id, _, _, _, _)) => Some(id)
    case _ => None
  }

  lemma OneFirstRule(s: Store, q: Question, a: Result<Verdict, EvalError>, b: Result<Verdict, EvalError>)
    ensures a.Ok? && b.Ok? && a.value.ByBinding? && b.value.ByBinding? && a.value.definition == b.value.definition
            && a.value.definition in s.definitions
               && FirstRule(s.definitions[a.value.definition].rules, q, a.value.rule)
            && FirstRule(s.definitions[a.value.definition].rules, q, b.value.rule)
            ==> a.value.rule == b.value.rule
  {
  }

  // ---------------------------------------------------------------------- mutations

  datatype Error = Conflict | NotFound | Immutable | LimitReached | InvalidInput | Closed | Exhausted | SaveFailed

  /** Ends every mutation: nothing changes unless the new state could be saved. */
  function Commit(s: Store, grants: set<Question>, definitions: map<string, Definition>,
      bindings: map<string, Binding>, saveOk: bool):
    (r: (Store, Result<(), Error>))
  {
    if s.closed then (s, Err(Closed))
    else if s.generation >= MAX_REVISION then (s, Err(Exhausted))
    else if !saveOk then (s, Err(SaveFailed))
    else (Store(s.generation + 1, grants, definitions, bindings, false), Ok(()))
  }

  function Grant(s: Store, q: Question, wellFormed: bool, saveOk: bool): (r: (Store, Result<(), Error>)) {
    if !wellFormed || q.subject == 0 then (s, Err(InvalidInput))
    else if q in s.grants then (s, Ok(()))
    else if |s.grants| >= MAX_ITEMS then (s, Err(LimitReached))
    else Commit(s, s.grants + {q}, s.definitions, s.bindings, saveOk)
  }

  function Revoke(s: Store, q: Question, wellFormed: bool, saveOk: bool): (r: (Store, Result<(), Error>)) {
    if !wellFormed || q.subject == 0 then (s, Err(InvalidInput))
    else if q !in s.grants then (s, Ok(()))
    else Commit(s, s.grants - {q}, s.definitions, s.bindings, saveOk)
  }

  function RevokeSubject(s: Store, subject: NodeId, saveOk: bool): (r: (Store, Result<(), Error>)) {
    if subject == 0 then (s, Err(InvalidInput))
    else
      var grants := set q | q in s.grants && q.subject != subject;
      var bindings := map id | id in s.bindings && s.bindings[id].subject != subject :: s.bindings[id];
      if grants == s.grants && bindings == s.bindings then (s, Ok(()))
      else Commit(s, grants, s.definitions, bindings, saveOk)
  }

  datatype Put = Put(id: string, title: string, expected: nat, rules: seq<Rule>, texts: bool)

  /** Why a definition cannot be put, if so. */
  function PutProblem(s: Store, p: Put): (r: Option<Error>) {
    if !p.texts || p.expected > MAX_REVISION || !RulesOk(p.rules) then Some(InvalidInput)
    else if p.expected == 0 then
      if p.id in s.definitions then Some(Conflict) else if |s.definitions| >= MAX_ITEMS
                                                        then Some(LimitReached) else None
    else if p.id !in s.definitions then Some(NotFound)
    else if s.definitions[p.id].immutable then Some(Immutable)
    else if s.definitions[p.id].revision != p.expected then Some(Conflict)
    else if p.expected == MAX_REVISION then Some(Exhausted)
    else None
  }

  function PutResult(s: Store, p: Put): (d: Definition) {
    Definition(p.id, p.title, if p.id in s.definitions then s.definitions[p.id].revision
                                                            + 1 else 1, false, SortedRules(p.rules))
  }

  function PutDefinition(s: Store, p: Put, saveOk: bool): (r: (Store, Result<(), Error>)) {
    var problem := PutProblem(s, p);
    if problem.Some? then (s, Err(problem.value))
    else Commit(s, s.grants, s.definitions[p.id := PutResult(s, p)], s.bindings, saveOk)
  }

  function DeleteDefinition(s: Store, id: string, expected: nat, texts: bool,
      saveOk: bool): (r: (Store, Result<(), Error>)) {
    if !texts || expected == 0 || expected > MAX_REVISION then (s, Err(InvalidInput))
    else if id !in s.definitions then (s, Err(NotFound))
    else if s.definitions[id].immutable then (s, Err(Immutable))
    else if s.definitions[id].revision != expected then (s, Err(Conflict))
    else if exists b :: b in s.bindings && s.bindings[b].definition == id then (s, Err(Conflict))
    else Commit(s, s.grants, s.definitions - {id}, s.bindings, saveOk)
  }

  datatype Create = Create(id: string, subject: NodeId, definition: string, scope: Scope, expiresAt: int, texts: bool)

  predicate SameAs(b: Binding, c: Create) {
    b.id == c.id && b.subject == c.subject && b.definition == c.definition && b.scope == c.scope
      && b.expiresAt == c.expiresAt
  }

  function CreateBinding(s: Store, c: Create, actor: NodeId, now: int, saveOk: bool): (r: (Store, Result<(), Error>)) {
    if !c.texts || !HexId(c.id, 16) || c.subject == 0 || c.expiresAt < 0 || actor == 0 then (s, Err(InvalidInput))
    else if c.definition !in s.definitions then (s, Err(NotFound))
    else if c.id in s.bindings then
      if SameAs(s.bindings[c.id], c) then (s, Ok(())) else (s, Err(Conflict))
    else if |s.bindings| >= MAX_ITEMS then (s, Err(LimitReached))
    else if (c.expiresAt != 0 && c.expiresAt <= now) || now <= 0 then (s, Err(InvalidInput))
    else
      Commit(s, s.grants, s.definitions,
             s.bindings[c.id := Binding(c.id, c.subject, c.definition, c.scope, actor, now, c.expiresAt)], saveOk)
  }

  function RevokeBinding(s: Store, id: string, saveOk: bool): (r: (Store, Result<(), Error>)) {
    if !HexId(id, 16) then (s, Err(InvalidInput))
    else if id !in s.bindings then (s, Ok(()))
    else Commit(s, s.grants, s.definitions, s.bindings - {id}, saveOk)
  }

  function LiveOnly(bindings: map<string, Binding>, now: int): (r: map<string, Binding>) {
    map id | id in bindings && Live(bindings[id], now) :: bindings[id]
  }

  function ExpireBindings(s: Store, now: int, saveOk: bool): (r: (Store, Result<(), Error>)) {
    if s.closed then (s, Err(Closed))
    else if LiveOnly(s.bindings, now) == s.bindings then (s, Ok(()))
    else Commit(s, s.grants, s.definitions, LiveOnly(s.bindings, now), saveOk)
  }

  function Close(s: Store): (r: Store) { s.(closed := true) }

  // ------------------------------------------------------------------ runs

  datatype Call =
    | DoGrant(question: Question, wellFormed: bool)
    | DoRevoke(question: Question, wellFormed: bool)
    | DoRevokeSubject(subject: NodeId)
    | DoPut(put: Put)
    | DoDelete(id: string, expected: nat, texts: bool)
    | DoCreate(create: Create, actor: NodeId)
    | DoRevokeBinding(id: string)
    | DoExpire
    | DoClose

  datatype Event = Event(call: Call, now: int, saveOk: bool)

  function Step(s: Store, e: Event): (r: (Store, Result<(), Error>)) {
    match e.call
    case DoGrant(q, wf) => Grant(s, q, wf, e.saveOk)
    case DoRevoke(q, wf) => Revoke(s, q, wf, e.saveOk)
    case DoRevokeSubject(subject) => RevokeSubject(s, subject, e.saveOk)
    case DoPut(p) => PutDefinition(s, p, e.saveOk)
    case DoDelete(id, expected, texts) => DeleteDefinition(s, id, expected, texts, e.saveOk)
    case DoCreate(c, actor) => CreateBinding(s, c, actor, e.now, e.saveOk)
    case DoRevokeBinding(id) => RevokeBinding(s, id, e.saveOk)
    case DoExpire => ExpireBindings(s, e.now, e.saveOk)
    case DoClose => (Close(s), Ok(()))
  }

  function Fresh(): (s: Store) { Store(1, {}, map[SUPERADMIN := Superadmin()], map[], false) }

  ghost predicate IsRun(states: seq<Store>, events: seq<Event>) {
    && |states| == |events| + 1 && states[0] == Fresh()
    && forall i :: 0 <= i < |events| ==> states[i + 1] == Step(states[i], events[i]).0
  }

  // ------------------------------------------------------------------ invariant

  predicate DefinitionOk(id: string, d: Definition) {
    d.id == id && 1 <= d.revision <= MAX_REVISION && RulesOk(d.rules) && (d.immutable ==> id == SUPERADMIN)
  }

  ghost predicate DefinitionsOk(definitions: map<string, Definition>) {
    && (forall id :: id in definitions ==> DefinitionOk(id, definitions[id]))
    && SUPERADMIN in definitions && definitions[SUPERADMIN] == Superadmin() && |definitions| <= MAX_ITEMS
  }

  ghost predicate BindingsOk(definitions: map<string, Definition>, bindings: map<string, Binding>) {
    && (forall id :: id in bindings ==> bindings[id].id == id && bindings[id].subject != 0
                                        && bindings[id].definition in definitions)
    && |bindings| <= MAX_ITEMS
  }

  ghost predicate Inv(s: Store) {
    && 1 <= s.generation <= MAX_REVISION && |s.grants| <= MAX_ITEMS
    && DefinitionsOk(s.definitions) && BindingsOk(s.definitions, s.bindings)
  }

  lemma FreshInv()
    ensures Inv(Fresh())
  {
  }

  /** The closed store is left as it is, and refuses what would have changed the open one. */
  predicate Refused(s: Store, closed: (Store, Result<(), Error>), open: (Store, Result<(), Error>)) {
    closed.0 == s && (open.0.generation != s.generation ==> closed.1 == Err(Closed))
  }

  lemma ClosedGrants(s: Store, q: Question, wellFormed: bool, subject: NodeId, saveOk: bool)
    requires s.closed
    ensures var o := s.(closed := false);
            && Refused(s, Grant(s, q, wellFormed, saveOk), Grant(o, q, wellFormed, saveOk))
            && Refused(s, Revoke(s, q, wellFormed, saveOk), Revoke(o, q, wellFormed, saveOk))
            && Refused(s, RevokeSubject(s, subject, saveOk), RevokeSubject(o, subject, saveOk))
  {
  }

  lemma ClosedDefinitions(s: Store, p: Put, id: string, expected: nat, texts: bool, saveOk: bool)
    requires s.closed
    ensures var o := s.(closed := false);
            && Refused(s, PutDefinition(s, p, saveOk), PutDefinition(o, p, saveOk))
            && Refused(s, DeleteDefinition(s, id, expected, texts, saveOk),
               DeleteDefinition(o, id, expected, texts, saveOk))
  {
    var o := s.(closed := false);
    assert PutProblem(s, p) == PutProblem(o, p) by { hide RulesOk; }
    hide PutProblem, PutResult;
  }

  lemma ClosedBindings(s: Store, c: Create, actor: NodeId, id: string, now: int, saveOk: bool)
    requires s.closed
    ensures var o := s.(closed := false);
            && Refused(s, CreateBinding(s, c, actor, now, saveOk), CreateBinding(o, c, actor, now, saveOk))
            && Refused(s, RevokeBinding(s, id, saveOk), RevokeBinding(o, id, saveOk))
            && Refused(s, ExpireBindings(s, now, saveOk), ExpireBindings(o, now, saveOk))
  {
    hide HexId, Live, SameAs;
  }

  /** Once the store is closed no call changes it, and one that would have changed it is refused. */
  lemma ClosedStaysAsItIs(s: Store, e: Event)
    requires s.closed
    ensures Refused(s, Step(s, e), Step(s.(closed := false), e))
  {
    hide Grant, Revoke, RevokeSubject, PutDefinition, DeleteDefinition, CreateBinding, RevokeBinding, ExpireBindings;
    match e.call
    case DoGrant(q, wf) => ClosedGrants(s, q, wf, 0, e.saveOk);
    case DoRevoke(q, wf) => ClosedGrants(s, q, wf, 0, e.saveOk);
    case DoRevokeSubject(subject) => ClosedGrants(s, Question(0, "", 0, ""), false, subject, e.saveOk);
    case DoPut(p) => ClosedDefinitions(s, p, "", 0, false, e.saveOk);
    case DoDelete(id, expected, texts) => ClosedDefinitions(s, Put("", "", 0, [], false), id, expected, texts,
      e.saveOk);
    case DoCreate(c, actor) => ClosedBindings(s, c, actor, "", e.now, e.saveOk);
    case DoRevokeBinding(id) => ClosedBindings(s, Create("", 0, "", Scope("", 0), 0, false), 0, id, e.now, e.saveOk);
    case DoExpire => ClosedBindings(s, Create("", 0, "", Scope("", 0), 0, false), 0, "", e.now, e.saveOk);
    case DoClose =>
  }

  /** Over a run nothing happens to a store after it was closed. */
  lemma {:induction false} NothingChangesAfterClose(states: seq<Store>, events: seq<Event>, i: nat, j: nat)
    requires IsRun(states, events) && i <= j < |states| && states[i].closed
    ensures states[j] == states[i]
    decreases j
  {
    if i < j {
      NothingChangesAfterClose(states, events, i, j - 1);
      assert states[(j - 1) + 1] == Step(states[j - 1], events[j - 1]).0;
      hide Step;
      ClosedStaysAsItIs(states[j - 1], events[j - 1]);
    }
  }

  /** The state after a call is sound; a failed call changed nothing, and any change is a new generation. */
  ghost predicate Keeps(s: Store, r: (Store, Result<(), Error>)) {
    && Inv(r.0) && (r.1.Err? ==> r.0 == s)
    && (r.0.generation == s.generation + 1 || r.0 == s.(closed := r.0.closed))
  }

  lemma CommitKeeps(s: Store, grants: set<Question>, definitions: map<string, Definition>,
      bindings: map<string, Binding>, saveOk: bool)
    requires Inv(s) && |grants| <= MAX_ITEMS && DefinitionsOk(definitions) && BindingsOk(definitions, bindings)
    ensures Keeps(s, Commit(s, grants, definitions, bindings, saveOk))
  {
    hide DefinitionsOk, BindingsOk;
  }

  /** Fewer bindings, or the same bindings over more definitions, stay sound. */
  lemma FewerBindings(definitions: map<string, Definition>, bindings: map<string, Binding>, fewer: map<string, Binding>)
    requires BindingsOk(definitions, bindings) && fewer.Keys <= bindings.Keys
             && forall id :: id in fewer ==> fewer[id] == bindings[id]
    ensures BindingsOk(definitions, fewer)
  {
    SubsetIsSmaller(fewer.Keys, bindings.Keys);
    assert |fewer| == |fewer.Keys| && |bindings| == |bindings.Keys|;
  }

  lemma GrantKeeps(s: Store, q: Question, wellFormed: bool, saveOk: bool)
    requires Inv(s)
    ensures Keeps(s, Grant(s, q, wellFormed, saveOk)) && Keeps(s, Revoke(s, q, wellFormed, saveOk))
  {
    hide DefinitionsOk, BindingsOk;
    if |s.grants| < MAX_ITEMS { CommitKeeps(s, s.grants + {q}, s.definitions, s.bindings, saveOk); }
    SubsetIsSmaller(s.grants - {q}, s.grants);
    CommitKeeps(s, s.grants - {q}, s.definitions, s.bindings, saveOk);
    hide Commit;
  }

  lemma RevokeSubjectKeeps(s: Store, subject: NodeId, saveOk: bool)
    requires Inv(s)
    ensures Keeps(s, RevokeSubject(s, subject, saveOk))
  {
    hide DefinitionsOk, BindingsOk, Commit;
    var grants := set q | q in s.grants && q.subject != subject;
    var bindings := map id | id in s.bindings && s.bindings[id].subject != subject :: s.bindings[id];
    SubsetIsSmaller(grants, s.grants);
    FewerBindings(s.definitions, s.bindings, bindings);
    CommitKeeps(s, grants, s.definitions, bindings, saveOk);
  }

  lemma PutKeeps(s: Store, p: Put, saveOk: bool)
    requires Inv(s)
    ensures Keeps(s, PutDefinition(s, p, saveOk))
  {
    hide *;
    if PutProblem(s, p).None? {
      PutFacts(s, p);
      MoreDefinitions(s, p.id, PutResult(s, p));
      InvGrants(s);
      CommitKeeps(s, s.grants, s.definitions[p.id := PutResult(s, p)], s.bindings, saveOk);
    } else {
      SameKeeps(s, PutProblem(s, p).value);
    }
    PutUnfolds(s, p, saveOk);
  }

  lemma InvGrants(s: Store)
    requires Inv(s)
    ensures |s.grants| <= MAX_ITEMS
  {
  }

  lemma SameKeeps(s: Store, e: Error)
    requires Inv(s)
    ensures Keeps(s, (s, Err(e)))
  {
  }

  lemma PutUnfolds(s: Store, p: Put, saveOk: bool)
    ensures PutDefinition(s, p, saveOk)
            == if PutProblem(s, p).Some? then (s, Err(PutProblem(s, p).value))
               else Commit(s, s.grants, s.definitions[p.id := PutResult(s, p)], s.bindings, saveOk)
  {
    hide PutProblem, Commit;
  }

  lemma PutFacts(s: Store, p: Put)
    requires Inv(s) && PutProblem(s, p).None?
    ensures DefinitionOk(p.id, PutResult(s, p)) && p.id != SUPERADMIN
            && (p.id !in s.definitions ==> |s.definitions| < MAX_ITEMS)
  {
    StoredRulesMeanTheSame(p.rules, "", "");
    hide RulesOk, SortedRules;
  }

  lemma MoreDefinitions(s: Store, id: string, d: Definition)
    requires Inv(s) && DefinitionOk(id, d) && id != SUPERADMIN && (id !in s.definitions ==> |s.definitions| < MAX_ITEMS)
    ensures DefinitionsOk(s.definitions[id := d]) && BindingsOk(s.definitions[id := d], s.bindings)
  {
    hide DefinitionOk, Superadmin;
    var more := s.definitions[id := d];
    if id in s.definitions {
      assert more.Keys == s.definitions.Keys; assert |more| == |more.Keys| && |s.definitions| == |s.definitions.Keys|;
    }
  }

  lemma DeleteKeeps(s: Store, id: string, expected: nat, texts: bool, saveOk: bool)
    requires Inv(s)
    ensures Keeps(s, DeleteDefinition(s, id, expected, texts, saveOk))
  {
    hide Commit;
    if id in s.definitions && !s.definitions[id].immutable && !exists b :: b in s.bindings
                                                                           && s.bindings[b].definition == id {
      FewerDefinitions(s, id);
      hide DefinitionsOk, BindingsOk;
      CommitKeeps(s, s.grants, s.definitions - {id}, s.bindings, saveOk);
    }
  }

  lemma FewerDefinitions(s: Store, id: string)
    requires Inv(s) && id in s.definitions && !s.definitions[id].immutable
    requires forall b :: b in s.bindings ==> s.bindings[b].definition != id
    ensures DefinitionsOk(s.definitions - {id}) && BindingsOk(s.definitions - {id}, s.bindings)
  {
    hide DefinitionOk, RulesOk;
    var left := s.definitions - {id};
    SubsetIsSmaller(left.Keys, s.definitions.Keys);
    assert |left| == |left.Keys| && |s.definitions| == |s.definitions.Keys|;
  }

  lemma CreateKeeps(s: Store, c: Create, actor: NodeId, now: int, saveOk: bool)
    requires Inv(s)
    ensures Keeps(s, CreateBinding(s, c, actor, now, saveOk))
  {
    hide DefinitionsOk, HexId, Commit;
    if c.subject != 0 && c.definition in s.definitions && c.id !in s.bindings && |s.bindings| < MAX_ITEMS {
      CommitKeeps(s, s.grants, s.definitions,
                  s.bindings[c.id := Binding(c.id, c.subject, c.definition, c.scope, actor, now, c.expiresAt)], saveOk);
    }
  }

  lemma DropKeeps(s: Store, id: string, now: int, saveOk: bool)
    requires Inv(s)
    ensures Keeps(s, RevokeBinding(s, id, saveOk)) && Keeps(s, ExpireBindings(s, now, saveOk))
  {
    hide DefinitionsOk, BindingsOk, HexId, Live, Commit;
    FewerBindings(s.definitions, s.bindings, s.bindings - {id});
    FewerBindings(s.definitions, s.bindings, LiveOnly(s.bindings, now));
    CommitKeeps(s, s.grants, s.definitions, s.bindings - {id}, saveOk);
    CommitKeeps(s, s.grants, s.definitions, LiveOnly(s.bindings, now), saveOk);
    hide LiveOnly;
  }

  lemma CloseKeeps(s: Store)
    requires Inv(s)
    ensures Keeps(s, (Close(s), Ok(())))
  {
    hide DefinitionsOk, BindingsOk;
  }

  lemma StepKeeps(s: Store, e: Event)
    requires Inv(s)
    ensures Keeps(s, Step(s, e))
  {
    hide Inv, Keeps, Grant, Revoke, RevokeSubject, PutDefinition, DeleteDefinition, CreateBinding, RevokeBinding,
      ExpireBindings, Close;
    match e.call
    case DoGrant(q, wf) => GrantKeeps(s, q, wf, e.saveOk);
    case DoRevoke(q, wf) => GrantKeeps(s, q, wf, e.saveOk);
    case DoRevokeSubject(subject) => RevokeSubjectKeeps(s, subject, e.saveOk);
    case DoPut(p) => PutKeeps(s, p, e.saveOk);
    case DoDelete(id, expected, texts) => DeleteKeeps(s, id, expected, texts, e.saveOk);
    case DoCreate(c, actor) => CreateKeeps(s, c, actor, e.now, e.saveOk);
    case DoRevokeBinding(id) => DropKeeps(s, id, e.now, e.saveOk);
    case DoExpire => DropKeeps(s, "", e.now, e.saveOk);
    case DoClose => CloseKeeps(s);
  }

  lemma {:induction false} RunKeeps(states: seq<Store>, events: seq<Event>, i: nat)
    requires IsRun(states, events) && i < |states|
    ensures Inv(states[i])
  {
    hide Inv, Step;
    if i == 0 {
      FreshInv();
    } else {
      RunKeeps(states, events, i - 1);
      StepKeeps(states[i - 1], events[i - 1]);
      assert states[(i - 1) + 1] == Step(states[i - 1], events[i - 1]).0;
    }
  }

  /** In every run every binding refers to an existing definition and the superadmin definition is untouched. */
  lemma DefinitionsStand(states: seq<Store>, events: seq<Event>, i: nat, id: string)
    requires IsRun(states, events) && i < |states| && id in states[i].bindings
    ensures states[i].bindings[id].definition in states[i].definitions
    ensures SUPERADMIN in states[i].definitions && states[i].definitions[SUPERADMIN] == Superadmin()
  {
    RunKeeps(states, events, i);
    hide IsRun, Step;
  }
}
