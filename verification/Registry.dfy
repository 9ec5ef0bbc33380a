/**
 * The resource registry. Registering or removing resources and publishing the catalog Variable is
 * one transaction: it holds the registry locks and the catalog's mutation gate, while watchers and
 * drainers of the catalog keep running, and it leaves nothing behind when it fails.
 */
module Registry {
  import opened Basics
  import opened Ordering
  import Variable
  import VariableInvariant

  const MAX_ITEMS: int := 4096
  const CATALOG_NAME: string := "system/catalog"

  datatype Descriptor = Descriptor(owner: NodeId, name: string, body: string)

  /**
   * A resource object: its identity, its fixed descriptor, whether that descriptor is well formed,
   * and whether the object has a life cycle that ends in retirement.
   */
  datatype Resource = Resource(handle: nat, descriptor: Descriptor, wellFormed: bool, retires: bool)

  /** The registry's own fields. `retired` collects the resource objects that have been retired. */
  datatype Table = Table(
    resources: map<string, Resource>, retired: set<nat>, revision: nat, descriptors: seq<Descriptor>)

  /**
   * The state of the catalog Variable for a revision and its descriptors: the whole catalog, a notice that it is
   * too large for one frame, or nothing when neither can be prepared.
   */
  type Rendering = (nat, seq<Descriptor>) -> Option<string>

  datatype Registry = Registry(owner: NodeId, render: Rendering, table: Table, catalog: Variable.System)

  datatype Error = ResourceLimit | InvalidResource | Reserved | Duplicate | RetiredResource | NotFound | CatalogRefused

  // -------------------------------------------------------------------- the batch

  /** What the check made before any lock is taken says about one value. */
  function ValueProblem(owner: NodeId, value: Option<Resource>, seen: set<string>): (r: Option<Error>) {
    if value.None? || !value.value.wellFormed || value.value.descriptor.owner != owner then Some(InvalidResource)
    else if value.value.descriptor.name == CATALOG_NAME then Some(Reserved)
    else if value.value.descriptor.name in seen then Some(Duplicate)
    else None
  }

  function Names(values: seq<Option<Resource>>): (r: set<string>) {
    set v | v in values && v.Some? :: v.value.descriptor.name
  }

  /** The first problem among the first `n` values, if any. */
  function FirstProblem(owner: NodeId, values: seq<Option<Resource>>, n: nat): (r: Option<Error>)
    requires n <= |values|
  {
    if n == 0 then None
    else
      var before := FirstProblem(owner, values, n - 1);
      if before.Some? then before else ValueProblem(owner, values[n - 1], Names(values[..n - 1]))
  }

  predicate BatchOk(owner: NodeId, values: seq<Option<Resource>>) {
    && (forall i :: 0 <= i < |values| ==>
          && values[i].Some? && values[i].value.wellFormed && values[i].value.descriptor.owner == owner
          && values[i].value.descriptor.name != CATALOG_NAME)
    && (forall i, j :: 0 <= i < j < |values| ==> values[i].value.descriptor.name != values[j].value.descriptor.name)
  }

  lemma NamesAreThose(values: seq<Option<Resource>>, name: string)
    requires forall i :: 0 <= i < |values| ==> values[i].Some?
    ensures name in Names(values) <==> exists i :: 0 <= i < |values| && values[i].value.descriptor.name == name
  {
    if i :| 0 <= i < |values| && values[i].value.descriptor.name == name { assert values[i] in values; }
  }

  /** A batch stays well formed by one more value exactly when nothing is wrong with that value. */
  lemma BatchGrows(owner: NodeId, front: seq<Option<Resource>>, last: Option<Resource>)
    ensures BatchOk(owner, front + [last]) <==> BatchOk(owner, front) && ValueProblem(owner, last, Names(front)).None?
  {
    hide Names;
    var all := front + [last];
    assert all[|front|] == last && forall i :: 0 <= i < |front| ==> all[i] == front[i];
    if BatchOk(owner, all) {
      assert BatchOk(owner, front);
      NamesAreThose(front, last.value.descriptor.name);
    } else if BatchOk(owner, front) && last.Some? {
      NamesAreThose(front, last.value.descriptor.name);
    }
  }

  /** The scan finds nothing exactly when the batch is well formed. */
  lemma {:induction false} ScanIsExact(owner: NodeId, values: seq<Option<Resource>>, n: nat)
    requires n <= |values|
    ensures FirstProblem(owner, values, n).None? <==> BatchOk(owner, values[..n])
  {
    hide ValueProblem, Names;
    if n > 0 {
      ScanIsExact(owner, values, n - 1);
      assert values[..n] == values[..n - 1] + [values[n - 1]];
      BatchGrows(owner, values[..n - 1], values[n - 1]);
    }
  }

  /** What the check made under the registry lock says about one well-formed value. */
  function SlotProblem(t: Table, value: Resource): (r: Option<Error>) {
    if value.retires && value.handle in t.retired then Some(RetiredResource)
    else if value.descriptor.name in t.resources then Some(Duplicate)
    else None
  }

  function FirstSlotProblem(t: Table, values: seq<Option<Resource>>, n: nat): (r: Option<Error>)
    requires n <= |values| && forall i :: 0 <= i < |values| ==> values[i].Some?
  {
    if n == 0 then None
    else
      var before := FirstSlotProblem(t, values, n - 1);
      if before.Some? then before else SlotProblem(t, values[n - 1].value)
  }

  lemma {:induction false} SlotsAreFree(t: Table, values: seq<Option<Resource>>, n: nat)
    requires n <= |values| && forall i :: 0 <= i < |values| ==> values[i].Some?
    ensures FirstSlotProblem(t, values, n).None? <==> forall i :: 0 <= i < n ==> SlotProblem(t, values[i].value).None?
  {
    if n > 0 { SlotsAreFree(t, values, n - 1); }
  }

  function AddAll(resources: map<string, Resource>, values: seq<Option<Resource>>): (r: map<string, Resource>) {
    if values == [] then resources
    else
      var before := AddAll(resources, values[..|values| - 1]);
      match values[|values| - 1]
      case None => before
      case Some(last) => before[last.descriptor.name := last]
  }

  /** The member set a batch asks for, or why it is refused. */
  function RegisterPlan(owner: NodeId, t: Table,
      values: seq<Option<Resource>>): (r: Result<map<string, Resource>, Error>) {
    if |values| == 0 || |values| >= MAX_ITEMS then Err(ResourceLimit)
    else
      var problem := FirstProblem(owner, values, |values|);
      if problem.Some? then Err(problem.value)
      else
        ScanIsExact(owner, values, |values|);
        assert values[..|values|] == values;
        if |values| > MAX_ITEMS - |t.resources| then Err(ResourceLimit)
        else
          var slot := FirstSlotProblem(t, values, |values|);
          if slot.Some? then Err(slot.value) else Ok(AddAll(t.resources, values))
  }

  function RemovePlan(owner: NodeId, t: Table, target: NodeId,
      name: string): (r: Result<map<string, Resource>, Error>) {
    if target != owner then Err(NotFound)
    else if name == CATALOG_NAME then Err(Reserved)
    else if name !in t.resources then Err(NotFound)
    else Ok(t.resources - {name})
  }

  /** Removing a resource that has a life cycle retires it in the same transaction. */
  function RetiredBy(t: Table, name: string): (r: set<nat>) {
    if name in t.resources && t.resources[name].retires then {t.resources[name].handle} else {}
  }

  // ------------------------------------------------------------- sorted descriptors

  /** The descriptors of all resources, sorted by name. */
  ghost predicate IsCatalogOf(members: seq<Descriptor>, resources: map<string, Resource>) {
    && Lists(MemberNames(members), resources.Keys)
    && forall i :: 0 <= i < |members| ==> members[i].name in resources
                                          && members[i] == resources[members[i].name].descriptor
  }

  function MemberNames(members: seq<Descriptor>): (r: seq<string>)
    ensures |r| == |members| && forall i :: 0 <= i < |r| ==> r[i] == members[i].name
  {
    seq(|members|, i requires 0 <= i < |members| => members[i].name)
  }

  ghost function SortedDescriptors(resources: map<string, Resource>): (r: seq<Descriptor>)
    requires forall k :: k in resources ==> resources[k].descriptor.name == k
    ensures IsCatalogOf(r, resources)
  {
    var names := Listing(resources.Keys);
    assert forall i :: 0 <= i < |names| ==> names[i] in resources by {
      forall i | 0 <= i < |names| ensures names[i] in resources { assert names[i] in names; }
    }
    var r := seq(|names|, i requires 0 <= i < |names| => resources[names[i]].descriptor);
    assert MemberNames(r) == names;
    r
  }

  lemma CatalogIsUnique(a: seq<Descriptor>, b: seq<Descriptor>, resources: map<string, Resource>)
    requires IsCatalogOf(a, resources) && IsCatalogOf(b, resources)
    ensures a == b
  {
    ListingIsUnique(MemberNames(a), MemberNames(b), resources.Keys);
    forall i | 0 <= i < |a| ensures a[i] == b[i] { assert MemberNames(a)[i] == MemberNames(b)[i]; }
  }

  // ------------------------------------------------------- publishing the catalog

  /** Actions of threads other than the writer inside the catalog's gate. */
  predicate Outsider(a: Variable.Action) {
    a.DoWatch? || a.MarkCancelled? || a.DoForget? || a.DoRetire? || a.DrainPop? || a.DrainLook? || a.DrainCall?
  }

  ghost function Others(l: Variable.Limits, s: Variable.System, actions: seq<Variable.Action>): (t: Variable.System) {
    if actions == [] then s
    else
      var before := Others(l, s, actions[..|actions| - 1]);
      var a := actions[|actions| - 1];
      if Outsider(a) then Variable.Step(l, before, a) else before
  }

  /**
   * What the world contributes to one transaction: what other threads do to the catalog before the
   * commit, and the order in which its watchers are visited.
   */
  datatype World = World(between: seq<Variable.Action>, order: seq<Variable.WatchId>)

  /** One pass through the catalog's gate with what is to be published, if that could be prepared. */
  datatype Pass = Pass(payload: Option<string>, world: World)

  ghost function Opened(l: Variable.Limits, s: Variable.System, p: Pass): (t: Variable.System) {
    Variable.Step(l, Variable.Step(l, Variable.Step(l, s, Variable.Acquire), Variable.ApplyRead(0)),
                  Variable.ApplyPrepare(p.payload.Some?, if p.payload.Some? then p.payload.value else ""))
  }

  /** The catalog just before the commit step. */
  ghost function Prepared(l: Variable.Limits, s: Variable.System, p: Pass): (t: Variable.System) {
    Others(l, Opened(l, s, p), p.world.between)
  }

  /** One pass through the catalog's gate; the flag says whether a new catalog value was committed. */
  ghost function Publish(l: Variable.Limits, s: Variable.System, p: Pass): (r: (Variable.System, bool)) {
    var before := Prepared(l, s, p);
    var after := Variable.Step(l, Variable.Step(l, before, Variable.DoCommit(p.world.order)), Variable.Release);
    (after, |after.log.commits| > |s.log.commits|)
  }

  // ----------------------------------------------------------------- transactions

  ghost function Install(t: Table, tentative: map<string, Resource>, retire: set<nat>): (r: Table)
    requires forall k :: k in tentative ==> tentative[k].descriptor.name == k
  {
    Table(tentative, t.retired + retire, t.revision + 1, SortedDescriptors(tentative))
  }

  /** The pass a transaction makes: it publishes the tentative members as the next revision. */
  ghost function PassFor(render: Rendering, t: Table, tentative: map<string, Resource>, w: World): (p: Pass)
    requires forall k :: k in tentative ==> tentative[k].descriptor.name == k
  {
    Pass(render(t.revision + 1, SortedDescriptors(tentative)), w)
  }

  /** Ends a transaction on the tentative member set: all of it becomes visible, or none of it does. */
  ghost function Finish(
    l: Variable.Limits, r: Registry, tentative: map<string, Resource>, retire: set<nat>,
      w: World): (t: (Registry, Result<(), Error>))
    requires forall k :: k in tentative ==> tentative[k].descriptor.name == k
  {
    if r.table.revision == U64 - 1 then (r, Err(CatalogRefused))
    else
      var (catalog, committed) := Publish(l, r.catalog, PassFor(r.render, r.table, tentative, w));
      if committed then (r.(table := Install(r.table, tentative, retire), catalog := catalog), Ok(()))
      else (r.(catalog := catalog), Err(CatalogRefused))
  }

  ghost function RegisterBatch(l: Variable.Limits, r: Registry, values: seq<Option<Resource>>,
      w: World): (t: (Registry, Result<(), Error>))
    requires Consistent(r)
  {
    match RegisterPlan(r.owner, r.table, values)
    case Err(e) => (r, Err(e))
    case Ok(tentative) =>
      PlanMembers(r.owner, r.table, values);
      Finish(l, r, tentative, {}, w)
  }

  ghost function Remove(l: Variable.Limits, r: Registry, target: NodeId, name: string,
      w: World): (t: (Registry, Result<(), Error>))
    requires Consistent(r)
  {
    match RemovePlan(r.owner, r.table, target, name)
    case Err(e) => (r, Err(e))
    case Ok(tentative) => Finish(l, r, tentative, RetiredBy(r.table, name), w)
  }

  predicate NewNames(resources: map<string, Resource>, values: seq<Option<Resource>>) {
    && (forall i :: 0 <= i < |values| ==> values[i].Some? && values[i].value.descriptor.name !in resources)
    && (forall i, j :: 0 <= i < j < |values| ==> values[i].value.descriptor.name != values[j].value.descriptor.name)
  }

  /** Every old entry is kept, and every member of the batch is filed under its own name. */
  lemma {:induction false} AddAllFiles(resources: map<string, Resource>, values: seq<Option<Resource>>, k: string)
    requires NewNames(resources, values) && k in AddAll(resources, values)
    ensures k in resources ==> AddAll(resources, values)[k] == resources[k]
    ensures k !in resources ==> Some(AddAll(resources, values)[k]) in values
                                && AddAll(resources, values)[k].descriptor.name == k
  {
    if values != [] {
      var front, last := values[..|values| - 1], values[|values| - 1];
      if k != last.value.descriptor.name { AddAllFiles(resources, front, k); }
      assert values == front + [last];
    }
  }

  /** A batch of new distinct names adds exactly as many entries as it has members. */
  lemma {:induction false} AddAllCounts(resources: map<string, Resource>, values: seq<Option<Resource>>)
    requires NewNames(resources, values)
    ensures |AddAll(resources, values)| == |resources| + |values| && resources.Keys <= AddAll(resources, values).Keys
    ensures forall i :: 0 <= i < |values| ==> values[i].value.descriptor.name in AddAll(resources, values)
  {
    if values != [] {
      var front, last := values[..|values| - 1], values[|values| - 1].value;
      LastIsNew(resources, values);
      assert forall i :: 0 <= i < |values| ==> values[i].Some?;
      hide NewNames;
      AddAllCounts(resources, front);
      forall i | 0 <= i < |values| ensures values[i].value.descriptor.name in AddAll(resources, values) {
        if i < |front| { assert front[i] == values[i]; }
      }
    }
  }

  lemma LastIsNew(resources: map<string, Resource>, values: seq<Option<Resource>>)
    requires NewNames(resources, values) && values != []
    ensures NewNames(resources, values[..|values| - 1]) && values[|values| - 1].Some?
    ensures values[|values| - 1].value.descriptor.name !in AddAll(resources, values[..|values| - 1])
  {
    var front, last := values[..|values| - 1], values[|values| - 1].value;
    if last.descriptor.name in AddAll(resources, front) {
      AddAllFiles(resources, front, last.descriptor.name);
      assert false;
    }
  }

  /** The planned member set: old members kept, new members filed under their own names. */
  lemma PlanMembers(owner: NodeId, t: Table, values: seq<Option<Resource>>)
    requires MembersOk(owner, t.resources) && RegisterPlan(owner, t, values).Ok?
    ensures BatchOk(owner, values) && MembersOk(owner, RegisterPlan(owner, t, values).value)
    ensures RegisterPlan(owner, t, values).value == AddAll(t.resources, values)
    ensures forall i :: 0 <= i < |values| ==> SlotProblem(t, values[i].value).None?
  {
    ScanIsExact(owner, values, |values|);
    assert values[..|values|] == values;
    SlotsAreFree(t, values, |values|);
    AddAllCounts(t.resources, values);
    var all := AddAll(t.resources, values);
    forall k | k in all ensures all[k].descriptor.name == k && all[k].descriptor.owner == owner {
      AddAllFiles(t.resources, values, k);
    }
  }

  // -------------------------------------------------------------------- invariant

  /** Members are filed under their names, belong to the owner, and the catalog entry itself is always there. */
  ghost predicate MembersOk(owner: NodeId, resources: map<string, Resource>) {
    && CATALOG_NAME in resources && |resources| <= MAX_ITEMS
    && forall k :: k in resources ==> resources[k].descriptor.name == k && resources[k].descriptor.owner == owner
  }

  ghost predicate Consistent(r: Registry) {
    && MembersOk(r.owner, r.table.resources)
    && r.table.descriptors == SortedDescriptors(r.table.resources)
    && r.table.revision == r.catalog.core.current.revision
    && r.render(r.table.revision, r.table.descriptors) == Some(r.catalog.core.current.content)
  }

  ghost predicate Inv(l: Variable.Limits, r: Registry) {
    Consistent(r) && VariableInvariant.Inv(l, r.catalog) && r.catalog.writer == Variable.Outside
  }

  /** Whatever is published, the commit visits the watchers of that moment. */
  ghost predicate WorldOk(l: Variable.Limits, r: Registry, w: World) {
    forall payload :: Variable.Visits(w.order, Prepared(l, r.catalog, Pass(payload, w)).core.watchers)
  }

  lemma OutsiderStep(l: Variable.Limits, s: Variable.System, a: Variable.Action)
    requires Outsider(a) && VariableInvariant.Inv(l, s)
    ensures var t := Variable.Step(l, s, a);
            && VariableInvariant.Inv(l, t) && t.writer == s.writer && t.core.current == s.core.current
            && t.log.commits == s.log.commits
  {
    VariableInvariant.StepKeeps(l, s, a);
    hide VariableInvariant.Inv, Variable.Visits;
  }

  lemma {:induction false} OthersLeaveValue(l: Variable.Limits, s: Variable.System, actions: seq<Variable.Action>)
    requires VariableInvariant.Inv(l, s)
    ensures var t := Others(l, s, actions);
            && VariableInvariant.Inv(l, t) && t.writer == s.writer && t.core.current == s.core.current
            && t.log.commits == s.log.commits
  {
    hide VariableInvariant.Inv, Variable.Step, Outsider;
    if actions != [] {
      OthersLeaveValue(l, s, actions[..|actions| - 1]);
      var a := actions[|actions| - 1];
      if Outsider(a) { OutsiderStep(l, Others(l, s, actions[..|actions| - 1]), a); }
    }
  }

  lemma OpenedShape(l: Variable.Limits, s: Variable.System, p: Pass)
    requires s.writer == Variable.Outside
    ensures var t := Opened(l, s, p);
            && t == s.(writer := t.writer)
            && (t.writer == Variable.Finished
               || (t.writer.Ready? && p.payload.Some?
               && t.writer.value == Variable.Value(s.core.current.revision + 1, p.payload.value)))
            && (t.writer.Ready? <==> !s.core.retired && s.core.current.revision != U64 - 1 && p.payload.Some?
                                     && |s.core.pending| < l.maxQueue)
  {
  }

  lemma OpenedInv(l: Variable.Limits, s: Variable.System, p: Pass)
    requires VariableInvariant.Inv(l, s)
    ensures VariableInvariant.Inv(l, Opened(l, s, p))
  {
    hide VariableInvariant.Inv, Variable.Step;
    var a := Variable.Step(l, s, Variable.Acquire);
    var b := Variable.Step(l, a, Variable.ApplyRead(0));
    VariableInvariant.StepKeeps(l, s, Variable.Acquire);
    VariableInvariant.StepKeeps(l, a, Variable.ApplyRead(0));
    VariableInvariant.StepKeeps(l, b,
      Variable.ApplyPrepare(p.payload.Some?, if p.payload.Some? then p.payload.value else ""));
  }

  /** Publishing installs exactly the next revision, or leaves value and history of the catalog alone. */
  lemma PublishIsAtomic(l: Variable.Limits, s: Variable.System, p: Pass)
    requires VariableInvariant.Inv(l, s) && s.writer == Variable.Outside
    requires Variable.Visits(p.world.order, Prepared(l, s, p).core.watchers)
    ensures var (t, committed) := Publish(l, s, p);
            && VariableInvariant.Inv(l, t) && t.writer == Variable.Outside
            && (committed ==> p.payload.Some?
                              && t.core.current == Variable.Value(s.core.current.revision + 1, p.payload.value)
                              && t.log.commits == s.log.commits + [t.core.current])
            && (!committed ==> t.core.current == s.core.current && t.log.commits == s.log.commits)
  {
    OpenedShape(l, s, p);
    OpenedInv(l, s, p);
    OthersLeaveValue(l, Opened(l, s, p), p.world.between);
    var before := Prepared(l, s, p);
    CommitOutcome(l, before, p.world.order);
  }

  lemma CommitOutcome(l: Variable.Limits, before: Variable.System, order: seq<Variable.WatchId>)
    requires VariableInvariant.Inv(l, before) && (before.writer.Finished? || before.writer.Ready?)
    requires Variable.Visits(order, before.core.watchers)
    ensures var t := Variable.Step(l, Variable.Step(l, before, Variable.DoCommit(order)), Variable.Release);
            && VariableInvariant.Inv(l, t) && t.writer == Variable.Outside
            && ((t.core.current == before.core.current && t.log.commits == before.log.commits)
                || (before.writer.Ready? && t.core.current == before.writer.value
                    && t.log.commits == before.log.commits + [before.writer.value]))
  {
    hide VariableInvariant.Inv;
    var mid := Variable.Step(l, before, Variable.DoCommit(order));
    assert VariableInvariant.Inv(l, Variable.Step(l, mid, Variable.Release)) by {
      hide Variable.Step;
      VariableInvariant.StepKeeps(l, before, Variable.DoCommit(order));
      VariableInvariant.StepKeeps(l, mid, Variable.Release);
    }
    CommitValue(l, before, order);
  }

  lemma CommitValue(l: Variable.Limits, before: Variable.System, order: seq<Variable.WatchId>)
    requires before.writer.Finished? || before.writer.Ready?
    requires Variable.Visits(order, before.core.watchers)
    ensures var mid := Variable.Step(l, before, Variable.DoCommit(order));
            && mid.writer.Finished?
            && ((mid.core.current == before.core.current && mid.log.commits == before.log.commits)
                || (before.writer.Ready? && mid.core.current == before.writer.value
                    && mid.log.commits == before.log.commits + [before.writer.value]))
  {
    hide Variable.Visits;
  }

  lemma FinishKeeps(l: Variable.Limits, r: Registry, tentative: map<string, Resource>, retire: set<nat>, w: World)
    requires Inv(l, r) && WorldOk(l, r, w) && MembersOk(r.owner, tentative)
    ensures var (t, result) := Finish(l, r, tentative, retire, w);
            && Inv(l, t) && t.owner == r.owner && t.render == r.render
            && (result.Err? ==> t.table == r.table && t.catalog.log.commits == r.catalog.log.commits)
            && (result.Ok? ==> t.table == Install(r.table, tentative, retire)
                               && t.catalog.log.commits == r.catalog.log.commits + [t.catalog.core.current])
  {
    hide VariableInvariant.Inv, Publish, Prepared, Variable.Visits, SortedDescriptors, MembersOk, WorldOk, Install,
      Consistent,
      IsCatalogOf, PassFor;
    MemberNamesOk(r.owner, tentative);
    var p := PassFor(r.render, r.table, tentative, w);
    PassSays(l, r, tentative, w);
    PublishIsAtomic(l, r.catalog, p);
    InstallIsConsistent(r, tentative, retire, Publish(l, r.catalog, p).0);
    RevisionIsTheVariables(r);
    RefusalIsConsistent(r, Publish(l, r.catalog, p).0);
  }

  lemma MemberNamesOk(owner: NodeId, tentative: map<string, Resource>)
    requires MembersOk(owner, tentative)
    ensures forall k :: k in tentative ==> tentative[k].descriptor.name == k
  {
  }

  lemma PassSays(l: Variable.Limits, r: Registry, tentative: map<string, Resource>, w: World)
    requires WorldOk(l, r, w) && forall k :: k in tentative ==> tentative[k].descriptor.name == k
    ensures var p := PassFor(r.render, r.table, tentative, w);
            && Variable.Visits(p.world.order, Prepared(l, r.catalog, p).core.watchers)
            && p.payload == r.render(r.table.revision + 1, SortedDescriptors(tentative))
  {
    hide Variable.Visits, Prepared, SortedDescriptors, IsCatalogOf;
    var p := PassFor(r.render, r.table, tentative, w);
    assert p == Pass(p.payload, w);
  }

  lemma InstallIsConsistent(r: Registry, tentative: map<string, Resource>, retire: set<nat>, catalog: Variable.System)
    requires Consistent(r) && MembersOk(r.owner, tentative)
    ensures catalog.core.current.revision == r.table.revision + 1
            && r.render(r.table.revision + 1, SortedDescriptors(tentative)) == Some(catalog.core.current.content) ==>
              Consistent(r.(table := Install(r.table, tentative, retire), catalog := catalog))
  {
    hide SortedDescriptors;
  }

  lemma RevisionIsTheVariables(r: Registry)
    requires Consistent(r)
    ensures r.table.revision == r.catalog.core.current.revision
  {
    hide SortedDescriptors, MembersOk;
  }

  lemma RefusalIsConsistent(r: Registry, catalog: Variable.System)
    requires Consistent(r)
    ensures catalog.core.current == r.catalog.core.current ==> Consistent(r.(catalog := catalog))
  {
    hide SortedDescriptors, MembersOk;
  }

  /** A batch either makes all its members visible at the next revision, or changes nothing a reader can see. */
  lemma RegisterIsAllOrNothing(l: Variable.Limits, r: Registry, values: seq<Option<Resource>>, w: World)
    requires Inv(l, r) && WorldOk(l, r, w)
    ensures var (t, result) := RegisterBatch(l, r, values, w);
            && Inv(l, t) && t.owner == r.owner && t.render == r.render
            && (result.Err? ==> t.table == r.table && t.catalog.log.commits == r.catalog.log.commits)
            && (result.Ok? ==>
                  && BatchOk(r.owner, values)
                  && (forall i :: 0 <= i < |values| ==> SlotProblem(r.table, values[i].value).None?)
                  && t.table.resources == AddAll(r.table.resources, values) && t.table.retired == r.table.retired
                  && t.table.revision == r.table.revision + 1
                  && t.catalog.log.commits == r.catalog.log.commits + [t.catalog.core.current])
  {
    hide VariableInvariant.Inv, WorldOk, Finish, SortedDescriptors, MembersOk, RegisterPlan, BatchOk, AddAll,
      SlotProblem;
    var plan := RegisterPlan(r.owner, r.table, values);
    if plan.Ok? {
      PlanMembers(r.owner, r.table, values);
      FinishKeeps(l, r, plan.value, {}, w);
    }
  }

  lemma RemoveIsAllOrNothing(l: Variable.Limits, r: Registry, target: NodeId, name: string, w: World)
    requires Inv(l, r) && WorldOk(l, r, w)
    ensures var (t, result) := Remove(l, r, target, name, w);
            && Inv(l, t) && t.owner == r.owner && t.render == r.render
            && (result.Err? ==> t.table == r.table && t.catalog.log.commits == r.catalog.log.commits)
            && (result.Ok? ==>
                  && target == r.owner && name in r.table.resources && name != CATALOG_NAME
                     && t.table.resources == r.table.resources - {name}
                  && t.table.retired == r.table.retired + RetiredBy(r.table, name)
                  && t.table.revision == r.table.revision + 1
                  && t.catalog.log.commits == r.catalog.log.commits + [t.catalog.core.current])
  {
    hide VariableInvariant.Inv, WorldOk, Finish, SortedDescriptors;
    var plan := RemovePlan(r.owner, r.table, target, name);
    if plan.Ok? {
      var resources := r.table.resources;
      assert plan.value.Keys == resources.Keys - {name};
      assert |plan.value.Keys| == |plan.value| && |resources.Keys| == |resources|;
      FinishKeeps(l, r, plan.value, RetiredBy(r.table, name), w);
    }
  }

  // ------------------------------------------------------------------------- runs

  datatype Event =
    | DoRegister(values: seq<Option<Resource>>, world: World)
    | DoRemove(target: NodeId, name: string, world: World)
    | CatalogActs(action: Variable.Action)
    | Retires(handle: nat)

  ghost function Step(l: Variable.Limits, r: Registry, e: Event): Registry
    requires Inv(l, r)
  {
    match e
    case DoRegister(values, w) => RegisterBatch(l, r, values, w).0
    case DoRemove(target, name, w) => Remove(l, r, target, name, w).0
    case CatalogActs(a) => if Outsider(a) then r.(catalog := Variable.Step(l, r.catalog, a)) else r
    case Retires(handle) => r.(table := r.table.(retired := r.table.retired + {handle}))
  }

  ghost predicate EventOk(l: Variable.Limits, r: Registry, e: Event) {
    match e
    case DoRegister(values, w) => WorldOk(l, r, w)
    case DoRemove(target, name, w) => WorldOk(l, r, w)
    case CatalogActs(_) => true
    case Retires(_) => true
  }

  /** The catalog view two states offer to readers. */
  predicate SameView(r: Registry, t: Registry) {
    r.table.resources == t.table.resources && r.table.descriptors == t.table.descriptors
  }

  lemma StepKeeps(l: Variable.Limits, r: Registry, e: Event)
    requires Inv(l, r) && EventOk(l, r, e)
    ensures var t := Step(l, r, e);
            && Inv(l, t) && t.owner == r.owner && t.render == r.render && r.table.retired <= t.table.retired
            && (t.table.revision == r.table.revision + 1 || (t.table.revision == r.table.revision && SameView(r, t)))
  {
    hide VariableInvariant.Inv, WorldOk, SortedDescriptors, MembersOk, BatchOk;
    match e
    case DoRegister(values, w) =>
      RegisterIsAllOrNothing(l, r, values, w);
      hide RegisterBatch, Remove;
    case DoRemove(target, name, w) =>
      RemoveIsAllOrNothing(l, r, target, name, w);
      hide RegisterBatch, Remove;
    case CatalogActs(a) =>
      if Outsider(a) { OutsiderStep(l, r.catalog, a); }
      hide Outsider, Variable.Step, RegisterBatch, Remove;
    case Retires(handle) =>
      hide RegisterBatch, Remove;
  }

  /** A new registry; none is made when its first catalog cannot be rendered. */
  function Fresh(owner: NodeId, instance: string, catalogBody: string, render: Rendering): (r: Option<Registry>) {
    var d := Descriptor(owner, CATALOG_NAME, catalogBody);
    match render(1, [d])
    case None => None
    case Some(content) =>
      Some(Registry(owner, render, Table(map[CATALOG_NAME := Resource(0, d, true, true)], {}, 1, [d]),
        Variable.Start(instance, content)))
  }

  lemma FreshInv(l: Variable.Limits, owner: NodeId, instance: string, catalogBody: string, render: Rendering)
    requires Fresh(owner, instance, catalogBody, render).Some?
    ensures Inv(l, Fresh(owner, instance, catalogBody, render).value)
  {
    var r := Fresh(owner, instance, catalogBody, render).value;
    VariableInvariant.StartInv(l, instance, r.catalog.core.current.content);
    hide VariableInvariant.Inv, SortedDescriptors, IsCatalogOf;
    FreshCatalog(r.table);
    CatalogIsUnique(r.table.descriptors, SortedDescriptors(r.table.resources), r.table.resources);
  }

  lemma FreshCatalog(t: Table)
    requires |t.descriptors| == 1 && t.descriptors[0].name == CATALOG_NAME && t.resources.Keys == {CATALOG_NAME}
    requires t.resources[CATALOG_NAME].descriptor == t.descriptors[0]
    ensures IsCatalogOf(t.descriptors, t.resources)
  {
    assert MemberNames(t.descriptors) == [CATALOG_NAME];
  }

  ghost predicate Follows(l: Variable.Limits, r: Registry, e: Event, t: Registry) {
    Inv(l, r) ==> EventOk(l, r, e) && t == Step(l, r, e)
  }

  ghost predicate IsRun(l: Variable.Limits, states: seq<Registry>, events: seq<Event>)
  {
    && |states| == |events| + 1 && Inv(l, states[0])
    && forall i :: 0 <= i < |events| ==> Follows(l, states[i], events[i], states[i + 1])
  }

  lemma {:induction false} RunInv(l: Variable.Limits, states: seq<Registry>, events: seq<Event>, i: nat)
    requires IsRun(l, states, events) && i < |states|
    ensures Inv(l, states[i])
    ensures i < |events| ==> EventOk(l, states[i], events[i]) && states[i + 1] == Step(l, states[i], events[i])
  {
    hide Inv, Step, EventOk;
    if i > 0 {
      RunInv(l, states, events, i - 1);
      assert Follows(l, states[i - 1], events[i - 1], states[i]);
      StepKeeps(l, states[i - 1], events[i - 1]);
    }
    if i < |events| { assert Follows(l, states[i], events[i], states[i + 1]); }
  }

  /** Revisions and retirements only grow, and equal revisions mean equal catalogs. */
  lemma {:induction false} RevisionNamesTheView(l: Variable.Limits, states: seq<Registry>, events: seq<Event>, i: nat,
      j: nat)
    requires IsRun(l, states, events) && i <= j < |states|
    ensures states[i].owner == states[j].owner
    ensures states[i].table.retired <= states[j].table.retired && states[i].table.revision <= states[j].table.revision
    ensures states[i].table.revision == states[j].table.revision ==> SameView(states[i], states[j])
    decreases j
  {
    hide Inv, Step, EventOk;
    if i < j {
      RevisionNamesTheView(l, states, events, i, j - 1);
      RunInv(l, states, events, j - 1);
      StepKeeps(l, states[j - 1], events[j - 1]);
    }
  }

  /**
   * In every state of every run the published descriptor list is the sorted list of exactly the
   * registered members, and the catalog Variable has the revision readers page by and renders that very list.
   */
  lemma CatalogNamesTheMembers(l: Variable.Limits, states: seq<Registry>, events: seq<Event>, i: nat)
    requires IsRun(l, states, events) && i < |states|
    ensures IsCatalogOf(states[i].table.descriptors, states[i].table.resources)
    ensures states[i].table.revision == states[i].catalog.core.current.revision
    ensures states[i].render(states[i].table.revision, states[i].table.descriptors)
            == Some(states[i].catalog.core.current.content)
    ensures CATALOG_NAME in states[i].table.resources && |states[i].table.descriptors| <= MAX_ITEMS
  {
    RunInv(l, states, events, i);
    hide VariableInvariant.Inv;
    var t := states[i].table;
    ListingLength(MemberNames(t.descriptors), t.resources.Keys);
    assert |t.resources.Keys| == |t.resources|;
  }

  /** A resource with a life cycle that was removed is never a member again. */
  lemma RemovedNeverReturns(
    l: Variable.Limits, states: seq<Registry>, events: seq<Event>, i: nat, j: nat, values: seq<Option<Resource>>,
      w: World, k: nat)
    requires IsRun(l, states, events) && i < j < |events|
    requires events[i].DoRemove? && events[i].name in states[i].table.resources
             && events[i].name !in states[i + 1].table.resources
    requires states[i].table.resources[events[i].name].retires
    requires events[j] == DoRegister(values, w)
    requires k < |values| && values[k] == Some(states[i].table.resources[events[i].name])
    ensures states[j + 1].table == states[j].table
  {
    hide Inv, Step, EventOk, RegisterBatch, BatchOk, AddAll, Names;
    RunInv(l, states, events, i);
    RunInv(l, states, events, j);
    RevisionNamesTheView(l, states, events, i + 1, j);
    RemoveRetires(l, states[i], events[i]);
    RefusesRetired(l, states[j], values, w, k);
  }

  lemma RefusesRetired(l: Variable.Limits, r: Registry, values: seq<Option<Resource>>, w: World, k: nat)
    requires Inv(l, r) && EventOk(l, r, DoRegister(values, w))
    requires k < |values| && values[k].Some? && values[k].value.retires && values[k].value.handle in r.table.retired
    ensures Step(l, r, DoRegister(values, w)).table == r.table
  {
    hide Inv, RegisterBatch, BatchOk, AddAll, Names;
    RegisterIsAllOrNothing(l, r, values, w);
  }

  lemma RemoveRetires(l: Variable.Limits, r: Registry, e: Event)
    requires Inv(l, r) && EventOk(l, r, e) && e.DoRemove?
    requires e.name in r.table.resources && e.name !in Step(l, r, e).table.resources
    ensures r.table.resources[e.name].retires ==> r.table.resources[e.name].handle in Step(l, r, e).table.retired
  {
    RemoveIsAllOrNothing(l, r, e.target, e.name, e.world);
    hide Inv, Remove, RegisterBatch;
  }
}
