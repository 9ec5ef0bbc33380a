/**
 * The registry as the object it is: members are inserted before the catalog is published and taken
 * out again, name by name, when publishing fails.
 */
module RegistryObject {
  import opened Basics
  import opened Ordering
  import opened Registry
  import Variable
  import VariableObject

  /** What one undisturbed pass through the catalog's gate does to the fields under its lock. */
  function PublishAlone(l: Variable.Limits, c: Variable.Core, p: Pass): (r: Option<Variable.Core>) {
    var revision := Variable.ChooseRevision(c, 0);
    if revision.Err? || p.payload.None? || Variable.CanCommit(l, c).Some? then None
    else
      match Variable.Commit(l, c, Variable.Value(revision.value, p.payload.value), p.world.order)
      case Err(_) => None
      case Ok((d, _)) => Some(d)
  }

  /** Ends an undisturbed transaction on the tentative member set. */
  ghost function FinishAlone(
    l: Variable.Limits, render: Rendering, t: Table, c: Variable.Core, tentative: map<string, Resource>,
      retire: set<nat>, w: World):
    (r: (Table, Variable.Core, Result<(), Error>))
    requires forall k :: k in tentative ==> tentative[k].descriptor.name == k
  {
    if t.revision == U64 - 1 then (t, c, Err(CatalogRefused))
    else
      match PublishAlone(l, c, PassFor(render, t, tentative, w))
      case None => (t, c, Err(CatalogRefused))
      case Some(d) => (Install(t, tentative, retire), d, Ok(()))
  }

  ghost function RegisterAlone(
    l: Variable.Limits, owner: NodeId, render: Rendering, t: Table, c: Variable.Core, values: seq<Option<Resource>>,
      w: World):
    (r: (Table, Variable.Core, Result<(), Error>))
    requires MembersOk(owner, t.resources)
  {
    match RegisterPlan(owner, t, values)
    case Err(e) => (t, c, Err(e))
    case Ok(tentative) =>
      PlanMembers(owner, t, values);
      FinishAlone(l, render, t, c, tentative, {}, w)
  }

  ghost function RemoveAlone(
    l: Variable.Limits, owner: NodeId, render: Rendering, t: Table, c: Variable.Core, target: NodeId, name: string,
      w: World):
    (r: (Table, Variable.Core, Result<(), Error>))
    requires MembersOk(owner, t.resources)
  {
    match RemovePlan(owner, t, target, name)
    case Err(e) => (t, c, Err(e))
    case Ok(tentative) => FinishAlone(l, render, t, c, tentative, RetiredBy(t, name), w)
  }

  /** When no other thread steps in, the concurrent protocol does exactly that. */
  lemma AloneIsPublish(l: Variable.Limits, s: Variable.System, p: Pass)
    requires s.writer == Variable.Outside && p.world.between == [] && Variable.Visits(p.world.order, s.core.watchers)
    ensures var (t, committed) := Publish(l, s, p);
            match PublishAlone(l, s.core, p)
            case None => !committed && t.core == s.core
            case Some(d) => committed && t.core == d
  {
    OpenedShape(l, s, p);
    assert Prepared(l, s, p) == Opened(l, s, p);
    hide Opened, Prepared, Variable.Visits;
  }

  lemma AloneIsFinish(l: Variable.Limits, r: Registry, tentative: map<string, Resource>, retire: set<nat>, w: World)
    requires r.catalog.writer == Variable.Outside && w.between == []
             && Variable.Visits(w.order, r.catalog.core.watchers)
    requires forall k :: k in tentative ==> tentative[k].descriptor.name == k
    ensures var (t, result) := Finish(l, r, tentative, retire, w);
            (t.table, t.catalog.core, result) == FinishAlone(l, r.render, r.table, r.catalog.core, tentative, retire, w)
  {
    assert PassFor(r.render, r.table, tentative, w).world == w;
    hide Publish, PublishAlone, Variable.Visits, IsCatalogOf, PassFor, SortedDescriptors;
    AloneIsPublish(l, r.catalog, PassFor(r.render, r.table, tentative, w));
  }

  /** The undisturbed transactions are the concurrent ones with nothing in between. */
  lemma AloneIsConcurrent(l: Variable.Limits, r: Registry, values: seq<Option<Resource>>, target: NodeId,
      name: string, w: World)
    requires Consistent(r) && r.catalog.writer == Variable.Outside
    requires w.between == [] && Variable.Visits(w.order, r.catalog.core.watchers)
    ensures var (t, result) := RegisterBatch(l, r, values, w);
            (t.table, t.catalog.core, result) == RegisterAlone(l, r.owner, r.render, r.table, r.catalog.core, values, w)
    ensures var (t, result) := Remove(l, r, target, name, w);
            (t.table, t.catalog.core, result) == RemoveAlone(l, r.owner, r.render, r.table, r.catalog.core, target,
              name, w)
  {
    hide Finish, FinishAlone, Variable.Visits, RegisterPlan, IsCatalogOf, SortedDescriptors;
    var plan := RegisterPlan(r.owner, r.table, values);
    if plan.Ok? {
      PlanMembers(r.owner, r.table, values);
      AloneIsFinish(l, r, plan.value, {}, w);
    }
    var left := RemovePlan(r.owner, r.table, target, name);
    if left.Ok? { AloneIsFinish(l, r, left.value, RetiredBy(r.table, name), w); }
  }

  /** The scan of a batch before any lock is taken. */
  method CheckBatch(owner: NodeId, values: seq<Option<Resource>>) returns (problem: Option<Error>)
    ensures problem == FirstProblem(owner, values, |values|)
  {
    var seen: set<string> := {};
    for i := 0 to |values|
      invariant FirstProblem(owner, values, i).None?
      invariant seen == Names(values[..i])
    {
      problem := ValueProblem(owner, values[i], seen);
      if problem.Some? {
        ProblemStays(owner, values, i + 1, |values|);
        return;
      }
      seen := seen + {values[i].value.descriptor.name};
      NamesGrow(values, i);
    }
    problem := None;
  }

  lemma NamesGrow(values: seq<Option<Resource>>, i: nat)
    requires i < |values| && values[i].Some?
    ensures Names(values[..i + 1]) == Names(values[..i]) + {values[i].value.descriptor.name}
  {
    var front, last := values[..i], values[i];
    assert values[..i + 1] == front + [last];
    assert last in front + [last];
    forall n | n in Names(front) ensures n in Names(front + [last]) {
      var v :| v in front && v.Some? && v.value.descriptor.name == n;
      assert v in front + [last];
    }
  }

  lemma {:induction false} ProblemStays(owner: NodeId, values: seq<Option<Resource>>, i: nat, n: nat)
    requires i <= n <= |values| && FirstProblem(owner, values, i).Some?
    ensures FirstProblem(owner, values, n) == FirstProblem(owner, values, i)
  {
    if i < n { ProblemStays(owner, values, i, n - 1); }
  }

  lemma {:induction false} SlotProblemStays(t: Table, values: seq<Option<Resource>>, i: nat, n: nat)
    requires forall k :: 0 <= k < |values| ==> values[k].Some?
    requires i <= n <= |values| && FirstSlotProblem(t, values, i).Some?
    ensures FirstSlotProblem(t, values, n) == FirstSlotProblem(t, values, i)
  {
    if i < n { SlotProblemStays(t, values, i, n - 1); }
  }

  /** The scan made under the lock. */
  method CheckSlots(t: Table, values: seq<Option<Resource>>) returns (problem: Option<Error>)
    requires forall i :: 0 <= i < |values| ==> values[i].Some?
    ensures problem == FirstSlotProblem(t, values, |values|)
  {
    for i := 0 to |values|
      invariant FirstSlotProblem(t, values, i).None?
    {
      problem := SlotProblem(t, values[i].value);
      if problem.Some? {
        SlotProblemStays(t, values, i + 1, |values|);
        return;
      }
    }
    problem := None;
  }

  /** Collects the descriptors of all members in name order. */
  method SortMembers(resources: map<string, Resource>) returns (members: seq<Descriptor>)
    requires forall k :: k in resources ==> resources[k].descriptor.name == k
    ensures members == SortedDescriptors(resources)
  {
    var names := SortedKeys(resources.Keys);
    members := [];
    for i := 0 to |names|
      invariant |members| == i
      invariant forall k :: 0 <= k < i ==> names[k] in resources && members[k] == resources[names[k]].descriptor
    {
      assert names[i] in names;
      members := members + [resources[names[i]].descriptor];
    }
    assert MemberNames(members) == names;
    CatalogIsUnique(members, SortedDescriptors(resources), resources);
  }

  class ResourceRegistry {
    const owner: NodeId
    const render: Rendering
    const catalog: VariableObject.SharedVariable
    var resources: map<string, Resource>
    var retired: set<nat>
    var revision: nat
    var descriptors: seq<Descriptor>

    ghost function View(): Table
      reads this
    {
      Table(resources, retired, revision, descriptors)
    }

    ghost predicate Valid()
      reads this, catalog
    {
      && MembersOk(owner, resources) && descriptors == SortedDescriptors(resources)
      && revision == catalog.current.revision && render(revision, descriptors) == Some(catalog.current.content)
    }

    constructor (owner: NodeId, instance: string, limits: Variable.Limits, catalogBody: string, render: Rendering)
      requires Fresh(owner, instance, catalogBody, render).Some?
      ensures Valid() && fresh(catalog)
      ensures View() == Fresh(owner, instance, catalogBody, render).value.table && this.owner == owner
              && this.render == render
    {
      hide SortedDescriptors, IsCatalogOf, MembersOk, Fresh, Listing, Lists;
      FreshFields(limits, owner, instance, catalogBody, render);
      var d := Descriptor(owner, CATALOG_NAME, catalogBody);
      var content := render(1, [d]).value;
      this.owner, this.render := owner, render;
      resources, retired, revision, descriptors := map[CATALOG_NAME := Resource(0, d, true, true)], {}, 1, [d];
      catalog := new VariableObject.SharedVariable(limits, instance, content);
    }

    /** Prepares the next catalog value from the present members and commits it. */
    method PublishCatalog() returns (ok: bool, ghost w: World)
      requires MembersOk(owner, resources)
      modifies catalog, this`revision, this`descriptors
      ensures w.between == []
      ensures var p := PassFor(render, old(View()), resources, w);
              && (ok ==> PublishAlone(catalog.limits, old(catalog.View()), p) == Some(catalog.View()))
              && (!ok ==> old(revision) == U64 - 1 || PublishAlone(catalog.limits, old(catalog.View()), p).None?)
      ensures ok ==> Variable.Visits(w.order, old(catalog.watchers))
      ensures ok ==> old(revision) != U64 - 1 && revision == old(revision) + 1
                     && descriptors == SortedDescriptors(resources)
      ensures !ok ==> catalog.View() == old(catalog.View()) && revision == old(revision)
                      && descriptors == old(descriptors)
    {
      hide Variable.Visits, SortedDescriptors, IsCatalogOf, Variable.Enqueue;
      w := World([], []);
      if revision == U64 - 1 { return false, w; }
      var members := SortMembers(resources);
      var payload := render(revision + 1, members);
      if catalog.retired || catalog.current.revision == U64 - 1 || payload.None?
        || |catalog.pending| >= catalog.limits.maxQueue {
        return false, w;
      }
      var r, order := catalog.CommitPrepared(Variable.Value(catalog.current.revision + 1, payload.value));
      w := World([], order);
      revision, descriptors := revision + 1, members;
      ok := true;
    }

    /** Publishes the whole batch, or leaves the registry as it was. */
    method RegisterBatch(values: seq<Option<Resource>>) returns (r: Result<(), Error>, ghost w: World)
      requires Valid()
      modifies this`resources, this`revision, this`descriptors, catalog
      ensures Valid()
      ensures w.between == []
      ensures r.Ok? ==> Variable.Visits(w.order, old(catalog.watchers))
      ensures (View(), catalog.View(), r) == RegisterAlone(catalog.limits, owner, render, old(View()),
              old(catalog.View()), values, w)
    {
      hide Variable.Visits, SortedDescriptors, PublishAlone, AddAll, FirstProblem, FirstSlotProblem, IsCatalogOf;
      w := World([], []);
      if |values| == 0 || |values| >= MAX_ITEMS { return Err(ResourceLimit), w; }
      var problem := CheckBatch(owner, values);
      if problem.Some? { return Err(problem.value), w; }
      BatchIsOk(owner, values);
      if |values| > MAX_ITEMS - |resources| { return Err(ResourceLimit), w; }
      problem := CheckSlots(Table(resources, retired, revision, descriptors), values);
      if problem.Some? { return Err(problem.value), w; }
      PlanIsNew(owner, View(), values);
      assert RegisterPlan(owner, View(), values) == Ok(AddAll(resources, values));
      hide RegisterPlan, MembersOk, BatchOk, NewNames;
      r, w := Transact(values);
    }

    /** The part of a registration that changes things: insert, publish, undo on failure. */
    method Transact(values: seq<Option<Resource>>) returns (r: Result<(), Error>, ghost w: World)
      requires Valid() && NewNames(resources, values) && MembersOk(owner, AddAll(resources, values))
      modifies this`resources, this`revision, this`descriptors, catalog
      ensures Valid()
      ensures w.between == []
      ensures r.Ok? ==> Variable.Visits(w.order, old(catalog.watchers))
      ensures (View(), catalog.View(), r)
              == FinishAlone(catalog.limits, render, old(View()), old(catalog.View()), AddAll(old(resources), values),
                {}, w)
    {
      hide Variable.Visits, SortedDescriptors, AddAll, NewNames, IsCatalogOf, PublishAlone, PassFor;
      InsertAll(values);
      var ok;
      ok, w := PublishCatalog();
      SamePass(render, old(View()), old(View()).(resources := resources), resources, w);
      if !ok {
        TakeOut(values, old(resources));
        return Err(CatalogRefused), w;
      }
      Published(catalog.limits, old(catalog.View()), render, old(View()), resources, w, catalog.View());
      assert retired + {} == retired;
      r := Ok(());
    }

    method InsertAll(values: seq<Option<Resource>>)
      requires NewNames(resources, values)
      modifies this`resources
      ensures resources == AddAll(old(resources), values)
    {
      for i := 0 to |values|
        invariant resources == AddAll(old(resources), values[..i])
      {
        resources := resources[values[i].value.descriptor.name := values[i].value];
        assert values[..i + 1][..i] == values[..i];
      }
      assert values[..|values|] == values;
    }

    /** Undoes an insertion by deleting the batch's names. */
    method TakeOut(values: seq<Option<Resource>>, ghost before: map<string, Resource>)
      requires NewNames(before, values) && resources == AddAll(before, values)
      modifies this`resources
      ensures resources == before
    {
      for i := 0 to |values|
        invariant resources == AddAll(before, values) - Names(values[..i])
      {
        resources := resources - {values[i].value.descriptor.name};
        NamesGrow(values, i);
      }
      assert values[..|values|] == values;
      OnlyNewOnesAdded(before, values);
    }

    method Remove(target: NodeId, name: string) returns (r: Result<(), Error>, ghost w: World)
      requires Valid()
      modifies this, catalog
      ensures Valid()
      ensures w.between == []
      ensures r.Ok? ==> Variable.Visits(w.order, old(catalog.watchers))
      ensures (View(), catalog.View(), r) == RemoveAlone(catalog.limits, owner, render, old(View()),
              old(catalog.View()), target, name, w)
    {
      hide Variable.Visits, SortedDescriptors, IsCatalogOf;
      w := World([], []);
      if target != owner { return Err(NotFound), w; }
      if name == CATALOG_NAME { return Err(Reserved), w; }
      if name !in resources { return Err(NotFound), w; }
      r, w := Withdraw(name);
    }

    /** The part of a removal that changes things: delete, publish, put back on failure. */
    method Withdraw(name: string) returns (r: Result<(), Error>, ghost w: World)
      requires Valid() && name in resources && name != CATALOG_NAME
      modifies this, catalog
      ensures Valid()
      ensures w.between == []
      ensures r.Ok? ==> Variable.Visits(w.order, old(catalog.watchers))
      ensures MembersOk(owner, old(resources) - {name})
      ensures (View(), catalog.View(), r)
              == FinishAlone(catalog.limits, render, old(View()), old(catalog.View()), old(resources) - {name},
                             RetiredBy(old(View()), name), w)
    {
      hide Variable.Visits, SortedDescriptors, IsCatalogOf, PublishAlone, PassFor, FinishAlone, MembersOk, RetiredBy;
      ghost var before, c, left := View(), catalog.View(), resources - {name};
      ghost var retire := RetiredBy(before, name);
      LeftMembers(owner, resources, name);
      MemberNamesOk(owner, left);
      PutBack(resources, name);
      RetiredIs(before, name);
      var removed := resources[name];
      resources := resources - {name};
      var ok;
      ok, w := PublishCatalog();
      SamePass(render, before, before.(resources := left), left, w);
      FinishUnfolds(catalog.limits, render, before, c, left, retire, w);
      if !ok {
        resources := resources[name := removed];
        return Err(CatalogRefused), w;
      }
      Published(catalog.limits, c, render, before, left, w, catalog.View());
      if removed.retires { retired := retired + {removed.handle}; }
      r := Ok(());
    }
  }

  lemma PutBack(resources: map<string, Resource>, name: string)
    requires name in resources
    ensures (resources - {name})[name := resources[name]] == resources
  {
  }

  lemma RetiredIs(t: Table, name: string)
    requires name in t.resources
    ensures t.retired + RetiredBy(t, name) == if t.resources[name].retires
            then t.retired + {t.resources[name].handle} else t.retired
  {
  }

  lemma FreshFields(l: Variable.Limits, owner: NodeId, instance: string, catalogBody: string, render: Rendering)
    requires Fresh(owner, instance, catalogBody, render).Some?
    ensures var d := Descriptor(owner, CATALOG_NAME, catalogBody);
            var resources := map[CATALOG_NAME := Resource(0, d, true, true)];
            && render(1, [d]).Some?
               && Fresh(owner, instance, catalogBody, render).value.table == Table(resources, {}, 1, [d])
            && MembersOk(owner, resources) && [d] == SortedDescriptors(resources)
            && Variable.Start(instance, render(1, [d]).value).core.current == Variable.Value(1, render(1, [d]).value)
  {
    FreshInv(l, owner, instance, catalogBody, render);
    hide SortedDescriptors, IsCatalogOf;
  }

  lemma FinishUnfolds(
    l: Variable.Limits, render: Rendering, t: Table, c: Variable.Core, tentative: map<string, Resource>,
      retire: set<nat>, w: World)
    requires forall k :: k in tentative ==> tentative[k].descriptor.name == k
    ensures var published := PublishAlone(l, c, PassFor(render, t, tentative, w));
            FinishAlone(l, render, t, c, tentative, retire, w)
            == if t.revision == U64 - 1 || published.None? then (t, c, Err(CatalogRefused))
               else (Table(tentative, t.retired + retire, t.revision + 1, SortedDescriptors(tentative)),
                    published.value, Ok(()))
  {
    hide PublishAlone, PassFor, SortedDescriptors;
  }

  /** What is published depends on the revision and the tentative members alone. */
  lemma SamePass(render: Rendering, t: Table, u: Table, tentative: map<string, Resource>, w: World)
    requires t.revision == u.revision && forall k :: k in tentative ==> tentative[k].descriptor.name == k
    ensures PassFor(render, t, tentative, w) == PassFor(render, u, tentative, w)
  {
  }

  /** What is published is the next revision and renders the tentative members. */
  lemma Published(
    l: Variable.Limits, c: Variable.Core, render: Rendering, t: Table, tentative: map<string, Resource>, w: World,
      d: Variable.Core)
    requires forall k :: k in tentative ==> tentative[k].descriptor.name == k
    requires PublishAlone(l, c, PassFor(render, t, tentative, w)) == Some(d)
    ensures d.current.revision == c.current.revision + 1
    ensures render(t.revision + 1, SortedDescriptors(tentative)) == Some(d.current.content)
  {
    hide SortedDescriptors, IsCatalogOf;
  }

  lemma PlanIsNew(owner: NodeId, t: Table, values: seq<Option<Resource>>)
    requires MembersOk(owner, t.resources) && RegisterPlan(owner, t, values).Ok?
    ensures NewNames(t.resources, values) && MembersOk(owner, AddAll(t.resources, values))
    ensures RegisterPlan(owner, t, values) == Ok(AddAll(t.resources, values))
  {
    PlanMembers(owner, t, values);
    hide RegisterPlan;
  }

  lemma BatchIsOk(owner: NodeId, values: seq<Option<Resource>>)
    requires FirstProblem(owner, values, |values|).None?
    ensures BatchOk(owner, values)
  {
    ScanIsExact(owner, values, |values|);
    assert values[..|values|] == values;
  }

  lemma LeftMembers(owner: NodeId, resources: map<string, Resource>, name: string)
    requires MembersOk(owner, resources) && name in resources && name != CATALOG_NAME
    ensures MembersOk(owner, resources - {name})
  {
    var left := resources - {name};
    assert left.Keys == resources.Keys - {name};
    assert |left.Keys| == |left| && |resources.Keys| == |resources|;
  }

  lemma OnlyNewOnesAdded(before: map<string, Resource>, values: seq<Option<Resource>>)
    requires NewNames(before, values)
    ensures AddAll(before, values) - Names(values) == before
  {
    var all := AddAll(before, values);
    AddAllCounts(before, values);
    forall k | k in all ensures k in before <==> k !in Names(values) {
      AddAllFiles(before, values, k);
    }
    forall k | k in before ensures k in all && all[k] == before[k] { AddAllFiles(before, values, k); }
  }
}
