/** Exactly when registering and removing succeed, and what they do to each name. */
module RegistryMeaning {
  import opened Basics
  import opened Ordering
  import opened Registry
  import opened RegistryObject
  import Variable
  import VariableInvariant

  /** The catalog stands, has room for a notice and a revision left, and can be rendered with these members. */
  ghost predicate CanPublish(l: Variable.Limits, r: Registry, resources: map<string, Resource>)
    requires forall k :: k in resources ==> resources[k].descriptor.name == k
  {
    && r.table.revision != U64 - 1 && r.catalog.core.current.revision != U64 - 1 && !r.catalog.core.retired
    && |r.catalog.core.pending| < l.maxQueue && r.render(r.table.revision + 1, SortedDescriptors(resources)).Some?
  }

  /** Nobody steps in between. */
  ghost predicate Undisturbed(r: Registry, w: World) {
    w.between == [] && Variable.Visits(w.order, r.catalog.core.watchers)
  }

  lemma FinishesExactly(l: Variable.Limits, r: Registry, tentative: map<string, Resource>, retire: set<nat>, w: World)
    requires r.catalog.writer == Variable.Outside && Undisturbed(r, w)
    requires forall k :: k in tentative ==> tentative[k].descriptor.name == k
    ensures Finish(l, r, tentative, retire, w).1.Ok? <==> CanPublish(l, r, tentative)
  {
    AloneIsFinish(l, r, tentative, retire, w);
    hide Finish, Variable.Visits, SortedDescriptors, IsCatalogOf;
  }

  /** The names of the batch are new here and none of its resources was retired. */
  predicate AllNew(t: Table, values: seq<Option<Resource>>)
    requires forall i :: 0 <= i < |values| ==> values[i].Some?
  {
    forall i :: 0 <= i < |values| ==>
      && values[i].value.descriptor.name !in t.resources
      && !(values[i].value.retires && values[i].value.handle in t.retired)
  }

  /** A name has the resource it had, or the one the batch brings for it. */
  predicate HoldsBatch(before: map<string, Resource>, values: seq<Option<Resource>>, after: map<string, Resource>)
    requires forall i :: 0 <= i < |values| ==> values[i].Some?
  {
    && (forall k :: k in before ==> k in after && after[k] == before[k])
    && (forall i :: 0 <= i < |values| ==>
          var name := values[i].value.descriptor.name; name in after && after[name] == values[i].value)
    && (forall k :: k in after && k !in before ==>
          exists i :: 0 <= i < |values| && values[i].value.descriptor.name == k)
  }

  lemma {:induction false} AddAllHolds(resources: map<string, Resource>, values: seq<Option<Resource>>)
    requires NewNames(resources, values)
    ensures HoldsBatch(resources, values, AddAll(resources, values))
  {
    var all := AddAll(resources, values);
    AddAllCounts(resources, values);
    forall k | k in all
      ensures k in resources ==> all[k] == resources[k]
      ensures k !in resources ==> exists i :: 0 <= i < |values| && values[i].value.descriptor.name == k
                                              && values[i].value == all[k]
    {
      AddAllFiles(resources, values, k);
      if k !in resources {
        var i :| 0 <= i < |values| && values[i] == Some(all[k]);
        assert values[i].value.descriptor.name == k;
      }
    }
    hide AddAll;
    forall i | 0 <= i < |values| ensures all[values[i].value.descriptor.name] == values[i].value {
      var name := values[i].value.descriptor.name;
      var j :| 0 <= j < |values| && values[j].value.descriptor.name == name && values[j].value == all[name];
      assert i == j;
    }
  }

  /** What a batch asks for: not empty, well formed, all new, and room for it. */
  predicate Registrable(owner: NodeId, t: Table, values: seq<Option<Resource>>) {
    0 < |values| < MAX_ITEMS && BatchOk(owner, values) && |t.resources| + |values| <= MAX_ITEMS && AllNew(t, values)
  }

  lemma PlansExactly(owner: NodeId, t: Table, values: seq<Option<Resource>>)
    ensures RegisterPlan(owner, t, values).Ok? <==> Registrable(owner, t, values)
    ensures RegisterPlan(owner, t, values).Ok? ==> RegisterPlan(owner, t, values).value == AddAll(t.resources, values)
  {
    assert values[..|values|] == values;
    ScanIsExact(owner, values, |values|);
    if BatchOk(owner, values) { SlotsAreFree(t, values, |values|); }
    hide FirstProblem, FirstSlotProblem, AddAll;
  }

  /**
   * An undisturbed batch is registered exactly when it is registrable and the catalog can be published with it; then
   * each of its names has its resource and every other name is as it was.
   */
  lemma RegisterSucceedsExactly(l: Variable.Limits, r: Registry, values: seq<Option<Resource>>,
      after: map<string, Resource>, w: World)
    requires Inv(l, r) && Undisturbed(r, w) && Registrable(r.owner, r.table, values)
    requires HoldsBatch(r.table.resources, values, after) && forall k :: k in after ==> after[k].descriptor.name == k
    ensures var (t, result) := RegisterBatch(l, r, values, w);
            && (result.Ok? <==> CanPublish(l, r, after))
            && t.table.resources == if result.Ok? then after else r.table.resources
  {
    PlansExactly(r.owner, r.table, values);
    assert NewNames(r.table.resources, values);
    AddAllHolds(r.table.resources, values);
    BatchIsUnique(r.table.resources, values, after, AddAll(r.table.resources, values));
    hide RegisterPlan, Finish, Undisturbed, CanPublish, SortedDescriptors, VariableInvariant.Inv, AddAll, HoldsBatch,
      Registrable, MembersOk;
    FinishesExactly(l, r, after, {}, w);
    FinishInstalls(l, r, after, {}, w);
  }

  lemma BatchIsUnique(before: map<string, Resource>, values: seq<Option<Resource>>, a: map<string, Resource>,
      b: map<string, Resource>)
    requires forall i :: 0 <= i < |values| ==> values[i].Some?
    requires HoldsBatch(before, values, a) && HoldsBatch(before, values, b)
    ensures a == b
  {
    assert a.Keys == b.Keys;
  }

  /** Anything else is refused and changes nothing. */
  lemma OtherBatchesAreRefused(l: Variable.Limits, r: Registry, values: seq<Option<Resource>>, w: World)
    requires Inv(l, r) && !Registrable(r.owner, r.table, values)
    ensures RegisterBatch(l, r, values, w).0 == r && RegisterBatch(l, r, values, w).1.Err?
  {
    PlansExactly(r.owner, r.table, values);
    hide RegisterPlan, Finish, SortedDescriptors, VariableInvariant.Inv, Registrable;
  }

  lemma FinishInstalls(l: Variable.Limits, r: Registry, tentative: map<string, Resource>, retire: set<nat>, w: World)
    requires forall k :: k in tentative ==> tentative[k].descriptor.name == k
    ensures var (t, result) := Finish(l, r, tentative, retire, w);
            t.table.resources == if result.Ok? then tentative else r.table.resources
  {
    hide Publish, SortedDescriptors;
  }

  /**
   * An undisturbed removal succeeds exactly for a member of this owner that is not the catalog itself, if the catalog
   * can be published without it; then that name is gone and every other is as it was.
   */
  lemma RemoveSucceedsExactly(l: Variable.Limits, r: Registry, target: NodeId, name: string, w: World)
    requires Inv(l, r) && Undisturbed(r, w)
    ensures var (t, result) := Remove(l, r, target, name, w);
            && (result.Ok? <==> && target == r.owner && name in r.table.resources && name != CATALOG_NAME
                                && CanPublish(l, r, r.table.resources - {name}))
            && t.table.resources == if result.Ok? then r.table.resources - {name} else r.table.resources
  {
    hide Finish, Undisturbed, CanPublish, SortedDescriptors, VariableInvariant.Inv;
    var left := r.table.resources - {name};
    FinishesExactly(l, r, left, RetiredBy(r.table, name), w);
    FinishInstalls(l, r, left, RetiredBy(r.table, name), w);
  }
}
