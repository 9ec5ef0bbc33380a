/** The saved form of the authority state: written sorted, checked record by record when read back. */
module EnrollmentStore {
  import opened Basics
  import opened Ordering
  import opened Enrollment
  import opened EnrollmentCoherence
  import opened EnrollmentInvariant

  datatype Stored = Stored(
    version: int, generation: nat, node: NodeId, key: Key, permits: seq<PermitRecord>, requests: seq<RequestRecord>,
    enrollments: seq<EnrollmentRecord>, used: seq<NodeId>)

  function PermitKey(r: PermitRecord): string { r.permit.body.permitId }
  function RequestKey(r: RequestRecord): string { r.requestId }
  function EnrollmentKey(r: EnrollmentRecord): string { r.grant.body.enrollmentId }

  // ----------------------------------------------------- lists of records as maps

  function MapOf<V>(xs: seq<V>, key: V -> string): (m: map<string, V>) {
    if xs == [] then map[] else MapOf(xs[..|xs| - 1], key)[key(xs[|xs| - 1]) := xs[|xs| - 1]]
  }

  predicate DistinctKeys<V>(xs: seq<V>, key: V -> string) {
    forall i, j :: 0 <= i < j < |xs| ==> key(xs[i]) != key(xs[j])
  }

  lemma {:induction false} MapOfKeys<V>(xs: seq<V>, key: V -> string, k: string)
    ensures k in MapOf(xs, key) <==> exists i :: 0 <= i < |xs| && key(xs[i]) == k
  {
    if xs != [] {
      var front := xs[..|xs| - 1];
      MapOfKeys(front, key, k);
      assert forall i :: 0 <= i < |front| ==> front[i] == xs[i];
    }
  }

  lemma {:induction false} MapOfAt<V>(xs: seq<V>, key: V -> string, i: nat)
    requires DistinctKeys(xs, key) && i < |xs|
    ensures key(xs[i]) in MapOf(xs, key) && MapOf(xs, key)[key(xs[i])] == xs[i]
  {
    if i < |xs| - 1 { MapOfAt(xs[..|xs| - 1], key, i); }
  }

  /** `xs` holds exactly the records of `m`, sorted by key. */
  ghost predicate Holds<V>(xs: seq<V>, key: V -> string, m: map<string, V>) {
    && Lists(seq(|xs|, i requires 0 <= i < |xs| => key(xs[i])), m.Keys)
    && forall i :: 0 <= i < |xs| ==> key(xs[i]) in m && m[key(xs[i])] == xs[i]
  }

  lemma HoldsGivesMap<V>(xs: seq<V>, key: V -> string, m: map<string, V>)
    requires Holds(xs, key, m)
    ensures DistinctKeys(xs, key) && MapOf(xs, key) == m
  {
    var ks := seq(|xs|, i requires 0 <= i < |xs| => key(xs[i]));
    assert DistinctKeys(xs, key) by {
      forall i, j | 0 <= i < j < |xs| ensures key(xs[i]) != key(xs[j]) {
        assert Less(ks[i], ks[j]);
        LessIrreflexive(ks[i]);
      }
    }
    var n := MapOf(xs, key);
    forall k ensures k in n <==> k in m {
      MapOfKeys(xs, key, k);
      if k in m { assert k in ks; }
    }
    forall k | k in m ensures k in n && n[k] == m[k] {
      assert k in ks;
      var i :| 0 <= i < |ks| && ks[i] == k;
      MapOfAt(xs, key, i);
    }
    assert n.Keys == m.Keys;
  }

  /** Collects the values of a map in the order of their sorted keys. */
  method SortedValues<V>(m: map<string, V>, key: V -> string) returns (xs: seq<V>)
    requires forall k :: k in m ==> key(m[k]) == k
    ensures Holds(xs, key, m)
  {
    var ks := SortedKeys(m.Keys);
    xs := [];
    for i := 0 to |ks|
      invariant |xs| == i
      invariant forall j :: 0 <= j < i ==> ks[j] in m && xs[j] == m[ks[j]]
    {
      assert ks[i] in m;
      xs := xs + [m[ks[i]]];
    }
    assert seq(|xs|, i requires 0 <= i < |xs| => key(xs[i])) == ks;
  }

  // --------------------------------------------------------------- used Node IDs

  predicate Increasing(xs: seq<NodeId>) {
    forall i, j :: 0 <= i < j < |xs| ==> xs[i] < xs[j]
  }

  function InsertNode(xs: seq<NodeId>, n: NodeId): (r: seq<NodeId>)
    requires Increasing(xs) && n !in xs
    ensures Increasing(r) && forall x :: x in r <==> x == n || x in xs
  {
    if xs == [] || n < xs[0] then [n] + xs
    else
      assert xs == [xs[0]] + xs[1..];
      var rest := InsertNode(xs[1..], n);
      assert forall j :: 0 <= j < |rest| ==> rest[j] in rest;
      [xs[0]] + rest
  }

  method SortedNodes(nodes: set<NodeId>) returns (xs: seq<NodeId>)
    ensures Increasing(xs) && forall n :: n in xs <==> n in nodes
  {
    xs := [];
    var rest := nodes;
    while rest != {}
      invariant rest <= nodes && Increasing(xs)
      invariant forall n :: n in xs <==> n in nodes - rest
      decreases |rest|
    {
      var n :| n in rest;
      xs := InsertNode(xs, n);
      rest := rest - {n};
    }
  }

  // ------------------------------------------------------------------ save, load

  /** The saved form of a state. */
  ghost predicate Stores(u: Setup, s: State, st: Stored) {
    && st.version == 1 && st.generation == s.generation && st.node == u.node && st.key == u.crypto.authorityKey
    && Holds(st.permits, PermitKey, s.data.permits) && Holds(st.requests, RequestKey, s.data.requests)
    && Holds(st.enrollments, EnrollmentKey, s.data.enrollments)
    && Increasing(st.used) && (forall n :: n in st.used <==> n in s.data.used)
  }

  method Save(u: Setup, s: State) returns (st: Stored)
    requires Keyed(s.data)
    ensures Stores(u, s, st)
  {
    var permits := SortedValues(s.data.permits, PermitKey);
    var requests := SortedValues(s.data.requests, RequestKey);
    var enrollments := SortedValues(s.data.enrollments, EnrollmentKey);
    var used := SortedNodes(s.data.used);
    st := Stored(1, s.generation, u.node, u.crypto.authorityKey, permits, requests, enrollments, used);
  }

  ghost function DataOf(st: Stored): Data {
    Data(MapOf(st.permits, PermitKey), MapOf(st.requests, RequestKey), MapOf(st.enrollments, EnrollmentKey),
         set n | n in st.used)
  }

  /** The stored state is accepted: its header fits, no key occurs twice, and every record passes its checks. */
  ghost predicate Loadable(u: Setup, st: Stored) {
    && st.version == 1 && st.generation != 0 && st.node == u.node && st.key == u.crypto.authorityKey
    && (forall i, j :: 0 <= i < j < |st.used| ==> st.used[i] != st.used[j])
    && DistinctKeys(st.permits, PermitKey) && DistinctKeys(st.requests, RequestKey)
    && DistinctKeys(st.enrollments, EnrollmentKey) && Reloadable(u, DataOf(st))
  }

  method LoadUsed(used: seq<NodeId>) returns (ok: bool, nodes: set<NodeId>)
    ensures ok <==> 0 !in used && forall i, j :: 0 <= i < j < |used| ==> used[i] != used[j]
    ensures ok ==> nodes == set n | n in used
  {
    nodes := {};
    for i := 0 to |used|
      invariant forall n :: n in nodes <==> n in used[..i]
      invariant 0 !in nodes && forall a, b :: 0 <= a < b < i ==> used[a] != used[b]
    {
      if used[i] == 0 { return false, nodes; }
      if used[i] in nodes {
        var a :| 0 <= a < i && used[..i][a] == used[i];
        return false, nodes;
      }
      assert used[..i + 1] == used[..i] + [used[i]];
      nodes := nodes + {used[i]};
    }
    assert used[..|used|] == used;
    ok := true;
  }

  /** One pass over a list of records: each must pass its check, no key may repeat. */
  method LoadRecords<V>(xs: seq<V>, key: V -> string, check: V -> bool) returns (ok: bool, m: map<string, V>)
    ensures ok <==> DistinctKeys(xs, key) && AllChecked(xs, check)
    ensures ok ==> m == MapOf(xs, key)
  {
    m := map[];
    for i := 0 to |xs|
      invariant DistinctKeys(xs[..i], key) && m == MapOf(xs[..i], key)
      invariant forall j :: 0 <= j < i ==> check(xs[j])
    {
      if !check(xs[i]) { return false, m; }
      MapOfKeys(xs[..i], key, key(xs[i]));
      if key(xs[i]) in m {
        var j :| 0 <= j < i && key(xs[..i][j]) == key(xs[i]);
        return false, m;
      }
      assert xs[..i + 1][..i] == xs[..i];
      m := m[key(xs[i]) := xs[i]];
    }
    assert xs[..|xs|] == xs;
    ok := true;
  }

  lemma MapOfMember<V>(xs: seq<V>, key: V -> string, k: string) returns (i: nat)
    requires DistinctKeys(xs, key) && k in MapOf(xs, key)
    ensures i < |xs| && key(xs[i]) == k && MapOf(xs, key)[k] == xs[i]
  {
    MapOfKeys(xs, key, k);
    i :| i < |xs| && key(xs[i]) == k;
    MapOfAt(xs, key, i);
  }

  ghost predicate AllChecked<V>(xs: seq<V>, check: V -> bool) {
    forall i :: 0 <= i < |xs| ==> check(xs[i])
  }

  ghost predicate AllMapped<V>(m: map<string, V>, key: V -> string, check: V -> bool) {
    forall k :: k in m ==> key(m[k]) == k && check(m[k])
  }

  /** Checking the records one by one is checking them in the map they build. */
  lemma RecordsChecked<V>(xs: seq<V>, key: V -> string, check: V -> bool)
    requires DistinctKeys(xs, key)
    ensures AllChecked(xs, check) <==> AllMapped(MapOf(xs, key), key, check)
  {
    hide MapOf, DistinctKeys;
    var m := MapOf(xs, key);
    if AllChecked(xs, check) {
      forall k | k in m ensures key(m[k]) == k && check(m[k]) {
        var i := MapOfMember(xs, key, k);
      }
    }
    if AllMapped(m, key, check) {
      forall i | 0 <= i < |xs| ensures check(xs[i]) {
        MapOfAt(xs, key, i);
      }
    }
  }

  /** Reads a stored state back. */
  method Load(u: Setup, st: Stored) returns (r: Option<State>)
    requires u.node != 0
    ensures r.Some? <==> Loadable(u, st)
    ensures r.Some? ==> r.value == State(st.generation, DataOf(st))
  {
    hide PermitRecordOk, RequestRecordOk, EnrollmentRecordOk, EnrollmentLinked, RequestLinked, MapOf, DistinctKeys;
    if st.version != 1 || st.generation == 0 || st.node != u.node || st.key != u.crypto.authorityKey { return None; }
    var ok, used := LoadUsed(st.used);
    if !ok || st.node !in used { return None; }
    assert used == DataOf(st).used;
    var c := u.crypto;
    var permits, requests, enrollments;
    ok, permits := LoadRecords(st.permits, PermitKey, p => PermitRecordOk(c, p));
    if DistinctKeys(st.permits, PermitKey) { RecordsChecked(st.permits, PermitKey, p => PermitRecordOk(c, p)); }
    if !ok { return None; }
    ok, requests := LoadRecords(st.requests, RequestKey, q => RequestRecordOk(c, q));
    if DistinctKeys(st.requests, RequestKey) { RecordsChecked(st.requests, RequestKey, q => RequestRecordOk(c, q)); }
    if !ok { return None; }
    ok, enrollments := LoadRecords(st.enrollments, EnrollmentKey, e => EnrollmentRecordOk(c, e, used));
    if DistinctKeys(st.enrollments, EnrollmentKey) {
      RecordsChecked(st.enrollments, EnrollmentKey, e => EnrollmentRecordOk(c, e, used));
    }
    if !ok { return None; }
    if exists id | id in enrollments :: !EnrollmentLinked(requests, id, enrollments[id]) { return None; }
    if exists id | id in requests :: !RequestLinked(enrollments, id, requests[id]) { return None; }
    r := Some(State(st.generation, Data(permits, requests, enrollments, used)));
  }

  /** The request of an enrollment, as both describe it. */
  predicate BelongsTo(e: EnrollmentRecord, r: RequestRecord) {
    && r.status == Approved && r.requestId == e.requestId && r.enrollmentId == e.grant.body.enrollmentId
    && r.fingerprint == e.fingerprint && r.profile == e.grant.body.profile
    && r.parentNode == e.grant.body.parentNode && r.parentKey == e.grant.body.parentKey
  }

  /**
   * What is loaded is genuine: every grant carries a signature of the authority's key over a used Node ID and belongs
   * to
   * an approved request that describes it alike, and every approved request has such a grant.
   */
  lemma LoadedIsGenuine(u: Setup, st: Stored, i: nat)
    requires Loadable(u, st)
    ensures i < |st.enrollments| ==>
              var e := st.enrollments[i];
              && u.crypto.verifyGrant(e.grant.body, e.grant.signature)
                 && e.grant.body.authorityKey == u.crypto.authorityKey
              && e.fingerprint == u.crypto.fingerprint(e.grant.body.deviceKey) && e.grant.body.node in st.used
              && exists k :: 0 <= k < |st.requests| && BelongsTo(e, st.requests[k])
    ensures i < |st.requests| && st.requests[i].status == Approved ==>
              exists k :: 0 <= k < |st.enrollments| && BelongsTo(st.enrollments[k], st.requests[i])
  {
    var d := DataOf(st);
    hide PermitRecordOk, PermitsOk, DistinctKeys, MapOf, GrantOk;
    if i < |st.enrollments| {
      var e := st.enrollments[i];
      MapOfAt(st.enrollments, EnrollmentKey, i);
      assert EnrollmentRecordOk(u.crypto, e, d.used) && EnrollmentLinked(d.requests, EnrollmentKey(e), e);
      var k := MapOfMember(st.requests, RequestKey, e.requestId);
      assert RequestLinked(d.enrollments, e.requestId, st.requests[k]);
      assert BelongsTo(e, st.requests[k]);
    }
    if i < |st.requests| && st.requests[i].status == Approved {
      var r := st.requests[i];
      MapOfAt(st.requests, RequestKey, i);
      assert RequestLinked(d.enrollments, RequestKey(r), r);
      var k := MapOfMember(st.enrollments, EnrollmentKey, r.enrollmentId);
      assert BelongsTo(st.enrollments[k], r);
    }
  }

  /** Every loaded permit is signed by the authority's key, and its status agrees with what happened to it. */
  lemma LoadedPermitsAreGenuine(u: Setup, st: Stored, i: nat)
    requires Loadable(u, st) && i < |st.permits|
    ensures var r := st.permits[i];
            && u.crypto.verifyPermit(r.permit.body, r.permit.signature)
            && r.permit.body.authorityKey == u.crypto.authorityKey
            && (r.status == PermitActive <==> r.consumedBy == "" && r.revokedAt == 0)
            && (r.status == PermitConsumed <==> r.consumedBy != "" && r.consumedAt > 0)
            && (r.status == PermitRevoked <==> r.revokedAt > 0 && r.reason != "")
  {
    MapOfAt(st.permits, PermitKey, i);
    assert PermitRecordOk(u.crypto, st.permits[i]);
    hide RequestsOk, EnrollmentsOk, PermitOk, MapOf, DistinctKeys;
  }

  /** A saved state loads exactly when it satisfies the reload checks, and then loads as itself. */
  lemma SaveThenLoad(u: Setup, s: State, st: Stored)
    requires Stores(u, s, st) && s.generation != 0
    ensures DataOf(st) == s.data
    ensures Loadable(u, st) <==> Reloadable(u, s.data)
  {
    hide Reloadable;
    HoldsGivesMap(st.permits, PermitKey, s.data.permits);
    HoldsGivesMap(st.requests, RequestKey, s.data.requests);
    HoldsGivesMap(st.enrollments, EnrollmentKey, s.data.enrollments);
    assert DataOf(st).used == s.data.used;
  }

  /** After any run whose clock went forward, restarting from the saved file gives back the same authority. */
  lemma RestartLosesNothing(u: Setup, states: seq<State>, events: seq<Event>, i: nat, st: Stored)
    requires SetupOk(u) && IsRun(u, states, events) && ClockForward(events) && i < |states| && Stores(u, states[i], st)
    ensures Loadable(u, st) && State(st.generation, DataOf(st)) == states[i]
  {
    hide SetupOk, IsRun, ClockForward, Reloadable, Loadable, Stores, DataOf, Coherent, CreatedBy;
    RunKeeps(u, states, events, i);
    SaveThenLoad(u, states[i], st);
    StoredGeneration(u, states[i], st);
  }

  lemma StoredGeneration(u: Setup, s: State, st: Stored)
    requires Stores(u, s, st)
    ensures st.generation == s.generation
  {}
}
