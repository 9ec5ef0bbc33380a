/**
 * What every run of the enrollment authority keeps whatever its clock reads: records are filed under their own
 * identifiers, approved requests and enrollments match one to one, the numbers handed out stay distinct, and
 * every limit holds.
 */
module EnrollmentCoherence {
  import opened Basics
  import opened Enrollment

  /** Approved requests and enrollments match one to one. */
  ghost predicate Matched(requests: map<string, RequestRecord>, enrollments: map<string, EnrollmentRecord>) {
    && (forall id :: id in enrollments ==> EnrollmentLinked(requests, id, enrollments[id]))
    && (forall id :: id in requests ==> RequestLinked(enrollments, id, requests[id]))
  }

  /** The authority's own Node ID and every enrolled one are used; an enrollment is active or revoked. */
  ghost predicate Enrolled(node: NodeId, enrollments: map<string, EnrollmentRecord>, used: set<NodeId>) {
    && node in used && 0 !in used
    && forall id :: id in enrollments ==>
         && enrollments[id].grant.body.node in used
         && (enrollments[id].status == EnrollmentActive || enrollments[id].status == EnrollmentRevoked)
  }

  /** Granted Node IDs are distinct and never the authority's own. */
  ghost predicate DistinctNodes(node: NodeId, enrollments: map<string, EnrollmentRecord>) {
    && (forall a :: a in enrollments ==> enrollments[a].grant.body.node != node)
    && (forall a, b :: a in enrollments && b in enrollments && a != b ==>
          enrollments[a].grant.body.node != enrollments[b].grant.body.node)
  }

  /** Permit and grant epochs are distinct across both kinds and at most the generation. */
  ghost predicate DistinctEpochs(permits: map<string, PermitRecord>, enrollments: map<string, EnrollmentRecord>,
      generation: nat) {
    && (forall a :: a in permits ==> permits[a].permit.body.epoch <= generation)
    && (forall a :: a in enrollments ==> enrollments[a].grant.body.epoch <= generation)
    && (forall a, b :: a in permits && b in permits && a != b ==>
          permits[a].permit.body.epoch != permits[b].permit.body.epoch)
    && (forall a, b :: a in enrollments && b in enrollments && a != b ==>
          enrollments[a].grant.body.epoch != enrollments[b].grant.body.epoch)
    && (forall a, b :: a in permits && b in enrollments ==>
          permits[a].permit.body.epoch != enrollments[b].grant.body.epoch)
  }

  /** One issuing command produced at most one permit. */
  ghost predicate DistinctIssues(permits: map<string, PermitRecord>) {
    forall a, b :: a in permits && b in permits && a != b ==> permits[a].issueRequestId != permits[b].issueRequestId
  }

  ghost predicate PendingWithin(c: Config, requests: map<string, RequestRecord>) {
    && |PendingIds(requests)| <= c.maxPending
    && forall p :: |PendingIdsFor(requests, p)| <= c.maxPendingPerParent
  }

  ghost predicate SizesWithin(c: Config, d: Data) {
    |d.permits| <= c.maxPermits && |d.requests| <= c.maxRequests && |d.enrollments| <= c.maxEnrollments
  }

  ghost predicate Coherent(u: Setup, d: Data, generation: nat) {
    && Keyed(d) && Enrolled(u.node, d.enrollments, d.used) && Matched(d.requests, d.enrollments)
    && DistinctNodes(u.node, d.enrollments) && DistinctEpochs(d.permits, d.enrollments, generation)
       && DistinctIssues(d.permits)
    && PendingWithin(u.config, d.requests) && SizesWithin(u.config, d)
  }

  ghost predicate Coheres(u: Setup, s: State) { 1 <= s.generation < U64 && Coherent(u, s.data, s.generation) }

  /** Maps are visited completely. */
  ghost predicate Visited(s: State, w: World) {
    && (forall id :: id in s.data.permits ==> id in w.permitOrder)
    && (forall id :: id in s.data.requests ==> id in w.requestOrder)
  }

  lemma CoherentLater(u: Setup, d: Data, g: nat, g': nat)
    requires Coherent(u, d, g) && g <= g'
    ensures Coherent(u, d, g')
  {
    hide Keyed, Enrolled, Matched, DistinctNodes, DistinctIssues, PendingWithin;
  }

  // ------------------------------------------------------- effects on permits

  lemma AddEpochOfPermit(permits: map<string, PermitRecord>, enrollments: map<string, EnrollmentRecord>,
      generation: nat, id: string, r: PermitRecord)
    requires DistinctEpochs(permits, enrollments, generation) && DistinctIssues(permits)
    requires r.permit.body.epoch == generation + 1 && id !in permits
    requires forall p :: p in permits ==> permits[p].issueRequestId != r.issueRequestId
    ensures DistinctIssues(permits[id := r]) && DistinctEpochs(permits[id := r], enrollments, generation + 1)
  {}

  lemma AddPermitCoheres(u: Setup, d: Data, generation: nat, id: string, r: PermitRecord)
    requires Coherent(u, d, generation) && id !in d.permits && |d.permits| < u.config.maxPermits
    requires r.permit.body.permitId == id && r.permit.body.epoch == generation + 1
    requires forall p :: p in d.permits ==> d.permits[p].issueRequestId != r.issueRequestId
    ensures Coherent(u, d.(permits := d.permits[id := r]), generation + 1)
  {
    AddEpochOfPermit(d.permits, d.enrollments, generation, id, r);
    hide Enrolled, Matched, DistinctNodes, DistinctEpochs, DistinctIssues, PendingWithin;
  }

  /** Replacing one permit record by another state of the same permit. */
  lemma ReplaceEpochOfPermit(permits: map<string, PermitRecord>, enrollments: map<string, EnrollmentRecord>,
      generation: nat, id: string, r: PermitRecord)
    requires DistinctEpochs(permits, enrollments, generation) && DistinctIssues(permits)
    requires id in permits && r.permit == permits[id].permit && r.issueRequestId == permits[id].issueRequestId
    ensures DistinctIssues(permits[id := r]) && DistinctEpochs(permits[id := r], enrollments, generation)
  {}

  lemma ReplacePermitCoheres(u: Setup, d: Data, generation: nat, id: string, r: PermitRecord)
    requires Coherent(u, d, generation) && id in d.permits
    requires r.permit == d.permits[id].permit && r.issueRequestId == d.permits[id].issueRequestId
    ensures Coherent(u, d.(permits := d.permits[id := r]), generation)
  {
    ReplaceEpochOfPermit(d.permits, d.enrollments, generation, id, r);
    SameSize(d.permits, id, r);
    hide Enrolled, Matched, DistinctNodes, DistinctEpochs, DistinctIssues, PendingWithin;
  }

  // ------------------------------------------------------ effects on requests

  lemma FewerPending(c: Config, before: map<string, RequestRecord>, after: map<string, RequestRecord>)
    requires forall id :: id in after && after[id].status == Pending ==> id in before && after[id] == before[id]
    requires PendingWithin(c, before)
    ensures PendingWithin(c, after)
  {
    SubsetIsSmaller(PendingIds(after), PendingIds(before));
    forall p ensures |PendingIdsFor(after, p)| <= c.maxPendingPerParent {
      SubsetIsSmaller(PendingIdsFor(after, p), PendingIdsFor(before, p));
    }
  }

  /** `after` is `before` with some pending requests closed, none of them by approval. */
  ghost predicate Closes(before: map<string, RequestRecord>, after: map<string, RequestRecord>) {
    && after.Keys == before.Keys
    && forall id :: id in before ==>
         || after[id] == before[id]
         || (&& before[id].status == Pending && after[id].status != Pending && after[id].status != Approved
             && after[id].requestId == id && after[id].createdAt == before[id].createdAt)
  }

  lemma CloseMatches(before: map<string, RequestRecord>, after: map<string, RequestRecord>,
      enrollments: map<string, EnrollmentRecord>)
    requires Closes(before, after) && Matched(before, enrollments)
    ensures Matched(after, enrollments)
  {
    forall id | id in enrollments ensures EnrollmentLinked(after, id, enrollments[id]) {
      assert EnrollmentLinked(before, id, enrollments[id]);
    }
  }

  lemma CloseCoheres(u: Setup, d: Data, generation: nat, after: map<string, RequestRecord>)
    requires Coherent(u, d, generation) && Closes(d.requests, after)
    ensures Coherent(u, d.(requests := after), generation)
  {
    hide Enrolled, Matched, DistinctNodes, DistinctEpochs, DistinctIssues, PendingWithin;
    CloseMatches(d.requests, after, d.enrollments);
    FewerPending(u.config, d.requests, after);
    assert |after.Keys| == |after| && |d.requests.Keys| == |d.requests|;
  }

  lemma ExpireDueCloses(requests: map<string, RequestRecord>, at: int)
    requires forall id :: id in requests ==> requests[id].requestId == id
    ensures Closes(requests, ExpireDue(requests, at))
  {}

  lemma ExpireDueCoheres(u: Setup, d: Data, generation: nat, at: int)
    requires Coherent(u, d, generation)
    ensures Coherent(u, d.(requests := ExpireDue(d.requests, at)), generation)
  {
    ExpireDueCloses(d.requests, at);
    hide Coherent, Closes, ExpireDue;
    CloseCoheres(u, d, generation, ExpireDue(d.requests, at));
  }

  lemma OneMorePending(c: Config, requests: map<string, RequestRecord>, r: RequestRecord)
    requires PendingWithin(c, requests) && r.requestId !in requests && r.status == Pending
    requires |PendingIds(requests)| < c.maxPending && |PendingIdsFor(requests, r.parentNode)| < c.maxPendingPerParent
    ensures PendingWithin(c, requests[r.requestId := r])
  {
    var after := requests[r.requestId := r];
    assert PendingIds(after) == PendingIds(requests) + {r.requestId};
    forall p ensures |PendingIdsFor(after, p)| <= c.maxPendingPerParent {
      OneMorePendingFor(requests, r, p);
    }
  }

  lemma OneMorePendingFor(requests: map<string, RequestRecord>, r: RequestRecord, p: NodeId)
    requires r.requestId !in requests && r.status == Pending
    ensures var grown := |PendingIdsFor(requests[r.requestId := r], p)|;
            grown == |PendingIdsFor(requests, p)| + if p == r.parentNode then 1 else 0
  {
    var after := requests[r.requestId := r];
    if p == r.parentNode {
      assert PendingIdsFor(after, p) == PendingIdsFor(requests, p) + {r.requestId};
    } else {
      assert PendingIdsFor(after, p) == PendingIdsFor(requests, p);
    }
  }

  lemma AddUnmatched(requests: map<string, RequestRecord>, enrollments: map<string, EnrollmentRecord>, r: RequestRecord)
    requires Matched(requests, enrollments) && r.requestId !in requests && r.status != Approved
    ensures Matched(requests[r.requestId := r], enrollments)
  {
    forall id | id in enrollments ensures EnrollmentLinked(requests[r.requestId := r], id, enrollments[id]) {
      assert EnrollmentLinked(requests, id, enrollments[id]);
    }
  }

  lemma AddPendingCoheres(u: Setup, d: Data, generation: nat, r: RequestRecord)
    requires Coherent(u, d, generation) && r.requestId !in d.requests && r.status == Pending
    requires |d.requests| < u.config.maxRequests && |PendingIds(d.requests)| < u.config.maxPending
    requires |PendingIdsFor(d.requests, r.parentNode)| < u.config.maxPendingPerParent
    ensures Coherent(u, d.(requests := d.requests[r.requestId := r]), generation)
  {
    hide Enrolled, Matched, DistinctNodes, DistinctEpochs, DistinctIssues, PendingWithin;
    AddUnmatched(d.requests, d.enrollments, r);
    OneMorePending(u.config, d.requests, r);
  }

  // -------------------------------------------------------------------- grants

  lemma AddMatch(requests: map<string, RequestRecord>, enrollments: map<string, EnrollmentRecord>, r: RequestRecord,
      e: EnrollmentRecord, id: string)
    requires Matched(requests, enrollments) && id !in enrollments
    requires r.requestId in requests ==> requests[r.requestId].status != Approved
    requires r.status == Approved && r.enrollmentId == id && e.requestId == r.requestId
             && e.fingerprint == r.fingerprint
    requires e.grant.body.profile == r.profile && e.grant.body.parentNode == r.parentNode
             && e.grant.body.parentKey == r.parentKey
    ensures Matched(requests[r.requestId := r], enrollments[id := e])
  {
    forall k | k in enrollments ensures EnrollmentLinked(requests[r.requestId := r], k, enrollments[k]) {
      assert EnrollmentLinked(requests, k, enrollments[k]);
    }
  }

  lemma AddNode(node: NodeId, enrollments: map<string, EnrollmentRecord>, used: set<NodeId>, id: string,
      e: EnrollmentRecord)
    requires Enrolled(node, enrollments, used) && DistinctNodes(node, enrollments) && id !in enrollments
    requires e.grant.body.node !in used && e.grant.body.node != 0 && e.status == EnrollmentActive
    ensures Enrolled(node, enrollments[id := e], used + {e.grant.body.node})
            && DistinctNodes(node, enrollments[id := e])
  {}

  lemma AddEpoch(permits: map<string, PermitRecord>, enrollments: map<string, EnrollmentRecord>, generation: nat,
      id: string, e: EnrollmentRecord)
    requires DistinctEpochs(permits, enrollments, generation) && id !in enrollments
             && e.grant.body.epoch == generation + 1
    ensures DistinctEpochs(permits, enrollments[id := e], generation + 1)
  {}

  lemma GrantIsFresh(u: Setup, d: Data, generation: nat, r: RequestRecord, profile: string, at: int, entropy: seq<byte>)
    requires generation < U64 && GrantRequest(u, generation, d, r, profile, at, entropy).Ok?
    ensures var (e, grant) := GrantRequest(u, generation, d, r, profile, at, entropy).value;
            var b := grant.body;
            && grant == MakeGrant(u, generation, r, profile, b.node, b.enrollmentId, at) && GrantOk(u.crypto, grant)
            && e == AddEnrollment(d, r, profile, grant, at) && |d.enrollments| < u.config.maxEnrollments
            && b.enrollmentId !in d.enrollments && HexId(b.enrollmentId, 16) && b.node !in d.used && b.node != 0
  {
    hide HexId, GrantOk, AddEnrollment;
  }

  /** A grant is numbered by the generation it is saved as; none is made once generations are used up. */
  lemma GrantIsNumbered(u: Setup, generation: nat, r: RequestRecord, profile: string, node: NodeId, id: string, at: int)
    requires generation < U64 && GrantOk(u.crypto, MakeGrant(u, generation, r, profile, node, id, at))
    ensures var b := MakeGrant(u, generation, r, profile, node, id, at).body;
            && generation + 1 < U64 && b.epoch == generation + 1 && b.node == node && b.enrollmentId == id
            && b.profile == profile && b.parentNode == r.parentNode && b.parentKey == r.parentKey
  {
    hide HexId;
    assert MakeGrant(u, generation, r, profile, node, id, at).body.epoch != 0;
  }

  /** A request that may be granted is new and has room, or is known and not yet approved. */
  ghost predicate HasRoom(u: Setup, d: Data, r: RequestRecord) {
    && (r.requestId in d.requests ==> d.requests[r.requestId].status != Approved)
    && (r.requestId !in d.requests ==> |d.requests| < u.config.maxRequests)
  }

  lemma GrantCoheres(u: Setup, d: Data, generation: nat, r: RequestRecord, profile: string, at: int, entropy: seq<byte>)
    requires Coherent(u, d, generation) && generation < U64 && HasRoom(u, d, r)
    requires GrantRequest(u, generation, d, r, profile, at, entropy).Ok?
    ensures var (e, grant) := GrantRequest(u, generation, d, r, profile, at, entropy).value;
            generation + 1 < U64 && Coherent(u, e, generation + 1) && e.permits == d.permits
  {
    var (e, grant) := GrantRequest(u, generation, d, r, profile, at, entropy).value;
    GrantIsFresh(u, d, generation, r, profile, at, entropy);
    GrantIsNumbered(u, generation, r, profile, grant.body.node, grant.body.enrollmentId, at);
    hide GrantRequest, GrantOk, Coherent, MakeGrant, HexId;
    GrantedCoheres(u, d, generation, r, profile, at, grant);
  }

  lemma GrantedCoheres(u: Setup, d: Data, generation: nat, r: RequestRecord, profile: string, at: int, grant: Grant)
    requires Coherent(u, d, generation) && HasRoom(u, d, r) && grant.body.enrollmentId !in d.enrollments
    requires |d.enrollments| < u.config.maxEnrollments && grant.body.epoch == generation + 1
    requires grant.body.node !in d.used && grant.body.node != 0 && grant.body.profile == profile
    requires grant.body.parentNode == r.parentNode && grant.body.parentKey == r.parentKey
    ensures Coherent(u, AddEnrollment(d, r, profile, grant, at), generation + 1)
  {
    hide Matched, DistinctNodes, DistinctEpochs, DistinctIssues, PendingWithin, Enrolled;
    var id := grant.body.enrollmentId;
    var e := AddEnrollment(d, r, profile, grant, at);
    var approved := ApprovedRequest(r, profile, id, at);
    AddMatch(d.requests, d.enrollments, approved, e.enrollments[id], id);
    FewerPending(u.config, d.requests, d.requests[r.requestId := approved]);
    AddNode(u.node, d.enrollments, d.used, id, e.enrollments[id]);
    AddEpoch(d.permits, d.enrollments, generation, id, e.enrollments[id]);
    if r.requestId in d.requests { SameSize(d.requests, r.requestId, approved); }
  }

  // -------------------------------------------------------------- revocation

  lemma RematchEnrollment(requests: map<string, RequestRecord>, enrollments: map<string, EnrollmentRecord>,
      id: string, r: EnrollmentRecord)
    requires Matched(requests, enrollments) && id in enrollments
    requires r.grant == enrollments[id].grant && r.requestId == enrollments[id].requestId
             && r.fingerprint == enrollments[id].fingerprint
    ensures Matched(requests, enrollments[id := r])
  {
    var after := enrollments[id := r];
    forall k | k in after ensures EnrollmentLinked(requests, k, after[k]) {
      assert EnrollmentLinked(requests, k, enrollments[k]);
    }
    forall k | k in requests ensures RequestLinked(after, k, requests[k]) {
      assert RequestLinked(enrollments, k, requests[k]);
    }
  }

  lemma RevokeEnrollmentCoheres(u: Setup, d: Data, generation: nat, id: string, reason: string, at: int)
    requires Coherent(u, d, generation) && id in d.enrollments
    ensures var r := d.enrollments[id].(status := EnrollmentRevoked, reason := reason, revokedAt := at);
            Coherent(u, d.(enrollments := d.enrollments[id := r]), generation)
  {
    hide Matched, DistinctIssues, PendingWithin;
    var r := d.enrollments[id].(status := EnrollmentRevoked, reason := reason, revokedAt := at);
    RematchEnrollment(d.requests, d.enrollments, id, r);
    SameSize(d.enrollments, id, r);
  }

  // ---------------------------------------------------------------- the calls

  lemma PermitNames(u: Setup, generation: nat, a: IssueArgs, id: string, clock: int)
    ensures MakePermit(u, generation, a, id, clock).body.permitId == id
  {}

  lemma PermitIsNumbered(u: Setup, generation: nat, a: IssueArgs, id: string, clock: int)
    requires generation < U64 && PermitOk(u.crypto, MakePermit(u, generation, a, id, clock))
    ensures generation + 1 < U64 && MakePermit(u, generation, a, id, clock).body.epoch == generation + 1
  {
    assert MakePermit(u, generation, a, id, clock).body.epoch != 0;
  }

  lemma IssueCoheres(u: Setup, s: State, a: IssueArgs, w: World)
    requires Coheres(u, s) && Visited(s, w)
    ensures Coheres(u, IssuePermit(u, s, a, w).0)
  {
    hide Coherent, PermitOk, MakePermit, IssueArgsOk, HexId;
    var t := IssuePermit(u, s, a, w).0;
    if t != s {
      var id := NewId(w.entropy, s.data.permits.Keys, ATTEMPTS).value;
      PermitNames(u, s.generation, a, id, w.clock);
      PermitIsNumbered(u, s.generation, a, id, w.clock);
      AddPermitCoheres(u, s.data, s.generation, id, t.data.permits[id]);
    }
  }

  lemma RevokePermitCoheres(u: Setup, s: State, commandId: string, id: string, reason: string, w: World)
    requires Coheres(u, s)
    ensures Coheres(u, RevokePermit(u, s, commandId, id, reason, w).0)
  {
    hide Coherent, HexId, UnixMilli;
    var t := RevokePermit(u, s, commandId, id, reason, w).0;
    if t != s {
      ReplacePermitCoheres(u, s.data, s.generation, id, t.data.permits[id]);
      CoherentLater(u, t.data, s.generation, s.generation + 1);
    }
  }

  lemma RevokeEnrollmentCallCoheres(u: Setup, s: State, commandId: string, id: string, reason: string, w: World)
    requires Coheres(u, s)
    ensures Coheres(u, RevokeEnrollment(u, s, commandId, id, reason, w).0)
  {
    hide Coherent, HexId, UnixMilli;
    var t := RevokeEnrollment(u, s, commandId, id, reason, w).0;
    if t != s {
      RevokeEnrollmentCoheres(u, s.data, s.generation, id, reason, UnixMilli(w.clock));
      CoherentLater(u, t.data, s.generation, s.generation + 1);
    }
  }

  lemma NextCoheres(u: Setup, s: State, next: Data, saveOk: bool)
    requires Coheres(u, s) && Coherent(u, next, s.generation)
    ensures Commit(s, next, saveOk).Ok? ==> Coheres(u, Commit(s, next, saveOk).value)
  {
    hide Coherent;
    CoherentLater(u, next, s.generation, s.generation + 1);
  }

  lemma CloseOneCoheres(u: Setup, s: State, rid: string, r: RequestRecord, saveOk: bool)
    requires Coheres(u, s) && rid in s.data.requests && s.data.requests[rid].status == Pending
    requires r.status != Pending && r.status != Approved && r.requestId == rid
             && r.createdAt == s.data.requests[rid].createdAt
    ensures var c := Commit(s, s.data.(requests := s.data.requests[rid := r]), saveOk);
            c.Ok? ==> Coheres(u, c.value)
  {
    hide Coherent;
    var after := s.data.requests[rid := r];
    assert Closes(s.data.requests, after);
    hide Closes;
    CloseCoheres(u, s.data, s.generation, after);
    NextCoheres(u, s, s.data.(requests := after), saveOk);
  }

  lemma RequestNames(u: Setup, d: Data, rid: string, generation: nat)
    requires Coherent(u, d, generation) && rid in d.requests
    ensures d.requests[rid].requestId == rid
  {
    hide Enrolled, Matched, DistinctNodes, DistinctEpochs, DistinctIssues, PendingWithin;
  }

  lemma RejectCoheres(u: Setup, s: State, commandId: string, rid: string, reason: string, w: World)
    requires Coheres(u, s)
    ensures Coheres(u, Reject(u, s, commandId, rid, reason, w).0)
  {
    hide Coherent, HexId, UnixMilli;
    if rid in s.data.requests && s.data.requests[rid].status == Pending {
      var r := s.data.requests[rid];
      RequestNames(u, s.data, rid, s.generation);
      CloseOneCoheres(u, s, rid, Expire(r), w.saveOk);
      CloseOneCoheres(u, s, rid, r.(status := Rejected, reason := reason, updatedAt := UnixMilli(w.laterClock)),
        w.saveOk);
    }
  }

  lemma ApproveCoheres(u: Setup, s: State, commandId: string, rid: string, profile: string, w: World)
    requires Coheres(u, s)
    ensures Coheres(u, Approve(u, s, commandId, rid, profile, w).0)
  {
    hide Coherent, HexId, UnixMilli, GrantRequest;
    if rid in s.data.requests && s.data.requests[rid].status == Pending {
      var r, at := s.data.requests[rid], UnixMilli(w.laterClock);
      RequestNames(u, s.data, rid, s.generation);
      CloseOneCoheres(u, s, rid, Expire(r), w.saveOk);
      if GrantRequest(u, s.generation, s.data, r, profile, at, w.entropy).Ok? {
        GrantCoheres(u, s.data, s.generation, r, profile, at, w.entropy);
      }
    }
  }

  lemma PermitGrantCoheres(u: Setup, s: State, next: Data, sub: Submission, r: RequestRecord, at: int, w: World)
    requires Coheres(u, s) && Coherent(u, next, s.generation) && sub.permit.Some? && HasRoom(u, next, r)
    ensures Coheres(u, GrantWithPermit(u, s, next, sub, r, at, w).0)
  {
    hide Coherent, ConsumePermit, GrantRequest, HexId;
    var t := GrantWithPermit(u, s, next, sub, r, at, w).0;
    if t != s {
      var record := ConsumePermit(u, next, sub, u.crypto.fingerprint(sub.deviceKey), at).value;
      var request := r.(transcript := Hex(sub.digest));
      GrantCoheres(u, next, s.generation, request, record.permit.body.profile, at, w.entropy);
      var granted := GrantRequest(u, s.generation, next, request, record.permit.body.profile, at, w.entropy).value.0;
      ReplacePermitCoheres(u, granted, s.generation + 1, record.permit.body.permitId,
        ConsumedBy(record, sub.requestId, at));
    }
  }

  lemma AnswerCoheres(u: Setup, s: State, next: Data, existing: RequestRecord, changed: bool, w: World)
    requires Coheres(u, s) && Coherent(u, next, s.generation)
    ensures Coheres(u, AnswerExisting(s, next, existing, changed, w).0)
  {
    hide Coherent, OutcomeFor;
    NextCoheres(u, s, next, w.saveOk);
  }

  lemma SubmitNewCoheres(u: Setup, s: State, next: Data, sub: Submission, at: int, w: World)
    requires Coheres(u, s) && Coherent(u, next, s.generation) && sub.requestId !in next.requests
    ensures Coheres(u, SubmitNew(u, s, next, sub, at, w).0)
  {
    hide Coherent, GrantWithPermit, HexId;
    var r := NewRequest(u, sub, at);
    if |next.requests| < u.config.maxRequests {
      if sub.permit.Some? {
        PermitGrantCoheres(u, s, next, sub, r, at, w);
      } else if |PendingIds(next.requests)| < u.config.maxPending
                && |PendingIdsFor(next.requests, sub.parentNode)| < u.config.maxPendingPerParent {
        AddPendingCoheres(u, next, s.generation, r);
        NextCoheres(u, s, next.(requests := next.requests[sub.requestId := r]), w.saveOk);
      }
    }
  }

  lemma SubmitCoheres(u: Setup, s: State, sub: Submission, w: World)
    requires Coheres(u, s)
    ensures Coheres(u, Submit(u, s, sub, w).0)
  {
    hide Coherent, GrantWithPermit, AnswerExisting, SubmitNew, ExpireDue, HexId, UnixMilli;
    var at := UnixMilli(w.clock);
    var next := s.data.(requests := ExpireDue(s.data.requests, at));
    var changed := AnyDue(s.data.requests, at);
    ExpireDueCoheres(u, s.data, s.generation, at);
    if sub.requestId in next.requests {
      var existing := next.requests[sub.requestId];
      RequestNames(u, next, sub.requestId, s.generation);
      if sub.permit.Some? && existing.status != Approved { PermitGrantCoheres(u, s, next, sub, existing, at, w); }
      AnswerCoheres(u, s, next, existing, changed, w);
    } else {
      match FindLive(next.requests, w.requestOrder, u.crypto.fingerprint(sub.deviceKey), sub)
      case Some(id) =>
        var existing := next.requests[id];
        RequestNames(u, next, id, s.generation);
        if sub.permit.Some? && existing.status == Pending { PermitGrantCoheres(u, s, next, sub, existing, at, w); }
        AnswerCoheres(u, s, next, existing, changed, w);
      case None => SubmitNewCoheres(u, s, next, sub, at, w);
    }
  }

  lemma StepCoheres(u: Setup, s: State, e: Event)
    requires Coheres(u, s) && Visited(s, e.world)
    ensures Coheres(u, Step(u, s, e).0)
  {
    hide Coheres, Visited, IssuePermit, Submit, Approve, Reject, RevokePermit, RevokeEnrollment;
    match e.call
    case CallIssue(args) => IssueCoheres(u, s, args, e.world);
    case CallSubmit(sub) => SubmitCoheres(u, s, sub, e.world);
    case CallApprove(c, rid, profile) => ApproveCoheres(u, s, c, rid, profile, e.world);
    case CallReject(c, rid, reason) => RejectCoheres(u, s, c, rid, reason, e.world);
    case CallRevokePermit(c, id, reason) => RevokePermitCoheres(u, s, c, id, reason, e.world);
    case CallRevokeEnrollment(c, id, reason) => RevokeEnrollmentCallCoheres(u, s, c, id, reason, e.world);
  }

  // --------------------------------------------------------------------- runs

  /**
   * A run from a fresh authority: `states[i + 1]` is reached from `states[i]` by `events[i]`. Clocks may read
   * anything, saves may fail and random sources may run dry; maps are visited completely, in any order.
   */
  ghost predicate IsRun(u: Setup, states: seq<State>, events: seq<Event>) {
    && |states| == |events| + 1 && states[0] == Fresh(u)
    && (forall i :: 0 <= i < |events| ==> states[i + 1] == Step(u, states[i], events[i]).0)
    && (forall i :: 0 <= i < |events| ==> Visited(states[i], events[i].world))
  }

  lemma FreshCoheres(u: Setup)
    requires u.node != 0 && ConfigOk(u.config)
    ensures Coheres(u, Fresh(u))
  {
    var d := Fresh(u).data;
    assert PendingIds(d.requests) == {};
    forall p ensures |PendingIdsFor(d.requests, p)| <= u.config.maxPendingPerParent {
      assert PendingIdsFor(d.requests, p) == {};
    }
  }

  /**
   * Every state of every run is coherent, whatever calls were made, whatever the clock read, whichever saves failed.
   */
  lemma {:induction false} RunCoheres(u: Setup, states: seq<State>, events: seq<Event>, i: nat)
    requires u.node != 0 && ConfigOk(u.config) && IsRun(u, states, events) && i < |states|
    ensures Coheres(u, states[i])
  {
    hide ConfigOk, Coheres, Visited, Step, Fresh;
    if i == 0 {
      FreshCoheres(u);
    } else {
      RunCoheres(u, states, events, i - 1);
      StepCoheres(u, states[i - 1], events[i - 1]);
    }
  }
}
