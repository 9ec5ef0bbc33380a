/**
 * What every run of the enrollment authority keeps while its clock is positive and never goes back: besides
 * being coherent, each reachable state passes every check made when a saved state is loaded again.
 */
module EnrollmentInvariant {
  import opened Basics
  import opened Enrollment
  import opened EnrollmentCoherence

  ghost predicate PermitsOk(c: Crypto, permits: map<string, PermitRecord>) {
    forall id :: id in permits ==> permits[id].permit.body.permitId == id && PermitRecordOk(c, permits[id])
  }

  ghost predicate RequestsOk(c: Crypto, requests: map<string, RequestRecord>) {
    forall id :: id in requests ==> requests[id].requestId == id && RequestRecordOk(c, requests[id])
  }

  ghost predicate EnrollmentsOk(c: Crypto, enrollments: map<string, EnrollmentRecord>, used: set<NodeId>) {
    forall id :: id in enrollments ==>
      enrollments[id].grant.body.enrollmentId == id && EnrollmentRecordOk(c, enrollments[id], used)
  }

  /** Every check of the reload validator, stated on the data. */
  ghost predicate Reloadable(u: Setup, d: Data) {
    && u.node in d.used && 0 !in d.used && PermitsOk(u.crypto, d.permits) && RequestsOk(u.crypto, d.requests)
    && EnrollmentsOk(u.crypto, d.enrollments, d.used) && Matched(d.requests, d.enrollments)
  }

  ghost predicate CreatedBy(requests: map<string, RequestRecord>, now: int) {
    forall id :: id in requests ==> requests[id].createdAt <= now
  }

  ghost predicate DataInv(u: Setup, d: Data, generation: nat, now: int) {
    Coherent(u, d, generation) && Reloadable(u, d) && CreatedBy(d.requests, now)
  }

  ghost predicate Inv(u: Setup, s: State, now: int) {
    1 <= s.generation < U64 && DataInv(u, s.data, s.generation, now)
  }

  /** The clock is positive and does not run backwards. */
  predicate ClockOk(w: World, now: int) {
    0 < UnixMilli(w.clock) && now <= UnixMilli(w.clock) && w.clock <= w.laterClock
  }

  ghost predicate WorldOk(s: State, w: World, now: int) { Visited(s, w) && ClockOk(w, now) }

  lemma MilliMonotone(a: int, b: int)
    requires a <= b
    ensures UnixMilli(a) <= UnixMilli(b)
  {}

  lemma MilliLater(clock: int, ttl: int)
    requires ttl >= SECOND
    ensures UnixMilli(clock) < UnixMilli(clock + ttl)
  {
    MilliMonotone(clock + SECOND, clock + ttl);
  }

  // ------------------------------------------------------- effects on permits

  lemma PermitUpdateKeeps(u: Setup, d: Data, generation: nat, now: int, id: string, r: PermitRecord)
    requires DataInv(u, d, generation, now) && id in d.permits
    requires r.permit == d.permits[id].permit && r.issueRequestId == d.permits[id].issueRequestId
             && PermitRecordOk(u.crypto, r)
    ensures DataInv(u, d.(permits := d.permits[id := r]), generation, now)
  {
    hide Coherent, PermitRecordOk, RequestsOk, EnrollmentsOk, Matched, CreatedBy;
    ReplacePermitCoheres(u, d, generation, id, r);
  }

  // ------------------------------------------------------ effects on requests

  /** Requests are closed, and as well formed as they were. */
  ghost predicate ClosesWell(c: Crypto, before: map<string, RequestRecord>, after: map<string, RequestRecord>) {
    && Closes(before, after)
    && forall id :: id in before && RequestRecordOk(c, before[id]) ==> RequestRecordOk(c, after[id])
  }

  lemma CloseRequests(c: Crypto, before: map<string, RequestRecord>, after: map<string, RequestRecord>, now: int)
    requires ClosesWell(c, before, after) && RequestsOk(c, before) && CreatedBy(before, now)
    ensures RequestsOk(c, after) && CreatedBy(after, now)
  {
    hide RequestRecordOk;
  }

  lemma CloseKeeps(u: Setup, d: Data, generation: nat, now: int, after: map<string, RequestRecord>)
    requires DataInv(u, d, generation, now) && ClosesWell(u.crypto, d.requests, after)
    ensures DataInv(u, d.(requests := after), generation, now)
  {
    hide Coherent, PermitsOk, RequestsOk, EnrollmentsOk, Matched, CreatedBy, Closes, RequestRecordOk;
    CloseCoheres(u, d, generation, after);
    CloseMatches(d.requests, after, d.enrollments);
    CloseRequests(u.crypto, d.requests, after, now);
  }

  lemma AddRequest(c: Crypto, requests: map<string, RequestRecord>, now: int, r: RequestRecord)
    requires RequestsOk(c, requests) && CreatedBy(requests, now) && RequestRecordOk(c, r) && r.createdAt <= now
    ensures RequestsOk(c, requests[r.requestId := r]) && CreatedBy(requests[r.requestId := r], now)
  {
    hide RequestRecordOk;
  }

  lemma AddPendingKeeps(u: Setup, d: Data, generation: nat, now: int, r: RequestRecord)
    requires DataInv(u, d, generation, now) && r.requestId !in d.requests
    requires r.status == Pending && RequestRecordOk(u.crypto, r) && r.createdAt <= now
    requires |d.requests| < u.config.maxRequests && |PendingIds(d.requests)| < u.config.maxPending
    requires |PendingIdsFor(d.requests, r.parentNode)| < u.config.maxPendingPerParent
    ensures DataInv(u, d.(requests := d.requests[r.requestId := r]), generation, now)
  {
    hide Coherent, PermitsOk, RequestsOk, EnrollmentsOk, Matched, CreatedBy, RequestRecordOk;
    AddPendingCoheres(u, d, generation, r);
    AddUnmatched(d.requests, d.enrollments, r);
    AddRequest(u.crypto, d.requests, now, r);
  }

  // -------------------------------------------------------------------- grants

  /** A request that may be granted, and is otherwise well formed. */
  ghost predicate Grantable(u: Setup, d: Data, r: RequestRecord, now: int) {
    && HexId(r.requestId, 16) && |r.deviceKey| == 32 && u.crypto.fingerprint(r.deviceKey) == r.fingerprint
    && r.parentNode != 0 && |r.parentKey| == 32 && HexId(r.transcript, 32)
    && 0 < r.createdAt <= now && r.createdAt < r.expiresAt && HasRoom(u, d, r)
  }

  lemma AddEnrolled(c: Crypto, enrollments: map<string, EnrollmentRecord>, used: set<NodeId>, e: EnrollmentRecord)
    requires EnrollmentsOk(c, enrollments, used) && EnrollmentRecordOk(c, e, used + {e.grant.body.node})
    ensures EnrollmentsOk(c, enrollments[e.grant.body.enrollmentId := e], used + {e.grant.body.node})
  {
    hide HexId, VerifyGrant;
    forall k | k in enrollments ensures EnrollmentRecordOk(c, enrollments[k], used + {e.grant.body.node}) {
      assert EnrollmentRecordOk(c, enrollments[k], used);
    }
  }

  lemma GrantIsSound(u: Setup, d: Data, generation: nat, r: RequestRecord, profile: string, at: int, node: NodeId,
      id: string)
    requires SetupOk(u) && generation < U64 && Grantable(u, d, r, at)
    requires GrantOk(u.crypto, MakeGrant(u, generation, r, profile, node, id, at))
    ensures var grant := MakeGrant(u, generation, r, profile, node, id, at);
            && generation + 1 < U64 && grant.body.epoch == generation + 1
            && RequestRecordOk(u.crypto, ApprovedRequest(r, profile, id, at))
            && EnrollmentRecordOk(u.crypto, EnrollmentRecord(grant, r.fingerprint, r.requestId, EnrollmentActive, 0,
               ""), d.used + {node})
            && VerifyGrant(u.crypto, grant)
  {
    hide HexId;
    var grant := MakeGrant(u, generation, r, profile, node, id, at);
    assert grant.body.epoch != 0;
    assert VerifyGrant(u.crypto, grant);
  }

  lemma GrantKeeps(u: Setup, d: Data, generation: nat, now: int, r: RequestRecord, profile: string, at: int,
      entropy: seq<byte>)
    requires SetupOk(u) && DataInv(u, d, generation, now) && generation < U64 && Grantable(u, d, r, at) && at <= now
    requires GrantRequest(u, generation, d, r, profile, at, entropy).Ok?
    ensures var (e, grant) := GrantRequest(u, generation, d, r, profile, at, entropy).value;
            generation + 1 < U64 && DataInv(u, e, generation + 1, now) && e.permits == d.permits
  {
    var (e, grant) := GrantRequest(u, generation, d, r, profile, at, entropy).value;
    hide GrantRequest, GrantOk, RequestRecordOk, EnrollmentRecordOk, VerifyGrant, Reloadable, Coherent, HexId,
      CreatedBy;
    GrantCoheres(u, d, generation, r, profile, at, entropy);
    GrantIsFresh(u, d, generation, r, profile, at, entropy);
    GrantIsSound(u, d, generation, r, profile, at, grant.body.node, grant.body.enrollmentId);
    GrantReloads(u, d, now, r, profile, at, grant);
  }

  lemma GrantReloads(u: Setup, d: Data, now: int, r: RequestRecord, profile: string, at: int, grant: Grant)
    requires Reloadable(u, d) && CreatedBy(d.requests, now) && grant.body.enrollmentId !in d.enrollments
    requires grant.body.node != 0 && r.createdAt <= now
    requires r.requestId in d.requests ==> d.requests[r.requestId].status != Approved
    requires grant.body.parentNode == r.parentNode && grant.body.parentKey == r.parentKey
             && grant.body.profile == profile
    requires RequestRecordOk(u.crypto, ApprovedRequest(r, profile, grant.body.enrollmentId, at))
    requires var e := AddEnrollment(d, r, profile, grant, at);
             EnrollmentRecordOk(u.crypto, e.enrollments[grant.body.enrollmentId], e.used)
    ensures var e := AddEnrollment(d, r, profile, grant, at); Reloadable(u, e) && CreatedBy(e.requests, now)
  {
    hide PermitsOk, RequestsOk, EnrollmentsOk, Matched, CreatedBy, RequestRecordOk, EnrollmentRecordOk;
    var id := grant.body.enrollmentId;
    var e := AddEnrollment(d, r, profile, grant, at);
    AddRequest(u.crypto, d.requests, now, ApprovedRequest(r, profile, id, at));
    AddMatch(d.requests, d.enrollments, ApprovedRequest(r, profile, id, at), e.enrollments[id], id);
    AddEnrolled(u.crypto, d.enrollments, d.used, e.enrollments[id]);
  }

  lemma EnrollmentFacts(u: Setup, d: Data, id: string, generation: nat, now: int)
    requires DataInv(u, d, generation, now) && id in d.enrollments
    ensures EnrollmentRecordOk(u.crypto, d.enrollments[id], d.used)
  {}

  lemma RevokedEnrollmentOk(c: Crypto, r: EnrollmentRecord, used: set<NodeId>, reason: string, at: int)
    requires EnrollmentRecordOk(c, r, used) && at > 0 && reason != ""
    ensures EnrollmentRecordOk(c, r.(status := EnrollmentRevoked, reason := reason, revokedAt := at), used)
  {
    hide HexId;
  }

  lemma RevokeEnrollmentKeeps(u: Setup, d: Data, generation: nat, now: int, id: string, reason: string, at: int)
    requires DataInv(u, d, generation, now) && id in d.enrollments && at > 0 && reason != ""
    ensures var r := d.enrollments[id].(status := EnrollmentRevoked, reason := reason, revokedAt := at);
            DataInv(u, d.(enrollments := d.enrollments[id := r]), generation, now)
  {
    hide Coherent, PermitsOk, RequestsOk, Matched, CreatedBy, EnrollmentRecordOk;
    EnrollmentFacts(u, d, id, generation, now);
    var r := d.enrollments[id].(status := EnrollmentRevoked, reason := reason, revokedAt := at);
    RevokedEnrollmentOk(u.crypto, d.enrollments[id], d.used, reason, at);
    RematchEnrollment(d.requests, d.enrollments, id, r);
    RevokeEnrollmentCoheres(u, d, generation, id, reason, at);
  }

  lemma Weaken(u: Setup, d: Data, g: nat, now: int, g': nat, now': int)
    requires DataInv(u, d, g, now) && g <= g' && now <= now'
    ensures DataInv(u, d, g', now')
  {
    hide Coherent, Reloadable;
    CoherentLater(u, d, g, g');
  }

  // ----------------------------------------------------------- the operations

  lemma IssuedOk(u: Setup, generation: nat, a: IssueArgs, id: string, clock: int)
    requires SetupOk(u) && IssueArgsOk(u, a) && HexId(id, 16)
    requires PermitOk(u.crypto, MakePermit(u, generation, a, id, clock))
    ensures PermitRecordOk(u.crypto,
              PermitRecord(MakePermit(u, generation, a, id, clock), PermitActive, a.issueRequestId, "", 0, 0, ""))
  {
  }

  lemma IssueStep(u: Setup, s: State, a: IssueArgs, w: World, now: int)
    requires SetupOk(u) && Inv(u, s, now) && WorldOk(s, w, now)
    ensures Inv(u, IssuePermit(u, s, a, w).0, UnixMilli(w.laterClock))
  {
    hide Coherent, RequestsOk, EnrollmentsOk, Matched, PermitRecordOk, PermitOk, MakePermit, UnixMilli, HexId,
      IssueArgsOk;
    var later := UnixMilli(w.laterClock);
    WorldTimes(s, w, now);
    IssueCoheres(u, s, a, w);
    var t := IssuePermit(u, s, a, w).0;
    if t != s {
      var id := NewId(w.entropy, s.data.permits.Keys, ATTEMPTS).value;
      IssuedOk(u, s.generation, a, id, w.clock);
      PermitNames(u, s.generation, a, id, w.clock);
    }
  }

  lemma ConsumedOk(u: Setup, d: Data, record: PermitRecord, requestId: string, at: int, generation: nat, now: int)
    requires DataInv(u, d, generation, now) && record.permit.body.permitId in d.permits
    requires d.permits[record.permit.body.permitId] == record
    requires record.status != PermitConsumed && record.status != PermitRevoked && HexId(requestId, 16) && at > 0
    ensures PermitRecordOk(u.crypto, ConsumedBy(record, requestId, at))
  {
    assert PermitRecordOk(u.crypto, d.permits[record.permit.body.permitId]);
  }

  lemma RequestFacts(u: Setup, d: Data, rid: string, generation: nat, now: int)
    requires DataInv(u, d, generation, now) && rid in d.requests
    ensures RequestRecordOk(u.crypto, d.requests[rid]) && d.requests[rid].createdAt <= now
            && d.requests[rid].requestId == rid
  {}

  lemma PermitGrantStep(u: Setup, s: State, next: Data, sub: Submission, r: RequestRecord, w: World, now: int)
    requires SetupOk(u) && 1 <= s.generation < U64 && DataInv(u, next, s.generation, now) && sub.permit.Some?
    requires SubmissionOk(sub) && 0 < UnixMilli(w.clock) <= now && Inv(u, s, now)
    requires Grantable(u, next, r.(transcript := Hex(sub.digest)), UnixMilli(w.clock))
    ensures Inv(u, GrantWithPermit(u, s, next, sub, r, UnixMilli(w.clock), w).0, now)
  {
    hide PermitRecordOk, Reloadable, DataInv, ConsumePermit, GrantRequest, Grantable, HexId;
    var at := UnixMilli(w.clock);
    var t := GrantWithPermit(u, s, next, sub, r, at, w).0;
    if t != s {
      var record := ConsumePermit(u, next, sub, u.crypto.fingerprint(sub.deviceKey), at).value;
      var request := r.(transcript := Hex(sub.digest));
      GrantKeeps(u, next, s.generation, now, request, record.permit.body.profile, at, w.entropy);
      var (granted, grant) := GrantRequest(u, s.generation, next, request, record.permit.body.profile, at,
        w.entropy).value;
      ConsumedOk(u, granted, record, sub.requestId, at, s.generation + 1, now);
      PermitUpdateKeeps(u, granted, s.generation + 1, now, record.permit.body.permitId,
        ConsumedBy(record, sub.requestId, at));
    }
  }

  lemma AnswerStep(u: Setup, s: State, next: Data, existing: RequestRecord, changed: bool, w: World, now: int)
    requires Inv(u, s, now) && DataInv(u, next, s.generation, now)
    ensures Inv(u, AnswerExisting(s, next, existing, changed, w).0, now)
  {
    hide DataInv;
    if s.generation + 1 < U64 { Weaken(u, next, s.generation, now, s.generation + 1, now); }
  }

  lemma SubmitStep(u: Setup, s: State, sub: Submission, w: World, now: int)
    requires SetupOk(u) && Inv(u, s, now) && WorldOk(s, w, now)
    ensures Inv(u, Submit(u, s, sub, w).0, UnixMilli(w.laterClock))
  {
    hide DataInv, GrantWithPermit, AnswerExisting, SubmitNew, ExpireDue, HexId;
    var later := UnixMilli(w.laterClock);
    MilliMonotone(w.clock, w.laterClock);
    Weaken(u, s.data, s.generation, now, s.generation, later);
    if SubmissionOk(sub) {
      var at := UnixMilli(w.clock);
      var next := s.data.(requests := ExpireDue(s.data.requests, at));
      var changed := AnyDue(s.data.requests, at);
      ExpireDueKeeps(u, s.data, s.generation, now, at);
      Weaken(u, next, s.generation, now, s.generation, later);
      var fingerprint := u.crypto.fingerprint(sub.deviceKey);
      if sub.requestId in next.requests {
        var existing := next.requests[sub.requestId];
        RequestFacts(u, next, sub.requestId, s.generation, now);
        if sub.permit.Some? && existing.status != Approved { PermitGrantStep(u, s, next, sub, existing, w, later); }
        AnswerStep(u, s, next, existing, changed, w, later);
      } else {
        match FindLive(next.requests, w.requestOrder, fingerprint, sub)
        case Some(id) =>
          var existing := next.requests[id];
          RequestFacts(u, next, id, s.generation, now);
          if sub.permit.Some? && existing.status == Pending { PermitGrantStep(u, s, next, sub, existing, w, later); }
          AnswerStep(u, s, next, existing, changed, w, later);
        case None => SubmitNewStep(u, s, next, sub, w, later);
      }
    }
  }

  lemma SubmitNewStep(u: Setup, s: State, next: Data, sub: Submission, w: World, now: int)
    requires SetupOk(u) && Inv(u, s, now) && DataInv(u, next, s.generation, now)
    requires SubmissionOk(sub) && sub.requestId !in next.requests && 0 < UnixMilli(w.clock) <= now
    ensures Inv(u, SubmitNew(u, s, next, sub, UnixMilli(w.clock), w).0, now)
  {
    hide HexId, DataInv, GrantWithPermit;
    var at := UnixMilli(w.clock);
    var r := NewRequest(u, sub, at);
    MilliLater(at * 1_000_000, u.config.pendingTtl);
    assert UnixMilli(at * 1_000_000) == at;
    if |next.requests| < u.config.maxRequests {
      if sub.permit.Some? {
        PermitGrantStep(u, s, next, sub, r, w, now);
      } else if |PendingIds(next.requests)| < u.config.maxPending
                && |PendingIdsFor(next.requests, sub.parentNode)| < u.config.maxPendingPerParent {
        AddPendingKeeps(u, next, s.generation, now, r);
        var added := next.(requests := next.requests[sub.requestId := r]);
        Weaken(u, added, s.generation, now, s.generation + 1, now);
      }
    }
  }

  lemma ExpireDueKeeps(u: Setup, d: Data, generation: nat, now: int, at: int)
    requires DataInv(u, d, generation, now)
    ensures DataInv(u, d.(requests := ExpireDue(d.requests, at)), generation, now)
  {
    ExpireDueClosesWell(u.crypto, d.requests, at);
    hide DataInv, ClosesWell, ExpireDue;
    CloseKeeps(u, d, generation, now, ExpireDue(d.requests, at));
  }

  lemma ExpireDueClosesWell(c: Crypto, requests: map<string, RequestRecord>, at: int)
    requires RequestsOk(c, requests)
    ensures ClosesWell(c, requests, ExpireDue(requests, at))
  {}

  lemma ExpireOneStep<T>(u: Setup, s: State, rid: string, w: World, now: int)
    requires Inv(u, s, now) && rid in s.data.requests && s.data.requests[rid].status == Pending
    ensures Inv(u, ExpireOne<T>(s, rid, w).0, now)
  {
    CloseOneStep(u, s, rid, Expire(s.data.requests[rid]), w.saveOk, now);
  }

  lemma CloseOneStep(u: Setup, s: State, rid: string, r: RequestRecord, saveOk: bool, now: int)
    requires Inv(u, s, now) && rid in s.data.requests && s.data.requests[rid].status == Pending
    requires r.status != Pending && r.status != Approved && r.requestId == rid
             && r.createdAt == s.data.requests[rid].createdAt
    requires RequestRecordOk(u.crypto, s.data.requests[rid]) ==> RequestRecordOk(u.crypto, r)
    ensures var c := Commit(s, s.data.(requests := s.data.requests[rid := r]), saveOk);
            c.Ok? ==> Inv(u, c.value, now)
  {
    hide DataInv, RequestRecordOk;
    var after := s.data.requests[rid := r];
    RequestFacts(u, s.data, rid, s.generation, now);
    assert ClosesWell(u.crypto, s.data.requests, after);
    hide ClosesWell;
    CloseKeeps(u, s.data, s.generation, now, after);
    Weaken(u, s.data.(requests := after), s.generation, now, s.generation + 1, now);
  }

  lemma PendingIsGrantable(u: Setup, d: Data, rid: string, generation: nat, now: int, later: int)
    requires DataInv(u, d, generation, now) && rid in d.requests && d.requests[rid].status == Pending && now <= later
    ensures Grantable(u, d, d.requests[rid], later)
  {
    hide DataInv, HexId;
    RequestFacts(u, d, rid, generation, now);
  }

  lemma ApprovePendingStep(u: Setup, s: State, rid: string, profile: string, w: World, now: int)
    requires SetupOk(u) && Inv(u, s, now) && now <= UnixMilli(w.laterClock)
    requires rid in s.data.requests && s.data.requests[rid].status == Pending
    ensures var g := GrantRequest(u, s.generation, s.data, s.data.requests[rid], profile, UnixMilli(w.laterClock),
            w.entropy);
            g.Ok? ==> var c := Commit(s, g.value.0, w.saveOk); c.Ok? ==> Inv(u, c.value, UnixMilli(w.laterClock))
  {
    hide DataInv, SetupOk, GrantRequest, Grantable, UnixMilli;
    var later := UnixMilli(w.laterClock);
    Weaken(u, s.data, s.generation, now, s.generation, later);
    PendingIsGrantable(u, s.data, rid, s.generation, now, later);
    if GrantRequest(u, s.generation, s.data, s.data.requests[rid], profile, later, w.entropy).Ok? {
      GrantKeeps(u, s.data, s.generation, later, s.data.requests[rid], profile, later, w.entropy);
    }
  }

  lemma ApproveStep(u: Setup, s: State, commandId: string, rid: string, profile: string, w: World, now: int)
    requires SetupOk(u) && Inv(u, s, now) && WorldOk(s, w, now)
    ensures Inv(u, Approve(u, s, commandId, rid, profile, w).0, UnixMilli(w.laterClock))
  {
    hide DataInv, HexId, WorldOk, UnixMilli, SetupOk, GrantRequest, ExpireOne;
    var later := UnixMilli(w.laterClock);
    WorldTimes(s, w, now);
    Weaken(u, s.data, s.generation, now, s.generation, later);
    if rid in s.data.requests && s.data.requests[rid].status == Pending {
      ExpireOneStep<Grant>(u, s, rid, w, later);
      ApprovePendingStep(u, s, rid, profile, w, now);
    }
  }

  lemma RejectStep(u: Setup, s: State, commandId: string, rid: string, reason: string, w: World, now: int)
    requires SetupOk(u) && Inv(u, s, now) && WorldOk(s, w, now)
    ensures Inv(u, Reject(u, s, commandId, rid, reason, w).0, UnixMilli(w.laterClock))
  {
    hide DataInv, HexId, WorldOk, UnixMilli, SetupOk, ExpireOne;
    var later := UnixMilli(w.laterClock);
    WorldTimes(s, w, now);
    Weaken(u, s.data, s.generation, now, s.generation, later);
    if rid in s.data.requests && s.data.requests[rid].status == Pending && reason != "" {
      RequestFacts(u, s.data, rid, s.generation, now);
      ExpireOneStep<()>(u, s, rid, w, later);
      CloseOneStep(u, s, rid, s.data.requests[rid].(status := Rejected, reason := reason, updatedAt := later),
        w.saveOk, later);
    }
  }

  lemma RevokedPermitOk(u: Setup, d: Data, generation: nat, now: int, id: string, reason: string, at: int)
    requires DataInv(u, d, generation, now) && id in d.permits && reason != "" && at > 0
    requires d.permits[id].status != PermitRevoked && d.permits[id].status != PermitConsumed
    ensures PermitRecordOk(u.crypto, d.permits[id].(status := PermitRevoked, reason := reason, revokedAt := at))
  {
    assert PermitRecordOk(u.crypto, d.permits[id]);
    hide Coherent, PermitsOk, RequestsOk, EnrollmentsOk, Matched, CreatedBy, HexId;
  }

  lemma RevokePermitStep(u: Setup, s: State, commandId: string, id: string, reason: string, w: World, now: int)
    requires SetupOk(u) && Inv(u, s, now) && WorldOk(s, w, now)
    ensures Inv(u, RevokePermit(u, s, commandId, id, reason, w).0, UnixMilli(w.laterClock))
  {
    hide DataInv, HexId, SetupOk, WorldOk, UnixMilli, PermitRecordOk;
    var later := UnixMilli(w.laterClock);
    WorldTimes(s, w, now);
    Weaken(u, s.data, s.generation, now, s.generation, later);
    var t := RevokePermit(u, s, commandId, id, reason, w).0;
    if t != s {
      var r := s.data.permits[id].(status := PermitRevoked, reason := reason, revokedAt := UnixMilli(w.clock));
      RevokedPermitOk(u, s.data, s.generation, later, id, reason, UnixMilli(w.clock));
      PermitUpdateKeeps(u, s.data, s.generation, later, id, r);
      Weaken(u, t.data, s.generation, later, s.generation + 1, later);
    }
  }

  lemma WorldTimes(s: State, w: World, now: int)
    requires WorldOk(s, w, now)
    ensures now <= UnixMilli(w.clock) <= UnixMilli(w.laterClock) && 0 < UnixMilli(w.clock)
  {
    MilliMonotone(w.clock, w.laterClock);
  }

  lemma RevokeEnrollmentStep(u: Setup, s: State, commandId: string, id: string, reason: string, w: World, now: int)
    requires SetupOk(u) && Inv(u, s, now) && WorldOk(s, w, now)
    ensures Inv(u, RevokeEnrollment(u, s, commandId, id, reason, w).0, UnixMilli(w.laterClock))
  {
    hide DataInv, HexId, SetupOk, WorldOk, UnixMilli;
    var later := UnixMilli(w.laterClock);
    WorldTimes(s, w, now);
    Weaken(u, s.data, s.generation, now, s.generation, later);
    var t := RevokeEnrollment(u, s, commandId, id, reason, w).0;
    if t != s {
      RevokeEnrollmentKeeps(u, s.data, s.generation, later, id, reason, UnixMilli(w.clock));
      Weaken(u, t.data, s.generation, later, s.generation + 1, later);
    }
  }

  lemma StepKeeps(u: Setup, s: State, e: Event, now: int)
    requires SetupOk(u) && Inv(u, s, now) && WorldOk(s, e.world, now)
    ensures Inv(u, Step(u, s, e).0, UnixMilli(e.world.laterClock))
  {
    hide SetupOk, Inv, WorldOk, IssuePermit, Submit, Approve, Reject, RevokePermit, RevokeEnrollment;
    match e.call
    case CallIssue(args) => IssueStep(u, s, args, e.world, now);
    case CallSubmit(sub) => SubmitStep(u, s, sub, e.world, now);
    case CallApprove(c, rid, profile) => ApproveStep(u, s, c, rid, profile, e.world, now);
    case CallReject(c, rid, reason) => RejectStep(u, s, c, rid, reason, e.world, now);
    case CallRevokePermit(c, id, reason) => RevokePermitStep(u, s, c, id, reason, e.world, now);
    case CallRevokeEnrollment(c, id, reason) => RevokeEnrollmentStep(u, s, c, id, reason, e.world, now);
  }

  // --------------------------------------------------------------------- runs

  /** The last clock reading before event `i`. */
  function TimeBefore(events: seq<Event>, i: nat): int
    requires i <= |events|
  {
    if i == 0 then 0 else UnixMilli(events[i - 1].world.laterClock)
  }

  /** Over a sequence of calls the clock is positive and never goes back. */
  predicate ClockForward(events: seq<Event>) {
    forall i :: 0 <= i < |events| ==> ClockOk(events[i].world, TimeBefore(events, i))
  }

  lemma FreshInv(u: Setup)
    requires SetupOk(u)
    ensures Inv(u, Fresh(u), 0)
  {
    FreshCoheres(u);
    hide Coherent;
  }

  /** While the clock goes forward every state of every run passes all reload checks, whichever saves failed. */
  lemma {:induction false} RunKeeps(u: Setup, states: seq<State>, events: seq<Event>, i: nat)
    requires SetupOk(u) && IsRun(u, states, events) && ClockForward(events) && i < |states|
    ensures Inv(u, states[i], TimeBefore(events, i))
  {
    hide SetupOk, Inv, ClockOk, Visited, Step, Fresh;
    if i == 0 {
      FreshInv(u);
    } else {
      RunKeeps(u, states, events, i - 1);
      StepKeeps(u, states[i - 1], events[i - 1], TimeBefore(events, i - 1));
    }
  }
}
