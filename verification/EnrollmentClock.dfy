/**
 * Timestamps are written without a check against those already on record. What a clock that goes back, or
 * stands before the epoch, does to the saved state: exactly when a call leaves it loadable.
 */
module EnrollmentClock {
  import opened Basics
  import opened Enrollment
  import opened EnrollmentCoherence
  import opened EnrollmentInvariant

  // ---------------------------------------------------------------------- each call

  /**
   * Rejecting a pending request leaves a reloadable state exactly when the clock has not gone back
   * behind the request's creation: the timestamp written is not checked before it is saved.
   */
  lemma RejectNeedsForwardClock(u: Setup, s: State, commandId: string, rid: string, reason: string, w: World)
    requires Reloadable(u, s.data) && s.generation < U64 - 1 && w.saveOk
    requires HexId(commandId, 16) && HexId(rid, 16) && reason != "" && |reason| <= MAX_LABEL_BYTES
    requires rid in s.data.requests && s.data.requests[rid].status == Pending
             && !Due(s.data.requests[rid], UnixMilli(w.clock))
    ensures Reloadable(u, Reject(u, s, commandId, rid, reason, w).0.data) <==>
            UnixMilli(w.laterClock) >= s.data.requests[rid].createdAt
  {
    hide PermitsOk, EnrollmentsOk, EnrollmentRecordOk, HexId, UnixMilli;
    var r := s.data.requests[rid];
    assert RequestRecordOk(u.crypto, r);
    var t := Reject(u, s, commandId, rid, reason, w).0;
    var rejected := r.(status := Rejected, reason := reason, updatedAt := UnixMilli(w.laterClock));
    assert t.data == s.data.(requests := s.data.requests[rid := rejected]);
    assert Matched(t.data.requests, t.data.enrollments) by {
      hide RequestsOk;
      forall id | id in t.data.enrollments ensures EnrollmentLinked(t.data.requests, id, t.data.enrollments[id]) {
        assert EnrollmentLinked(s.data.requests, id, s.data.enrollments[id]);
      }
      forall id | id in t.data.requests ensures RequestLinked(t.data.enrollments, id, t.data.requests[id]) {
        if id != rid { assert RequestLinked(s.data.enrollments, id, s.data.requests[id]); }
      }
    }
    hide Matched;
    assert t.data.requests[rid] == rejected;
    assert RequestRecordOk(u.crypto, rejected) <==> UnixMilli(w.laterClock) >= r.createdAt;
    hide RequestRecordOk;
    forall id | id in t.data.requests && id != rid
      ensures t.data.requests[id].requestId == id && RequestRecordOk(u.crypto, t.data.requests[id])
    {
      assert t.data.requests[id] == s.data.requests[id];
    }
    assert RequestsOk(u.crypto, t.data.requests) <==> RequestRecordOk(u.crypto, rejected);
  }

  /**
   * A grant writes the same timestamp: what it adds to sound data can be loaded again exactly when the clock
   * has not gone back behind the creation of its request.
   */
  lemma GrantNeedsForwardClock(u: Setup, d: Data, generation: nat, now: int, r: RequestRecord, profile: string,
      at: int, entropy: seq<byte>)
    requires SetupOk(u) && DataInv(u, d, generation, now) && generation < U64 && Grantable(u, d, r, r.createdAt)
    requires GrantRequest(u, generation, d, r, profile, at, entropy).Ok?
    ensures Reloadable(u, GrantRequest(u, generation, d, r, profile, at, entropy).value.0) <==> at >= r.createdAt
  {
    hide PermitsOk, EnrollmentsOk, Matched, HexId, GrantOk, AllocateNodeId, NewId, MakeGrant;
    var (e, grant) := GrantRequest(u, generation, d, r, profile, at, entropy).value;
    if at >= r.createdAt {
      var later := if at > now then at else now;
      Weaken(u, d, generation, now, generation, later);
      GrantKeeps(u, d, generation, later, r, profile, at, entropy);
    } else {
      assert e.requests[r.requestId].updatedAt == at && e.requests[r.requestId].createdAt == r.createdAt;
      assert !RequestRecordOk(u.crypto, e.requests[r.requestId]);
    }
  }

  lemma ApproveNeedsForwardClock(u: Setup, s: State, commandId: string, rid: string, profile: string, w: World,
      now: int)
    requires SetupOk(u) && Inv(u, s, now) && rid in s.data.requests && s.data.requests[rid].status == Pending
    requires Approve(u, s, commandId, rid, profile, w).1.Ok?
    ensures Reloadable(u, Approve(u, s, commandId, rid, profile, w).0.data) <==>
            UnixMilli(w.laterClock) >= s.data.requests[rid].createdAt
  {
    hide DataInv, Reloadable, HexId, UnixMilli, SetupOk, GrantRequest, Grantable;
    GrantableButForClock(u, s, rid, now);
    GrantNeedsForwardClock(u, s.data, s.generation, now, s.data.requests[rid], profile, UnixMilli(w.laterClock),
      w.entropy);
  }

  lemma GrantableButForClock(u: Setup, s: State, rid: string, now: int)
    requires Inv(u, s, now) && rid in s.data.requests && s.data.requests[rid].status == Pending
    ensures Grantable(u, s.data, s.data.requests[rid], s.data.requests[rid].createdAt)
  {
    hide PermitsOk, EnrollmentsOk, Matched, HexId;
    assert RequestRecordOk(u.crypto, s.data.requests[rid]);
  }

  lemma IssueReloads(u: Setup, s: State, a: IssueArgs, w: World)
    requires SetupOk(u) && Reloadable(u, s.data)
    ensures Reloadable(u, IssuePermit(u, s, a, w).0.data)
  {
    hide EnrollmentsOk, RequestsOk, Matched, HexId, UnixMilli;
    var t := IssuePermit(u, s, a, w).0;
    if t != s {
      var id := NewId(w.entropy, s.data.permits.Keys, ATTEMPTS).value;
      assert PermitRecordOk(u.crypto, t.data.permits[id]);
      hide PermitRecordOk;
      forall p | p in t.data.permits
        ensures t.data.permits[p].permit.body.permitId == p && PermitRecordOk(u.crypto, t.data.permits[p]) {
        if p != id { assert t.data.permits[p] == s.data.permits[p]; }
      }
    }
  }

  lemma RevokePermitExact(u: Setup, s: State, commandId: string, id: string, reason: string, w: World, now: int)
    requires SetupOk(u) && Inv(u, s, now)
    ensures var t := RevokePermit(u, s, commandId, id, reason, w).0;
            t == s || (Reloadable(u, t.data) <==> UnixMilli(w.clock) >= 1)
  {
    hide DataInv, HexId, SetupOk, UnixMilli, Reloadable;
    var t := RevokePermit(u, s, commandId, id, reason, w).0;
    if t != s {
      var at := UnixMilli(w.clock);
      var r := s.data.permits[id].(status := PermitRevoked, reason := reason, revokedAt := at);
      if at > 0 {
        RevokedPermitOk(u, s.data, s.generation, now, id, reason, at);
        PermitUpdateKeeps(u, s.data, s.generation, now, id, r);
        InvReloads(u, t.data, s.generation, now);
      } else {
        assert !PermitRecordOk(u.crypto, r);
        BadPermit(u, t.data, id);
      }
    }
  }

  lemma RevokeEnrollmentExact(u: Setup, s: State, commandId: string, id: string, reason: string, w: World, now: int)
    requires SetupOk(u) && Inv(u, s, now)
    ensures var t := RevokeEnrollment(u, s, commandId, id, reason, w).0;
            t == s || (Reloadable(u, t.data) <==> UnixMilli(w.clock) >= 1)
  {
    hide DataInv, HexId, SetupOk, UnixMilli, Reloadable;
    var t := RevokeEnrollment(u, s, commandId, id, reason, w).0;
    if t != s {
      var at := UnixMilli(w.clock);
      if at > 0 {
        RevokeEnrollmentKeeps(u, s.data, s.generation, now, id, reason, at);
        InvReloads(u, t.data, s.generation, now);
      } else {
        assert !EnrollmentRecordOk(u.crypto, t.data.enrollments[id], t.data.used);
        BadEnrollment(u, t.data, id);
      }
    }
  }

  lemma InvReloads(u: Setup, d: Data, generation: nat, now: int)
    requires DataInv(u, d, generation, now)
    ensures Reloadable(u, d)
  {
    hide Reloadable;
  }

  lemma SoundReloads(u: Setup, s: State, now: int)
    requires Inv(u, s, now)
    ensures Reloadable(u, s.data)
  {
    hide Reloadable;
  }

  lemma BadPermit(u: Setup, d: Data, id: string)
    requires id in d.permits && !PermitRecordOk(u.crypto, d.permits[id])
    ensures !Reloadable(u, d)
  {
    hide PermitRecordOk;
  }

  lemma BadEnrollment(u: Setup, d: Data, id: string)
    requires id in d.enrollments && !EnrollmentRecordOk(u.crypto, d.enrollments[id], d.used)
    ensures !Reloadable(u, d)
  {
    hide EnrollmentRecordOk;
  }

  lemma BadRequest(u: Setup, d: Data, id: string)
    requires id in d.requests && !RequestRecordOk(u.crypto, d.requests[id])
    ensures !Reloadable(u, d)
  {
    hide RequestRecordOk;
  }

  /** The request an approval or rejection closes, if there is one. */
  function Closing(s: State, rid: string, w: World): (r: Option<RequestRecord>) {
    if rid in s.data.requests && s.data.requests[rid].status == Pending
      && !Due(s.data.requests[rid], UnixMilli(w.clock))
    then Some(s.data.requests[rid]) else None
  }

  lemma RejectExact(u: Setup, s: State, commandId: string, rid: string, reason: string, w: World, now: int)
    requires SetupOk(u) && Inv(u, s, now)
    ensures var t := Reject(u, s, commandId, rid, reason, w).0;
            t == s || (Reloadable(u, t.data) <==> match Closing(s, rid, w)
                                                  case None => true
                                                  case Some(r) => UnixMilli(w.laterClock) >= r.createdAt)
  {
    hide DataInv, HexId, SetupOk, UnixMilli, Reloadable;
    InvReloads(u, s.data, s.generation, now);
    var t := Reject(u, s, commandId, rid, reason, w).0;
    if t != s {
      if Closing(s, rid, w).Some? {
        RejectNeedsForwardClock(u, s, commandId, rid, reason, w);
      } else {
        ExpireOneStep<()>(u, s, rid, w, now);
        InvReloads(u, t.data, t.generation, now);
      }
    }
  }

  lemma ApproveExact(u: Setup, s: State, commandId: string, rid: string, profile: string, w: World, now: int)
    requires SetupOk(u) && Inv(u, s, now)
    ensures var t := Approve(u, s, commandId, rid, profile, w).0;
            t == s || (Reloadable(u, t.data) <==> match Closing(s, rid, w)
                                                  case None => true
                                                  case Some(r) => UnixMilli(w.laterClock) >= r.createdAt)
  {
    hide DataInv, HexId, SetupOk, UnixMilli, Reloadable, GrantRequest;
    var t := Approve(u, s, commandId, rid, profile, w).0;
    if t != s {
      if Closing(s, rid, w).Some? {
        ApproveNeedsForwardClock(u, s, commandId, rid, profile, w, now);
      } else {
        ExpireOneStep<Grant>(u, s, rid, w, now);
        InvReloads(u, t.data, t.generation, now);
      }
    }
  }

  // -------------------------------------------------------------------- submissions

  /** A grant against a permit is loadable again exactly when it is not dated before its request. */
  lemma PermitGrantExact(u: Setup, s: State, next: Data, sub: Submission, r: RequestRecord, w: World, now: int)
    requires SetupOk(u) && Inv(u, s, now) && DataInv(u, next, s.generation, now) && sub.permit.Some?
             && SubmissionOk(sub)
    requires Grantable(u, next, r.(transcript := Hex(sub.digest)), r.createdAt)
    ensures var t := GrantWithPermit(u, s, next, sub, r, UnixMilli(w.clock), w).0;
            t == s || (Reloadable(u, t.data) <==> UnixMilli(w.clock) >= r.createdAt)
  {
    hide DataInv, HexId, SetupOk, Reloadable, GrantRequest, ConsumePermit, UnixMilli;
    var at := UnixMilli(w.clock);
    var t := GrantWithPermit(u, s, next, sub, r, at, w).0;
    if at >= r.createdAt {
      var later := if at > now then at else now;
      Weaken(u, next, s.generation, now, s.generation, later);
      Weaken(u, s.data, s.generation, now, s.generation, later);
      PermitGrantStep(u, s, next, sub, r, w, later);
      InvReloads(u, t.data, t.generation, later);
    } else if t != s {
      GrantedRecord(u, s, next, sub, r, at, w);
      assert !RequestRecordOk(u.crypto, t.data.requests[r.requestId]);
      BadRequest(u, t.data, r.requestId);
    }
  }

  lemma GrantedRecord(u: Setup, s: State, next: Data, sub: Submission, r: RequestRecord, at: int, w: World)
    requires sub.permit.Some? && GrantWithPermit(u, s, next, sub, r, at, w).0 != s
    ensures var d := GrantWithPermit(u, s, next, sub, r, at, w).0.data;
            && r.requestId in d.requests && d.requests[r.requestId].updatedAt == at
               && d.requests[r.requestId].createdAt == r.createdAt
            && at > 0
  {
    hide HexId, AllocateNodeId, NewId, GrantOk, MakeGrant;
  }

  lemma SubmitNewExact(u: Setup, s: State, next: Data, sub: Submission, w: World, now: int)
    requires SetupOk(u) && Inv(u, s, now) && DataInv(u, next, s.generation, now) && SubmissionOk(sub)
             && sub.requestId !in next.requests
    ensures var t := SubmitNew(u, s, next, sub, UnixMilli(w.clock), w).0;
            t == s || (Reloadable(u, t.data) <==> UnixMilli(w.clock) >= 1)
  {
    hide DataInv, HexId, SetupOk, Reloadable, GrantWithPermit, UnixMilli;
    var at := UnixMilli(w.clock);
    var t := SubmitNew(u, s, next, sub, at, w).0;
    if at > 0 {
      var later := if at > now then at else now;
      Weaken(u, next, s.generation, now, s.generation, later);
      Weaken(u, s.data, s.generation, now, s.generation, later);
      SubmitNewStep(u, s, next, sub, w, later);
      InvReloads(u, t.data, t.generation, later);
    } else if t != s {
      if sub.permit.Some? {
        GrantedRecord(u, s, next, sub, NewRequest(u, sub, at), at, w);
      } else {
        assert !RequestRecordOk(u.crypto, t.data.requests[sub.requestId]);
        BadRequest(u, t.data, sub.requestId);
      }
    }
  }

  /** The request a submission with a permit is granted on, as it stands once overdue requests are closed. */
  function GrantedOn(u: Setup, s: State, sub: Submission, w: World): (r: Option<RequestRecord>) {
    var requests := ExpireDue(s.data.requests, UnixMilli(w.clock));
    if sub.permit.None? then None
    else if sub.requestId in requests then
      if requests[sub.requestId].status != Approved then Some(requests[sub.requestId]) else None
    else
      match FindLive(requests, w.requestOrder, u.crypto.fingerprint(sub.deviceKey), sub)
      case None => None
      case Some(id) => if requests[id].status == Pending then Some(requests[id]) else None
  }

  /** Whether a submission is of a request not on record, by a device without a live one. */
  predicate IsNew(u: Setup, s: State, sub: Submission, w: World) {
    var requests := ExpireDue(s.data.requests, UnixMilli(w.clock));
    sub.requestId !in requests && FindLive(requests, w.requestOrder, u.crypto.fingerprint(sub.deviceKey), sub).None?
  }

  lemma SubmitExact(u: Setup, s: State, sub: Submission, w: World, now: int)
    requires SetupOk(u) && Inv(u, s, now)
    ensures var t := Submit(u, s, sub, w).0;
            t == s || (Reloadable(u, t.data) <==>
                         && (GrantedOn(u, s, sub, w).Some?
                            ==> UnixMilli(w.clock) >= GrantedOn(u, s, sub, w).value.createdAt)
                         && (IsNew(u, s, sub, w) ==> UnixMilli(w.clock) >= 1))
  {
    hide DataInv, HexId, SetupOk, Reloadable, GrantWithPermit, SubmitNew, AnswerExisting, UnixMilli, ExpireDue;
    var at := UnixMilli(w.clock);
    var next := s.data.(requests := ExpireDue(s.data.requests, at));
    ExpireDueKeeps(u, s.data, s.generation, now, at);
    if SubmissionOk(sub) {
      var changed := AnyDue(s.data.requests, at);
      if IsNew(u, s, sub, w) {
        SubmitNewExact(u, s, next, sub, w, now);
      } else if GrantedOn(u, s, sub, w).Some? {
        var r := GrantedOn(u, s, sub, w).value;
        OnRecord(u, s, sub, w, now, r);
        PermitGrantExact(u, s, next, sub, r, w, now);
        AnsweredReloads(u, s, next, r, changed, w, now);
      } else if sub.requestId in next.requests {
        AnsweredReloads(u, s, next, next.requests[sub.requestId], changed, w, now);
      } else {
        var id := FindLive(next.requests, w.requestOrder, u.crypto.fingerprint(sub.deviceKey), sub).value;
        AnsweredReloads(u, s, next, next.requests[id], changed, w, now);
      }
    }
  }

  lemma OnRecord(u: Setup, s: State, sub: Submission, w: World, now: int, r: RequestRecord)
    requires Inv(u, s, now) && SubmissionOk(sub) && GrantedOn(u, s, sub, w) == Some(r)
    ensures var next := s.data.(requests := ExpireDue(s.data.requests, UnixMilli(w.clock)));
            Grantable(u, next, r.(transcript := Hex(sub.digest)), r.createdAt)
  {
    var at := UnixMilli(w.clock);
    var next := s.data.(requests := ExpireDue(s.data.requests, at));
    ExpireDueKeeps(u, s.data, s.generation, now, at);
    hide DataInv, HexId, ExpireDue, UnixMilli;
    var id := if sub.requestId in next.requests then sub.requestId
              else FindLive(next.requests, w.requestOrder, u.crypto.fingerprint(sub.deviceKey), sub).value;
    RequestFacts(u, next, id, s.generation, now);
  }

  lemma AnsweredReloads(u: Setup, s: State, next: Data, existing: RequestRecord, changed: bool, w: World, now: int)
    requires Inv(u, s, now) && DataInv(u, next, s.generation, now)
    ensures Reloadable(u, AnswerExisting(s, next, existing, changed, w).0.data)
  {
    hide DataInv, Reloadable, OutcomeFor;
    InvReloads(u, next, s.generation, now);
    InvReloads(u, s.data, s.generation, now);
  }

  // ---------------------------------------------------------------------- every call

  /**
   * The timestamp a call writes is one the loader accepts: not before the creation of the request it closes or
   * grants, and positive where it dates a new request or a revocation.
   */
  predicate ClockFits(u: Setup, s: State, e: Event) {
    var now, later := UnixMilli(e.world.clock), UnixMilli(e.world.laterClock);
    match e.call
    case CallIssue(_) => true
    case CallSubmit(sub) =>
      && (GrantedOn(u, s, sub, e.world).Some? ==> now >= GrantedOn(u, s, sub, e.world).value.createdAt)
      && (IsNew(u, s, sub, e.world) ==> now >= 1)
    case CallApprove(_, rid, _) =>
      (match Closing(s, rid, e.world) case None => true case Some(r) => later >= r.createdAt)
    case CallReject(_, rid, _) =>
      (match Closing(s, rid, e.world) case None => true case Some(r) => later >= r.createdAt)
    case CallRevokePermit(_, _, _) => now >= 1
    case CallRevokeEnrollment(_, _, _) => now >= 1
  }

  /** A call on a sound authority leaves it loadable exactly when it changes nothing or its timestamp fits. */
  lemma LoadableExactlyWhenClockFits(u: Setup, s: State, e: Event, now: int)
    requires SetupOk(u) && Inv(u, s, now)
    ensures Reloadable(u, Step(u, s, e).0.data) <==> Step(u, s, e).0 == s || ClockFits(u, s, e)
  {
    hide SetupOk, Inv, Reloadable, IssuePermit, Submit, Approve, Reject, RevokePermit, RevokeEnrollment, GrantedOn,
      IsNew, Closing,
      UnixMilli, SubmitReply;
    SoundReloads(u, s, now);
    match e.call
    case CallIssue(args) => IssueReloads(u, s, args, e.world);
    case CallSubmit(sub) => SubmitExact(u, s, sub, e.world, now);
    case CallApprove(c, rid, profile) => ApproveExact(u, s, c, rid, profile, e.world, now);
    case CallReject(c, rid, reason) => RejectExact(u, s, c, rid, reason, e.world, now);
    case CallRevokePermit(c, id, reason) => RevokePermitExact(u, s, c, id, reason, e.world, now);
    case CallRevokeEnrollment(c, id, reason) => RevokeEnrollmentExact(u, s, c, id, reason, e.world, now);
  }

  /** Whatever a fresh authority was asked first, rejecting it on a clock before its creation cannot be loaded again. */
  lemma BackwardClockBreaks(u: Setup, sub: Submission, first: World, commandId: string, reason: string, back: World)
    requires SetupOk(u) && SubmissionOk(sub) && sub.permit.None? && WorldOk(Fresh(u), first, 0) && first.saveOk
             && back.saveOk
    requires HexId(commandId, 16) && reason != "" && |reason| <= MAX_LABEL_BYTES
    requires UnixMilli(back.clock) < UnixMilli(first.clock) && UnixMilli(back.laterClock) < UnixMilli(first.clock)
    ensures var submit, reject := Event(CallSubmit(sub), first),
            Event(CallReject(commandId, sub.requestId, reason), back);
            var s := Step(u, Fresh(u), submit).0;
            IsRun(u, [Fresh(u), s], [submit]) && Reloadable(u, s.data) && !Reloadable(u, Step(u, s, reject).0.data)
  {
    var submit, reject := Event(CallSubmit(sub), first), Event(CallReject(commandId, sub.requestId, reason), back);
    var s := Step(u, Fresh(u), submit).0;
    assert ConfigOk(u.config) && HexId(sub.requestId, 16);
    hide IsRun, Fresh, SetupOk, Inv, Reloadable, Submit, HexId, UnixMilli, WorldOk, SubmissionOk, Reject, ClockFits;
    FreshInv(u);
    OneStepRun(u, submit);
    StepKeeps(u, Fresh(u), submit, 0);
    var later := UnixMilli(first.laterClock);
    SoundReloads(u, s, later);
    FirstIsRejected(u, sub, first, commandId, reason, back);
    hide Step;
    LoadableExactlyWhenClockFits(u, s, reject, later);
  }

  lemma OneStepRun(u: Setup, e: Event)
    requires WorldOk(Fresh(u), e.world, 0)
    ensures IsRun(u, [Fresh(u), Step(u, Fresh(u), e).0], [e])
  {
    hide Step, Visited, ClockOk, Fresh;
  }

  /** The first request is pending after it was submitted, and a rejection on an earlier clock goes through. */
  lemma FirstIsRejected(u: Setup, sub: Submission, first: World, commandId: string, reason: string, back: World)
    requires ConfigOk(u.config) && SubmissionOk(sub) && sub.permit.None? && first.saveOk && back.saveOk
    requires HexId(commandId, 16) && reason != "" && |reason| <= MAX_LABEL_BYTES
    requires UnixMilli(back.clock) < UnixMilli(first.clock) && UnixMilli(back.laterClock) < UnixMilli(first.clock)
    ensures var s := Step(u, Fresh(u), Event(CallSubmit(sub), first)).0;
            var reject := Event(CallReject(commandId, sub.requestId, reason), back);
            Step(u, s, reject).0 != s && !ClockFits(u, s, reject)
  {
    assert HexId(sub.requestId, 16);
    hide Submit, HexId, UnixMilli, SubmissionOk, NewRequest;
    FirstSubmission(u, sub, first);
    PendingLasts(u, sub, first);
  }

  lemma PendingLasts(u: Setup, sub: Submission, w: World)
    requires ConfigOk(u.config)
    ensures var r := NewRequest(u, sub, UnixMilli(w.clock));
            r.status == Pending && r.createdAt == UnixMilli(w.clock) < r.expiresAt && r.requestId == sub.requestId
  {
    MilliLater(UnixMilli(w.clock) * 1_000_000, u.config.pendingTtl);
    assert UnixMilli(UnixMilli(w.clock) * 1_000_000) == UnixMilli(w.clock);
  }

  /** Such a case: submitted at second five, rejected on a clock that went back to second four. */
  lemma RejectOnBackwardClock() returns (u: Setup, submit: Event, reject: Event)
    ensures SetupOk(u) && IsRun(u, [Fresh(u), Step(u, Fresh(u), submit).0], [submit])
    ensures var s := Step(u, Fresh(u), submit).0; Reloadable(u, s.data) && !Reloadable(u, Step(u, s, reject).0.data)
  {
    var rid := Hex(seq(16, _ => 0 as byte));
    var key, name, signature := seq(32, _ => 0 as byte), Hex(seq(32, _ => 0 as byte)), seq(64, _ => 0 as byte);
    u := Setup(1, Crypto(key, _ => signature, _ => signature, (_, _) => true, (_, _) => true, _ => name, _ => true),
               Config(SECOND, SECOND, 1, 1, 1, 1, 1, None));
    var sub := Submission(rid, key, 2, key, None, seq(32, _ => 1 as byte));
    var first := World(5 * SECOND, 5 * SECOND, [], true, [], []);
    var back := World(4 * SECOND, 4 * SECOND, [], true, [], [rid]);
    submit, reject := Event(CallSubmit(sub), first), Event(CallReject(rid, rid, "no"), back);
    assert sub.digest[0] != 0;
    hide IsRun, Reloadable, Step, Hex;
    BackwardClockBreaks(u, sub, first, rid, "no", back);
  }

  lemma FirstSubmission(u: Setup, sub: Submission, w: World)
    requires SubmissionOk(sub) && sub.permit.None? && w.saveOk && ConfigOk(u.config)
    ensures Submit(u, Fresh(u), sub, w).0 == State(2,
            Fresh(u).data.(requests := map[sub.requestId := NewRequest(u, sub, UnixMilli(w.clock))]))
  {
    hide SubmissionOk, UnixMilli, NewRequest;
    var d := Fresh(u).data;
    assert ExpireDue(d.requests, UnixMilli(w.clock)) == map[];
    assert PendingIds(d.requests) == {} && PendingIdsFor(d.requests, sub.parentNode) == {};
    assert FindLive(map[], w.requestOrder, u.crypto.fingerprint(sub.deviceKey), sub).None?;
  }
}
