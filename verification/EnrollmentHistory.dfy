/**
 * What holds between the states of one run, whatever its clock reads: nothing granted is ever taken back or
 * granted twice.
 */
module EnrollmentHistory {
  import opened Basics
  import opened Enrollment
  import opened EnrollmentCoherence

  predicate Terminal(status: PermitStatus) { status == PermitConsumed || status == PermitRevoked }

  ghost predicate PermitsExtend(before: map<string, PermitRecord>, after: map<string, PermitRecord>) {
    forall id :: id in before ==>
      && id in after && after[id].permit == before[id].permit && after[id].issueRequestId == before[id].issueRequestId
      && (Terminal(before[id].status) ==> after[id] == before[id])
  }

  ghost predicate RequestsExtend(before: map<string, RequestRecord>, after: map<string, RequestRecord>) {
    forall id :: id in before ==> id in after && (before[id].status == Approved ==> after[id] == before[id])
  }

  ghost predicate EnrollmentsExtend(before: map<string, EnrollmentRecord>, after: map<string, EnrollmentRecord>) {
    forall id :: id in before ==>
      && id in after && after[id].grant == before[id].grant && after[id].requestId == before[id].requestId
      && (before[id].status == EnrollmentRevoked ==> after[id] == before[id])
  }

  /**
   * Records are only added; a consumed or revoked permit, an approved request and a revoked
   * enrollment never change again; a Node ID once used stays used.
   */
  ghost predicate Extends(d: Data, e: Data) {
    && PermitsExtend(d.permits, e.permits) && RequestsExtend(d.requests, e.requests)
    && EnrollmentsExtend(d.enrollments, e.enrollments) && d.used <= e.used
  }

  lemma ExtendsReflexive(d: Data)
    ensures Extends(d, d)
  {}

  lemma ExtendsTransitive(d: Data, e: Data, f: Data)
    requires Extends(d, e) && Extends(e, f)
    ensures Extends(d, f)
  {}

  // ------------------------------------------------------------------- steps

  lemma ExpireDueExtends(d: Data, now: int)
    ensures Extends(d, d.(requests := ExpireDue(d.requests, now)))
  {}

  lemma GrantExtends(u: Setup, generation: nat, d: Data, r: RequestRecord, profile: string, at: int, entropy: seq<byte>)
    requires generation < U64 && GrantRequest(u, generation, d, r, profile, at, entropy).Ok?
    requires r.requestId in d.requests ==> d.requests[r.requestId].status != Approved
    ensures var (e, grant) := GrantRequest(u, generation, d, r, profile, at, entropy).value;
            && Extends(d, e) && e.permits == d.permits && grant.body.enrollmentId in e.enrollments
            && e.enrollments[grant.body.enrollmentId].grant == grant
            && e.enrollments[grant.body.enrollmentId].status == EnrollmentActive
  {
    hide GrantRequest, GrantOk, MakeGrant, HexId;
    GrantIsFresh(u, d, generation, r, profile, at, entropy);
  }

  lemma GrantWithPermitExtends(u: Setup, s: State, next: Data, sub: Submission, r: RequestRecord, now: int, w: World)
    requires sub.permit.Some? && s.generation < U64 && Extends(s.data, next)
    requires r.requestId in next.requests ==> next.requests[r.requestId].status != Approved
    ensures var (t, reply) := GrantWithPermit(u, s, next, sub, r, now, w);
            && Extends(s.data, t.data)
            && (reply.Ok? && reply.value.OutcomeGranted? ==> Recorded(t.data, reply.value.grant))
  {
    hide GrantRequest, ConsumePermit, Extends, HexId;
    ExtendsReflexive(s.data);
    var request := r.(transcript := Hex(sub.digest));
    var consumed := ConsumePermit(u, next, sub, u.crypto.fingerprint(sub.deviceKey), now);
    if consumed.Ok? {
      var record := consumed.value;
      var g := GrantRequest(u, s.generation, next, request, record.permit.body.profile, now, w.entropy);
      if g.Ok? {
        GrantExtends(u, s.generation, next, request, record.permit.body.profile, now, w.entropy);
        var (granted, grant) := g.value;
        ConsumeExtends(granted, record, sub.requestId, now);
        var final :=
          granted.(permits := granted.permits[record.permit.body.permitId := ConsumedBy(record, sub.requestId, now)]);
        ExtendsTransitive(s.data, next, granted);
        ExtendsTransitive(s.data, granted, final);
      }
    }
  }

  lemma ConsumeExtends(d: Data, record: PermitRecord, requestId: string, now: int)
    requires record.permit.body.permitId in d.permits && d.permits[record.permit.body.permitId] == record
    requires !Terminal(record.status)
    ensures Extends(d, d.(permits := d.permits[record.permit.body.permitId := ConsumedBy(record, requestId, now)]))
  {}

  /** The grant is on file and not revoked. */
  ghost predicate Recorded(d: Data, grant: Grant) {
    var id := grant.body.enrollmentId;
    id in d.enrollments && d.enrollments[id].grant == grant && d.enrollments[id].status == EnrollmentActive
  }

  lemma OutcomeRecorded(u: Setup, d: Data, r: RequestRecord, generation: nat)
    requires Coherent(u, d, generation)
    ensures var o := OutcomeFor(d, r); o.Ok? && o.value.OutcomeGranted? ==> Recorded(d, o.value.grant)
  {
    hide Matched, DistinctNodes, DistinctEpochs, DistinctIssues, PendingWithin;
  }

  lemma AnswerExtends(u: Setup, s: State, next: Data, existing: RequestRecord, changed: bool, w: World)
    requires Coheres(u, s) && Coherent(u, next, s.generation) && Extends(s.data, next)
    ensures var (t, reply) := AnswerExisting(s, next, existing, changed, w);
            Extends(s.data, t.data)
              && (reply.Ok? && reply.value.OutcomeGranted? ==> Recorded(t.data, reply.value.grant))
  {
    hide Coherent, Extends, OutcomeFor, Recorded;
    ExtendsReflexive(s.data);
    OutcomeRecorded(u, s.data, existing, s.generation);
    OutcomeRecorded(u, next, existing, s.generation);
  }

  lemma SubmitExtends(u: Setup, s: State, sub: Submission, w: World)
    requires Coheres(u, s)
    ensures var (t, reply) := Submit(u, s, sub, w);
            Extends(s.data, t.data)
              && (reply.Ok? && reply.value.OutcomeGranted? ==> Recorded(t.data, reply.value.grant))
  {
    hide Extends, Recorded, Coherent, GrantWithPermit, AnswerExisting, HexId, ExpireDue, UnixMilli;
    ExtendsReflexive(s.data);
    var at := UnixMilli(w.clock);
    var next := s.data.(requests := ExpireDue(s.data.requests, at));
    var changed := AnyDue(s.data.requests, at);
    ExpireDueExtends(s.data, at);
    ExpireDueCoheres(u, s.data, s.generation, at);
    var fingerprint := u.crypto.fingerprint(sub.deviceKey);
    if sub.requestId in next.requests {
      var existing := next.requests[sub.requestId];
      RequestNames(u, next, sub.requestId, s.generation);
      AnswerExtends(u, s, next, existing, changed, w);
      if sub.permit.Some? && existing.status != Approved { GrantWithPermitExtends(u, s, next, sub, existing, at, w); }
    } else {
      match FindLive(next.requests, w.requestOrder, fingerprint, sub)
      case Some(id) =>
        var existing := next.requests[id];
        RequestNames(u, next, id, s.generation);
        AnswerExtends(u, s, next, existing, changed, w);
        if sub.permit.Some? && existing.status == Pending { GrantWithPermitExtends(u, s, next, sub, existing, at, w); }
      case None =>
        if sub.permit.Some? { GrantWithPermitExtends(u, s, next, sub, NewRequest(u, sub, at), at, w); }
        AddRequestExtends(s.data, next, NewRequest(u, sub, at));
    }
  }

  lemma AddRequestExtends(d: Data, next: Data, r: RequestRecord)
    requires Extends(d, next) && r.requestId !in next.requests
    ensures Extends(d, next.(requests := next.requests[r.requestId := r]))
  {}

  lemma CloseExtends(d: Data, rid: string, r: RequestRecord)
    requires rid in d.requests && d.requests[rid].status != Approved
    ensures Extends(d, d.(requests := d.requests[rid := r]))
  {}

  lemma EnrollmentNames(u: Setup, d: Data, id: string, generation: nat)
    requires Coherent(u, d, generation) && id in d.enrollments
    ensures d.enrollments[id].grant.body.enrollmentId == id
  {}

  lemma ApproveExtends(u: Setup, s: State, commandId: string, rid: string, profile: string, w: World)
    requires Coheres(u, s)
    ensures var (t, reply) := Approve(u, s, commandId, rid, profile, w);
            Extends(s.data, t.data) && (reply.Ok? ==> Recorded(t.data, reply.value))
  {
    hide Extends, GrantRequest, HexId, UnixMilli, Coherent;
    ExtendsReflexive(s.data);
    forall id | id in s.data.enrollments ensures s.data.enrollments[id].grant.body.enrollmentId == id {
      EnrollmentNames(u, s.data, id, s.generation);
    }
    if rid in s.data.requests && s.data.requests[rid].status == Pending {
      var r := s.data.requests[rid];
      RequestNames(u, s.data, rid, s.generation);
      CloseExtends(s.data, rid, Expire(r));
      if GrantRequest(u, s.generation, s.data, r, profile, UnixMilli(w.laterClock), w.entropy).Ok? {
        GrantExtends(u, s.generation, s.data, r, profile, UnixMilli(w.laterClock), w.entropy);
      }
    }
  }

  lemma IssueExtends(u: Setup, s: State, a: IssueArgs, w: World)
    requires Coheres(u, s)
    ensures var (t, reply) := IssuePermit(u, s, a, w);
            && Extends(s.data, t.data)
            && (reply.Ok? ==> var id := reply.value.body.permitId; id in t.data.permits
                                                                   && t.data.permits[id].permit == reply.value)
  {
    hide HexId, PermitOk, Coherent, MakePermit, Extends, UnixMilli;
    ExtendsReflexive(s.data);
    match FindIssued(s.data.permits, w.permitOrder, a.issueRequestId)
    case Some(id) => PermitFacts(u, s.data, id, s.generation);
    case None =>
      var drawn := NewId(w.entropy, s.data.permits.Keys, ATTEMPTS);
      if drawn.Some? {
        PermitNames(u, s.generation, a, drawn.value, w.clock);
        AddPermitExtends(s.data, drawn.value, PermitRecord(MakePermit(u, s.generation, a, drawn.value, w.clock),
          PermitActive, a.issueRequestId, "", 0, 0, ""));
      }
  }

  lemma PermitFacts(u: Setup, d: Data, id: string, generation: nat)
    requires Coherent(u, d, generation) && id in d.permits
    ensures d.permits[id].permit.body.permitId == id
  {}

  lemma AddPermitExtends(d: Data, id: string, r: PermitRecord)
    requires id !in d.permits
    ensures Extends(d, d.(permits := d.permits[id := r]))
  {}

  /** The state is untouched, or exactly the next generation of it was saved. */
  ghost predicate OneCommit(s: State, t: State, w: World)
  {
    t == s || (w.saveOk && t.generation == s.generation + 1 < U64)
  }

  lemma SubmitCommitsOnce(u: Setup, s: State, sub: Submission, w: World)
    requires s.generation < U64
    ensures OneCommit(s, Submit(u, s, sub, w).0, w)
  {
    hide HexId, UnixMilli, GrantRequest, ConsumePermit, OutcomeFor, SubmissionOk, AnyDue, ExpireDue, Due, FindLive,
      SameDevice, NewRequest;
  }

  lemma PermitsCommitOnce(u: Setup, s: State, a: IssueArgs, w: World, commandId: string, id: string, reason: string)
    requires s.generation < U64
    ensures OneCommit(s, IssuePermit(u, s, a, w).0, w)
            && OneCommit(s, RevokePermit(u, s, commandId, id, reason, w).0, w)
    ensures OneCommit(s, RevokeEnrollment(u, s, commandId, id, reason, w).0, w)
  {
    hide HexId, UnixMilli, IssueArgsOk, PermitOk;
  }

  lemma RequestsCommitOnce(u: Setup, s: State, commandId: string, rid: string, text: string, w: World)
    requires s.generation < U64
    ensures OneCommit(s, Approve(u, s, commandId, rid, text, w).0, w)
            && OneCommit(s, Reject(u, s, commandId, rid, text, w).0, w)
  {
    hide HexId, UnixMilli, GrantRequest, OutcomeFor, Due;
  }

  /** A call commits at most once. */
  lemma CallsCommitOnce(u: Setup, s: State, e: Event)
    requires s.generation < U64
    ensures OneCommit(s, Step(u, s, e).0, e.world)
  {
    hide OneCommit, IssuePermit, Submit, Approve, Reject, RevokePermit, RevokeEnrollment;
    match e.call
    case CallIssue(args) => PermitsCommitOnce(u, s, args, e.world, "", "", "");
    case CallSubmit(sub) => SubmitCommitsOnce(u, s, sub, e.world);
    case CallApprove(c, rid, profile) => RequestsCommitOnce(u, s, c, rid, profile, e.world);
    case CallReject(c, rid, reason) => RequestsCommitOnce(u, s, c, rid, reason, e.world);
    case CallRevokePermit(c, id, reason) =>
      PermitsCommitOnce(u, s, IssueArgs("", "", 0, false, "", 0), e.world, c, id, reason);
    case CallRevokeEnrollment(c, id, reason) =>
      PermitsCommitOnce(u, s, IssueArgs("", "", 0, false, "", 0), e.world, c, id, reason);
  }

  lemma GenerationGrows(u: Setup, s: State, e: Event)
    requires Coheres(u, s)
    ensures s.generation <= Step(u, s, e).0.generation
  {
    hide Coherent, Step;
    CallsCommitOnce(u, s, e);
  }

  lemma StepExtends(u: Setup, s: State, e: Event)
    requires Coheres(u, s)
    ensures var (t, reply) := Step(u, s, e);
            && Extends(s.data, t.data) && s.generation <= t.generation
            && (reply.ReplyGrant? ==> Recorded(t.data, reply.grant))
            && (reply.ReplyPermit? ==>
                  var id := reply.permit.body.permitId; id in t.data.permits
                                                        && t.data.permits[id].permit == reply.permit)
  {
    hide Coheres, Extends, Recorded, IssuePermit, Submit, Approve, Reject, RevokePermit, RevokeEnrollment;
    GenerationGrows(u, s, e);
    match e.call
    case CallIssue(args) => IssueExtends(u, s, args, e.world);
    case CallSubmit(sub) =>
      SubmitExtends(u, s, sub, e.world);
      assert Step(u, s, e).1 == SubmitReply(Submit(u, s, sub, e.world).1);
    case CallApprove(c, rid, profile) => ApproveExtends(u, s, c, rid, profile, e.world);
    case CallReject(c, rid, reason) => RejectExtends(u, s, c, rid, reason, e.world);
    case CallRevokePermit(c, id, reason) => RevokeExtends(u, s, c, id, reason, e.world);
    case CallRevokeEnrollment(c, id, reason) => RevokeExtends(u, s, c, id, reason, e.world);
  }

  lemma RejectExtends(u: Setup, s: State, commandId: string, rid: string, reason: string, w: World)
    ensures Extends(s.data, Reject(u, s, commandId, rid, reason, w).0.data)
  {
    hide HexId, UnixMilli, Extends;
    ExtendsReflexive(s.data);
    if rid in s.data.requests && s.data.requests[rid].status == Pending {
      var r := s.data.requests[rid];
      CloseExtends(s.data, rid, Expire(r));
      CloseExtends(s.data, rid, r.(status := Rejected, reason := reason, updatedAt := UnixMilli(w.laterClock)));
    }
  }

  lemma RevokeExtends(u: Setup, s: State, commandId: string, id: string, reason: string, w: World)
    ensures Extends(s.data, RevokePermit(u, s, commandId, id, reason, w).0.data)
    ensures Extends(s.data, RevokeEnrollment(u, s, commandId, id, reason, w).0.data)
  {
    hide HexId, UnixMilli, Extends;
    ExtendsReflexive(s.data);
    var at := UnixMilli(w.clock);
    if id in s.data.permits && !Terminal(s.data.permits[id].status) {
      RevokedPermitExtends(s.data, id, s.data.permits[id].(status := PermitRevoked, reason := reason, revokedAt := at));
    }
    if id in s.data.enrollments && s.data.enrollments[id].status != EnrollmentRevoked {
      RevokedEnrollmentExtends(s.data, id, s.data.enrollments[id].(status := EnrollmentRevoked, reason := reason,
        revokedAt := at));
    }
  }

  lemma RevokedPermitExtends(d: Data, id: string, r: PermitRecord)
    requires id in d.permits && !Terminal(d.permits[id].status)
    requires r.permit == d.permits[id].permit && r.issueRequestId == d.permits[id].issueRequestId
    ensures Extends(d, d.(permits := d.permits[id := r]))
  {}

  lemma RevokedEnrollmentExtends(d: Data, id: string, r: EnrollmentRecord)
    requires id in d.enrollments && d.enrollments[id].status != EnrollmentRevoked
    requires r.grant == d.enrollments[id].grant && r.requestId == d.enrollments[id].requestId
    ensures Extends(d, d.(enrollments := d.enrollments[id := r]))
  {}

  // -------------------------------------------------------------------- runs

  lemma {:induction false} RunExtends(u: Setup, states: seq<State>, events: seq<Event>, i: nat, j: nat)
    requires u.node != 0 && ConfigOk(u.config) && IsRun(u, states, events) && i <= j < |states|
    ensures Extends(states[i].data, states[j].data) && states[i].generation <= states[j].generation
    decreases j - i
  {
    hide ConfigOk, Coheres, Step, Extends, IsRun;
    RunShape(u, states, events);
    if i == j {
      ExtendsReflexive(states[i].data);
    } else {
      RunCoheres(u, states, events, j - 1);
      RunExtends(u, states, events, i, j - 1);
      RunStep(u, states, events, j - 1);
      StepExtends(u, states[j - 1], events[j - 1]);
      ExtendsTransitive(states[i].data, states[j - 1].data, states[j].data);
    }
  }

  lemma GrantOnFile(u: Setup, states: seq<State>, events: seq<Event>, i: nat, j: nat)
    requires u.node != 0 && ConfigOk(u.config) && IsRun(u, states, events) && i < |events| && i < j < |states|
    requires Step(u, states[i], events[i]).1.ReplyGrant?
    ensures var g := Step(u, states[i], events[i]).1.grant;
            && g.body.enrollmentId in states[j].data.enrollments
               && states[j].data.enrollments[g.body.enrollmentId].grant == g
            && g.body.node in states[j].data.used && g.body.node != u.node && g.body.epoch <= states[j].generation
  {
    hide ConfigOk, Visited, Step, Fresh, Matched, PendingWithin, DistinctIssues;
    RunCoheres(u, states, events, i);
    StepExtends(u, states[i], events[i]);
    RunExtends(u, states, events, i + 1, j);
    RunCoheres(u, states, events, j);
  }

  /**
   * Any two grants handed out in a run, whenever and for whatever call, are either the very same
   * enrollment or differ in enrollment ID, Node ID and epoch; and no grant carries the authority's Node ID.
   */
  lemma GrantsNeverCollide(u: Setup, states: seq<State>, events: seq<Event>, i: nat, j: nat)
    requires u.node != 0 && ConfigOk(u.config) && IsRun(u, states, events) && i <= j < |events|
    requires Step(u, states[i], events[i]).1.ReplyGrant? && Step(u, states[j], events[j]).1.ReplyGrant?
    ensures var g := Step(u, states[i], events[i]).1.grant;
            var h := Step(u, states[j], events[j]).1.grant;
            && (g == h || (g.body.enrollmentId != h.body.enrollmentId && g.body.node != h.body.node
               && g.body.epoch != h.body.epoch))
            && g.body.node != u.node && h.body.node != u.node
  {
    hide ConfigOk, Step, Fresh, IsRun, Enrolled, Matched, PendingWithin, DistinctIssues;
    assert |states| == |events| + 1 by { RunShape(u, states, events); }
    GrantOnFile(u, states, events, i, j + 1);
    GrantOnFile(u, states, events, j, j + 1);
    RunCoheres(u, states, events, j + 1);
  }

  lemma RunStep(u: Setup, states: seq<State>, events: seq<Event>, i: nat)
    requires IsRun(u, states, events) && i < |events|
    ensures |states| == |events| + 1 && states[i + 1] == Step(u, states[i], events[i]).0
  {
    hide Step, Visited, Fresh;
  }

  lemma RunShape(u: Setup, states: seq<State>, events: seq<Event>)
    requires IsRun(u, states, events)
    ensures |states| == |events| + 1
  {}

  /** Revocation or expiry never frees a Node ID: once granted it stays used in every later state. */
  lemma NodeIdsAreNeverFreed(u: Setup, states: seq<State>, events: seq<Event>, i: nat, j: nat, node: NodeId)
    requires u.node != 0 && ConfigOk(u.config) && IsRun(u, states, events) && i <= j < |states|
             && node in states[i].data.used
    ensures node in states[j].data.used
  {
    hide ConfigOk, IsRun, PermitsExtend, RequestsExtend, EnrollmentsExtend;
    RunShape(u, states, events);
    RunExtends(u, states, events, i, j);
  }

  /** A permit is consumed by at most one step of a run; the record of who consumed it never changes afterwards. */
  lemma PermitIsConsumedOnce(u: Setup, states: seq<State>, events: seq<Event>, i: nat, j: nat, id: string)
    requires u.node != 0 && ConfigOk(u.config) && IsRun(u, states, events) && i <= j < |states|
    requires id in states[i].data.permits && Terminal(states[i].data.permits[id].status)
    ensures id in states[j].data.permits && states[j].data.permits[id] == states[i].data.permits[id]
  {
    hide ConfigOk, IsRun, RequestsExtend, EnrollmentsExtend;
    RunShape(u, states, events);
    RunExtends(u, states, events, i, j);
  }

  /** Any two permits issued in a run are the same permit or differ in ID and epoch. */
  lemma PermitsNeverCollide(u: Setup, states: seq<State>, events: seq<Event>, i: nat, j: nat)
    requires u.node != 0 && ConfigOk(u.config) && IsRun(u, states, events) && i <= j < |events|
    requires Step(u, states[i], events[i]).1.ReplyPermit? && Step(u, states[j], events[j]).1.ReplyPermit?
    ensures var p := Step(u, states[i], events[i]).1.permit;
            var q := Step(u, states[j], events[j]).1.permit;
            p == q || (p.body.permitId != q.body.permitId && p.body.epoch != q.body.epoch)
  {
    hide ConfigOk, Visited, Step, Fresh, Enrolled, Matched, PendingWithin, DistinctIssues, DistinctNodes,
      RequestsExtend, EnrollmentsExtend;
    RunCoheres(u, states, events, i);
    RunCoheres(u, states, events, j);
    StepExtends(u, states[i], events[i]);
    StepExtends(u, states[j], events[j]);
    RunExtends(u, states, events, i + 1, j + 1);
    RunCoheres(u, states, events, j + 1);
  }

  // ------------------------------------------------------------ resubmission

  /**
   * Submitting an approved request ID again, with or without a permit, creates nothing: permits,
   * enrollments and used Node IDs stay as they are, and the answer is the stored grant, the
   * revocation error once revoked, or the error of saving newly expired requests.
   */
  lemma ResubmitReturnsStoredGrant(u: Setup, s: State, sub: Submission, w: World)
    requires Coheres(u, s) && SubmissionOk(sub) && sub.requestId in s.data.requests
    requires s.data.requests[sub.requestId].status == Approved
    requires SameDevice(s.data.requests[sub.requestId], u.crypto.fingerprint(sub.deviceKey), sub)
    ensures var (t, reply) := Submit(u, s, sub, w);
            var e := s.data.enrollments[s.data.requests[sub.requestId].enrollmentId];
            && t.data.permits == s.data.permits && t.data.enrollments == s.data.enrollments
               && t.data.used == s.data.used
            && (AnyDue(s.data.requests, UnixMilli(w.clock)) && (!w.saveOk || s.generation == U64 - 1) ==>
                  t == s && (reply == Err(SaveFailed) || reply == Err(GenerationExhausted)))
            && (!(AnyDue(s.data.requests, UnixMilli(w.clock)) && (!w.saveOk || s.generation == U64 - 1)) ==>
                  reply == if e.status == EnrollmentRevoked then Err(RevokedEnrollment)
                                                                 else Ok(OutcomeGranted(e.grant)))
  {
    hide HexId, Enrolled, DistinctEpochs, DistinctNodes, DistinctIssues, PendingWithin, UnixMilli, SubmissionOk,
      GrantWithPermit;
    var existing := s.data.requests[sub.requestId];
    assert RequestLinked(s.data.enrollments, sub.requestId, existing);
    var next := ExpireDue(s.data.requests, UnixMilli(w.clock));
    assert next[sub.requestId] == existing;
  }
}
