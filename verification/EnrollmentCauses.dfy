/**
 * Why the records of the enrollment authority change: every change of every record, in every run, has a call that
 * was entitled to it, and a call that is entitled to a change brings it about. Everything is stated on the records
 * before and after a call and on what the caller presented.
 */
module EnrollmentCauses {
  import opened Basics
  import opened Enrollment
  import opened EnrollmentCoherence
  import opened EnrollmentHistory

  // ------------------------------------------------------------------ what a change must look like

  /** The parent is the target the permit names or, where the permit says so, a descendant of it. */
  predicate BoundTo(u: Setup, b: PermitBody, parent: NodeId) {
    b.target == parent
    || (b.allowDescendants && u.config.isTargetDescendant.Some?
        && u.config.isTargetDescendant.value(b.target, parent))
  }

  /** The submission carries this very permit, which is unused, in its time, and made out to its device and parent. */
  predicate Entitled(u: Setup, r: PermitRecord, sub: Submission, at: int) {
    && sub.permit == Some(r.permit) && PermitOk(u.crypto, r.permit)
       && r.permit.body.authorityKey == u.crypto.authorityKey
    && |u.crypto.authorityKey| == 32 && u.crypto.verifyPermit(r.permit.body, r.permit.signature) && !Terminal(r.status)
    && r.permit.body.issuedAt <= at < r.permit.body.expiresAt
    && r.permit.body.fingerprint == u.crypto.fingerprint(sub.deviceKey) && BoundTo(u, r.permit.body, sub.parentNode)
  }

  /** The signed permit says exactly what the command asked for, from now on and for its lifetime. */
  predicate PermitFor(u: Setup, a: IssueArgs, p: Permit, clock: int, epoch: nat) {
    var b := p.body;
    && b.version == 1 && b.authorityNode == u.node && b.authorityKey == u.crypto.authorityKey
    && b.fingerprint == a.fingerprint && b.target == a.target && b.allowDescendants == a.allowDescendants
    && b.profile == a.profile && b.issuedAt == UnixMilli(clock) && b.expiresAt == UnixMilli(clock + a.ttl)
    && b.epoch == epoch && p.signature == u.crypto.signPermit(b)
  }

  /** The signed grant is for the device and the parent of the request, under the profile, at that time. */
  predicate GrantFor(u: Setup, r: RequestRecord, profile: string, g: Grant, at: int, epoch: nat) {
    var b := g.body;
    && b.version == 1 && b.authorityNode == u.node && b.authorityKey == u.crypto.authorityKey
    && b.deviceKey == r.deviceKey && b.parentNode == r.parentNode && b.parentKey == r.parentKey
    && b.profile == profile && b.issuedAt == at && b.epoch == epoch && g.signature == u.crypto.signGrant(b)
  }

  /** The same request: who asks, where, and until when. */
  predicate SameRequest(a: RequestRecord, b: RequestRecord) {
    && a.requestId == b.requestId && a.deviceKey == b.deviceKey && a.fingerprint == b.fingerprint
    && a.parentNode == b.parentNode && a.parentKey == b.parentKey && a.createdAt == b.createdAt
    && a.expiresAt == b.expiresAt
  }

  /** The request as its submission describes it. */
  predicate RequestFor(u: Setup, sub: Submission, r: RequestRecord, at: int) {
    && r.requestId == sub.requestId && r.deviceKey == sub.deviceKey
    && r.fingerprint == u.crypto.fingerprint(sub.deviceKey) && r.parentNode == sub.parentNode
    && r.parentKey == sub.parentKey && r.createdAt == at
    && r.expiresAt == UnixMilli(at * 1_000_000 + u.config.pendingTtl) && r.transcript == Hex(sub.digest)
  }

  /** The identifiers of a command are well formed and its text is neither empty nor too long. */
  predicate CommandOk(commandId: string, id: string, text: string, limit: int) {
    HexId(commandId, 16) && HexId(id, 16) && 0 < |text| <= limit
  }

  /** A permit is new and as commanded, consumed by the submission it entitles, or revoked by name. */
  ghost predicate PermitCause(u: Setup, s: State, e: Event, t: State, reply: Reply, id: string)
    requires id in t.data.permits
  {
    var r, now := t.data.permits[id], UnixMilli(e.world.clock);
    match e.call
    case CallIssue(a) =>
      && IssueArgsOk(u, a) && id !in s.data.permits && reply == ReplyPermit(r.permit)
      && (forall x :: x in s.data.permits ==> s.data.permits[x].issueRequestId != a.issueRequestId)
      && PermitFor(u, a, r.permit, e.world.clock, t.generation)
      && r == PermitRecord(r.permit, PermitActive, a.issueRequestId, "", 0, 0, "")
    case CallSubmit(sub) =>
      && SubmissionOk(sub) && id in s.data.permits && Entitled(u, s.data.permits[id], sub, now) && reply.ReplyGrant?
      && r == s.data.permits[id].(status := PermitConsumed, consumedBy := sub.requestId, consumedAt := now)
      && reply.grant.body.profile == r.permit.body.profile
      && reply.grant.body.enrollmentId !in s.data.enrollments && Recorded(t.data, reply.grant)
    case CallRevokePermit(command, pid, reason) =>
      && CommandOk(command, pid, reason, MAX_LABEL_BYTES) && pid == id && id in s.data.permits
         && !Terminal(s.data.permits[id].status)
      && reply == ReplyDone
      && r == s.data.permits[id].(status := PermitRevoked, reason := reason, revokedAt := now)
    case _ => false
  }

  /** A pending request whose time was up is closed as expired. */
  predicate Lapsed(before: RequestRecord, after: RequestRecord, now: int) {
    && before.status == Pending && before.expiresAt <= now
    && after == before.(status := Expired, reason := EXPIRED_REASON, updatedAt := before.expiresAt)
  }

  /** The request is approved with the grant that was answered. */
  ghost predicate ApprovedWith(u: Setup, s: State, t: State, r: RequestRecord, g: Grant, at: int) {
    && r.status == Approved && r.enrollmentId == g.body.enrollmentId && r.profile == g.body.profile && r.reason == ""
    && r.updatedAt == at && GrantFor(u, r, r.profile, g, at, t.generation)
    && g.body.enrollmentId !in s.data.enrollments && g.body.node !in s.data.used && Recorded(t.data, g)
  }

  /** A new request that waits for a decision. */
  predicate Filed(u: Setup, sub: Submission, r: RequestRecord, now: int) {
    && sub.permit.None? && RequestFor(u, sub, r, now) && r.status == Pending && r.profile == "" && r.enrollmentId == ""
    && r.updatedAt == now && r.reason == ""
  }

  /**
   * A request approved because a submission of the same device at the same parent carried a permit: the request the
   * submission names or, where that is unknown, one that waited and had not run out.
   */
  ghost predicate Redeemed(u: Setup, s: State, sub: Submission, now: int, t: State, g: Grant, id: string)
    requires id in t.data.requests
  {
    var r := t.data.requests[id];
    && sub.permit.Some? && ApprovedWith(u, s, t, r, g, now) && r.transcript == Hex(sub.digest)
    && SameDevice(r, u.crypto.fingerprint(sub.deviceKey), sub)
    && if id in s.data.requests then
         && SameRequest(s.data.requests[id], r) && s.data.requests[id].status != Approved
         && (id != sub.requestId ==> sub.requestId !in s.data.requests && s.data.requests[id].status == Pending
                                     && now < s.data.requests[id].expiresAt)
       else id == sub.requestId && RequestFor(u, sub, r, now)
  }

  /** A request is new, lapsed, rejected by name, or approved: by name, or by a submission with a permit. */
  ghost predicate RequestCause(u: Setup, s: State, e: Event, t: State, reply: Reply, id: string)
    requires id in t.data.requests
  {
    var r, now, later := t.data.requests[id], UnixMilli(e.world.clock), UnixMilli(e.world.laterClock);
    var known := id in s.data.requests;
    match e.call
    case CallSubmit(sub) =>
      && SubmissionOk(sub)
      && (|| (known && Lapsed(s.data.requests[id], r, now))
          || (!known && id == sub.requestId && reply == ReplyDone && Filed(u, sub, r, now))
          || (reply.ReplyGrant? && Redeemed(u, s, sub, now, t, reply.grant, id)))
    case CallApprove(command, rid, profile) =>
      && CommandOk(command, rid, profile, MAX_IDENTIFIER_BYTES)
      && known && rid == id && s.data.requests[id].status == Pending
      && (|| (Lapsed(s.data.requests[id], r, now) && reply == ReplyError(ExpiredRequest))
          || (&& now < s.data.requests[id].expiresAt && reply.ReplyGrant? && r.profile == profile
              && ApprovedWith(u, s, t, r, reply.grant, later) && SameRequest(s.data.requests[id], r)
              && r.transcript == s.data.requests[id].transcript))
    case CallReject(command, rid, reason) =>
      && CommandOk(command, rid, reason, MAX_LABEL_BYTES)
      && known && rid == id && s.data.requests[id].status == Pending
      && (|| (Lapsed(s.data.requests[id], r, now) && reply == ReplyError(ExpiredRequest))
          || (&& now < s.data.requests[id].expiresAt && reply == ReplyDone
              && r == s.data.requests[id].(status := Rejected, reason := reason, updatedAt := later)))
    case _ => false
  }

  /** An enrollment is new and belongs to a request approved in the same call, or it is revoked by name. */
  ghost predicate EnrollmentCause(u: Setup, s: State, e: Event, t: State, reply: Reply, id: string)
    requires id in t.data.enrollments
  {
    var r := t.data.enrollments[id];
    if id in s.data.enrollments then
      && e.call.CallRevokeEnrollment? && e.call.enrollmentId == id && reply == ReplyDone
      && CommandOk(e.call.commandId, id, e.call.reason, MAX_LABEL_BYTES)
      && s.data.enrollments[id].status != EnrollmentRevoked
      && r == s.data.enrollments[id].(status := EnrollmentRevoked, reason := e.call.reason,
                                      revokedAt := UnixMilli(e.world.clock))
    else
      && (e.call.CallApprove? || (e.call.CallSubmit? && e.call.submission.permit.Some?))
      && reply == ReplyGrant(r.grant) && r.status == EnrollmentActive && r.revokedAt == 0 && r.reason == ""
      && r.requestId in t.data.requests && r.fingerprint == t.data.requests[r.requestId].fingerprint
      && ApprovedWith(u, s, t, t.data.requests[r.requestId], r.grant, r.grant.body.issuedAt)
      && (r.requestId in s.data.requests ==> s.data.requests[r.requestId] != t.data.requests[r.requestId])
  }

  ghost predicate PermitsCaused(u: Setup, s: State, e: Event, t: State, reply: Reply) {
    && s.data.permits.Keys <= t.data.permits.Keys
    && forall id :: id in t.data.permits ==>
         (id in s.data.permits && t.data.permits[id] == s.data.permits[id]) || PermitCause(u, s, e, t, reply, id)
  }

  ghost predicate RequestsCaused(u: Setup, s: State, e: Event, t: State, reply: Reply) {
    && s.data.requests.Keys <= t.data.requests.Keys
    && forall id :: id in t.data.requests ==>
         (id in s.data.requests && t.data.requests[id] == s.data.requests[id]) || RequestCause(u, s, e, t, reply, id)
  }

  ghost predicate EnrollmentsCaused(u: Setup, s: State, e: Event, t: State, reply: Reply) {
    && s.data.enrollments.Keys <= t.data.enrollments.Keys
    && forall id :: id in t.data.enrollments ==>
         (id in s.data.enrollments && t.data.enrollments[id] == s.data.enrollments[id])
         || EnrollmentCause(u, s, e, t, reply, id)
  }

  /** A Node ID is used if it was used before or is in a new enrollment. */
  ghost predicate UsedCaused(s: State, t: State) {
    forall n :: n in t.data.used <==>
      n in s.data.used || exists id :: id in t.data.enrollments && id !in s.data.enrollments
                                       && t.data.enrollments[id].grant.body.node == n
  }

  /** Every difference between the two states has its cause in the call, and nothing is gone. */
  ghost predicate Caused(u: Setup, s: State, e: Event, t: State, reply: Reply) {
    && PermitsCaused(u, s, e, t, reply) && RequestsCaused(u, s, e, t, reply) && EnrollmentsCaused(u, s, e, t, reply)
    && UsedCaused(s, t)
  }

  lemma SameIsCaused(u: Setup, s: State, e: Event, reply: Reply)
    ensures Caused(u, s, e, s, reply)
  {
    hide PermitCause, RequestCause, EnrollmentCause;
  }

  // ------------------------------------------------------------------------- grants

  /** `d` with one more enrollment: the request approved, the grant on file, its Node ID used. */
  ghost predicate Enrolls(u: Setup, generation: nat, d: Data, r: RequestRecord, profile: string, at: int, e: Data,
      g: Grant) {
    && GrantFor(u, r, profile, g, at, generation + 1)
    && g.body.enrollmentId !in d.enrollments && g.body.node !in d.used
    && e.permits == d.permits && e.used == d.used + {g.body.node}
    && e.requests == d.requests[r.requestId := r.(status := Approved, profile := profile,
                                                  enrollmentId := g.body.enrollmentId, reason := "", updatedAt := at)]
    && e.enrollments
       == d.enrollments[g.body.enrollmentId := EnrollmentRecord(g, r.fingerprint, r.requestId, EnrollmentActive, 0, "")]
  }

  lemma GrantEnrolls(u: Setup, generation: nat, d: Data, r: RequestRecord, profile: string, at: int, entropy: seq<byte>)
    requires generation + 1 < U64
    ensures var g := GrantRequest(u, generation, d, r, profile, at, entropy);
            g.Ok? ==> Enrolls(u, generation, d, r, profile, at, g.value.0, g.value.1)
  {
    var g := GrantRequest(u, generation, d, r, profile, at, entropy);
    if g.Ok? {
      var (node, rest) := AllocateNodeId(entropy, d.used, ATTEMPTS).value;
      var id := NewId(rest, d.enrollments.Keys, ATTEMPTS).value;
      assert g.value.1 == MakeGrant(u, generation, r, profile, node, id, at);
      assert g.value.0 == AddEnrollment(d, r, profile, g.value.1, at);
      hide AllocateNodeId, NewId, GrantRequest, GrantOk, HexId;
    }
  }

  /** Nothing but lapsed requests lies between the two data. */
  ghost predicate LapsedOnly(d: Data, next: Data, now: int) {
    && next.permits == d.permits && next.enrollments == d.enrollments && next.used == d.used
    && next.requests.Keys == d.requests.Keys
    && forall id :: id in d.requests ==> next.requests[id] == d.requests[id]
                                         || Lapsed(d.requests[id], next.requests[id], now)
  }

  lemma ExpiryLapses(d: Data, now: int)
    ensures LapsedOnly(d, d.(requests := ExpireDue(d.requests, now)), now)
  {}

  /** An enrollment added to the data of a call has its cause, and so has its Node ID. */
  lemma EnrollsCaused(u: Setup, s: State, e: Event, next: Data, r: RequestRecord, profile: string, at: int, t: State,
      g: Grant)
    requires next.enrollments == s.data.enrollments && next.used == s.data.used
    requires Enrolls(u, s.generation, next, r, profile, at, t.data.(permits := next.permits), g)
    requires t.generation == s.generation + 1 && r.status != Approved && !(r.requestId in s.data.requests
             && s.data.requests[r.requestId].status == Approved)
    requires e.call.CallApprove? || (e.call.CallSubmit? && e.call.submission.permit.Some?)
    ensures EnrollmentsCaused(u, s, e, t, ReplyGrant(g)) && UsedCaused(s, t)
    ensures ApprovedWith(u, s, t, t.data.requests[r.requestId], g, at)
  {
    assert t.data.enrollments[g.body.enrollmentId].grant == g;
  }

  // --------------------------------------------------------------------- approval and rejection

  lemma ApproveCaused(u: Setup, s: State, e: Event)
    requires Coheres(u, s) && e.call.CallApprove?
    ensures var (t, reply) := Step(u, s, e); Caused(u, s, e, t, reply)
  {
    hide Step, Coheres, GrantRequest, Caused, Enrolls, Lapsed;
    var (t, reply) := Step(u, s, e);
    var rid := e.call.requestId;
    SameIsCaused(u, s, e, reply);
    CoheresIs(u, s);
    hide Coherent;
    ApproveShape(u, s, e);
    if t != s {
      var r := s.data.requests[rid];
      RequestNames(u, s.data, rid, s.generation);
      if reply.ReplyGrant? {
        ApproveGrants(u, s, e, t, reply.grant);
      } else {
        LapseCaused(u, s, e, rid, t, reply);
      }
    }
  }

  lemma CoheresIs(u: Setup, s: State)
    requires Coheres(u, s)
    ensures Coherent(u, s.data, s.generation) && 1 <= s.generation < U64
  {
    hide Coherent;
  }

  /** Approval leaves the state alone, closes the overdue request, or enrolls it. */
  lemma ApproveShape(u: Setup, s: State, e: Event)
    requires e.call.CallApprove? && s.generation < U64
    ensures var (t, reply) := Step(u, s, e);
            var rid, now, later := e.call.requestId, UnixMilli(e.world.clock), UnixMilli(e.world.laterClock);
            t != s ==>
              && t.generation == s.generation + 1 < U64 && rid in s.data.requests
              && s.data.requests[rid].status == Pending
              && CommandOk(e.call.commandId, rid, e.call.profile, MAX_IDENTIFIER_BYTES)
              && (if reply.ReplyGrant? then
                    now < s.data.requests[rid].expiresAt
                    && Enrolls(u, s.generation, s.data, s.data.requests[rid], e.call.profile, later, t.data,
                       reply.grant)
                  else
                    reply == ReplyError(ExpiredRequest) && rid in t.data.requests
                    && Lapsed(s.data.requests[rid], t.data.requests[rid], now)
                    && t.data == s.data.(requests := s.data.requests[rid := t.data.requests[rid]]))
  {
    var rid := e.call.requestId;
    if s.generation + 1 < U64 && rid in s.data.requests {
      GrantEnrolls(u, s.generation, s.data, s.data.requests[rid], e.call.profile, UnixMilli(e.world.laterClock),
        e.world.entropy);
    }
    hide HexId, UnixMilli, GrantRequest, Enrolls;
  }

  lemma ApproveGrants(u: Setup, s: State, e: Event, t: State, g: Grant)
    requires e.call.CallApprove? && e.call.requestId in s.data.requests && t.generation == s.generation + 1
    requires CommandOk(e.call.commandId, e.call.requestId, e.call.profile, MAX_IDENTIFIER_BYTES)
    requires var r := s.data.requests[e.call.requestId];
             && r.requestId == e.call.requestId && r.status == Pending && UnixMilli(e.world.clock) < r.expiresAt
             && Enrolls(u, s.generation, s.data, r, e.call.profile, UnixMilli(e.world.laterClock), t.data, g)
    ensures Caused(u, s, e, t, ReplyGrant(g))
  {
    var r := s.data.requests[e.call.requestId];
    EnrollsCaused(u, s, e, s.data, r, e.call.profile, UnixMilli(e.world.laterClock), t, g);
    hide PermitCause, EnrollmentsCaused, UsedCaused, UnixMilli, ApprovedWith;
  }

  /** One lapsed request. */
  lemma LapseCaused(u: Setup, s: State, e: Event, rid: string, t: State, reply: Reply)
    requires (e.call.CallApprove? || e.call.CallReject?) && e.call.requestId == rid && rid in s.data.requests
    requires CommandOk(e.call.commandId, rid, if e.call.CallApprove? then e.call.profile else e.call.reason,
                       if e.call.CallApprove? then MAX_IDENTIFIER_BYTES else MAX_LABEL_BYTES)
    requires reply == ReplyError(ExpiredRequest) && rid in t.data.requests
    requires Lapsed(s.data.requests[rid], t.data.requests[rid], UnixMilli(e.world.clock))
    requires t.data == s.data.(requests := s.data.requests[rid := t.data.requests[rid]])
    ensures Caused(u, s, e, t, reply)
  {
    hide PermitCause, EnrollmentCause, UnixMilli, ApprovedWith;
  }

  lemma RejectCaused(u: Setup, s: State, e: Event)
    requires e.call.CallReject?
    ensures var (t, reply) := Step(u, s, e); Caused(u, s, e, t, reply)
  {
    var (t, reply) := Step(u, s, e);
    SameIsCaused(u, s, e, reply);
    hide HexId, UnixMilli, PermitCause, EnrollmentCause;
  }

  lemma RevokePermitCaused(u: Setup, s: State, e: Event)
    requires e.call.CallRevokePermit?
    ensures var (t, reply) := Step(u, s, e); Caused(u, s, e, t, reply)
  {
    var (t, reply) := Step(u, s, e);
    SameIsCaused(u, s, e, reply);
    hide HexId, UnixMilli, RequestCause, EnrollmentCause;
  }

  lemma RevokeEnrollmentCaused(u: Setup, s: State, e: Event)
    requires e.call.CallRevokeEnrollment?
    ensures var (t, reply) := Step(u, s, e); Caused(u, s, e, t, reply)
  {
    var (t, reply) := Step(u, s, e);
    SameIsCaused(u, s, e, reply);
    hide HexId, UnixMilli, RequestCause, PermitCause;
  }

  /** Issuing leaves the state alone, or files one active permit that says what was asked for. */
  lemma IssueShape(u: Setup, s: State, e: Event)
    requires e.call.CallIssue? && s.generation < U64
    ensures var (t, reply) := Step(u, s, e);
            var a := e.call.args;
            t != s ==>
              && t.generation == s.generation + 1 < U64 && reply.ReplyPermit? && IssueArgsOk(u, a)
              && FindIssued(s.data.permits, e.world.permitOrder, a.issueRequestId).None?
              && var id := reply.permit.body.permitId;
                 && id !in s.data.permits && PermitFor(u, a, reply.permit, e.world.clock, t.generation)
                 && t.data == s.data.(permits := s.data.permits[id := PermitRecord(reply.permit, PermitActive,
                                                                                   a.issueRequestId, "", 0, 0, "")])
  {
    var a := e.call.args;
    var (t, reply) := Step(u, s, e);
    if t != s {
      var id := NewId(e.world.entropy, s.data.permits.Keys, ATTEMPTS).value;
      assert reply.permit == MakePermit(u, s.generation, a, id, e.world.clock);
      hide HexId, PermitOk, UnixMilli, FindIssued, NewId;
    }
  }

  lemma IssueCaused(u: Setup, s: State, e: Event)
    requires e.call.CallIssue? && Visited(s, e.world) && s.generation < U64
    ensures var (t, reply) := Step(u, s, e); Caused(u, s, e, t, reply)
  {
    hide Step, FindIssued, PermitFor, IssueArgsOk, RequestCause, EnrollmentCause;
    var (t, reply) := Step(u, s, e);
    SameIsCaused(u, s, e, reply);
    IssueShape(u, s, e);
  }

  // ------------------------------------------------------------------------------ submission

  /** A grant against a permit happens for an entitled submission only, and does this and no more. */
  ghost predicate Redeems(u: Setup, s: State, next: Data, sub: Submission, r: RequestRecord, now: int, t: State,
      g: Grant) {
    && sub.permit.Some? && t.generation == s.generation + 1 < U64
    && (var id := sub.permit.value.body.permitId;
        && id in next.permits && Entitled(u, next.permits[id], sub, now)
        && t.data.permits == next.permits[id := next.permits[id].(status := PermitConsumed, consumedBy := sub.requestId,
                                                                  consumedAt := now)])
    && Enrolls(u, s.generation, next, r.(transcript := Hex(sub.digest)), sub.permit.value.body.profile, now,
               t.data.(permits := next.permits), g)
  }

  lemma PermitRedeems(u: Setup, s: State, next: Data, sub: Submission, r: RequestRecord, now: int, w: World)
    requires sub.permit.Some? && s.generation < U64
    ensures var (t, reply) := GrantWithPermit(u, s, next, sub, r, now, w);
            (t == s && reply.Err?)
            || (reply.Ok? && reply.value.OutcomeGranted? && Redeems(u, s, next, sub, r, now, t, reply.value.grant))
  {
    var (t, reply) := GrantWithPermit(u, s, next, sub, r, now, w);
    var record := ConsumePermit(u, next, sub, u.crypto.fingerprint(sub.deviceKey), now);
    if record.Ok? && reply.Ok? {
      PermitEntitles(u, next, sub, now);
      hide ConsumePermit, Entitled, Enrolls;
      GrantEnrolls(u, s.generation, next, r.(transcript := Hex(sub.digest)), record.value.permit.body.profile, now,
        w.entropy);
      hide GrantRequest;
    }
  }

  lemma PermitEntitles(u: Setup, next: Data, sub: Submission, now: int)
    requires sub.permit.Some?
    ensures ConsumePermit(u, next, sub, u.crypto.fingerprint(sub.deviceKey), now).Ok?
            <==> var id := sub.permit.value.body.permitId;
                 id in next.permits && Entitled(u, next.permits[id], sub, now)
  {
    hide PermitOk;
  }

  /** The request a submission is answered for: its own, or the live one of the same device at the same parent. */
  ghost predicate Concerns(u: Setup, d: Data, sub: Submission, r: RequestRecord, now: int) {
    && SameDevice(r, u.crypto.fingerprint(sub.deviceKey), sub) && r.status != Approved
    && (if r.requestId in d.requests then
          && SameRequest(d.requests[r.requestId], r) && d.requests[r.requestId].status != Approved
          && (r.requestId != sub.requestId ==>
                sub.requestId !in d.requests && d.requests[r.requestId].status == Pending
                && now < d.requests[r.requestId].expiresAt)
        else r.requestId == sub.requestId && RequestFor(u, sub, r, now))
  }

  lemma RedeemCaused(u: Setup, s: State, e: Event, next: Data, r: RequestRecord, t: State, g: Grant)
    requires e.call.CallSubmit? && SubmissionOk(e.call.submission)
    requires var sub, now := e.call.submission, UnixMilli(e.world.clock);
             && LapsedOnly(s.data, next, now) && Concerns(u, s.data, sub, r, now)
             && Redeems(u, s, next, sub, r, now, t, g)
    ensures Caused(u, s, e, t, ReplyGrant(g))
  {
    var sub, now := e.call.submission, UnixMilli(e.world.clock);
    var asked := r.(transcript := Hex(sub.digest));
    EnrollsCaused(u, s, e, next, asked, sub.permit.value.body.profile, now, t, g);
    assert PermitsCaused(u, s, e, t, ReplyGrant(g)) by {
      assert Recorded(t.data, g);
      hide Entitled, RequestsCaused, EnrollmentsCaused, ApprovedWith, SameDevice, SameRequest, RequestFor, UnixMilli;
    }
    assert RequestsCaused(u, s, e, t, ReplyGrant(g)) by {
      hide Entitled, PermitCause, EnrollmentsCaused, ApprovedWith, UnixMilli;
    }
    hide PermitsCaused, RequestsCaused, EnrollmentsCaused, UsedCaused;
  }

  lemma LapsesCaused(u: Setup, s: State, e: Event, t: State, reply: Reply)
    requires e.call.CallSubmit? && SubmissionOk(e.call.submission)
             && LapsedOnly(s.data, t.data, UnixMilli(e.world.clock))
    ensures Caused(u, s, e, t, reply)
  {
    hide PermitCause, EnrollmentCause, UnixMilli, Lapsed, ApprovedWith, RequestFor, SameRequest;
  }

  lemma AddCaused(u: Setup, s: State, e: Event, next: Data, t: State)
    requires e.call.CallSubmit? && SubmissionOk(e.call.submission) && e.call.submission.permit.None?
    requires var sub, now := e.call.submission, UnixMilli(e.world.clock);
             && LapsedOnly(s.data, next, now) && sub.requestId !in next.requests
             && t.data == next.(requests := next.requests[sub.requestId := NewRequest(u, sub, now)])
    ensures Caused(u, s, e, t, ReplyDone)
  {
    hide PermitCause, EnrollmentCause, Lapsed, ApprovedWith, SameRequest;
  }

  /** A request that has not lapsed is as it was. */
  lemma OldRequestConcerns(u: Setup, s: State, sub: Submission, now: int, id: string)
    requires Keyed(s.data) && id in s.data.requests
    requires var r := ExpireDue(s.data.requests, now)[id];
             && SameDevice(r, u.crypto.fingerprint(sub.deviceKey), sub) && r.status != Approved
             && (id != sub.requestId ==> sub.requestId !in s.data.requests && r.status == Pending)
    ensures Concerns(u, s.data, sub, ExpireDue(s.data.requests, now)[id], now)
  {}

  lemma NewRequestConcerns(u: Setup, s: State, sub: Submission, now: int)
    requires sub.requestId !in s.data.requests
    ensures Concerns(u, s.data, sub, NewRequest(u, sub, now), now)
  {}

  lemma RedeemStep(u: Setup, s: State, e: Event, next: Data, r: RequestRecord)
    requires e.call.CallSubmit? && SubmissionOk(e.call.submission) && e.call.submission.permit.Some?
             && s.generation < U64
    requires var sub, now := e.call.submission, UnixMilli(e.world.clock);
             LapsedOnly(s.data, next, now) && Concerns(u, s.data, sub, r, now)
    ensures var (t, a) := GrantWithPermit(u, s, next, e.call.submission, r, UnixMilli(e.world.clock), e.world);
            Caused(u, s, e, t, SubmitReply(a))
  {
    hide GrantWithPermit, Caused, LapsedOnly, Concerns, Redeems, UnixMilli;
    var sub, now := e.call.submission, UnixMilli(e.world.clock);
    PermitRedeems(u, s, next, sub, r, now, e.world);
    var (t, a) := GrantWithPermit(u, s, next, sub, r, now, e.world);
    if a.Ok? { RedeemCaused(u, s, e, next, r, t, a.value.grant); } else { SameIsCaused(u, s, e, SubmitReply(a)); }
  }

  lemma AnswerStep(u: Setup, s: State, e: Event, next: Data, existing: RequestRecord, changed: bool)
    requires e.call.CallSubmit? && SubmissionOk(e.call.submission) && LapsedOnly(s.data, next, UnixMilli(e.world.clock))
    ensures var (t, a) := AnswerExisting(s, next, existing, changed, e.world); Caused(u, s, e, t, SubmitReply(a))
  {
    hide Caused, LapsedOnly, OutcomeFor, UnixMilli;
    var (t, a) := AnswerExisting(s, next, existing, changed, e.world);
    if t == s { SameIsCaused(u, s, e, SubmitReply(a)); } else { LapsesCaused(u, s, e, t, SubmitReply(a)); }
  }

  lemma NewStep(u: Setup, s: State, e: Event, next: Data)
    requires e.call.CallSubmit? && SubmissionOk(e.call.submission) && s.generation < U64
             && e.call.submission.requestId !in s.data.requests
    requires LapsedOnly(s.data, next, UnixMilli(e.world.clock))
    ensures var (t, a) := SubmitNew(u, s, next, e.call.submission, UnixMilli(e.world.clock), e.world);
            Caused(u, s, e, t, SubmitReply(a))
  {
    var sub, now := e.call.submission, UnixMilli(e.world.clock);
    assert sub.requestId !in next.requests;
    hide Caused, LapsedOnly, GrantWithPermit, NewRequest, UnixMilli, PendingIds, PendingIdsFor, Concerns;
    var (t, a) := SubmitNew(u, s, next, sub, now, e.world);
    SameIsCaused(u, s, e, SubmitReply(a));
    if sub.permit.Some? {
      NewRequestConcerns(u, s, sub, now);
      RedeemStep(u, s, e, next, NewRequest(u, sub, now));
    } else if t != s {
      AddCaused(u, s, e, next, t);
    }
  }

  lemma SubmitCaused(u: Setup, s: State, e: Event)
    requires Coheres(u, s) && e.call.CallSubmit?
    ensures var (t, reply) := Step(u, s, e); Caused(u, s, e, t, reply)
  {
    CoheresIs(u, s);
    var sub, now := e.call.submission, UnixMilli(e.world.clock);
    var (t, a) := Submit(u, s, sub, e.world);
    SameIsCaused(u, s, e, SubmitReply(a));
    ExpiryLapses(s.data, now);
    var next := s.data.(requests := ExpireDue(s.data.requests, now));
    var changed := AnyDue(s.data.requests, now);
    var fingerprint := u.crypto.fingerprint(sub.deviceKey);
    assert Keyed(s.data);
    hide Coheres, Coherent, Caused, LapsedOnly, GrantWithPermit, AnswerExisting, SubmitNew, SubmissionOk, Keyed, AnyDue,
      UnixMilli, Concerns, SameDevice;
    if !SubmissionOk(sub) {
    } else if sub.requestId in next.requests {
      var existing := next.requests[sub.requestId];
      if SameDevice(existing, fingerprint, sub) && sub.permit.Some? && existing.status != Approved {
        OldRequestConcerns(u, s, sub, now, sub.requestId);
        RedeemStep(u, s, e, next, existing);
      }
      AnswerStep(u, s, e, next, existing, changed);
    } else {
      match FindLive(next.requests, e.world.requestOrder, fingerprint, sub)
      case Some(id) =>
        var existing := next.requests[id];
        if sub.permit.Some? && existing.status == Pending {
          OldRequestConcerns(u, s, sub, now, id);
          RedeemStep(u, s, e, next, existing);
        }
        AnswerStep(u, s, e, next, existing, changed);
      case None => NewStep(u, s, e, next);
    }
  }

  /** Every change a call makes to the records has its cause in that call. */
  lemma EveryChangeHasItsCause(u: Setup, s: State, e: Event)
    requires Coheres(u, s) && Visited(s, e.world)
    ensures var (t, reply) := Step(u, s, e); Caused(u, s, e, t, reply)
  {
    hide Step, Caused, Visited, Coherent;
    match e.call
    case CallIssue(_) => IssueCaused(u, s, e);
    case CallSubmit(_) => SubmitCaused(u, s, e);
    case CallApprove(_, _, _) => ApproveCaused(u, s, e);
    case CallReject(_, _, _) => RejectCaused(u, s, e);
    case CallRevokePermit(_, _, _) => RevokePermitCaused(u, s, e);
    case CallRevokeEnrollment(_, _, _) => RevokeEnrollmentCaused(u, s, e);
  }

  // ------------------------------------------------------------------------------------ runs

  lemma RunCaused(u: Setup, states: seq<State>, events: seq<Event>, i: nat)
    requires u.node != 0 && ConfigOk(u.config) && IsRun(u, states, events) && i < |events|
    ensures |states| == |events| + 1
    ensures Caused(u, states[i], events[i], states[i + 1], Step(u, states[i], events[i]).1)
  {
    hide ConfigOk, Coheres, Step, Caused, Fresh;
    RunCoheres(u, states, events, i);
    EveryChangeHasItsCause(u, states[i], events[i]);
  }

  /** Step `i` made the permit what it is in state `j`. */
  ghost predicate PermitMadeAt(u: Setup, states: seq<State>, events: seq<Event>, i: nat, j: nat, id: string) {
    && i < j < |states| && i < |events| && id in states[i + 1].data.permits && id in states[j].data.permits
    && states[i + 1].data.permits[id] == states[j].data.permits[id]
    && PermitCause(u, states[i], events[i], states[i + 1], Step(u, states[i], events[i]).1, id)
  }

  ghost predicate RequestMadeAt(u: Setup, states: seq<State>, events: seq<Event>, i: nat, j: nat, id: string) {
    && i < j < |states| && i < |events| && id in states[i + 1].data.requests && id in states[j].data.requests
    && states[i + 1].data.requests[id] == states[j].data.requests[id]
    && RequestCause(u, states[i], events[i], states[i + 1], Step(u, states[i], events[i]).1, id)
  }

  ghost predicate EnrollmentMadeAt(u: Setup, states: seq<State>, events: seq<Event>, i: nat, j: nat, id: string) {
    && i < j < |states| && i < |events| && id in states[i + 1].data.enrollments && id in states[j].data.enrollments
    && states[i + 1].data.enrollments[id] == states[j].data.enrollments[id]
    && EnrollmentCause(u, states[i], events[i], states[i + 1], Step(u, states[i], events[i]).1, id)
  }

  /** Every permit there is was commanded as it reads, and became what it is by a call that was entitled to it. */
  lemma {:induction false} EveryPermitHasItsCause(u: Setup, states: seq<State>, events: seq<Event>, j: nat, id: string)
    requires u.node != 0 && ConfigOk(u.config) && IsRun(u, states, events) && j < |states|
    requires id in states[j].data.permits
    ensures exists i: nat :: PermitMadeAt(u, states, events, i, j, id)
  {
    assert j > 0 by { StartsEmpty(u, states, events); }
    RunCaused(u, states, events, j - 1);
    hide ConfigOk, IsRun, Step, PermitCause, RequestsCaused, EnrollmentsCaused, UsedCaused;
    var s, t := states[j - 1], states[j];
    if id in s.data.permits && t.data.permits[id] == s.data.permits[id] {
      EveryPermitHasItsCause(u, states, events, j - 1, id);
      var i: nat :| PermitMadeAt(u, states, events, i, j - 1, id);
      assert PermitMadeAt(u, states, events, i, j, id);
    } else {
      assert PermitMadeAt(u, states, events, j - 1, j, id);
    }
  }

  /** Every request there is was submitted as it reads, and became what it is by a call that was entitled to it. */
  lemma {:induction false} EveryRequestHasItsCause(u: Setup, states: seq<State>, events: seq<Event>, j: nat, id: string)
    requires u.node != 0 && ConfigOk(u.config) && IsRun(u, states, events) && j < |states|
    requires id in states[j].data.requests
    ensures exists i: nat :: RequestMadeAt(u, states, events, i, j, id)
  {
    assert j > 0 by { StartsEmpty(u, states, events); }
    RunCaused(u, states, events, j - 1);
    hide ConfigOk, IsRun, Step, RequestCause, PermitsCaused, EnrollmentsCaused, UsedCaused;
    var s, t := states[j - 1], states[j];
    if id in s.data.requests && t.data.requests[id] == s.data.requests[id] {
      EveryRequestHasItsCause(u, states, events, j - 1, id);
      var i: nat :| RequestMadeAt(u, states, events, i, j - 1, id);
      assert RequestMadeAt(u, states, events, i, j, id);
    } else {
      assert RequestMadeAt(u, states, events, j - 1, j, id);
    }
  }

  /** Every enrollment there is was decided for its request, and is revoked only by name. */
  lemma {:induction false} EveryEnrollmentHasItsCause(u: Setup, states: seq<State>, events: seq<Event>, j: nat,
      id: string)
    requires u.node != 0 && ConfigOk(u.config) && IsRun(u, states, events) && j < |states|
    requires id in states[j].data.enrollments
    ensures exists i: nat :: EnrollmentMadeAt(u, states, events, i, j, id)
  {
    assert j > 0 by { StartsEmpty(u, states, events); }
    RunCaused(u, states, events, j - 1);
    hide ConfigOk, IsRun, Step, EnrollmentCause, PermitsCaused, RequestsCaused, UsedCaused;
    var s, t := states[j - 1], states[j];
    if id in s.data.enrollments && t.data.enrollments[id] == s.data.enrollments[id] {
      EveryEnrollmentHasItsCause(u, states, events, j - 1, id);
      var i: nat :| EnrollmentMadeAt(u, states, events, i, j - 1, id);
      assert EnrollmentMadeAt(u, states, events, i, j, id);
    } else {
      assert EnrollmentMadeAt(u, states, events, j - 1, j, id);
    }
  }

  lemma StartsEmpty(u: Setup, states: seq<State>, events: seq<Event>)
    requires IsRun(u, states, events)
    ensures |states| == |events| + 1 && states[0].data.permits == map[] && states[0].data.requests == map[]
    ensures states[0].data.enrollments == map[]
  {}

  /** The submission of step `i` used up the permit. */
  ghost predicate UsedUpAt(u: Setup, states: seq<State>, events: seq<Event>, i: nat, j: nat, id: string) {
    && i < j < |states| && i < |events| && events[i].call.CallSubmit?
    && id in states[i].data.permits && id in states[j].data.permits
    && var sub, now := events[i].call.submission, UnixMilli(events[i].world.clock);
       && Entitled(u, states[i].data.permits[id], sub, now) && Step(u, states[i], events[i]).1.ReplyGrant?
       && states[j].data.permits[id] == states[i].data.permits[id].(status := PermitConsumed,
                                                                    consumedBy := sub.requestId, consumedAt := now)
       && Step(u, states[i], events[i]).1.grant.body.profile == states[j].data.permits[id].permit.body.profile
  }

  /**
   * In every run a consumed permit was used up by a submission that carried that very permit, by the device it names,
   * in its time, at a parent it is bound to; that submission was granted the profile of the permit.
   */
  lemma PermitIsUsedUpByItsHolder(u: Setup, states: seq<State>, events: seq<Event>, j: nat, id: string)
    requires u.node != 0 && ConfigOk(u.config) && IsRun(u, states, events) && j < |states|
    requires id in states[j].data.permits && states[j].data.permits[id].status == PermitConsumed
    ensures exists i: nat :: UsedUpAt(u, states, events, i, j, id)
  {
    hide ConfigOk, IsRun, Step, Entitled, PermitFor;
    EveryPermitHasItsCause(u, states, events, j, id);
    var i: nat :| PermitMadeAt(u, states, events, i, j, id);
    assert UsedUpAt(u, states, events, i, j, id);
  }

  /** Who a record is about: keys have their size and the fingerprint is that of the device key. */
  ghost predicate Identified(u: Setup, d: Data) {
    && (forall id :: id in d.requests ==>
          var r := d.requests[id];
          && |r.deviceKey| == 32 && |r.parentKey| == 32 && r.parentNode != 0
          && r.fingerprint == u.crypto.fingerprint(r.deviceKey))
    && (forall id :: id in d.enrollments ==>
          d.enrollments[id].fingerprint == u.crypto.fingerprint(d.enrollments[id].grant.body.deviceKey))
  }

  lemma RequestStaysIdentified(u: Setup, s: State, e: Event, t: State, reply: Reply, id: string)
    requires Identified(u, s.data) && id in t.data.requests && RequestCause(u, s, e, t, reply, id)
    ensures var r := t.data.requests[id];
            && |r.deviceKey| == 32 && |r.parentKey| == 32 && r.parentNode != 0
            && r.fingerprint == u.crypto.fingerprint(r.deviceKey)
  {
    hide HexId, UnixMilli;
  }

  lemma CausedStaysIdentified(u: Setup, s: State, e: Event, t: State, reply: Reply)
    requires Identified(u, s.data) && Caused(u, s, e, t, reply)
    ensures Identified(u, t.data)
  {
    hide PermitsCaused, RequestCause, UnixMilli;
    forall id | id in t.data.requests && RequestCause(u, s, e, t, reply, id) {
      RequestStaysIdentified(u, s, e, t, reply, id);
    }
  }

  /** In every run keys and fingerprints belong together. */
  lemma {:induction false} RunIdentified(u: Setup, states: seq<State>, events: seq<Event>, j: nat)
    requires u.node != 0 && ConfigOk(u.config) && IsRun(u, states, events) && j < |states|
    ensures Identified(u, states[j].data)
  {
    StartsEmpty(u, states, events);
    hide ConfigOk, IsRun, Step, Caused;
    if j > 0 {
      RunIdentified(u, states, events, j - 1);
      RunCaused(u, states, events, j - 1);
      CausedStaysIdentified(u, states[j - 1], events[j - 1], states[j], Step(u, states[j - 1], events[j - 1]).1);
    }
  }
}
