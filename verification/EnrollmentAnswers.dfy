/**
 * What the answers of the enrollment authority mean, and exactly when each of its commands succeeds: in terms of the
 * records, the clock, the random bytes and the save, not of the functions that compute the answer.
 */
module EnrollmentAnswers {
  import opened Basics
  import opened Enrollment
  import opened EnrollmentCoherence
  import opened EnrollmentHistory
  import opened EnrollmentCauses

  predicate Saves(s: State, w: World) { w.saveOk && s.generation < U64 - 1 }

  // ---------------------------------------------------------------------- random draws

  /** The `i`th eight bytes spell a Node ID that is not zero and not used. */
  predicate FreeNode(entropy: seq<byte>, used: set<NodeId>, i: nat) {
    && 8 * i + 8 <= |entropy|
    && var n := FromBytes(entropy[8 * i..8 * i + 8]) % NODE_ID_MASK;
       n != 0 && n !in used
  }

  /** The `i`th sixteen bytes spell an identifier that is not all zeros and not taken. */
  predicate FreeId(entropy: seq<byte>, taken: set<string>, i: nat) {
    && 16 * i + 16 <= |entropy|
    && var id := Hex(entropy[16 * i..16 * i + 16]);
       !AllZeros(id) && id !in taken
  }

  /** The first free Node ID among the attempts. */
  ghost predicate FirstNode(entropy: seq<byte>, used: set<NodeId>, attempts: nat, i: nat) {
    i < attempts && FreeNode(entropy, used, i) && forall k: nat :: k < i ==> !FreeNode(entropy, used, k)
  }

  ghost predicate FirstId(entropy: seq<byte>, taken: set<string>, attempts: nat, i: nat) {
    i < attempts && FreeId(entropy, taken, i) && forall k: nat :: k < i ==> !FreeId(entropy, taken, k)
  }

  lemma LaterNode(entropy: seq<byte>, used: set<NodeId>, i: nat)
    requires |entropy| >= 8
    ensures FreeNode(entropy, used, i + 1) <==> FreeNode(entropy[8..], used, i)
  {
    if 8 * i + 16 <= |entropy| {
      SliceLater(entropy, 8, 8 * i, 8 * i + 8);
    }
  }

  lemma LaterId(entropy: seq<byte>, taken: set<string>, i: nat)
    requires |entropy| >= 16
    ensures FreeId(entropy, taken, i + 1) <==> FreeId(entropy[16..], taken, i)
  {
    if 16 * i + 32 <= |entropy| {
      SliceLater(entropy, 16, 16 * i, 16 * i + 16);
    }
  }

  /** Drawing a Node ID gives the first free one among the attempts and what is left of the bytes, or fails. */
  lemma {:induction false} NodeDrawIsFirstFree(entropy: seq<byte>, used: set<NodeId>, attempts: nat)
    ensures AllocateNodeId(entropy, used, attempts).Some? <==> exists i: nat :: FirstNode(entropy, used, attempts, i)
    ensures forall i: nat :: FirstNode(entropy, used, attempts, i) ==>
              AllocateNodeId(entropy, used, attempts)
              == Some((FromBytes(entropy[8 * i..8 * i + 8]) % NODE_ID_MASK, entropy[8 * i + 8..]))
    decreases attempts
  {
    if attempts == 0 || |entropy| < 8 {
      return;
    }
    assert entropy[..8] == entropy[0..8];
    if FreeNode(entropy, used, 0) {
      assert FirstNode(entropy, used, attempts, 0);
      return;
    }
    var rest := entropy[8..];
    NodeDrawIsFirstFree(rest, used, attempts - 1);
    assert AllocateNodeId(entropy, used, attempts) == AllocateNodeId(rest, used, attempts - 1);
    hide FreeNode, AllocateNodeId, FirstNode, FromBytes;
    if AllocateNodeId(rest, used, attempts - 1).Some? {
      var i: nat :| FirstNode(rest, used, attempts - 1, i);
      ShiftNode(entropy, used, attempts, i);
    }
    forall i: nat | FirstNode(entropy, used, attempts, i)
      ensures AllocateNodeId(entropy, used, attempts)
              == Some((FromBytes(entropy[8 * i..8 * i + 8]) % NODE_ID_MASK, entropy[8 * i + 8..]))
    {
      FirstIsFree(entropy, used, attempts, i);
      NodeFits(entropy, used, i);
      ShiftNode(entropy, used, attempts, i - 1);
      SliceLater(entropy, 8, 8 * (i - 1), 8 * (i - 1) + 8);
    }
  }

  lemma SliceLater(bytes: seq<byte>, n: nat, lo: nat, hi: nat)
    requires n <= |bytes| && lo <= hi <= |bytes| - n
    ensures bytes[n..][lo..hi] == bytes[n + lo..n + hi] && bytes[n..][hi..] == bytes[n + hi..]
  {}

  lemma FirstIsFree(entropy: seq<byte>, used: set<NodeId>, attempts: nat, i: nat)
    requires FirstNode(entropy, used, attempts, i)
    ensures FreeNode(entropy, used, i)
  {}

  lemma NodeFits(entropy: seq<byte>, used: set<NodeId>, i: nat)
    requires FreeNode(entropy, used, i)
    ensures 8 * i + 8 <= |entropy|
  {}

  lemma ShiftNode(entropy: seq<byte>, used: set<NodeId>, attempts: nat, i: nat)
    requires |entropy| >= 8 && attempts > 0 && !FreeNode(entropy, used, 0)
    ensures FirstNode(entropy, used, attempts, i + 1) <==> FirstNode(entropy[8..], used, attempts - 1, i)
  {
    forall k: nat | true
      ensures FreeNode(entropy, used, k + 1) <==> FreeNode(entropy[8..], used, k)
    {
      LaterNode(entropy, used, k);
    }
    hide FreeNode;
    if FirstNode(entropy[8..], used, attempts - 1, i) {
      forall k: nat | k < i + 1 ensures !FreeNode(entropy, used, k) {
        if k > 0 { assert !FreeNode(entropy[8..], used, k - 1); }
      }
    }
  }

  /** Drawing an identifier gives the first free one among the attempts, or fails. */
  lemma {:induction false} IdDrawIsFirstFree(entropy: seq<byte>, taken: set<string>, attempts: nat)
    ensures NewId(entropy, taken, attempts).Some? <==> exists i: nat :: FirstId(entropy, taken, attempts, i)
    ensures forall i: nat :: FirstId(entropy, taken, attempts, i) ==>
              NewId(entropy, taken, attempts) == Some(Hex(entropy[16 * i..16 * i + 16]))
    decreases attempts
  {
    if attempts == 0 || |entropy| < 16 {
      return;
    }
    assert entropy[..16] == entropy[0..16];
    if FreeId(entropy, taken, 0) {
      assert FirstId(entropy, taken, attempts, 0);
      return;
    }
    var rest := entropy[16..];
    IdDrawIsFirstFree(rest, taken, attempts - 1);
    assert NewId(entropy, taken, attempts) == NewId(rest, taken, attempts - 1);
    hide FreeId, NewId, Hex, FirstId;
    if NewId(rest, taken, attempts - 1).Some? {
      var i: nat :| FirstId(rest, taken, attempts - 1, i);
      ShiftId(entropy, taken, attempts, i);
    }
    forall i: nat | FirstId(entropy, taken, attempts, i)
      ensures NewId(entropy, taken, attempts) == Some(Hex(entropy[16 * i..16 * i + 16]))
    {
      FirstIdIsFree(entropy, taken, attempts, i);
      IdFits(entropy, taken, i);
      ShiftId(entropy, taken, attempts, i - 1);
      SliceLater(entropy, 16, 16 * (i - 1), 16 * (i - 1) + 16);
    }
  }

  lemma FirstIdIsFree(entropy: seq<byte>, taken: set<string>, attempts: nat, i: nat)
    requires FirstId(entropy, taken, attempts, i)
    ensures FreeId(entropy, taken, i)
  {}

  lemma IdFits(entropy: seq<byte>, taken: set<string>, i: nat)
    requires FreeId(entropy, taken, i)
    ensures 16 * i + 16 <= |entropy|
  {}

  lemma ShiftId(entropy: seq<byte>, taken: set<string>, attempts: nat, i: nat)
    requires |entropy| >= 16 && attempts > 0 && !FreeId(entropy, taken, 0)
    ensures FirstId(entropy, taken, attempts, i + 1) <==> FirstId(entropy[16..], taken, attempts - 1, i)
  {
    forall k: nat | true
      ensures FreeId(entropy, taken, k + 1) <==> FreeId(entropy[16..], taken, k)
    {
      LaterId(entropy, taken, k);
    }
    hide FreeId;
    if FirstId(entropy[16..], taken, attempts - 1, i) {
      forall k: nat | k < i + 1 ensures !FreeId(entropy, taken, k) {
        if k > 0 { assert !FreeId(entropy[16..], taken, k - 1); }
      }
    }
  }

  // ------------------------------------------------------------------------ enrolling

  /** The random bytes hold a free identifier. */
  ghost predicate CanDrawId(entropy: seq<byte>, taken: set<string>) {
    exists k: nat :: FirstId(entropy, taken, ATTEMPTS, k)
  }

  /** The random bytes hold a free Node ID and, behind the first one, a free enrollment ID. */
  ghost predicate CanDraw(entropy: seq<byte>, used: set<NodeId>, taken: set<string>) {
    exists i: nat :: FirstNode(entropy, used, ATTEMPTS, i) && 8 * i + 8 <= |entropy|
                     && CanDrawId(entropy[8 * i + 8..], taken)
  }

  /** There is room for one more enrollment under the profile at that time, and the random bytes for it. */
  ghost predicate CanEnroll(u: Setup, d: Data, profile: string, at: int, entropy: seq<byte>) {
    && |d.enrollments| < u.config.maxEnrollments && TextOk(u.crypto, profile, MAX_IDENTIFIER_BYTES) && at > 0
    && CanDraw(entropy, d.used, d.enrollments.Keys)
  }

  /** Who asks is known: keys have their size. */
  predicate WellKeyed(r: RequestRecord) { |r.deviceKey| == 32 && |r.parentKey| == 32 && r.parentNode != 0 }

  lemma DrawsExactly(entropy: seq<byte>, used: set<NodeId>, taken: set<string>)
    ensures CanDraw(entropy, used, taken)
            <==> AllocateNodeId(entropy, used, ATTEMPTS).Some?
                 && NewId(AllocateNodeId(entropy, used, ATTEMPTS).value.1, taken, ATTEMPTS).Some?
  {
    hide AllocateNodeId, NewId, FirstNode, FirstId;
    NodeDrawIsFirstFree(entropy, used, ATTEMPTS);
    if AllocateNodeId(entropy, used, ATTEMPTS).Some? {
      var i: nat :| FirstNode(entropy, used, ATTEMPTS, i);
      NodeFits(entropy, used, i) by { FirstIsFree(entropy, used, ATTEMPTS, i); }
      var rest := entropy[8 * i + 8..];
      IdDrawIsFirstFree(rest, taken, ATTEMPTS);
      forall k: nat | FirstNode(entropy, used, ATTEMPTS, k) ensures k == i { OneFirstNode(entropy, used, i, k); }
    }
  }

  lemma OneFirstNode(entropy: seq<byte>, used: set<NodeId>, i: nat, k: nat)
    requires FirstNode(entropy, used, ATTEMPTS, i) && FirstNode(entropy, used, ATTEMPTS, k)
    ensures i == k
  {
    hide FreeNode;
  }

  lemma GrantsExactly(u: Setup, generation: nat, d: Data, r: RequestRecord, profile: string, at: int,
      entropy: seq<byte>)
    requires u.node != 0 && SoundCrypto(u.crypto) && WellKeyed(r) && generation + 1 < U64
    ensures GrantRequest(u, generation, d, r, profile, at, entropy).Ok? <==> CanEnroll(u, d, profile, at, entropy)
  {
    DrawsExactly(entropy, d.used, d.enrollments.Keys);
    var drawn := AllocateNodeId(entropy, d.used, ATTEMPTS);
    if drawn.Some? {
      var (node, rest) := drawn.value;
      var id := NewId(rest, d.enrollments.Keys, ATTEMPTS);
      if id.Some? {
        GrantIsWellFormed(u, generation, r, profile, node, id.value, at);
      }
    }
    hide CanDraw, AllocateNodeId, NewId, GrantOk, MakeGrant, AddEnrollment, SoundCrypto, TextOk;
  }

  lemma GrantIsWellFormed(u: Setup, generation: nat, r: RequestRecord, profile: string, node: NodeId, id: string,
      at: int)
    requires u.node != 0 && SoundCrypto(u.crypto) && WellKeyed(r) && generation + 1 < U64 && node != 0 && HexId(id, 16)
    ensures GrantOk(u.crypto, MakeGrant(u, generation, r, profile, node, id, at))
            <==> TextOk(u.crypto, profile, MAX_IDENTIFIER_BYTES) && at > 0
  {
    hide HexId, TextOk;
  }

  // ------------------------------------------------------------------------- commands

  /**
   * Approval answers a grant exactly for a waiting request that has not run out and can be enrolled and saved, or for
   * one whose enrollment stands; and then that request is approved with that grant.
   */
  lemma ApproveAnswers(u: Setup, s: State, commandId: string, rid: string, profile: string, w: World)
    requires u.node != 0 && SoundCrypto(u.crypto) && Coheres(u, s) && Identified(u, s.data)
    ensures var (t, reply) := Step(u, s, Event(CallApprove(commandId, rid, profile), w));
            && (reply.ReplyGrant?
                <==> && CommandOk(commandId, rid, profile, MAX_IDENTIFIER_BYTES) && rid in s.data.requests
                     && var r := s.data.requests[rid];
                        || (r.status == Approved && s.data.enrollments[r.enrollmentId].status == EnrollmentActive)
                        || (r.status == Pending && UnixMilli(w.clock) < r.expiresAt && Saves(s, w)
                            && CanEnroll(u, s.data, profile, UnixMilli(w.laterClock), w.entropy)))
            && (reply.ReplyGrant? ==> rid in t.data.requests && t.data.requests[rid].status == Approved
                                      && t.data.requests[rid].enrollmentId == reply.grant.body.enrollmentId)
  {
    hide Step, HexId, UnixMilli, CanEnroll, GrantRequest, SoundCrypto, Coherent, Enrolled;
    ApproveCall(u, s, commandId, rid, profile, w);
    if rid in s.data.requests {
      ApprovedStands(u, s, rid);
      RequestIsKeyed(u, s, rid);
      hide Coheres, Identified;
      if s.data.requests[rid].status == Pending { ApprovePending(u, s, commandId, rid, profile, w); }
    }
    hide UnixMilli;
  }

  lemma ApproveCall(u: Setup, s: State, commandId: string, rid: string, profile: string, w: World)
    ensures var (t, a) := Approve(u, s, commandId, rid, profile, w);
            Step(u, s, Event(CallApprove(commandId, rid, profile), w))
            == (t, if a.Ok? then ReplyGrant(a.value) else ReplyError(a.error))
  {
    hide Approve;
  }

  lemma RequestIsKeyed(u: Setup, s: State, rid: string)
    requires Coheres(u, s) && Identified(u, s.data) && rid in s.data.requests
    ensures s.data.requests[rid].requestId == rid && WellKeyed(s.data.requests[rid])
  {}

  lemma ApprovePending(u: Setup, s: State, commandId: string, rid: string, profile: string, w: World)
    requires u.node != 0 && SoundCrypto(u.crypto) && s.generation < U64 && rid in s.data.requests
    requires var r := s.data.requests[rid]; r.status == Pending && r.requestId == rid && WellKeyed(r)
    ensures var (t, a) := Approve(u, s, commandId, rid, profile, w);
            && (a.Ok? <==> && CommandOk(commandId, rid, profile, MAX_IDENTIFIER_BYTES)
                           && UnixMilli(w.clock) < s.data.requests[rid].expiresAt && Saves(s, w)
                           && CanEnroll(u, s.data, profile, UnixMilli(w.laterClock), w.entropy))
            && (a.Ok? ==> rid in t.data.requests && t.data.requests[rid].status == Approved
                          && t.data.requests[rid].enrollmentId == a.value.body.enrollmentId)
  {
    hide HexId, UnixMilli, CanEnroll, GrantRequest, SoundCrypto, WellKeyed;
    if s.generation + 1 < U64 {
      var r, later := s.data.requests[rid], UnixMilli(w.laterClock);
      GrantsExactly(u, s.generation, s.data, r, profile, later, w.entropy);
      GrantNames(u, s.generation, s.data, r, profile, later, w.entropy);
    }
  }

  /** The enrollment of an approved request carries the identifier the request names. */
  lemma ApprovedStands(u: Setup, s: State, rid: string)
    requires Coheres(u, s) && rid in s.data.requests
    ensures var r := s.data.requests[rid];
            r.status == Approved ==>
              && r.enrollmentId in s.data.enrollments
              && s.data.enrollments[r.enrollmentId].grant.body.enrollmentId == r.enrollmentId
              && s.data.enrollments[r.enrollmentId].requestId == rid
  {
    assert RequestLinked(s.data.enrollments, rid, s.data.requests[rid]);
  }

  lemma GrantNames(u: Setup, generation: nat, d: Data, r: RequestRecord, profile: string, at: int, entropy: seq<byte>)
    requires generation + 1 < U64
    ensures var g := GrantRequest(u, generation, d, r, profile, at, entropy);
            g.Ok? ==> && r.requestId in g.value.0.requests && g.value.0.requests[r.requestId].status == Approved
                      && g.value.0.requests[r.requestId].enrollmentId == g.value.1.body.enrollmentId
  {
    GrantEnrolls(u, generation, d, r, profile, at, entropy);
    hide GrantRequest, GrantFor;
  }

  /** Rejection succeeds exactly for a rejected request, or for a waiting one that has not run out and can be saved. */
  lemma RejectAnswers(u: Setup, s: State, commandId: string, rid: string, reason: string, w: World)
    requires s.generation < U64
    ensures var (t, reply) := Step(u, s, Event(CallReject(commandId, rid, reason), w));
            && (reply == ReplyDone
                <==> && CommandOk(commandId, rid, reason, MAX_LABEL_BYTES) && rid in s.data.requests
                     && var r := s.data.requests[rid];
                        r.status == Rejected
                        || (r.status == Pending && UnixMilli(w.clock) < r.expiresAt && Saves(s, w)))
            && (reply == ReplyDone ==> rid in t.data.requests && t.data.requests[rid].status == Rejected)
  {
    hide HexId, UnixMilli;
  }

  /** Revoking a permit succeeds exactly for a revoked permit, or for one that is not consumed and can be saved. */
  lemma RevokePermitAnswers(u: Setup, s: State, commandId: string, id: string, reason: string, w: World)
    requires s.generation < U64
    ensures var (t, reply) := Step(u, s, Event(CallRevokePermit(commandId, id, reason), w));
            && (reply == ReplyDone
                <==> && CommandOk(commandId, id, reason, MAX_LABEL_BYTES) && id in s.data.permits
                     && var r := s.data.permits[id];
                        r.status == PermitRevoked || (r.status != PermitConsumed && Saves(s, w)))
            && (reply == ReplyDone ==> id in t.data.permits && t.data.permits[id].status == PermitRevoked)
  {
    hide HexId, UnixMilli;
  }

  /** Revoking an enrollment succeeds exactly for a revoked one, or for one that can be saved. */
  lemma RevokeEnrollmentAnswers(u: Setup, s: State, commandId: string, id: string, reason: string, w: World)
    requires s.generation < U64
    ensures var (t, reply) := Step(u, s, Event(CallRevokeEnrollment(commandId, id, reason), w));
            && (reply == ReplyDone
                <==> && CommandOk(commandId, id, reason, MAX_LABEL_BYTES) && id in s.data.enrollments
                     && (s.data.enrollments[id].status == EnrollmentRevoked || Saves(s, w)))
            && (reply == ReplyDone ==>
                  id in t.data.enrollments && t.data.enrollments[id].status == EnrollmentRevoked)
  {
    hide HexId, UnixMilli;
  }

  // -------------------------------------------------------------------------- issuing

  /** The permit is what the command asks for. */
  predicate Asked(a: IssueArgs, p: Permit) {
    p.body.fingerprint == a.fingerprint && p.body.target == a.target && p.body.allowDescendants == a.allowDescendants
      && p.body.profile == a.profile
  }

  /**
   * Issuing answers a permit exactly when the command was carried out before with the same wishes, or was not and there
   * is room, a free identifier, a clock after 1970 and a save for it; and then the permit is what was asked for.
   */
  lemma IssueAnswers(u: Setup, s: State, a: IssueArgs, w: World)
    requires u.node != 0 && SoundCrypto(u.crypto) && Coheres(u, s) && Visited(s, w)
    ensures var (t, reply) := Step(u, s, Event(CallIssue(a), w));
            var known := exists id :: id in s.data.permits && s.data.permits[id].issueRequestId == a.issueRequestId;
            && (reply.ReplyPermit?
                <==> && IssueArgsOk(u, a)
                     && (if known then
                           forall id :: id in s.data.permits && s.data.permits[id].issueRequestId == a.issueRequestId
                                        ==> Asked(a, s.data.permits[id].permit)
                         else
                           && |s.data.permits| < u.config.maxPermits && CanDrawId(w.entropy, s.data.permits.Keys)
                           && u.crypto.validUtf8(a.profile) && UnixMilli(w.clock) > 0 && Saves(s, w)))
            && (reply.ReplyPermit? ==> Asked(a, reply.permit))
  {
    IssueCall(u, s, a, w);
    hide Step, IssuePermit, Coherent, SoundCrypto, IssueArgsOk, UnixMilli, Asked, CanDrawId, Visited;
    if !IssueArgsOk(u, a) {
    } else if exists id :: id in s.data.permits && s.data.permits[id].issueRequestId == a.issueRequestId {
      IssueAgain(u, s, a, w);
    } else {
      IssueNew(u, s, a, w);
    }
  }

  lemma IssueCall(u: Setup, s: State, a: IssueArgs, w: World)
    ensures var (t, p) := IssuePermit(u, s, a, w);
            Step(u, s, Event(CallIssue(a), w)) == (t, if p.Ok? then ReplyPermit(p.value) else ReplyError(p.error))
    ensures !IssueArgsOk(u, a) ==> IssuePermit(u, s, a, w).1.Err?
  {
    hide IssueArgsOk;
  }

  lemma IssueAgain(u: Setup, s: State, a: IssueArgs, w: World)
    requires Coheres(u, s) && Visited(s, w) && IssueArgsOk(u, a)
    requires exists id :: id in s.data.permits && s.data.permits[id].issueRequestId == a.issueRequestId
    ensures var p := IssuePermit(u, s, a, w).1;
            && (p.Ok? <==> forall id :: id in s.data.permits && s.data.permits[id].issueRequestId == a.issueRequestId
                                        ==> Asked(a, s.data.permits[id].permit))
            && (p.Ok? ==> Asked(a, p.value))
  {
    assert DistinctIssues(s.data.permits);
    hide Coherent, IssueArgsOk, NewId, MakePermit;
    assert FindIssued(s.data.permits, w.permitOrder, a.issueRequestId).Some?;
  }

  lemma IssueNew(u: Setup, s: State, a: IssueArgs, w: World)
    requires u.node != 0 && SoundCrypto(u.crypto) && s.generation < U64 && IssueArgsOk(u, a)
    requires forall id :: id in s.data.permits ==> s.data.permits[id].issueRequestId != a.issueRequestId
    ensures var p := IssuePermit(u, s, a, w).1;
            && (p.Ok? <==> && |s.data.permits| < u.config.maxPermits && CanDrawId(w.entropy, s.data.permits.Keys)
                           && u.crypto.validUtf8(a.profile) && UnixMilli(w.clock) > 0 && Saves(s, w))
            && (p.Ok? ==> Asked(a, p.value))
  {
    assert FindIssued(s.data.permits, w.permitOrder, a.issueRequestId).None?;
    IdDrawIsFirstFree(w.entropy, s.data.permits.Keys, ATTEMPTS);
    var drawn := NewId(w.entropy, s.data.permits.Keys, ATTEMPTS);
    if drawn.Some? && s.generation + 1 < U64 { PermitIsWellFormed(u, s.generation, a, drawn.value, w.clock); }
    hide SoundCrypto, IssueArgsOk, PermitOk, NewId, FirstId, UnixMilli, FindIssued;
  }

  lemma PermitIsWellFormed(u: Setup, generation: nat, a: IssueArgs, id: string, clock: int)
    requires u.node != 0 && SoundCrypto(u.crypto) && IssueArgsOk(u, a) && HexId(id, 16) && generation + 1 < U64
    ensures PermitOk(u.crypto, MakePermit(u, generation, a, id, clock))
            <==> u.crypto.validUtf8(a.profile) && UnixMilli(clock) > 0
  {
    assert UnixMilli(clock + a.ttl) > UnixMilli(clock);
    hide HexId, UnixMilli;
  }

  // ------------------------------------------------------------------------ submitting

  /** A request of the submitting device at the same parent that was approved, or waits and has not run out. */
  predicate Standing(u: Setup, d: Data, sub: Submission, now: int, id: string) {
    && id in d.requests && SameDevice(d.requests[id], u.crypto.fingerprint(sub.deviceKey), sub)
    && (d.requests[id].status == Approved || (d.requests[id].status == Pending && now < d.requests[id].expiresAt))
  }

  /** The first standing request in the order the requests are visited. */
  ghost predicate FirstStanding(u: Setup, d: Data, sub: Submission, now: int, order: seq<string>, k: nat) {
    && k < |order| && Standing(u, d, sub, now, order[k])
    && forall j :: 0 <= j < k ==> !Standing(u, d, sub, now, order[j])
  }

  lemma {:induction false} FindsFirstStanding(u: Setup, d: Data, sub: Submission, now: int, order: seq<string>)
    ensures var found := FindLive(ExpireDue(d.requests, now), order, u.crypto.fingerprint(sub.deviceKey), sub);
            && (found.None? ==> forall id :: id in order ==> !Standing(u, d, sub, now, id))
            && (found.Some? ==> exists k: nat :: FirstStanding(u, d, sub, now, order, k) && order[k] == found.value)
  {
    var requests, fingerprint := ExpireDue(d.requests, now), u.crypto.fingerprint(sub.deviceKey);
    var found := FindLive(requests, order, fingerprint, sub);
    assert forall id :: Standing(u, d, sub, now, id) <==> id in requests && Live(requests[id], fingerprint, sub);
    if order != [] {
      hide Live, Standing, ExpireDue;
      FindsFirstStanding(u, d, sub, now, order[1..]);
      if order[0] in requests && Live(requests[order[0]], fingerprint, sub) {
        assert FirstStanding(u, d, sub, now, order, 0);
      } else if found.Some? {
        var k: nat :| FirstStanding(u, d, sub, now, order[1..], k) && order[1..][k] == found.value;
        assert forall j :: 1 <= j < k + 1 ==> order[j] == order[1..][j - 1];
        assert FirstStanding(u, d, sub, now, order, k + 1);
      }
    }
  }

  /** The request a permit would be redeemed for is there, or there is room for it. */
  ghost predicate Takes(u: Setup, d: Data, sub: Submission, now: int, order: seq<string>) {
    if sub.requestId in d.requests then
      && SameDevice(d.requests[sub.requestId], u.crypto.fingerprint(sub.deviceKey), sub)
      && d.requests[sub.requestId].status != Approved
    else
      || (exists k: nat :: FirstStanding(u, d, sub, now, order, k) && d.requests[order[k]].status == Pending)
      || ((forall id :: id in d.requests ==> !Standing(u, d, sub, now, id)) && |d.requests| < u.config.maxRequests)
  }

  lemma RedeemsExactly(u: Setup, s: State, next: Data, sub: Submission, r: RequestRecord, now: int, w: World)
    requires u.node != 0 && SoundCrypto(u.crypto) && WellKeyed(r) && sub.permit.Some? && s.generation < U64
    ensures var id := sub.permit.value.body.permitId;
            GrantWithPermit(u, s, next, sub, r, now, w).1.Ok?
            <==> && id in next.permits && Entitled(u, next.permits[id], sub, now) && Saves(s, w)
                 && CanEnroll(u, next, sub.permit.value.body.profile, now, w.entropy)
  {
    PermitEntitles(u, next, sub, now);
    var record := ConsumePermit(u, next, sub, u.crypto.fingerprint(sub.deviceKey), now);
    hide ConsumePermit, Entitled, GrantRequest, CanEnroll, SoundCrypto;
    if record.Ok? && s.generation + 1 < U64 {
      GrantsExactly(u, s.generation, next, r.(transcript := Hex(sub.digest)), record.value.permit.body.profile, now,
        w.entropy);
    }
  }

  /** What the submission brings along is all there: an entitled permit, room, random bytes and a save. */
  ghost predicate Redeemable(u: Setup, s: State, sub: Submission, w: World)
    requires sub.permit.Some?
  {
    var id, now := sub.permit.value.body.permitId, UnixMilli(w.clock);
    && id in s.data.permits && Entitled(u, s.data.permits[id], sub, now) && Saves(s, w)
    && CanEnroll(u, s.data, sub.permit.value.body.profile, now, w.entropy)
  }

  lemma RedeemingBranch(u: Setup, s: State, next: Data, sub: Submission, r: RequestRecord, w: World)
    requires u.node != 0 && SoundCrypto(u.crypto) && WellKeyed(r) && sub.permit.Some? && s.generation < U64
    requires LapsedOnly(s.data, next, UnixMilli(w.clock))
    ensures var (t, a) := GrantWithPermit(u, s, next, sub, r, UnixMilli(w.clock), w);
            (t.data.permits != s.data.permits <==> Redeemable(u, s, sub, w)) && (a.Ok? <==> Redeemable(u, s, sub, w))
  {
    var now := UnixMilli(w.clock);
    RedeemsExactly(u, s, next, sub, r, now, w);
    PermitRedeems(u, s, next, sub, r, now, w);
    hide UnixMilli, SoundCrypto, GrantWithPermit, Enrolls, WellKeyed, PermitOk, BoundTo, CanDraw;
  }

  lemma SameAnswer(s: State, next: Data, existing: RequestRecord, changed: bool, w: World)
    requires next.permits == s.data.permits
    ensures AnswerExisting(s, next, existing, changed, w).0.data.permits == s.data.permits
  {
    hide OutcomeFor;
  }

  lemma LapsedIsKeyed(u: Setup, s: State, now: int, id: string)
    requires Identified(u, s.data) && id in s.data.requests
    ensures WellKeyed(ExpireDue(s.data.requests, now)[id])
  {}

  lemma NewIsKeyed(u: Setup, sub: Submission, now: int)
    requires SubmissionOk(sub)
    ensures WellKeyed(NewRequest(u, sub, now))
  {
    hide HexId;
  }

  /**
   * A submission uses up a permit exactly when it carries an unused one, made out to its device and a parent it is
   * bound to, in its time, for a request that is not decided yet, with room, random bytes and a save to spare.
   */
  lemma PermitIsRedeemedExactly(u: Setup, s: State, sub: Submission, w: World)
    requires u.node != 0 && SoundCrypto(u.crypto) && Coheres(u, s) && Visited(s, w) && Identified(u, s.data)
    requires sub.permit.Some?
    ensures Submit(u, s, sub, w).0.data.permits != s.data.permits
            <==> SubmissionOk(sub) && Takes(u, s.data, sub, UnixMilli(w.clock), w.requestOrder)
                 && Redeemable(u, s, sub, w)
  {
    CoheresIs(u, s);
    hide Coheres, Coherent, SoundCrypto, SubmissionOk, Redeemable, Identified, Takes, Submit, UnixMilli;
    if !SubmissionOk(sub) {
      BadSubmission(u, s, sub, w);
    } else if sub.requestId in s.data.requests {
      RedeemsNamed(u, s, sub, w);
    } else {
      RedeemsUnnamed(u, s, sub, w);
    }
  }

  lemma BadSubmission(u: Setup, s: State, sub: Submission, w: World)
    requires !SubmissionOk(sub)
    ensures Submit(u, s, sub, w) == (s, Err(InvalidInput))
  {}

  lemma RedeemsNamed(u: Setup, s: State, sub: Submission, w: World)
    requires u.node != 0 && SoundCrypto(u.crypto) && s.generation < U64 && Identified(u, s.data)
    requires sub.permit.Some? && SubmissionOk(sub) && sub.requestId in s.data.requests
    ensures Submit(u, s, sub, w).0.data.permits != s.data.permits
            <==> Takes(u, s.data, sub, UnixMilli(w.clock), w.requestOrder) && Redeemable(u, s, sub, w)
  {
    var now := UnixMilli(w.clock);
    ExpiryLapses(s.data, now);
    var next := s.data.(requests := ExpireDue(s.data.requests, now));
    var existing := next.requests[sub.requestId];
    LapsedIsKeyed(u, s, now, sub.requestId);
    hide SoundCrypto, SubmissionOk, GrantWithPermit, AnswerExisting, AnyDue, Redeemable, WellKeyed, UnixMilli,
      LapsedOnly,
      Identified, SubmitNew, FindLive, FirstStanding, Standing, SameDevice;
    assert SameDevice(existing, u.crypto.fingerprint(sub.deviceKey), sub)
           <==> SameDevice(s.data.requests[sub.requestId], u.crypto.fingerprint(sub.deviceKey), sub) by
    {
      hide FirstStanding;
      SameLapsed(u, s, now, sub, sub.requestId);
    }
    RedeemingBranch(u, s, next, sub, existing, w);
    SameAnswer(s, next, existing, AnyDue(s.data.requests, now), w);
  }

  lemma SameLapsed(u: Setup, s: State, now: int, sub: Submission, id: string)
    requires id in s.data.requests
    ensures SameDevice(ExpireDue(s.data.requests, now)[id], u.crypto.fingerprint(sub.deviceKey), sub)
            <==> SameDevice(s.data.requests[id], u.crypto.fingerprint(sub.deviceKey), sub)
  {}

  lemma RedeemsUnnamed(u: Setup, s: State, sub: Submission, w: World)
    requires u.node != 0 && SoundCrypto(u.crypto) && s.generation < U64 && Identified(u, s.data) && Visited(s, w)
    requires sub.permit.Some? && SubmissionOk(sub) && sub.requestId !in s.data.requests
    ensures Submit(u, s, sub, w).0.data.permits != s.data.permits
            <==> Takes(u, s.data, sub, UnixMilli(w.clock), w.requestOrder) && Redeemable(u, s, sub, w)
  {
    var now, fingerprint := UnixMilli(w.clock), u.crypto.fingerprint(sub.deviceKey);
    ExpiryLapses(s.data, now);
    var next := s.data.(requests := ExpireDue(s.data.requests, now));
    FindsFirstStanding(u, s.data, sub, now, w.requestOrder);
    hide SoundCrypto, SubmissionOk, GrantWithPermit, AnswerExisting, AnyDue, Redeemable, WellKeyed, UnixMilli,
      LapsedOnly,
      Identified, FindLive, NewRequest, ExpireDue;
    match FindLive(next.requests, w.requestOrder, fingerprint, sub)
    case Some(id) =>
      StandingAs(u, s, sub, now, w.requestOrder, id);
      hide Standing, FirstStanding, Visited, Live, SubmitNew;
      LapsedIsKeyed(u, s, now, id);
      RedeemingBranch(u, s, next, sub, next.requests[id], w);
      SameAnswer(s, next, next.requests[id], AnyDue(s.data.requests, now), w);
    case None =>
      assert forall id :: id in s.data.requests ==> !Standing(u, s.data, sub, now, id);
      hide Visited;
      NewIsKeyed(u, sub, now);
      RedeemingBranch(u, s, next, sub, NewRequest(u, sub, now), w);
      LapsedSize(s, now);
  }

  lemma LapsedSize(s: State, now: int)
    ensures |ExpireDue(s.data.requests, now)| == |s.data.requests|
  {
    var next := ExpireDue(s.data.requests, now);
    assert next.Keys == s.data.requests.Keys;
    assert |next.Keys| == |next| && |s.data.requests.Keys| == |s.data.requests|;
  }

  /** A standing request was not touched by the expiry, and decides whether the permit is taken. */
  lemma StandingAs(u: Setup, s: State, sub: Submission, now: int, order: seq<string>, id: string)
    requires sub.requestId !in s.data.requests
    requires exists k: nat :: FirstStanding(u, s.data, sub, now, order, k) && order[k] == id
    ensures id in s.data.requests && ExpireDue(s.data.requests, now)[id] == s.data.requests[id]
    ensures Takes(u, s.data, sub, now, order) <==> s.data.requests[id].status == Pending
  {
    var k: nat :| FirstStanding(u, s.data, sub, now, order, k) && order[k] == id;
    assert Standing(u, s.data, sub, now, id);
  }

  /** The requests that wait for a decision and have not run out. */
  function Waiting(d: Data, now: int): (r: set<string>) {
    set id | id in d.requests && d.requests[id].status == Pending && now < d.requests[id].expiresAt
  }

  function WaitingAt(d: Data, now: int, parent: NodeId): (r: set<string>) {
    set id | id in Waiting(d, now) && d.requests[id].parentNode == parent
  }

  lemma PendingIsWaiting(d: Data, now: int, parent: NodeId)
    ensures PendingIds(ExpireDue(d.requests, now)) == Waiting(d, now)
    ensures PendingIdsFor(ExpireDue(d.requests, now), parent) == WaitingAt(d, now, parent)
  {}

  /**
   * A submission without a permit files a new request exactly when the device has no standing one at that parent, and
   * there is room among all requests, among the waiting ones, and among those of its parent, and a save.
   */
  lemma RequestIsFiledExactly(u: Setup, s: State, sub: Submission, w: World)
    requires Visited(s, w) && s.generation < U64 && sub.permit.None? && sub.requestId !in s.data.requests
    ensures var now := UnixMilli(w.clock);
            sub.requestId in Submit(u, s, sub, w).0.data.requests
            <==> && SubmissionOk(sub) && (forall id :: id in s.data.requests ==> !Standing(u, s.data, sub, now, id))
                 && |s.data.requests| < u.config.maxRequests && |Waiting(s.data, now)| < u.config.maxPending
                 && |WaitingAt(s.data, now, sub.parentNode)| < u.config.maxPendingPerParent && Saves(s, w)
  {
    var now := UnixMilli(w.clock);
    var next := s.data.(requests := ExpireDue(s.data.requests, now));
    FindsFirstStanding(u, s.data, sub, now, w.requestOrder);
    PendingIsWaiting(s.data, now, sub.parentNode);
    LapsedSize(s, now);
    assert sub.requestId !in next.requests;
    hide SubmissionOk, UnixMilli, FindLive, NewRequest, PendingIds, PendingIdsFor, Waiting, WaitingAt, OutcomeFor,
      AnyDue;
    match FindLive(next.requests, w.requestOrder, u.crypto.fingerprint(sub.deviceKey), sub)
    case Some(id) => hide ExpireDue, Visited;
    case None => assert forall id :: id in s.data.requests ==> !Standing(u, s.data, sub, now, id);
  }

  /** What an answer says of the records it leaves behind. */
  ghost predicate Truthful(u: Setup, sub: Submission, d: Data, outcome: Outcome) {
    var fingerprint := u.crypto.fingerprint(sub.deviceKey);
    match outcome
    case OutcomePending =>
      exists id :: id in d.requests && SameDevice(d.requests[id], fingerprint, sub) && d.requests[id].status == Pending
                   && (sub.requestId in d.requests ==> id == sub.requestId)
    case OutcomeRejected(reason) =>
      && sub.requestId in d.requests && SameDevice(d.requests[sub.requestId], fingerprint, sub)
      && (|| (d.requests[sub.requestId].status == Rejected && reason == d.requests[sub.requestId].reason)
          || (d.requests[sub.requestId].status == Expired && reason == "enrollment request expired"))
    case OutcomeGranted(g) =>
      && Recorded(d, g) && g.body.parentNode == sub.parentNode && g.body.parentKey == sub.parentKey
      && d.enrollments[g.body.enrollmentId].fingerprint == fingerprint
  }

  lemma GrantedIsTruthful(u: Setup, d: Data, generation: nat, sub: Submission, id: string)
    requires Coherent(u, d, generation) && id in d.requests && d.requests[id].status == Approved
    requires SameDevice(d.requests[id], u.crypto.fingerprint(sub.deviceKey), sub)
    ensures OutcomeFor(d, d.requests[id]).Ok? ==> Truthful(u, sub, d, OutcomeFor(d, d.requests[id]).value)
  {
    var e := d.requests[id].enrollmentId;
    assert RequestLinked(d.enrollments, id, d.requests[id]);
    assert d.enrollments[e].grant.body.enrollmentId == e && !d.enrollments[e].status.EnrollmentOther?;
    hide Coherent;
  }

  lemma UngrantedIsTruthful(u: Setup, d: Data, sub: Submission, id: string)
    requires id in d.requests && d.requests[id].status != Approved
    requires SameDevice(d.requests[id], u.crypto.fingerprint(sub.deviceKey), sub)
    requires if sub.requestId in d.requests then id == sub.requestId else d.requests[id].status == Pending
    ensures OutcomeFor(d, d.requests[id]).Ok? ==> Truthful(u, sub, d, OutcomeFor(d, d.requests[id]).value)
  {}

  lemma OutcomeIsTruthful(u: Setup, d: Data, generation: nat, sub: Submission, id: string)
    requires Coherent(u, d, generation) && id in d.requests
    requires SameDevice(d.requests[id], u.crypto.fingerprint(sub.deviceKey), sub)
    requires if sub.requestId in d.requests then id == sub.requestId
             else d.requests[id].status == Pending || d.requests[id].status == Approved
    ensures OutcomeFor(d, d.requests[id]).Ok? ==> Truthful(u, sub, d, OutcomeFor(d, d.requests[id]).value)
  {
    hide Coherent, OutcomeFor, Truthful, SameDevice;
    if d.requests[id].status == Approved {
      GrantedIsTruthful(u, d, generation, sub, id);
    } else {
      UngrantedIsTruthful(u, d, sub, id);
    }
  }

  lemma AnswerIsTruthful(u: Setup, s: State, next: Data, sub: Submission, id: string, w: World)
    requires Coherent(u, next, s.generation)
    requires next == s.data.(requests := ExpireDue(s.data.requests, UnixMilli(w.clock))) && id in next.requests
    requires SameDevice(next.requests[id], u.crypto.fingerprint(sub.deviceKey), sub)
    requires if sub.requestId in next.requests then id == sub.requestId
             else next.requests[id].status == Pending || next.requests[id].status == Approved
    ensures var (t, a) := AnswerExisting(s, next, next.requests[id], AnyDue(s.data.requests, UnixMilli(w.clock)), w);
            a.Ok? ==> Truthful(u, sub, t.data, a.value)
  {
    OutcomeIsTruthful(u, next, s.generation, sub, id);
    hide Coherent, Truthful, OutcomeFor, SameDevice, UnixMilli;
    if !AnyDue(s.data.requests, UnixMilli(w.clock)) { assert s.data.requests == next.requests; }
    hide ExpireDue, AnyDue;
  }

  lemma RedeemedIsTruthful(u: Setup, s: State, next: Data, sub: Submission, r: RequestRecord, now: int, w: World)
    requires sub.permit.Some? && s.generation < U64 && SameDevice(r, u.crypto.fingerprint(sub.deviceKey), sub)
    ensures var (t, a) := GrantWithPermit(u, s, next, sub, r, now, w); a.Ok? ==> Truthful(u, sub, t.data, a.value)
  {
    PermitRedeems(u, s, next, sub, r, now, w);
    hide GrantWithPermit, Entitled;
  }

  /** Every answer to a submission says what the records say afterwards. */
  lemma SubmitTellsTheTruth(u: Setup, s: State, sub: Submission, w: World)
    requires Coheres(u, s)
    ensures var (t, a) := Submit(u, s, sub, w); a.Ok? ==> Truthful(u, sub, t.data, a.value)
  {
    CoheresIs(u, s);
    ExpireDueCoheres(u, s.data, s.generation, UnixMilli(w.clock));
    hide Coheres, Coherent, SubmissionOk, UnixMilli, ExpireDue, Truthful, Submit;
    if !SubmissionOk(sub) {
      BadSubmission(u, s, sub, w);
    } else if sub.requestId in ExpireDue(s.data.requests, UnixMilli(w.clock)) {
      NamedIsTruthful(u, s, sub, w);
    } else {
      UnnamedIsTruthful(u, s, sub, w);
    }
  }

  lemma NamedIsTruthful(u: Setup, s: State, sub: Submission, w: World)
    requires s.generation < U64 && SubmissionOk(sub)
    requires var next := s.data.(requests := ExpireDue(s.data.requests, UnixMilli(w.clock)));
             sub.requestId in next.requests && Coherent(u, next, s.generation)
    ensures var (t, a) := Submit(u, s, sub, w); a.Ok? ==> Truthful(u, sub, t.data, a.value)
  {
    var now, fingerprint := UnixMilli(w.clock), u.crypto.fingerprint(sub.deviceKey);
    var next := s.data.(requests := ExpireDue(s.data.requests, now));
    hide Coherent, SubmissionOk, GrantWithPermit, AnswerExisting, AnyDue, UnixMilli, FindLive, ExpireDue, Truthful,
      SubmitNew,
      SameDevice;
    if SameDevice(next.requests[sub.requestId], fingerprint, sub) {
      if sub.permit.Some? { RedeemedIsTruthful(u, s, next, sub, next.requests[sub.requestId], now, w); }
      AnswerIsTruthful(u, s, next, sub, sub.requestId, w);
    }
  }

  lemma UnnamedIsTruthful(u: Setup, s: State, sub: Submission, w: World)
    requires s.generation < U64 && SubmissionOk(sub)
    requires var next := s.data.(requests := ExpireDue(s.data.requests, UnixMilli(w.clock)));
             sub.requestId !in next.requests && Coherent(u, next, s.generation)
    ensures var (t, a) := Submit(u, s, sub, w); a.Ok? ==> Truthful(u, sub, t.data, a.value)
  {
    var now, fingerprint := UnixMilli(w.clock), u.crypto.fingerprint(sub.deviceKey);
    var next := s.data.(requests := ExpireDue(s.data.requests, now));
    hide Coherent, SubmissionOk, GrantWithPermit, AnswerExisting, AnyDue, UnixMilli, FindLive, ExpireDue, Truthful,
      SubmitNew,
      SameDevice;
    match FindLive(next.requests, w.requestOrder, fingerprint, sub)
    case Some(id) =>
      if sub.permit.Some? { RedeemedIsTruthful(u, s, next, sub, next.requests[id], now, w); }
      AnswerIsTruthful(u, s, next, sub, id, w);
    case None => NewIsTruthful(u, s, next, sub, now, w);
  }

  lemma NewIsTruthful(u: Setup, s: State, next: Data, sub: Submission, now: int, w: World)
    requires s.generation < U64 && sub.requestId !in next.requests
    ensures var (t, a) := SubmitNew(u, s, next, sub, now, w); a.Ok? ==> Truthful(u, sub, t.data, a.value)
  {
    if sub.permit.Some? {
      RedeemedIsTruthful(u, s, next, sub, NewRequest(u, sub, now), now, w);
    } else {
      var (t, a) := SubmitNew(u, s, next, sub, now, w);
      assert a.Ok? ==> t.data.requests[sub.requestId].status == Pending;
    }
    hide GrantWithPermit, PendingIds, PendingIdsFor, UnixMilli;
  }

  /** A request that is on file is answered: unless its enrollment was revoked, or an expiry cannot be saved. */
  lemma KnownRequestIsAnswered(u: Setup, s: State, sub: Submission, w: World)
    requires Coheres(u, s) && SubmissionOk(sub) && sub.permit.None? && sub.requestId in s.data.requests
    requires SameDevice(s.data.requests[sub.requestId], u.crypto.fingerprint(sub.deviceKey), sub)
    requires !s.data.requests[sub.requestId].status.RequestOther?
    requires Saves(s, w) || forall id :: id in s.data.requests && s.data.requests[id].status == Pending
                                         ==> UnixMilli(w.clock) < s.data.requests[id].expiresAt
    ensures var r := s.data.requests[sub.requestId];
            Submit(u, s, sub, w).1.Ok?
            <==> !(r.status == Approved && s.data.enrollments[r.enrollmentId].status == EnrollmentRevoked)
  {
    ApprovedStands(u, s, sub.requestId);
    var now, r := UnixMilli(w.clock), s.data.requests[sub.requestId];
    var next := s.data.(requests := ExpireDue(s.data.requests, now));
    assert next.requests[sub.requestId].status == Approved <==> r.status == Approved;
    hide Coheres, SubmissionOk, UnixMilli, GrantWithPermit, SubmitNew, FindLive;
    assert Submit(u, s, sub, w) == AnswerExisting(s, next, next.requests[sub.requestId], AnyDue(s.data.requests, now),
           w);
    hide Submit;
  }
}
