/**
 * The enrollment authority: permits, enrollment requests, enrollments and the Node IDs ever
 * handed out. Every operation works on a copy of the data and becomes visible only when the
 * copy has been saved under the next generation number.
 *
 * Text that only spells a value is carried as that value: decimal Node IDs as numbers, base64
 * keys and signatures as bytes. The clock is in nanoseconds and recorded in milliseconds.
 */
module Enrollment {
  import opened Basics

  type Key = seq<byte>

  const SECOND: int := 1_000_000_000
  const MAX_IDENTIFIER_BYTES: int := 128
  const MAX_LABEL_BYTES: int := 255
  const ATTEMPTS: nat := 128
  const NODE_ID_MASK: int := 0x8000_0000_0000_0000
  const EXPIRED_REASON: string := "approval window expired"

  function UnixMilli(clock: int): int { clock / 1_000_000 }

  // ---------------------------------------------------------------- records

  datatype PermitBody = PermitBody(
    version: int, permitId: string, authorityNode: NodeId, authorityKey: Key, fingerprint: string, target: NodeId,
    allowDescendants: bool, profile: string, issuedAt: int, expiresAt: int, epoch: nat)

  datatype Permit = Permit(body: PermitBody, signature: Key)

  datatype GrantBody = GrantBody(
    version: int, enrollmentId: string, authorityNode: NodeId, authorityKey: Key, node: NodeId, deviceKey: Key,
    parentNode: NodeId, parentKey: Key, profile: string, epoch: nat, issuedAt: int)

  datatype Grant = Grant(body: GrantBody, signature: Key)

  datatype PermitStatus = PermitActive | PermitConsumed | PermitRevoked | PermitOther(text: string)

  datatype PermitRecord = PermitRecord(
    permit: Permit, status: PermitStatus, issueRequestId: string, consumedBy: string, consumedAt: int, revokedAt: int,
    reason: string)

  datatype RequestStatus = Pending | Approved | Rejected | Expired | RequestOther(text: string)

  datatype RequestRecord = RequestRecord(
    requestId: string, deviceKey: Key, fingerprint: string, parentNode: NodeId, parentKey: Key, transcript: string,
    status: RequestStatus, profile: string, enrollmentId: string, createdAt: int, updatedAt: int, expiresAt: int,
    reason: string)

  datatype EnrollmentStatus = EnrollmentActive | EnrollmentRevoked | EnrollmentOther(text: string)

  datatype EnrollmentRecord = EnrollmentRecord(
    grant: Grant, fingerprint: string, requestId: string, status: EnrollmentStatus, revokedAt: int, reason: string)

  datatype Data = Data(
    permits: map<string, PermitRecord>, requests: map<string, RequestRecord>,
    enrollments: map<string, EnrollmentRecord>, used: set<NodeId>)

  datatype State = State(generation: nat, data: Data)

  /** Every record is filed under its own identifier. */
  ghost predicate Keyed(d: Data) {
    && (forall id :: id in d.permits ==> d.permits[id].permit.body.permitId == id)
    && (forall id :: id in d.requests ==> d.requests[id].requestId == id)
    && (forall id :: id in d.enrollments ==> d.enrollments[id].grant.body.enrollmentId == id)
  }

  // ------------------------------------------------------------ environment

  /** The cryptographic and text primitives the authority relies on; any functions will do. */
  datatype Crypto = Crypto(
    authorityKey: Key, signPermit: PermitBody -> Key, signGrant: GrantBody -> Key,
    verifyPermit: (PermitBody, Key) -> bool, verifyGrant: (GrantBody, Key) -> bool,
    fingerprint: Key -> string, validUtf8: string -> bool)

  /** What is assumed of them: a signature made with the authority key verifies, and sizes are right. */
  ghost predicate SoundCrypto(c: Crypto) {
    && |c.authorityKey| == 32
    && (forall b: PermitBody :: c.verifyPermit(b, c.signPermit(b)) && |c.signPermit(b)| == 64)
    && (forall b: GrantBody :: c.verifyGrant(b, c.signGrant(b)) && |c.signGrant(b)| == 64)
    && (forall k: Key :: HexId(c.fingerprint(k), 32))
  }

  datatype Config = Config(
    maxPermitTtl: int, pendingTtl: int, maxPermits: int, maxRequests: int, maxPending: int, maxPendingPerParent: int,
    maxEnrollments: int, isTargetDescendant: Option<(NodeId, NodeId) -> bool>)

  predicate ConfigOk(c: Config) {
    && c.maxPermitTtl >= SECOND && c.pendingTtl >= SECOND
    && c.maxPermits >= 1 && c.maxRequests >= 1 && c.maxPending >= 1 && c.maxEnrollments >= 1
    && 1 <= c.maxPendingPerParent <= c.maxPending <= c.maxRequests
  }

  datatype Setup = Setup(node: NodeId, crypto: Crypto, config: Config)

  ghost predicate SetupOk(u: Setup) {
    u.node != 0 && SoundCrypto(u.crypto) && ConfigOk(u.config)
  }

  /**
   * What the world contributes to one call: two clock readings (the second not before the
   * first), the bytes read from the random source, whether the save succeeds, and the order in
   * which the permit and request maps happen to be visited.
   */
  datatype World = World(
    clock: int, laterClock: int, entropy: seq<byte>, saveOk: bool, permitOrder: seq<string>, requestOrder: seq<string>)

  datatype Error =
    | InvalidInput | Conflict | LimitReached | NotFound | RejectedRequest | ExpiredRequest | RevokedEnrollment
    | ConsumedPermit | RevokedPermit | InvalidPermit | NoRandom | GenerationExhausted | SaveFailed | BrokenRecord

  // ------------------------------------------------------------- validation

  predicate TextOk(c: Crypto, text: string, limit: int) {
    text != "" && c.validUtf8(text) && |text| <= limit
  }

  predicate PermitOk(c: Crypto, p: Permit) {
    var b := p.body;
    && b.version == 1 && HexId(b.permitId, 16) && b.authorityNode != 0 && |b.authorityKey| == 32
    && HexId(b.fingerprint, 32) && b.target != 0 && TextOk(c, b.profile, MAX_IDENTIFIER_BYTES)
    && 0 < b.issuedAt < b.expiresAt && b.epoch != 0 && |p.signature| == 64
  }

  predicate GrantOk(c: Crypto, g: Grant) {
    var b := g.body;
    && b.version == 1 && HexId(b.enrollmentId, 16) && b.authorityNode != 0 && |b.authorityKey| == 32
    && b.node != 0 && |b.deviceKey| == 32 && b.parentNode != 0 && |b.parentKey| == 32
    && TextOk(c, b.profile, MAX_IDENTIFIER_BYTES) && b.epoch != 0 && b.issuedAt > 0 && |g.signature| == 64
  }

  predicate VerifyPermit(c: Crypto, p: Permit) {
    |c.authorityKey| == 32 && PermitOk(c, p) && p.body.authorityKey == c.authorityKey
      && c.verifyPermit(p.body, p.signature)
  }

  predicate VerifyGrant(c: Crypto, g: Grant) {
    |c.authorityKey| == 32 && GrantOk(c, g) && g.body.authorityKey == c.authorityKey
      && c.verifyGrant(g.body, g.signature)
  }

  predicate PermitRecordOk(c: Crypto, r: PermitRecord) {
    && VerifyPermit(c, r.permit) && HexId(r.issueRequestId, 16)
    && match r.status
       case PermitActive => r.consumedBy == "" && r.consumedAt == 0 && r.revokedAt == 0 && r.reason == ""
       case PermitConsumed => HexId(r.consumedBy, 16) && r.consumedAt > 0 && r.revokedAt == 0 && r.reason == ""
       case PermitRevoked => r.revokedAt > 0 && r.reason != "" && r.consumedBy == "" && r.consumedAt == 0
       case PermitOther(_) => false
  }

  predicate RequestRecordOk(c: Crypto, r: RequestRecord) {
    && HexId(r.requestId, 16) && |r.deviceKey| == 32 && c.fingerprint(r.deviceKey) == r.fingerprint
    && r.parentNode != 0 && |r.parentKey| == 32 && HexId(r.transcript, 32)
    && 0 < r.createdAt <= r.updatedAt && r.createdAt < r.expiresAt
    && match r.status
       case Pending => r.profile == "" && r.enrollmentId == "" && r.reason == ""
       case Approved => 0 < |r.profile| <= MAX_IDENTIFIER_BYTES && HexId(r.enrollmentId, 16) && r.reason == ""
       case Rejected => r.profile == "" && r.enrollmentId == "" && r.reason != ""
       case Expired => r.profile == "" && r.enrollmentId == "" && r.reason != ""
       case RequestOther(_) => false
  }

  predicate EnrollmentRecordOk(c: Crypto, r: EnrollmentRecord, used: set<NodeId>) {
    && VerifyGrant(c, r.grant) && HexId(r.requestId, 16) && r.fingerprint == c.fingerprint(r.grant.body.deviceKey)
    && r.grant.body.node in used
    && match r.status
       case EnrollmentActive => r.revokedAt == 0 && r.reason == ""
       case EnrollmentRevoked => r.revokedAt > 0 && r.reason != ""
       case EnrollmentOther(_) => false
  }

  /** An enrollment names an approved request that names it back. */
  predicate EnrollmentLinked(requests: map<string, RequestRecord>, id: string, e: EnrollmentRecord) {
    && e.requestId in requests && requests[e.requestId].status == Approved && requests[e.requestId].enrollmentId == id
  }

  /** An approved request names an enrollment that agrees with it. */
  predicate RequestLinked(enrollments: map<string, EnrollmentRecord>, rid: string, r: RequestRecord) {
    r.status == Approved ==>
      && r.enrollmentId in enrollments
      && var e := enrollments[r.enrollmentId];
         && e.requestId == rid && e.fingerprint == r.fingerprint && e.grant.body.profile == r.profile
         && e.grant.body.parentNode == r.parentNode && e.grant.body.parentKey == r.parentKey
  }

  // ---------------------------------------------------------- random choices

  /** A Node ID drawn from the random bytes: 63 bits, never zero, never one already used. */
  function AllocateNodeId(entropy: seq<byte>, used: set<NodeId>, attempts: nat): (r: Option<(NodeId, seq<byte>)>)
    ensures r.Some? ==> r.value.0 != 0 && r.value.0 !in used && r.value.0 < NODE_ID_MASK
    decreases attempts
  {
    if attempts == 0 || |entropy| < 8 then None
    else
      var candidate := FromBytes(entropy[..8]) % NODE_ID_MASK;
      if candidate != 0 && candidate !in used then Some((candidate, entropy[8..]))
      else AllocateNodeId(entropy[8..], used, attempts - 1)
  }

  predicate AllZeros(text: string) { forall i :: 0 <= i < |text| ==> text[i] == '0' }

  /** A 16-byte identifier drawn from the random bytes, never all zeros, never one already taken. */
  function NewId(entropy: seq<byte>, taken: set<string>, attempts: nat): (r: Option<string>)
    ensures r.Some? ==> HexId(r.value, 16) && r.value !in taken && !AllZeros(r.value)
    decreases attempts
  {
    if attempts == 0 || |entropy| < 16 then None
    else
      var id := Hex(entropy[..16]);
      if !AllZeros(id) && id !in taken then Some(id) else NewId(entropy[16..], taken, attempts - 1)
  }

  // ------------------------------------------------------------------ commit

  /** Saves the copy under the next generation; nothing changes unless the save succeeds. */
  function Commit(s: State, next: Data, saveOk: bool): (r: Result<State, Error>)
    ensures r.Ok? ==> r.value.generation == s.generation + 1 && r.value.data == next
  {
    if s.generation == U64 - 1 then Err(GenerationExhausted)
    else if !saveOk then Err(SaveFailed)
    else Ok(State(s.generation + 1, next))
  }

  function Finish<T>(s: State, committed: Result<State, Error>,
      answer: Result<T, Error>): (r: (State, Result<T, Error>)) {
    match committed
    case Ok(next) => (next, answer)
    case Err(error) => (s, Err(error))
  }

  // ------------------------------------------------------------------ permits

  datatype IssueArgs = IssueArgs(
    issueRequestId: string, fingerprint: string, target: NodeId, allowDescendants: bool, profile: string, ttl: int)

  predicate IssueArgsOk(u: Setup, a: IssueArgs) {
    && HexId(a.issueRequestId, 16) && HexId(a.fingerprint, 32) && a.target != 0
    && a.profile != "" && |a.profile| <= MAX_IDENTIFIER_BYTES && SECOND <= a.ttl <= u.config.maxPermitTtl
  }

  /** The first permit, in visiting order, issued for this command. */
  function FindIssued(permits: map<string, PermitRecord>, order: seq<string>,
      issueRequestId: string): (r: Option<string>)
    ensures r.Some? ==> r.value in permits && permits[r.value].issueRequestId == issueRequestId
    ensures r.None? ==> forall id :: id in order && id in permits ==> permits[id].issueRequestId != issueRequestId
  {
    if order == [] then None
    else if order[0] in permits && permits[order[0]].issueRequestId == issueRequestId then Some(order[0])
    else FindIssued(permits, order[1..], issueRequestId)
  }

  function MakePermit(u: Setup, generation: nat, a: IssueArgs, id: string, clock: int): Permit {
    var body := PermitBody(1, id, u.node, u.crypto.authorityKey, a.fingerprint, a.target, a.allowDescendants, a.profile,
                           UnixMilli(clock), UnixMilli(clock + a.ttl), (generation + 1) % U64);
    Permit(body, u.crypto.signPermit(body))
  }

  function IssuePermit(u: Setup, s: State, a: IssueArgs, w: World): (r: (State, Result<Permit, Error>)) {
    if !IssueArgsOk(u, a) then (s, Err(InvalidInput))
    else
      match FindIssued(s.data.permits, w.permitOrder, a.issueRequestId)
      case Some(id) =>
        var p := s.data.permits[id].permit;
        if p.body.fingerprint != a.fingerprint || p.body.target != a.target
           || p.body.allowDescendants != a.allowDescendants || p.body.profile != a.profile
        then (s, Err(Conflict))
        else (s, Ok(p))
      case None =>
        if |s.data.permits| >= u.config.maxPermits then (s, Err(LimitReached))
        else
          match NewId(w.entropy, s.data.permits.Keys, ATTEMPTS)
          case None => (s, Err(NoRandom))
          case Some(id) =>
            var permit := MakePermit(u, s.generation, a, id, w.clock);
            if !PermitOk(u.crypto, permit) then (s, Err(InvalidInput))
            else
              var record := PermitRecord(permit, PermitActive, a.issueRequestId, "", 0, 0, "");
              var next := s.data.(permits := s.data.permits[id := record]);
              Finish(s, Commit(s, next, w.saveOk), Ok(permit))
  }

  function RevokePermit(u: Setup, s: State, commandId: string, permitId: string, reason: string,
      w: World): (r: (State, Result<(), Error>)) {
    if !HexId(commandId, 16) || !HexId(permitId, 16) || reason == ""
      || |reason| > MAX_LABEL_BYTES then (s, Err(InvalidInput))
    else if permitId !in s.data.permits then (s, Err(NotFound))
    else
      var record := s.data.permits[permitId];
      if record.status == PermitRevoked then (s, Ok(()))
      else if record.status == PermitConsumed then (s, Err(ConsumedPermit))
      else
        var revoked := record.(status := PermitRevoked, reason := reason, revokedAt := UnixMilli(w.clock));
        Finish(s, Commit(s, s.data.(permits := s.data.permits[permitId := revoked]), w.saveOk), Ok(()))
  }

  // ----------------------------------------------------------------- requests

  predicate Due(r: RequestRecord, now: int) { r.status == Pending && now >= r.expiresAt }

  function Expire(r: RequestRecord): RequestRecord {
    r.(status := Expired, reason := EXPIRED_REASON, updatedAt := r.expiresAt)
  }

  function ExpireDue(requests: map<string, RequestRecord>, now: int): map<string, RequestRecord> {
    map id | id in requests :: if Due(requests[id], now) then Expire(requests[id]) else requests[id]
  }

  predicate AnyDue(requests: map<string, RequestRecord>, now: int) {
    exists id :: id in requests && Due(requests[id], now)
  }

  function PendingIds(requests: map<string, RequestRecord>): set<string> {
    set id | id in requests && requests[id].status == Pending
  }

  function PendingIdsFor(requests: map<string, RequestRecord>, parent: NodeId): set<string> {
    set id | id in requests && requests[id].status == Pending && requests[id].parentNode == parent
  }

  datatype Submission = Submission(
    requestId: string, deviceKey: Key, parentNode: NodeId, parentKey: Key, permit: Option<Permit>, digest: seq<byte>)

  predicate SubmissionOk(sub: Submission) {
    && HexId(sub.requestId, 16) && |sub.deviceKey| == 32 && sub.parentNode != 0 && |sub.parentKey| == 32
    && |sub.digest| == 32 && exists i :: 0 <= i < |sub.digest| && sub.digest[i] != 0
  }

  datatype Outcome = OutcomePending | OutcomeRejected(reason: string) | OutcomeGranted(grant: Grant)

  predicate SameDevice(r: RequestRecord, fingerprint: string, sub: Submission) {
    r.fingerprint == fingerprint && r.parentNode == sub.parentNode && r.parentKey == sub.parentKey
  }

  predicate Live(r: RequestRecord, fingerprint: string, sub: Submission) {
    SameDevice(r, fingerprint, sub) && (r.status == Pending || r.status == Approved)
  }

  /** The first live request of the same device and parent, in visiting order. */
  function FindLive(requests: map<string, RequestRecord>, order: seq<string>, fingerprint: string,
      sub: Submission): (r: Option<string>)
    ensures r.Some? ==> r.value in requests && Live(requests[r.value], fingerprint, sub)
    ensures r.None? ==> forall id :: id in order && id in requests ==> !Live(requests[id], fingerprint, sub)
  {
    if order == [] then None
    else if order[0] in requests && Live(requests[order[0]], fingerprint, sub) then Some(order[0])
    else FindLive(requests, order[1..], fingerprint, sub)
  }

  function ConsumePermit(u: Setup, next: Data, sub: Submission, fingerprint: string,
      now: int): (r: Result<PermitRecord, Error>)
    requires sub.permit.Some?
    ensures r.Ok? ==>
      && sub.permit.value.body.permitId in next.permits && r.value == next.permits[sub.permit.value.body.permitId]
      && r.value.status != PermitConsumed && r.value.status != PermitRevoked
      && r.value.permit == sub.permit.value && r.value.permit.body.fingerprint == fingerprint
      && r.value.permit.body.issuedAt <= now < r.value.permit.body.expiresAt
  {
    var permit := sub.permit.value;
    var id := permit.body.permitId;
    if !VerifyPermit(u.crypto, permit) then Err(InvalidPermit)
    else if id !in next.permits || next.permits[id].permit != permit then Err(InvalidPermit)
    else
      var record := next.permits[id];
      if record.status == PermitConsumed then Err(ConsumedPermit)
      else if record.status == PermitRevoked then Err(RevokedPermit)
      else if now < permit.body.issuedAt || now >= permit.body.expiresAt then Err(InvalidPermit)
      else if permit.body.fingerprint != fingerprint then Err(InvalidPermit)
      else if permit.body.target != sub.parentNode
              && !(permit.body.allowDescendants && u.config.isTargetDescendant.Some?
                   && u.config.isTargetDescendant.value(permit.body.target, sub.parentNode))
      then Err(InvalidPermit)
      else Ok(record)
  }

  function ApprovedRequest(r: RequestRecord, profile: string, enrollmentId: string, now: int): RequestRecord {
    r.(status := Approved, profile := profile, enrollmentId := enrollmentId, reason := "", updatedAt := now)
  }

  function MakeGrant(u: Setup, generation: nat, r: RequestRecord, profile: string, node: NodeId, id: string,
      now: int): Grant {
    var body := GrantBody(1, id, u.node, u.crypto.authorityKey, node, r.deviceKey, r.parentNode, r.parentKey, profile,
                          (generation + 1) % U64, now);
    Grant(body, u.crypto.signGrant(body))
  }

  function GrantRequest(u: Setup, generation: nat, next: Data, request: RequestRecord, profile: string, now: int,
      entropy: seq<byte>)
    : (r: Result<(Data, Grant), Error>)
  {
    if |next.enrollments| >= u.config.maxEnrollments then Err(LimitReached)
    else
      match AllocateNodeId(entropy, next.used, ATTEMPTS)
      case None => Err(NoRandom)
      case Some((node, rest)) =>
        match NewId(rest, next.enrollments.Keys, ATTEMPTS)
        case None => Err(NoRandom)
        case Some(id) =>
          var grant := MakeGrant(u, generation, request, profile, node, id, now);
          if !GrantOk(u.crypto, grant) then Err(InvalidInput)
          else Ok((AddEnrollment(next, request, profile, grant, now), grant))
  }

  function AddEnrollment(next: Data, request: RequestRecord, profile: string, grant: Grant, now: int): Data {
    var id := grant.body.enrollmentId;
    Data(next.permits,
         next.requests[request.requestId := ApprovedRequest(request, profile, id, now)],
         next.enrollments[id := EnrollmentRecord(grant, request.fingerprint, request.requestId, EnrollmentActive, 0,
           "")],
         next.used + {grant.body.node})
  }

  function ConsumedBy(record: PermitRecord, requestId: string, now: int): PermitRecord {
    record.(status := PermitConsumed, consumedBy := requestId, consumedAt := now)
  }

  /** Grants a request against a permit, consuming the permit in the same commit. */
  function GrantWithPermit(u: Setup, s: State, next: Data, sub: Submission, request: RequestRecord, now: int, w: World)
    : (r: (State, Result<Outcome, Error>))
    requires sub.permit.Some?
  {
    match ConsumePermit(u, next, sub, u.crypto.fingerprint(sub.deviceKey), now)
    case Err(error) => (s, Err(error))
    case Ok(record) =>
      match GrantRequest(u, s.generation, next, request.(transcript := Hex(sub.digest)), record.permit.body.profile,
        now, w.entropy)
      case Err(error) => (s, Err(error))
      case Ok((granted, grant)) =>
        var id := record.permit.body.permitId;
        var final := granted.(permits := granted.permits[id := ConsumedBy(record, sub.requestId, now)]);
        Finish(s, Commit(s, final, w.saveOk), Ok(OutcomeGranted(grant)))
  }

  function OutcomeFor(d: Data, r: RequestRecord): Result<Outcome, Error> {
    match r.status
    case Pending => Ok(OutcomePending)
    case Rejected => Ok(OutcomeRejected(r.reason))
    case Expired => Ok(OutcomeRejected("enrollment request expired"))
    case Approved =>
      if r.enrollmentId !in d.enrollments then Err(BrokenRecord)
      else if d.enrollments[r.enrollmentId].status == EnrollmentRevoked then Err(RevokedEnrollment)
      else Ok(OutcomeGranted(d.enrollments[r.enrollmentId].grant))
    case RequestOther(_) => Err(BrokenRecord)
  }

  /** Answers from an existing request; pending requests that ran out are saved as expired first. */
  function AnswerExisting(s: State, next: Data, existing: RequestRecord, changed: bool,
      w: World): (r: (State, Result<Outcome, Error>)) {
    if changed then Finish(s, Commit(s, next, w.saveOk), OutcomeFor(next, existing))
    else (s, OutcomeFor(s.data, existing))
  }

  function NewRequest(u: Setup, sub: Submission, now: int): RequestRecord {
    RequestRecord(sub.requestId, sub.deviceKey, u.crypto.fingerprint(sub.deviceKey), sub.parentNode, sub.parentKey,
                  Hex(sub.digest), Pending, "", "", now, now, UnixMilli(now * 1_000_000 + u.config.pendingTtl), "")
  }

  function SubmitNew(u: Setup, s: State, next: Data, sub: Submission, now: int,
      w: World): (r: (State, Result<Outcome, Error>)) {
    if |next.requests| >= u.config.maxRequests then (s, Err(LimitReached))
    else if sub.permit.Some? then GrantWithPermit(u, s, next, sub, NewRequest(u, sub, now), now, w)
    else if |PendingIds(next.requests)| >= u.config.maxPending then (s, Err(LimitReached))
    else if |PendingIdsFor(next.requests, sub.parentNode)| >= u.config.maxPendingPerParent then (s, Err(LimitReached))
    else
      var added := next.(requests := next.requests[sub.requestId := NewRequest(u, sub, now)]);
      Finish(s, Commit(s, added, w.saveOk), Ok(OutcomePending))
  }

  function Submit(u: Setup, s: State, sub: Submission, w: World): (r: (State, Result<Outcome, Error>)) {
    if !SubmissionOk(sub) then (s, Err(InvalidInput))
    else
      var fingerprint := u.crypto.fingerprint(sub.deviceKey);
      var now := UnixMilli(w.clock);
      var next := s.data.(requests := ExpireDue(s.data.requests, now));
      var changed := AnyDue(s.data.requests, now);
      if sub.requestId in next.requests then
        var existing := next.requests[sub.requestId];
        if !SameDevice(existing, fingerprint, sub) then (s, Err(Conflict))
        else if sub.permit.Some? && existing.status != Approved then GrantWithPermit(u, s, next, sub, existing, now, w)
        else AnswerExisting(s, next, existing, changed, w)
      else
        match FindLive(next.requests, w.requestOrder, fingerprint, sub)
        case Some(id) =>
          var existing := next.requests[id];
          if sub.permit.Some? && existing.status == Pending then GrantWithPermit(u, s, next, sub, existing, now, w)
          else AnswerExisting(s, next, existing, changed, w)
        case None => SubmitNew(u, s, next, sub, now, w)
  }

  /** Saves one overdue request as expired and reports it so. */
  function ExpireOne<T>(s: State, rid: string, w: World): (r: (State, Result<T, Error>))
    requires rid in s.data.requests
  {
    var next := s.data.(requests := s.data.requests[rid := Expire(s.data.requests[rid])]);
    Finish(s, Commit(s, next, w.saveOk), Err(ExpiredRequest))
  }

  function Approve(u: Setup, s: State, commandId: string, rid: string, profile: string,
      w: World): (r: (State, Result<Grant, Error>)) {
    if !HexId(commandId, 16) || !HexId(rid, 16) || profile == ""
      || |profile| > MAX_IDENTIFIER_BYTES then (s, Err(InvalidInput))
    else if rid !in s.data.requests then (s, Err(NotFound))
    else
      var request := s.data.requests[rid];
      match request.status
      case Approved =>
        if request.enrollmentId !in s.data.enrollments
          || s.data.enrollments[request.enrollmentId].status != EnrollmentActive
        then (s, Err(RevokedEnrollment))
        else (s, Ok(s.data.enrollments[request.enrollmentId].grant))
      case Rejected => (s, Err(RejectedRequest))
      case Expired => (s, Err(ExpiredRequest))
      case RequestOther(_) => (s, Err(Conflict))
      case Pending =>
        if Due(request, UnixMilli(w.clock)) then ExpireOne(s, rid, w)
        else
          match GrantRequest(u, s.generation, s.data, request, profile, UnixMilli(w.laterClock), w.entropy)
          case Err(error) => (s, Err(error))
          case Ok((next, grant)) => Finish(s, Commit(s, next, w.saveOk), Ok(grant))
  }

  function Reject(u: Setup, s: State, commandId: string, rid: string, reason: string,
      w: World): (r: (State, Result<(), Error>)) {
    if !HexId(commandId, 16) || !HexId(rid, 16) || reason == ""
      || |reason| > MAX_LABEL_BYTES then (s, Err(InvalidInput))
    else if rid !in s.data.requests then (s, Err(NotFound))
    else
      var request := s.data.requests[rid];
      match request.status
      case Rejected => (s, Ok(()))
      case Expired => (s, Err(ExpiredRequest))
      case Approved => (s, Err(Conflict))
      case RequestOther(_) => (s, Err(Conflict))
      case Pending =>
        if Due(request, UnixMilli(w.clock)) then ExpireOne(s, rid, w)
        else
          var rejected := request.(status := Rejected, reason := reason, updatedAt := UnixMilli(w.laterClock));
          Finish(s, Commit(s, s.data.(requests := s.data.requests[rid := rejected]), w.saveOk), Ok(()))
  }

  function RevokeEnrollment(u: Setup, s: State, commandId: string, id: string, reason: string,
      w: World): (r: (State, Result<NodeId, Error>)) {
    if !HexId(commandId, 16) || !HexId(id, 16) || reason == "" || |reason| > MAX_LABEL_BYTES then (s, Err(InvalidInput))
    else if id !in s.data.enrollments then (s, Err(NotFound))
    else
      var record := s.data.enrollments[id];
      if record.status == EnrollmentRevoked then (s, Ok(record.grant.body.node))
      else
        var revoked := record.(status := EnrollmentRevoked, reason := reason, revokedAt := UnixMilli(w.clock));
        Finish(s, Commit(s, s.data.(enrollments := s.data.enrollments[id := revoked]), w.saveOk),
          Ok(record.grant.body.node))
  }

  // --------------------------------------------------------------------- runs

  datatype Call =
    | CallIssue(args: IssueArgs)
    | CallSubmit(submission: Submission)
    | CallApprove(commandId: string, requestId: string, profile: string)
    | CallReject(commandId: string, requestId: string, reason: string)
    | CallRevokePermit(commandId: string, permitId: string, reason: string)
    | CallRevokeEnrollment(commandId: string, enrollmentId: string, reason: string)

  datatype Event = Event(call: Call, world: World)

  datatype Reply = ReplyPermit(permit: Permit) | ReplyGrant(grant: Grant) | ReplyDone | ReplyError(error: Error)

  function SubmitReply(r: Result<Outcome, Error>): Reply {
    match r
    case Err(error) => ReplyError(error)
    case Ok(OutcomeGranted(grant)) => ReplyGrant(grant)
    case Ok(_) => ReplyDone
  }

  function Step(u: Setup, s: State, e: Event): (r: (State, Reply)) {
    match e.call
    case CallIssue(args) =>
      var (t, a) := IssuePermit(u, s, args, e.world);
      (t, if a.Ok? then ReplyPermit(a.value) else ReplyError(a.error))
    case CallSubmit(sub) =>
      var (t, a) := Submit(u, s, sub, e.world);
      (t, SubmitReply(a))
    case CallApprove(commandId, rid, profile) =>
      var (t, a) := Approve(u, s, commandId, rid, profile, e.world);
      (t, if a.Ok? then ReplyGrant(a.value) else ReplyError(a.error))
    case CallReject(commandId, rid, reason) =>
      var (t, a) := Reject(u, s, commandId, rid, reason, e.world);
      (t, if a.Ok? then ReplyDone else ReplyError(a.error))
    case CallRevokePermit(commandId, id, reason) =>
      var (t, a) := RevokePermit(u, s, commandId, id, reason, e.world);
      (t, if a.Ok? then ReplyDone else ReplyError(a.error))
    case CallRevokeEnrollment(commandId, id, reason) =>
      var (t, a) := RevokeEnrollment(u, s, commandId, id, reason, e.world);
      (t, if a.Ok? then ReplyDone else ReplyError(a.error))
  }

  /** The state of an authority started on an empty store. */
  function Fresh(u: Setup): State {
    State(1, Data(map[], map[], map[], {u.node}))
  }
}
