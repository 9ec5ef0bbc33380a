/** The authority as the program runs it: one object, updated in place, with its file beside it. */
module EnrollmentAuthority {
  import opened Basics
  import opened Enrollment
  import opened EnrollmentStore

  // ----------------------------------------------------------------- the loops

  method ExpirePending(requests: map<string, RequestRecord>, now: int)
    returns (records: map<string, RequestRecord>, changed: bool)
    ensures records == ExpireDue(requests, now)
    ensures changed == AnyDue(requests, now)
  {
    hide *;
    records, changed := requests, false;
    HalfwayStarts(requests, now);
    var rest := requests.Keys;
    while rest != {}
      invariant rest <= requests.Keys && Halfway(requests, records, rest, now, changed)
      decreases |rest|
    {
      var id :| id in rest;
      HalfwayNext(requests, records, rest, now, changed, id);
      rest := rest - {id};
      if Due(records[id], now) {
        records := records[id := Expire(records[id])];
        changed := true;
      }
    }
    HalfwayEnds(requests, records, now, changed);
  }

  /** The requests while expiry goes over them: those still left are as they were. */
  ghost predicate Halfway(requests: map<string, RequestRecord>, records: map<string, RequestRecord>,
      rest: set<string>, now: int, changed: bool) {
    && records.Keys == requests.Keys
    && (forall id :: id in requests ==> records[id] == if id in rest
                                        || !Due(requests[id], now) then requests[id] else Expire(requests[id]))
    && (changed ==> AnyDue(requests, now))
    && (!changed ==> forall id :: id in requests && id !in rest ==> !Due(requests[id], now))
  }

  lemma HalfwayStarts(requests: map<string, RequestRecord>, now: int)
    ensures Halfway(requests, requests, requests.Keys, now, false)
  {
  }

  lemma HalfwayNext(requests: map<string, RequestRecord>, records: map<string, RequestRecord>, rest: set<string>,
      now: int, changed: bool, id: string)
    requires Halfway(requests, records, rest, now, changed) && id in rest && id in requests
    ensures id in records
    ensures if Due(records[id], now) then Halfway(requests, records[id := Expire(records[id])], rest - {id}, now, true)
            else Halfway(requests, records, rest - {id}, now, changed)
  {
    hide Due, Expire;
    assert records[id] == requests[id];
  }

  lemma HalfwayEnds(requests: map<string, RequestRecord>, records: map<string, RequestRecord>, now: int, changed: bool)
    requires Halfway(requests, records, {}, now, changed)
    ensures records == ExpireDue(requests, now) && changed == AnyDue(requests, now)
  {
    hide Due, Expire;
  }

  lemma ExpiryKeepsKeys(d: Data, now: int)
    requires Keyed(d)
    ensures Keyed(d.(requests := ExpireDue(d.requests, now)))
  {
    hide Due;
  }

  method CountPending(requests: map<string, RequestRecord>) returns (count: nat)
    ensures count == |PendingIds(requests)|
  {
    count := 0;
    var rest := requests.Keys;
    ghost var counted := {};
    while rest != {}
      invariant rest <= requests.Keys && count == |counted|
      invariant forall id :: id in counted <==> id in PendingIds(requests) && id !in rest
      decreases |rest|
    {
      var id :| id in rest;
      rest := rest - {id};
      if requests[id].status == Pending {
        count := count + 1;
        counted := counted + {id};
      }
    }
    assert counted == PendingIds(requests);
  }

  method CountPendingFor(requests: map<string, RequestRecord>, parent: NodeId) returns (count: nat)
    ensures count == |PendingIdsFor(requests, parent)|
  {
    count := 0;
    var rest := requests.Keys;
    ghost var counted := {};
    while rest != {}
      invariant rest <= requests.Keys && count == |counted|
      invariant forall id :: id in counted <==> id in PendingIdsFor(requests, parent) && id !in rest
      decreases |rest|
    {
      var id :| id in rest;
      rest := rest - {id};
      if requests[id].status == Pending && requests[id].parentNode == parent {
        count := count + 1;
        counted := counted + {id};
      }
    }
    assert counted == PendingIdsFor(requests, parent);
  }

  method FindPermitFor(permits: map<string, PermitRecord>, order: seq<string>, issueRequestId: string)
      returns (r: Option<string>)
    ensures r == FindIssued(permits, order, issueRequestId)
  {
    for i := 0 to |order|
      invariant FindIssued(permits, order, issueRequestId) == FindIssued(permits, order[i..], issueRequestId)
    {
      if order[i] in permits && permits[order[i]].issueRequestId == issueRequestId { return Some(order[i]); }
      assert order[i..][1..] == order[i + 1..];
    }
    r := None;
  }

  method FindLiveRequest(requests: map<string, RequestRecord>, order: seq<string>, fingerprint: string,
      sub: Submission) returns (r: Option<string>)
    ensures r == FindLive(requests, order, fingerprint, sub)
  {
    for i := 0 to |order|
      invariant FindLive(requests, order, fingerprint, sub) == FindLive(requests, order[i..], fingerprint, sub)
    {
      if order[i] in requests && Live(requests[order[i]], fingerprint, sub) { return Some(order[i]); }
      assert order[i..][1..] == order[i + 1..];
    }
    r := None;
  }

  method DrawNodeId(entropy: seq<byte>, used: set<NodeId>) returns (r: Option<(NodeId, seq<byte>)>)
    ensures r == AllocateNodeId(entropy, used, ATTEMPTS)
  {
    var raw := entropy;
    for attempt := 0 to ATTEMPTS
      invariant AllocateNodeId(entropy, used, ATTEMPTS) == AllocateNodeId(raw, used, ATTEMPTS - attempt)
    {
      if |raw| < 8 { return None; }
      var candidate := FromBytes(raw[..8]) % NODE_ID_MASK;
      if candidate != 0 && candidate !in used { return Some((candidate, raw[8..])); }
      raw := raw[8..];
    }
    r := None;
  }

  method DrawId(entropy: seq<byte>, taken: set<string>) returns (r: Option<string>)
    ensures r == NewId(entropy, taken, ATTEMPTS)
  {
    var raw := entropy;
    for attempt := 0 to ATTEMPTS
      invariant NewId(entropy, taken, ATTEMPTS) == NewId(raw, taken, ATTEMPTS - attempt)
    {
      if |raw| < 16 { return None; }
      var id := Hex(raw[..16]);
      if !AllZeros(id) && id !in taken { return Some(id); }
      raw := raw[16..];
    }
    r := None;
  }

  // ------------------------------------------------------------------ the object

  class Authority {
    const setup: Setup
    var generation: nat
    var data: Data
    var file: Stored

    ghost function Now(): State
      reads this
    {
      State(generation, data)
    }

    /** The file always holds exactly what is in memory. */
    ghost predicate Valid()
      reads this
    {
      Keyed(data) && generation < U64 && Stores(setup, Now(), file)
    }

    /** Starts on an empty store. */
    constructor (setup: Setup, file: Stored)
      requires Stores(setup, Fresh(setup), file)
      ensures Valid() && Now() == Fresh(setup) && this.setup == setup
    {
      this.setup := setup;
      generation, data := 1, Data(map[], map[], map[], {setup.node});
      this.file := file;
    }

    method CommitData(next: Data, saveOk: bool) returns (r: Result<(), Error>)
      requires Valid() && Keyed(next)
      modifies this
      ensures Valid()
      ensures match Commit(old(Now()), next, saveOk)
              case Ok(t) => Now() == t && r == Ok(())
              case Err(e) => Now() == old(Now()) && file == old(file) && r == Err(e)
    {
      if generation == U64 - 1 { return Err(GenerationExhausted); }
      var written := Save(setup, State(generation + 1, next));
      if !saveOk { return Err(SaveFailed); }
      data, generation, file := next, generation + 1, written;
      r := Ok(());
    }

    method IssuePermit(a: IssueArgs, w: World) returns (r: Result<Permit, Error>)
      requires Valid()
      modifies this
      ensures Valid()
      ensures (Now(), r) == Enrollment.IssuePermit(setup, old(Now()), a, w)
    {
      if !IssueArgsOk(setup, a) { return Err(InvalidInput); }
      var issued := FindPermitFor(data.permits, w.permitOrder, a.issueRequestId);
      if issued.Some? {
        var p := data.permits[issued.value].permit;
        if p.body.fingerprint != a.fingerprint || p.body.target != a.target
           || p.body.allowDescendants != a.allowDescendants || p.body.profile != a.profile
        { return Err(Conflict); }
        return Ok(p);
      }
      if |data.permits| >= setup.config.maxPermits { return Err(LimitReached); }
      var id := DrawId(w.entropy, data.permits.Keys);
      if id.None? { return Err(NoRandom); }
      var permit := MakePermit(setup, generation, a, id.value, w.clock);
      if !PermitOk(setup.crypto, permit) { return Err(InvalidInput); }
      var record := PermitRecord(permit, PermitActive, a.issueRequestId, "", 0, 0, "");
      var saved := CommitData(data.(permits := data.permits[id.value := record]), w.saveOk);
      r := if saved.Ok? then Ok(permit) else Err(saved.error);
    }

    method RevokePermit(commandId: string, permitId: string, reason: string, w: World) returns (r: Result<(), Error>)
      requires Valid()
      modifies this
      ensures Valid()
      ensures (Now(), r) == Enrollment.RevokePermit(setup, old(Now()), commandId, permitId, reason, w)
    {
      if !HexId(commandId, 16) || !HexId(permitId, 16) || reason == "" || |reason| > MAX_LABEL_BYTES {
        return Err(InvalidInput);
      }
      if permitId !in data.permits { return Err(NotFound); }
      var record := data.permits[permitId];
      if record.status == PermitRevoked { return Ok(()); }
      if record.status == PermitConsumed { return Err(ConsumedPermit); }
      record := record.(status := PermitRevoked, reason := reason, revokedAt := UnixMilli(w.clock));
      r := CommitData(data.(permits := data.permits[permitId := record]), w.saveOk);
    }

    /** Fills in the grant for one request on a copy of the data. */
    method GrantOn(next: Data, request: RequestRecord, profile: string, now: int, entropy: seq<byte>)
      returns (r: Result<(Data, Grant), Error>)
      requires Keyed(next)
      ensures r == GrantRequest(setup, generation, next, request, profile, now, entropy)
      ensures r.Ok? ==> Keyed(r.value.0) && r.value.0.permits == next.permits
    {
      if |next.enrollments| >= setup.config.maxEnrollments { return Err(LimitReached); }
      var node := DrawNodeId(entropy, next.used);
      if node.None? { return Err(NoRandom); }
      var id := DrawId(node.value.1, next.enrollments.Keys);
      if id.None? { return Err(NoRandom); }
      var grant := MakeGrant(setup, generation, request, profile, node.value.0, id.value, now);
      if !GrantOk(setup.crypto, grant) { return Err(InvalidInput); }
      r := Ok((AddEnrollment(next, request, profile, grant, now), grant));
    }

    method GrantWithPermit(next: Data, sub: Submission, request: RequestRecord, now: int, w: World)
        returns (r: Result<Outcome, Error>)
      requires Valid() && Keyed(next) && sub.permit.Some?
      modifies this
      ensures Valid()
      ensures (Now(), r) == Enrollment.GrantWithPermit(setup, old(Now()), next, sub, request, now, w)
    {
      var consumed := ConsumePermit(setup, next, sub, setup.crypto.fingerprint(sub.deviceKey), now);
      if consumed.Err? { return Err(consumed.error); }
      var record := consumed.value;
      var granted := GrantOn(next, request.(transcript := Hex(sub.digest)), record.permit.body.profile, now, w.entropy);
      if granted.Err? { return Err(granted.error); }
      var (filled, grant) := granted.value;
      var final :=
        filled.(permits := filled.permits[record.permit.body.permitId := ConsumedBy(record, sub.requestId, now)]);
      var saved := CommitData(final, w.saveOk);
      r := if saved.Ok? then Ok(OutcomeGranted(grant)) else Err(saved.error);
    }

    method AnswerExisting(next: Data, existing: RequestRecord, changed: bool, w: World)
        returns (r: Result<Outcome, Error>)
      requires Valid() && Keyed(next)
      modifies this
      ensures Valid()
      ensures (Now(), r) == Enrollment.AnswerExisting(old(Now()), next, existing, changed, w)
    {
      if changed {
        var saved := CommitData(next, w.saveOk);
        if saved.Err? { return Err(saved.error); }
      }
      r := OutcomeFor(data, existing);
    }

    method Submit(sub: Submission, w: World) returns (r: Result<Outcome, Error>)
      requires Valid()
      modifies this
      ensures Valid()
      ensures (Now(), r) == Enrollment.Submit(setup, old(Now()), sub, w)
    {
      hide SubmissionOk, UnixMilli, ExpireDue, AnyDue, SameDevice, Keyed, Enrollment.GrantWithPermit,
        Enrollment.AnswerExisting,
           Enrollment.SubmitNew, FindLive;
      if !SubmissionOk(sub) { return Err(InvalidInput); }
      var fingerprint := setup.crypto.fingerprint(sub.deviceKey);
      var now := UnixMilli(w.clock);
      var requests, changed := ExpirePending(data.requests, now);
      var next := data.(requests := requests);
      ExpiryKeepsKeys(data, now);
      if sub.requestId in next.requests {
        var existing := next.requests[sub.requestId];
        if !SameDevice(existing, fingerprint, sub) { return Err(Conflict); }
        if sub.permit.Some? && existing.status != Approved {
          r := GrantWithPermit(next, sub, existing, now, w);
        } else {
          r := AnswerExisting(next, existing, changed, w);
        }
        return;
      }
      var live := FindLiveRequest(next.requests, w.requestOrder, fingerprint, sub);
      if live.Some? {
        var existing := next.requests[live.value];
        if sub.permit.Some? && existing.status == Pending {
          r := GrantWithPermit(next, sub, existing, now, w);
        } else {
          r := AnswerExisting(next, existing, changed, w);
        }
        return;
      }
      r := SubmitNew(next, sub, now, w);
    }

    method SubmitNew(next: Data, sub: Submission, now: int, w: World) returns (r: Result<Outcome, Error>)
      requires Valid() && Keyed(next)
      modifies this
      ensures Valid()
      ensures (Now(), r) == Enrollment.SubmitNew(setup, old(Now()), next, sub, now, w)
    {
      var request := NewRequest(setup, sub, now);
      if |next.requests| >= setup.config.maxRequests { return Err(LimitReached); }
      if sub.permit.Some? {
        r := GrantWithPermit(next, sub, request, now, w);
        return;
      }
      var pending := CountPending(next.requests);
      if pending >= setup.config.maxPending { return Err(LimitReached); }
      pending := CountPendingFor(next.requests, sub.parentNode);
      if pending >= setup.config.maxPendingPerParent { return Err(LimitReached); }
      var saved := CommitData(next.(requests := next.requests[sub.requestId := request]), w.saveOk);
      r := if saved.Ok? then Ok(OutcomePending) else Err(saved.error);
    }

    method Approve(commandId: string, rid: string, profile: string, w: World) returns (r: Result<Grant, Error>)
      requires Valid()
      modifies this
      ensures Valid()
      ensures (Now(), r) == Enrollment.Approve(setup, old(Now()), commandId, rid, profile, w)
    {
      if !HexId(commandId, 16) || !HexId(rid, 16) || profile == "" || |profile| > MAX_IDENTIFIER_BYTES {
        return Err(InvalidInput);
      }
      if rid !in data.requests { return Err(NotFound); }
      var request := data.requests[rid];
      if request.status == Approved {
        if request.enrollmentId !in data.enrollments
          || data.enrollments[request.enrollmentId].status != EnrollmentActive {
          return Err(RevokedEnrollment);
        }
        return Ok(data.enrollments[request.enrollmentId].grant);
      }
      if request.status == Rejected { return Err(RejectedRequest); }
      if request.status == Expired || Due(request, UnixMilli(w.clock)) {
        if request.status == Pending {
          var saved := CommitData(data.(requests := data.requests[rid := Expire(request)]), w.saveOk);
          if saved.Err? { return Err(saved.error); }
        }
        return Err(ExpiredRequest);
      }
      if request.status != Pending { return Err(Conflict); }
      var granted := GrantOn(data, request, profile, UnixMilli(w.laterClock), w.entropy);
      if granted.Err? { return Err(granted.error); }
      var saved := CommitData(granted.value.0, w.saveOk);
      r := if saved.Ok? then Ok(granted.value.1) else Err(saved.error);
    }

    method Reject(commandId: string, rid: string, reason: string, w: World) returns (r: Result<(), Error>)
      requires Valid()
      modifies this
      ensures Valid()
      ensures (Now(), r) == Enrollment.Reject(setup, old(Now()), commandId, rid, reason, w)
    {
      if !HexId(commandId, 16) || !HexId(rid, 16) || reason == "" || |reason| > MAX_LABEL_BYTES {
        return Err(InvalidInput);
      }
      if rid !in data.requests { return Err(NotFound); }
      var request := data.requests[rid];
      if request.status == Rejected { return Ok(()); }
      if request.status == Expired || Due(request, UnixMilli(w.clock)) {
        if request.status == Pending {
          var saved := CommitData(data.(requests := data.requests[rid := Expire(request)]), w.saveOk);
          if saved.Err? { return Err(saved.error); }
        }
        return Err(ExpiredRequest);
      }
      if request.status != Pending { return Err(Conflict); }
      request := request.(status := Rejected, reason := reason, updatedAt := UnixMilli(w.laterClock));
      r := CommitData(data.(requests := data.requests[rid := request]), w.saveOk);
    }

    method RevokeEnrollment(commandId: string, id: string, reason: string, w: World) returns (r: Result<NodeId, Error>)
      requires Valid()
      modifies this
      ensures Valid()
      ensures (Now(), r) == Enrollment.RevokeEnrollment(setup, old(Now()), commandId, id, reason, w)
    {
      if !HexId(commandId, 16) || !HexId(id, 16) || reason == "" || |reason| > MAX_LABEL_BYTES {
        return Err(InvalidInput);
      }
      if id !in data.enrollments { return Err(NotFound); }
      var record := data.enrollments[id];
      if record.status == EnrollmentRevoked { return Ok(record.grant.body.node); }
      var revoked := record.(status := EnrollmentRevoked, reason := reason, revokedAt := UnixMilli(w.clock));
      var saved := CommitData(data.(enrollments := data.enrollments[id := revoked]), w.saveOk);
      r := if saved.Ok? then Ok(record.grant.body.node) else Err(saved.error);
    }
  }
}
