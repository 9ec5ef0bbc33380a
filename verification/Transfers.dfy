/**
 * File transfers: an offer reserves bytes, chunks are appended at the received boundary, completion
 * checks size and checksum, and transfers end by completion, cancellation, failure or expiry.
 */
module Transfers {
  import opened Basics
  import opened Ordering

  const MAX_CHUNK: int := 0x1_0000

  datatype Offer = Offer(id: string, path: string, size: int, sha: string, chunkSize: int, contentType: string,
    expiresAt: int)

  datatype Status = Offered | Receiving | Completed | Cancelled | Failed

  /** One transfer. `content` is its file; `chunks` records the accepted chunks, only to state what is promised. */
  datatype Transfer = Transfer(
    offer: Offer, owner: NodeId, content: seq<byte>, received: int, status: Status, error: string,
      chunks: seq<seq<byte>>)

  datatype Config = Config(maxFile: int, maxTotal: int, maxActive: int, maxHistory: int, maxLifetime: int)

  datatype Controller = Controller(transfers: map<string, Transfer>, activeBytes: int)

  /** The limits the constructor insists on; file sizes are 64-bit numbers. */
  predicate ConfigOk(k: Config) {
    0 < k.maxFile <= k.maxTotal <= I64_MAX && 1 <= k.maxActive <= k.maxHistory <= 4096 && k.maxLifetime >= 1000
  }

  predicate Active(t: Transfer) { t.status.Offered? || t.status.Receiving? }

  // ------------------------------------------------------------------- sums over transfers

  function Bytes(t: Transfer): (n: nat) { if Active(t) && t.offer.size >= 0 then t.offer.size else 0 }

  function One(t: Transfer): (n: nat) { if Active(t) then 1 else 0 }

  ghost function Sum(m: map<string, Transfer>, w: Transfer -> nat): (n: nat)
    decreases |m|
  {
    if m == map[] then 0
    else
      var k :| k in m;
      OneLess(m, k);
      w(m[k]) + Sum(m - {k}, w)
  }

  /** Any member can be counted first. */
  lemma {:induction false} SumWithout(m: map<string, Transfer>, w: Transfer -> nat, k: string)
    requires k in m
    ensures Sum(m, w) == w(m[k]) + Sum(m - {k}, w)
    decreases |m|
  {
    var j :| j in m && Sum(m, w) == w(m[j]) + Sum(m - {j}, w);
    if j != k {
      OneLess(m, j);
      OneLess(m, k);
      SumWithout(m - {j}, w, k);
      SumWithout(m - {k}, w, j);
      assert (m - {j}) - {k} == (m - {k}) - {j};
    }
  }

  lemma SumUpdate(m: map<string, Transfer>, w: Transfer -> nat, k: string, t: Transfer)
    ensures Sum(m[k := t], w) == Sum(m, w) + w(t) - if k in m then w(m[k]) else 0
  {
    SumWithout(m[k := t], w, k);
    if k in m {
      SumWithout(m, w, k);
      assert m[k := t] - {k} == m - {k};
    } else {
      assert m[k := t] - {k} == m;
    }
  }

  lemma SumRemove(m: map<string, Transfer>, w: Transfer -> nat, k: string)
    requires k in m
    ensures Sum(m - {k}, w) == Sum(m, w) - w(m[k])
  {
    SumWithout(m, w, k);
  }

  lemma {:induction false} SumLessThanSize(m: map<string, Transfer>)
    requires Sum(m, One) < |m|
    ensures exists k :: k in m && !Active(m[k])
    decreases |m|
  {
    if m == map[] {
    } else {
      var k :| k in m;
      SumWithout(m, One, k);
      OneLess(m, k);
      if Active(m[k]) {
        SumLessThanSize(m - {k});
        var j :| j in m - {k} && !Active((m - {k})[j]);
        assert j in m && !Active(m[j]);
      }
    }
  }

  // ----------------------------------------------------------------------- the steps

  datatype Error =
    | InvalidRequest | OverLimits | Exists | NoCapacity | Io | PublishFailed | BadChecksum | Unknown | Terminal
    | TooLong | Overlap | Conflict | Gap | Mismatch

  predicate OfferOk(o: Offer, texts: bool) {
    && texts && HexId(o.id, 16) && HexId(o.sha, 32) && 0 <= o.size <= I64_MAX && 1 <= o.chunkSize <= MAX_CHUNK
       && o.expiresAt > 0
  }

  predicate Expires(t: Transfer, now: int) { Active(t) && t.offer.expiresAt <= now }

  function AfterExpiry(t: Transfer, now: int): (r: Transfer) {
    if Expires(t, now) then t.(status := Failed, error := "transfer expired") else t
  }

  function AllAfter(m: map<string, Transfer>, now: int): (r: map<string, Transfer>)
    ensures r.Keys == m.Keys && forall id :: id in m ==> r[id] == AfterExpiry(m[id], now)
  {
    map id | id in m :: AfterExpiry(m[id], now)
  }

  /** Fails every active transfer whose time is up and gives its bytes back. */
  ghost function Expire(c: Controller, now: int): (r: Controller) {
    var after := AllAfter(c.transfers, now);
    Controller(after, c.activeBytes - (Sum(c.transfers, Bytes) - Sum(after, Bytes)))
  }

  function Put(c: Controller, id: string, t: Transfer): (r: Controller) { c.(transfers := c.transfers[id := t]) }

  function Fail(c: Controller, id: string, error: string): (r: Controller)
    requires id in c.transfers
  {
    var t := c.transfers[id];
    Controller(c.transfers[id := t.(status := Failed, error := error)],
      if Active(t) then c.activeBytes - t.offer.size else c.activeBytes)
  }

  /** The identifiers of finished transfers, in order. */
  function Finished(m: map<string, Transfer>): (r: set<string>) { set id | id in m && !Active(m[id]) }

  /** Forgets finished transfers in order of their identifiers until the history fits. */
  function Trim(m: map<string, Transfer>, ids: seq<string>, maxHistory: int): (r: map<string, Transfer>)
    decreases |ids|
  {
    if |m| <= maxHistory || ids == [] then m else Trim(m - {ids[0]}, ids[1..], maxHistory)
  }

  /** Offers a new file. */
  ghost function MakeOffer(k: Config, c: Controller, owner: NodeId, o: Offer, texts: bool, now: int, ioOk: bool,
      publishOk: bool):
    (r: (Controller, Result<Transfer, Error>))
  {
    if !OfferOk(o, texts) then (c, Err(InvalidRequest))
    else if o.size > k.maxFile || o.expiresAt <= now || o.expiresAt > now + k.maxLifetime then (c, Err(OverLimits))
    else
      var d := Expire(c, now);
      if o.id in d.transfers then
        if d.transfers[o.id].owner == owner && d.transfers[o.id].offer == o
        then (d, Ok(d.transfers[o.id])) else (d, Err(Exists))
      else if Sum(d.transfers, One) >= k.maxActive || o.size > k.maxTotal - d.activeBytes then (d, Err(NoCapacity))
      else if !ioOk then (d, Err(Io))
      else
        var t := Transfer(o, owner, [], 0, Offered, "", []);
        var kept := Trim(d.transfers[o.id := t], Listing(Finished(d.transfers[o.id := t])), k.maxHistory);
        if publishOk then (Controller(kept, d.activeBytes + o.size), Ok(t))
        else (Controller(kept - {o.id}, d.activeBytes), Err(PublishFailed))
  }

  /** The active transfer of a caller. */
  function OwnedProblem(c: Controller, owner: NodeId, id: string): (r: Option<Error>) {
    if id !in c.transfers || c.transfers[id].owner != owner then Some(Unknown)
    else if !Active(c.transfers[id]) then Some(Terminal) else None
  }

  datatype Chunk = Chunk(id: string, offset: int, data: seq<byte>, sha: string)

  predicate ChunkOk(h: Chunk) {
    HexId(h.id, 16) && 0 <= h.offset <= I64_MAX && 1 <= |h.data| <= MAX_CHUNK && HexId(h.sha, 32)
  }

  /** What the boundary checks make of a chunk; the end of the chunk is a 64-bit sum that may wrap around. */
  datatype Placement = Refused(error: Error) | Repeated | Appended

  function Place(t: Transfer, h: Chunk): (r: Placement) {
    var end := WrapI64(h.offset + |h.data|);
    if |h.data| > t.offer.chunkSize || end > t.offer.size then Refused(TooLong)
    else if h.offset < t.received then
      if end > t.received then Refused(Overlap)
      else if 0 <= h.offset && h.offset + |h.data| <= |t.content|
           && t.content[h.offset..h.offset + |h.data|] == h.data then Repeated
      else Refused(Conflict)
    else if h.offset != t.received then Refused(Gap)
    else Appended
  }

  /** Writes data at an offset of a file, which grows as needed. */
  function WriteAt(content: seq<byte>, offset: nat, data: seq<byte>): (r: seq<byte>) {
    var padded := if offset > |content| then content + seq(offset - |content|, _ => 0 as byte) else content;
    padded[..offset] + data + if offset + |data| <= |padded| then padded[offset + |data|..] else []
  }

  function Accept(t: Transfer, h: Chunk): (r: Transfer)
    requires h.offset >= 0
  {
    t.(content := WriteAt(t.content, h.offset, h.data), received := WrapI64(t.received + |h.data|), status := Receiving,
       chunks := t.chunks + [h.data])
  }

  ghost function TakeChunk(c: Controller, hash: seq<byte> -> string, owner: NodeId, h: Chunk, now: int, writeOk: bool,
      publishOk: bool):
    (r: (Controller, Result<Transfer, Error>))
  {
    if !ChunkOk(h) then (c, Err(InvalidRequest))
    else if hash(h.data) != h.sha then (c, Err(BadChecksum))
    else
      var d := Expire(c, now);
      var problem := OwnedProblem(d, owner, h.id);
      if problem.Some? then (d, Err(problem.value))
      else
        var t := d.transfers[h.id];
        match Place(t, h)
        case Refused(e) => (d, Err(e))
        case Repeated => (d, Ok(t))
        case Appended =>
          if !writeOk then (Fail(d, h.id, "write"), Err(Io))
          else (Put(d, h.id, Accept(t, h)), if publishOk then Ok(Accept(t, h)) else Err(PublishFailed))
  }

  /** What can go wrong while a file is being finished, in the order it is tried. */
  datatype Finishing = SyncFails | SeekFails | ReadFails | CloseFails | DestinationExists | RenameFails | AllWell

  ghost function Finish(
    c: Controller, hash: seq<byte> -> string, owner: NodeId, id: string, size: int, sha: string, now: int,
      f: Finishing, publishOk: bool):
    (r: (Controller, Result<Transfer, Error>))
  {
    if !HexId(id, 16) || size < 0 || !HexId(sha, 32) then (c, Err(InvalidRequest))
    else
      var d := Expire(c, now);
      var problem := OwnedProblem(d, owner, id);
      if problem.Some? then (d, Err(problem.value))
      else
        var t := d.transfers[id];
        if size != t.offer.size || sha != t.offer.sha || t.received != t.offer.size then (d, Err(Mismatch))
        else if f.SyncFails? || f.SeekFails? || f.ReadFails? then (Fail(d, id, "finish"), Err(Io))
        else if hash(t.content) != t.offer.sha then (Fail(d, id, "checksum"), Err(BadChecksum))
        else if !f.AllWell? then (Fail(d, id, "finish"), Err(Io))
        else
          var done := t.(status := Completed);
          (Controller(d.transfers[id := done], d.activeBytes - t.offer.size),
            if publishOk then Ok(done) else Err(PublishFailed))
  }

  function Cancel(c: Controller, owner: NodeId, id: string, reason: string, texts: bool, publishOk: bool):
    (r: (Controller, Result<Transfer, Error>))
  {
    if !HexId(id, 16) || !texts then (c, Err(InvalidRequest))
    else if id !in c.transfers || c.transfers[id].owner != owner then (c, Err(Unknown))
    else
      var t := c.transfers[id];
      if t.status.Cancelled? then (c, Ok(t))
      else if t.status.Completed? || t.status.Failed? then (c, Err(Terminal))
      else
        var ended := t.(status := Cancelled, error := reason);
        (Controller(c.transfers[id := ended], c.activeBytes - t.offer.size),
          if publishOk then Ok(ended) else Err(PublishFailed))
  }

  function Abort(c: Controller, owner: NodeId, id: string, reason: string): (r: Controller) {
    if id !in c.transfers || c.transfers[id].owner != owner || !Active(c.transfers[id]) then c else Fail(c, id, reason)
  }

  // ------------------------------------------------------------------------- runs

  datatype Event =
    | DoOffer(owner: NodeId, offer: Offer, texts: bool, ioOk: bool)
    | DoChunk(owner: NodeId, chunk: Chunk, writeOk: bool)
    | DoFinish(owner: NodeId, id: string, size: int, sha: string, finishing: Finishing)
    | DoCancel(owner: NodeId, id: string, reason: string, texts: bool)
    | DoAbort(owner: NodeId, id: string, reason: string)
    | DoSweep

  datatype Moment = Moment(event: Event, now: int, publishOk: bool)

  ghost function Step(k: Config, hash: seq<byte> -> string, c: Controller, m: Moment): (r: Controller) {
    match m.event
    case DoOffer(owner, o, texts, ioOk) => MakeOffer(k, c, owner, o, texts, m.now, ioOk, m.publishOk).0
    case DoChunk(owner, h, writeOk) => TakeChunk(c, hash, owner, h, m.now, writeOk, m.publishOk).0
    case DoFinish(owner, id, size, sha, f) => Finish(c, hash, owner, id, size, sha, m.now, f, m.publishOk).0
    case DoCancel(owner, id, reason, texts) => Cancel(c, owner, id, reason, texts, m.publishOk).0
    case DoAbort(owner, id, reason) => Abort(c, owner, id, reason)
    case DoSweep => Expire(c, m.now)
  }

  function Empty(): (c: Controller) { Controller(map[], 0) }

  ghost predicate IsRun(k: Config, hash: seq<byte> -> string, states: seq<Controller>, moments: seq<Moment>) {
    && |states| == |moments| + 1 && states[0] == Empty()
    && forall i :: 0 <= i < |moments| ==> states[i + 1] == Step(k, hash, states[i], moments[i])
  }

  // ---------------------------------------------------------------------- invariant

  /** The end of no chunk of a file of this size and chunk size can exceed the largest 64-bit number. */
  predicate CannotWrap(o: Offer) { o.size + o.chunkSize <= I64_MAX }

  /**
   * What is stored is what was accepted, and the received count is its length as a 64-bit number: within the size
   * announced, or past the largest 64-bit number by less than a chunk. A completed file has the announced checksum.
   */
  predicate TransferOk(k: Config, hash: seq<byte> -> string, id: string, t: Transfer) {
    && t.offer.id == id && 0 <= t.offer.size <= k.maxFile && 1 <= t.offer.chunkSize <= MAX_CHUNK
    && t.content == Join(t.chunks) && t.received == WrapI64(|t.content|)
    && (|t.content| <= t.offer.size || I64_MAX < |t.content| <= t.offer.size + t.offer.chunkSize)
    && (t.status.Completed? ==> t.received == t.offer.size && hash(t.content) == t.offer.sha)
  }

  /** The length of a file tells whether its received count has wrapped around, which is final. */
  lemma LengthOf(k: Config, hash: seq<byte> -> string, id: string, t: Transfer)
    requires k.maxFile <= I64_MAX && TransferOk(k, hash, id, t)
    ensures 0 <= t.received <= t.offer.size ==> |t.content| == t.received
    ensures t.received < 0 ==> |t.content| == t.received + U64
    ensures t.received < 0 || 0 <= t.received <= t.offer.size
    ensures CannotWrap(t.offer) || t.status.Completed? ==> 0 <= t.received
  {
  }

  ghost predicate AllOk(k: Config, hash: seq<byte> -> string, m: map<string, Transfer>) {
    forall id :: id in m ==> TransferOk(k, hash, id, m[id])
  }

  ghost predicate CountsOk(k: Config, c: Controller) {
    && c.activeBytes == Sum(c.transfers, Bytes) <= k.maxTotal
    && Sum(c.transfers, One) <= k.maxActive && |c.transfers| <= k.maxHistory
  }

  ghost predicate Inv(k: Config, hash: seq<byte> -> string, c: Controller)
  {
    AllOk(k, hash, c.transfers) && CountsOk(k, c)
  }

  // ------------------------------------------------------------------- chunks stay inside

  /** A chunk is appended where the file ends, and ends inside the announced size exactly if its end does not wrap. */
  lemma AppendedFits(k: Config, hash: seq<byte> -> string, t: Transfer, h: Chunk)
    requires k.maxFile <= I64_MAX && TransferOk(k, hash, h.id, t) && ChunkOk(h) && Place(t, h).Appended?
    ensures h.offset == t.received == |t.content| && 0 < |h.data| <= t.offer.chunkSize
    ensures h.offset + |h.data| <= t.offer.size <==> h.offset + |h.data| <= I64_MAX
    ensures CannotWrap(t.offer) ==> h.offset + |h.data| <= t.offer.size
    ensures Accept(t, h).content == t.content + h.data
  {
    LengthOf(k, hash, h.id, t);
  }

  // ------------------------------------------------------------------- each step keeps it

  lemma {:induction false} ExpiryShrinks(m: map<string, Transfer>, now: int)
    ensures Sum(AllAfter(m, now), Bytes) <= Sum(m, Bytes) && Sum(AllAfter(m, now), One) <= Sum(m, One)
    decreases |m|
  {
    if m == map[] {
      assert AllAfter(m, now) == map[];
    } else {
      var k :| k in m;
      OneLess(m, k);
      AfterLess(m, now, k);
      hide Sum, AllAfter;
      ExpiryShrinks(m - {k}, now);
      SumWithout(m, Bytes, k);
      SumWithout(m, One, k);
      SumWithout(AllAfter(m, now), Bytes, k);
      SumWithout(AllAfter(m, now), One, k);
    }
  }

  lemma AfterLess(m: map<string, Transfer>, now: int, k: string)
    requires k in m
    ensures AllAfter(m, now) - {k} == AllAfter(m - {k}, now)
  {
  }

  lemma ExpireKeeps(k: Config, hash: seq<byte> -> string, c: Controller, now: int)
    requires Inv(k, hash, c)
    ensures Inv(k, hash, Expire(c, now))
  {
    ExpiryShrinks(c.transfers, now);
    var after := AllAfter(c.transfers, now);
    assert |after| == |after.Keys| && |c.transfers| == |c.transfers.Keys|;
    hide Sum, Join, AllAfter;
  }

  /** A finished transfer counts for nothing. */
  lemma EndKeeps(k: Config, hash: seq<byte> -> string, c: Controller, id: string, t: Transfer)
    requires Inv(k, hash, c) && id in c.transfers && Active(c.transfers[id]) && !Active(t) && TransferOk(k, hash, id, t)
    ensures Inv(k, hash, Controller(c.transfers[id := t], c.activeBytes - c.transfers[id].offer.size))
  {
    SumUpdate(c.transfers, Bytes, id, t);
    SumUpdate(c.transfers, One, id, t);
    SameSize(c.transfers, id, t);
    assert TransferOk(k, hash, id, c.transfers[id]);
    hide Sum, Join;
  }

  /** Failing a transfer gives its bytes back once, and only if it still held them. */
  lemma FailKeeps(k: Config, hash: seq<byte> -> string, c: Controller, id: string, error: string)
    requires Inv(k, hash, c) && id in c.transfers
    ensures Inv(k, hash, Fail(c, id, error))
  {
    var failed := c.transfers[id].(status := Failed, error := error);
    assert TransferOk(k, hash, id, c.transfers[id]);
    assert TransferOk(k, hash, id, failed);
    hide Join, TransferOk;
    if Active(c.transfers[id]) {
      EndKeeps(k, hash, c, id, failed);
    } else {
      SumUpdate(c.transfers, Bytes, id, failed);
      SumUpdate(c.transfers, One, id, failed);
      SameSize(c.transfers, id, failed);
      hide Sum;
    }
  }

  lemma AcceptedOk(k: Config, hash: seq<byte> -> string, t: Transfer, h: Chunk)
    requires k.maxFile <= I64_MAX && TransferOk(k, hash, h.id, t) && ChunkOk(h) && Active(t) && Place(t, h).Appended?
    ensures TransferOk(k, hash, h.id, Accept(t, h)) && Active(Accept(t, h)) && Accept(t, h).offer == t.offer
  {
    AppendedFits(k, hash, t, h);
    JoinMore(t.chunks, h.data);
    hide Join, WriteAt, HexId;
  }

  lemma ChunkKeeps(k: Config, hash: seq<byte> -> string, c: Controller, h: Chunk)
    requires k.maxFile <= I64_MAX && Inv(k, hash, c) && ChunkOk(h)
    requires h.id in c.transfers && Active(c.transfers[h.id]) && Place(c.transfers[h.id], h).Appended?
    ensures Inv(k, hash, Put(c, h.id, Accept(c.transfers[h.id], h)))
  {
    hide TransferOk, Sum, Place, HexId, Accept;
    var t := c.transfers[h.id];
    var u := Accept(t, h);
    AcceptedOk(k, hash, t, h);
    SumUpdate(c.transfers, Bytes, h.id, u);
    SumUpdate(c.transfers, One, h.id, u);
    SameSize(c.transfers, h.id, u);
  }

  ghost predicate AreFinished(m: map<string, Transfer>, ids: seq<string>) {
    && (forall i :: 0 <= i < |ids| ==> ids[i] in m && !Active(m[ids[i]]))
    && (forall i, j :: 0 <= i < j < |ids| ==> ids[i] != ids[j])
    && (forall id :: id in m && !Active(m[id]) ==> id in ids)
  }

  /** Trimming forgets finished transfers only, and always far enough. */
  lemma {:induction false} TrimIs(m: map<string, Transfer>, ids: seq<string>, maxHistory: int)
    requires AreFinished(m, ids) && Sum(m, One) <= maxHistory
    ensures var r := Trim(m, ids, maxHistory);
            && |r| <= maxHistory && Sum(r, One) == Sum(m, One) && Sum(r, Bytes) == Sum(m, Bytes)
            && r.Keys <= m.Keys && (forall id :: id in r ==> r[id] == m[id])
               && (forall id :: id in m && Active(m[id]) ==> id in r)
    decreases |ids|
  {
    if |m| <= maxHistory {
    } else if ids == [] {
      SumLessThanSize(m);
    } else {
      FinishedLess(m, ids);
      hide Sum, AreFinished;
      SumRemove(m, One, ids[0]);
      SumRemove(m, Bytes, ids[0]);
      TrimIs(m - {ids[0]}, ids[1..], maxHistory);
    }
  }

  lemma FinishedLess(m: map<string, Transfer>, ids: seq<string>)
    requires AreFinished(m, ids) && ids != []
    ensures AreFinished(m - {ids[0]}, ids[1..]) && ids[0] in m && !Active(m[ids[0]])
  {
    forall id | id in m - {ids[0]} && !Active(m[id]) ensures id in ids[1..] {
      var i :| 0 <= i < |ids| && ids[i] == id;
      assert ids[1..][i - 1] == id;
    }
  }

  lemma ListedFinished(m: map<string, Transfer>)
    ensures AreFinished(m, Listing(Finished(m)))
  {
    var ids := Listing(Finished(m));
    forall i | 0 <= i < |ids| ensures ids[i] in m && !Active(m[ids[i]]) { assert ids[i] in ids; }
    forall i, j | 0 <= i < j < |ids| ensures ids[i] != ids[j] { LessIrreflexive(ids[i]); }
    forall id | id in m && !Active(m[id]) ensures id in ids { assert id in Finished(m); }
  }

  lemma OfferKeeps(k: Config, hash: seq<byte> -> string, c: Controller, owner: NodeId, o: Offer, publishOk: bool)
    requires ConfigOk(k) && Inv(k, hash, c) && OfferOk(o, true) && o.size <= k.maxFile && o.id !in c.transfers
    requires Sum(c.transfers, One) < k.maxActive && o.size <= k.maxTotal - c.activeBytes
    ensures var t := Transfer(o, owner, [], 0, Offered, "", []);
            var kept := Trim(c.transfers[o.id := t], Listing(Finished(c.transfers[o.id := t])), k.maxHistory);
            && Inv(k, hash, Controller(kept, c.activeBytes + o.size))
               && Inv(k, hash, Controller(kept - {o.id}, c.activeBytes))
  {
    hide *;
    var t := Transfer(o, owner, [], 0, Offered, "", []);
    var more := c.transfers[o.id := t];
    var ids := Listing(Finished(more));
    OfferAdds(k, hash, c, o, t);
    ListedFinished(more);
    TrimIs(more, ids, k.maxHistory);
    var kept := Trim(more, ids, k.maxHistory);
    FewerOk(k, hash, more, kept);
    FewerOk(k, hash, more, kept - {o.id});
    OfferCounts(k, hash, c, o, t, kept);
  }

  lemma OfferAdds(k: Config, hash: seq<byte> -> string, c: Controller, o: Offer, t: Transfer)
    requires ConfigOk(k) && Inv(k, hash, c) && OfferOk(o, true) && o.size <= k.maxFile && o.id !in c.transfers
    requires t.offer == o && t.status.Offered? && t.content == [] && t.received == 0 && t.chunks == []
    requires Sum(c.transfers, One) < k.maxActive
    ensures var more := c.transfers[o.id := t];
            && AllOk(k, hash, more) && Active(t) && Bytes(t) == o.size && One(t) == 1
            && Sum(more, One) == Sum(c.transfers, One) + 1 <= k.maxHistory
               && Sum(more, Bytes) == Sum(c.transfers, Bytes) + o.size
  {
    SumUpdate(c.transfers, Bytes, o.id, t);
    SumUpdate(c.transfers, One, o.id, t);
    assert TransferOk(k, hash, o.id, t);
    hide Sum, TransferOk, HexId;
  }

  lemma OfferCounts(k: Config, hash: seq<byte> -> string, c: Controller, o: Offer, t: Transfer,
      kept: map<string, Transfer>)
    requires Inv(k, hash, c) && Sum(c.transfers, One) < k.maxActive && o.size <= k.maxTotal - c.activeBytes
    requires o.id in kept && kept[o.id] == t && Bytes(t) == o.size && One(t) == 1 && |kept| <= k.maxHistory
    requires Sum(kept, One) == Sum(c.transfers, One) + 1 && Sum(kept, Bytes) == Sum(c.transfers, Bytes) + o.size
    requires AllOk(k, hash, kept) && AllOk(k, hash, kept - {o.id})
    ensures Inv(k, hash, Controller(kept, c.activeBytes + o.size))
            && Inv(k, hash, Controller(kept - {o.id}, c.activeBytes))
  {
    SumRemove(kept, Bytes, o.id);
    SumRemove(kept, One, o.id);
    OneLess(kept, o.id);
    hide Sum, AllOk, Bytes, One;
  }

  lemma FewerOk(k: Config, hash: seq<byte> -> string, m: map<string, Transfer>, fewer: map<string, Transfer>)
    requires AllOk(k, hash, m) && fewer.Keys <= m.Keys && forall id :: id in fewer ==> fewer[id] == m[id]
    ensures AllOk(k, hash, fewer)
  {
    hide TransferOk;
  }

  lemma StepKeeps(k: Config, hash: seq<byte> -> string, c: Controller, m: Moment)
    requires ConfigOk(k) && Inv(k, hash, c)
    ensures Inv(k, hash, Step(k, hash, c, m))
  {
    hide Inv, ConfigOk, Expire, MakeOffer, TakeChunk, Finish, Cancel, Abort;
    ExpireKeeps(k, hash, c, m.now);
    match m.event
    case DoOffer(owner, o, texts, ioOk) => OfferStep(k, hash, c, owner, o, texts, m.now, ioOk, m.publishOk);
    case DoChunk(owner, h, writeOk) => ChunkStep(k, hash, c, owner, h, m.now, writeOk, m.publishOk);
    case DoFinish(owner, id, size, sha, f) => FinishStep(k, hash, c, owner, id, size, sha, m.now, f, m.publishOk);
    case DoCancel(owner, id, reason, texts) => EndStep(k, hash, c, owner, id, reason, texts, m.publishOk);
    case DoAbort(owner, id, reason) => EndStep(k, hash, c, owner, id, reason, true, m.publishOk);
    case DoSweep =>
  }

  lemma OfferStep(k: Config, hash: seq<byte> -> string, c: Controller, owner: NodeId, o: Offer, texts: bool, now: int,
      ioOk: bool, publishOk: bool)
    requires ConfigOk(k) && Inv(k, hash, c)
    ensures Inv(k, hash, MakeOffer(k, c, owner, o, texts, now, ioOk, publishOk).0)
  {
    hide Inv, Expire, OfferOk, ConfigOk, Listing, Finished, Trim, Sum;
    var d := Expire(c, now);
    ExpireKeeps(k, hash, c, now);
    if OfferOk(o, texts) && o.size <= k.maxFile && o.id !in d.transfers && Sum(d.transfers, One) < k.maxActive
       && o.size <= k.maxTotal - d.activeBytes {
      TextsGood(o, texts);
      OfferKeeps(k, hash, d, owner, o, publishOk);
    }
  }

  lemma TextsGood(o: Offer, texts: bool)
    requires OfferOk(o, texts)
    ensures OfferOk(o, true)
  {
  }

  lemma ChunkStep(k: Config, hash: seq<byte> -> string, c: Controller, owner: NodeId, h: Chunk, now: int,
      writeOk: bool, publishOk: bool)
    requires ConfigOk(k) && Inv(k, hash, c)
    ensures Inv(k, hash, TakeChunk(c, hash, owner, h, now, writeOk, publishOk).0)
  {
    hide Inv, Expire, ChunkOk, Place, Accept, Put, Fail;
    var d := Expire(c, now);
    ExpireKeeps(k, hash, c, now);
    if ChunkOk(h) && OwnedProblem(d, owner, h.id).None? {
      FailKeeps(k, hash, d, h.id, "write");
      if Place(d.transfers[h.id], h).Appended? { ChunkKeeps(k, hash, d, h); }
    }
  }

  lemma FinishStep(
    k: Config, hash: seq<byte> -> string, c: Controller, owner: NodeId, id: string, size: int, sha: string, now: int,
      f: Finishing, publishOk: bool)
    requires Inv(k, hash, c)
    ensures Inv(k, hash, Finish(c, hash, owner, id, size, sha, now, f, publishOk).0)
  {
    hide Inv, Expire, Fail, HexId, Join;
    var d := Expire(c, now);
    ExpireKeeps(k, hash, c, now);
    if OwnedProblem(d, owner, id).None? {
      var t := d.transfers[id];
      MemberOk(k, hash, d, id);
      FailKeeps(k, hash, d, id, "finish");
      FailKeeps(k, hash, d, id, "checksum");
      if t.received == t.offer.size && hash(t.content) == t.offer.sha {
        EndKeeps(k, hash, d, id, t.(status := Completed));
      }
    }
  }

  lemma MemberOk(k: Config, hash: seq<byte> -> string, c: Controller, id: string)
    requires Inv(k, hash, c) && id in c.transfers
    ensures TransferOk(k, hash, id, c.transfers[id])
  {
  }

  lemma SizesOk(k: Config, hash: seq<byte> -> string, c: Controller)
    requires Inv(k, hash, c)
    ensures forall id :: id in c.transfers ==> c.transfers[id].offer.size >= 0
  {
    hide CountsOk, Join;
    forall id | id in c.transfers ensures c.transfers[id].offer.size >= 0 {
      assert TransferOk(k, hash, id, c.transfers[id]);
    }
  }

  lemma EndStep(k: Config, hash: seq<byte> -> string, c: Controller, owner: NodeId, id: string, reason: string,
      texts: bool, publishOk: bool)
    requires Inv(k, hash, c)
    ensures Inv(k, hash, Cancel(c, owner, id, reason, texts, publishOk).0) && Inv(k, hash, Abort(c, owner, id, reason))
  {
    hide Inv, Fail, HexId, Join;
    if id in c.transfers && Active(c.transfers[id]) {
      MemberOk(k, hash, c, id);
      FailKeeps(k, hash, c, id, reason);
      EndKeeps(k, hash, c, id, c.transfers[id].(status := Cancelled, error := reason));
    }
  }

  lemma EmptyInv(k: Config, hash: seq<byte> -> string)
    requires ConfigOk(k)
    ensures Inv(k, hash, Empty())
  {
  }

  lemma {:induction false} RunKeeps(k: Config, hash: seq<byte> -> string, states: seq<Controller>,
      moments: seq<Moment>, i: nat)
    requires ConfigOk(k) && IsRun(k, hash, states, moments) && i < |states|
    ensures Inv(k, hash, states[i])
  {
    hide Inv, Step, ConfigOk;
    if i == 0 {
      EmptyInv(k, hash);
    } else {
      RunKeeps(k, hash, states, moments, i - 1);
      StepKeeps(k, hash, states[i - 1], moments[i - 1]);
      assert states[(i - 1) + 1] == Step(k, hash, states[i - 1], moments[i - 1]);
    }
  }

  // --------------------------------------------------------------------- what is promised

  /** In every run the reserved bytes are exactly those of the active transfers, and every limit holds. */
  lemma AccountsBalance(k: Config, hash: seq<byte> -> string, states: seq<Controller>, moments: seq<Moment>, i: nat)
    requires ConfigOk(k) && IsRun(k, hash, states, moments) && i < |states|
    ensures states[i].activeBytes == Sum(states[i].transfers, Bytes) <= k.maxTotal
    ensures Sum(states[i].transfers, One) <= k.maxActive && |states[i].transfers| <= k.maxHistory
  {
    RunKeeps(k, hash, states, moments, i);
    hide IsRun, Step, AllOk;
  }

  /**
   * In every run each file holds the accepted chunks one after another and never more than announced, unless the end
   * of its last chunk wrapped around; then the received count is negative. A completed file never wrapped: it has the
   * announced size and checksum.
   */
  lemma FilesHoldTheirChunks(k: Config, hash: seq<byte> -> string, states: seq<Controller>, moments: seq<Moment>,
      i: nat, id: string)
    requires ConfigOk(k) && IsRun(k, hash, states, moments) && i < |states| && id in states[i].transfers
    ensures var t := states[i].transfers[id];
            && t.content == Join(t.chunks)
            && (t.received >= 0 ==> |t.content| == t.received <= t.offer.size)
            && (CannotWrap(t.offer) ==> t.received >= 0)
            && (t.status.Completed? ==> |t.content| == t.offer.size && hash(t.content) == t.offer.sha)
  {
    RunKeeps(k, hash, states, moments, i);
    hide IsRun, Step, CountsOk;
    LengthOf(k, hash, id, states[i].transfers[id]);
  }

  /**
   * In every run a chunk that is written is appended to the file, and ends inside it exactly if its end is a 64-bit
   * number, as it always is for a file whose size leaves room for one chunk.
   */
  lemma WritesStayInside(k: Config, hash: seq<byte> -> string, states: seq<Controller>, moments: seq<Moment>, i: nat,
      h: Chunk)
    requires ConfigOk(k) && IsRun(k, hash, states, moments) && i < |states|
    requires h.id in states[i].transfers && ChunkOk(h) && Place(states[i].transfers[h.id], h).Appended?
    ensures var t := states[i].transfers[h.id];
            && 0 <= h.offset == t.received == |t.content| && Accept(t, h).content == t.content + h.data
            && (h.offset + |h.data| <= t.offer.size <==> h.offset + |h.data| <= I64_MAX)
            && (CannotWrap(t.offer) ==> h.offset + |h.data| <= t.offer.size)
  {
    RunKeeps(k, hash, states, moments, i);
    var t := states[i].transfers[h.id];
    hide IsRun, Step, CountsOk;
    AppendedFits(k, hash, t, h);
  }
}
