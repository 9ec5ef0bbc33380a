/**
 * Why transfers change: every change of every transfer, in every run, has a call of its owner or the clock behind it,
 * and a call that is entitled to a change brings it about.
 */
module TransferCauses {
  import opened Basics
  import opened Ordering
  import opened Transfers

  // --------------------------------------------------------------------------- causes

  /** The transfer ran out. */
  predicate RanOut(t: Transfer, u: Transfer, now: int) {
    Active(t) && t.offer.expiresAt <= now && u == t.(status := Failed, error := "transfer expired")
  }

  /** The transfer is running and has not run out. */
  predicate Running(t: Transfer, now: int) { Active(t) && now < t.offer.expiresAt }

  /** The offer is well formed and within what one transfer may ask for. */
  predicate Offerable(k: Config, o: Offer, texts: bool, now: int) {
    OfferOk(o, texts) && o.size <= k.maxFile && now < o.expiresAt <= now + k.maxLifetime
  }

  /** The chunk is intact, fits a chunk of the transfer, and continues it. */
  predicate Continues(t: Transfer, hash: seq<byte> -> string, h: Chunk) {
    && ChunkOk(h) && hash(h.data) == h.sha && |h.data| <= t.offer.chunkSize && h.offset == t.received
    && WrapI64(h.offset + |h.data|) <= t.offer.size
  }

  /** How a known transfer may look after a call: only its owner does more than let it run out. */
  ghost predicate Moved(hash: seq<byte> -> string, m: Moment, id: string, t: Transfer, u: Transfer) {
    match m.event
    case DoOffer(_, _, _, _) => RanOut(t, u, m.now)
    case DoSweep => RanOut(t, u, m.now)
    case DoChunk(owner, h, writeOk) =>
      || RanOut(t, u, m.now)
      || (&& owner == t.owner && h.id == id && Running(t, m.now) && Continues(t, hash, h)
          && if writeOk then u == t.(content := t.content + h.data, received := WrapI64(t.received + |h.data|),
                                     status := Receiving, chunks := t.chunks + [h.data])
             else u == t.(status := Failed, error := "write"))
    case DoFinish(owner, x, size, sha, f) =>
      || RanOut(t, u, m.now)
      || (&& owner == t.owner && x == id && Running(t, m.now) && size == t.offer.size == t.received
        && sha == t.offer.sha
          && if f.AllWell? && hash(t.content) == sha then u == t.(status := Completed)
             else u == t.(status := Failed, error := u.error))
    case DoCancel(owner, x, reason, _) =>
      owner == t.owner && x == id && Active(t) && u == t.(status := Cancelled, error := reason)
    case DoAbort(owner, x, reason) =>
      owner == t.owner && x == id && Active(t) && u == t.(status := Failed, error := reason)
  }

  /** A new transfer is what its owner offered, and its beginning could be published. */
  ghost predicate Began(k: Config, m: Moment, id: string, u: Transfer) {
    && m.event.DoOffer? && m.event.offer.id == id && m.event.ioOk && m.publishOk
    && Offerable(k, m.event.offer, m.event.texts, m.now)
    && u == Transfer(m.event.offer, m.event.owner, [], 0, Offered, "", [])
  }

  /** Every difference has its cause; only an offer forgets transfers, and only finished ones. */
  ghost predicate Caused(k: Config, hash: seq<byte> -> string, c: Controller, m: Moment, d: Controller) {
    && (forall id :: id in d.transfers ==>
          if id in c.transfers then
            d.transfers[id] == c.transfers[id] || Moved(hash, m, id, c.transfers[id], d.transfers[id])
          else Began(k, m, id, d.transfers[id]))
    && (forall id :: id in c.transfers && id !in d.transfers ==>
          m.event.DoOffer? && !Running(c.transfers[id], m.now))
  }

  lemma ExpiryCaused(k: Config, hash: seq<byte> -> string, c: Controller, m: Moment)
    requires !m.event.DoCancel? && !m.event.DoAbort?
    ensures Caused(k, hash, c, m, Expire(c, m.now))
  {
    hide Sum;
  }

  lemma SameCaused(k: Config, hash: seq<byte> -> string, c: Controller, m: Moment, d: Controller)
    requires d.transfers == c.transfers
    ensures Caused(k, hash, c, m, d)
  {
    hide Moved;
  }

  /** A transfer after expiry is as it was, or ran out. */
  lemma AfterIs(c: Controller, now: int, id: string)
    requires id in c.transfers
    ensures id in Expire(c, now).transfers
    ensures var u := Expire(c, now).transfers[id];
            && (Active(u) <==> Running(c.transfers[id], now))
            && (u == c.transfers[id] || RanOut(c.transfers[id], u, now)) && (Active(u) ==> u == c.transfers[id])
  {
    hide Sum;
  }

  /** One transfer of the owner was changed after the others were looked at for expiry. */
  lemma OneMoved(k: Config, hash: seq<byte> -> string, c: Controller, m: Moment, d: Controller, id: string, u: Transfer)
    requires !m.event.DoCancel? && !m.event.DoAbort? && id in c.transfers
    requires Moved(hash, m, id, c.transfers[id], u) && d.transfers == Expire(c, m.now).transfers[id := u]
    ensures Caused(k, hash, c, m, d)
  {
    ExpiryCaused(k, hash, c, m);
    assert Expire(c, m.now).transfers.Keys == c.transfers.Keys;
    hide Moved, Expire;
  }

  /** A chunk leaves everything but expiry alone, or is appended, or fails to be written. */
  lemma ChunkShape(k: Config, hash: seq<byte> -> string, c: Controller, m: Moment)
    requires m.event.DoChunk?
    ensures var h, d, e := m.event.chunk, Expire(c, m.now), Step(k, hash, c, m);
            || e == c || e == d
            || (&& ChunkOk(h) && hash(h.data) == h.sha && h.id in d.transfers
                && d.transfers[h.id].owner == m.event.owner && Active(d.transfers[h.id])
                && Place(d.transfers[h.id], h).Appended?
                && e.transfers
                   == d.transfers[h.id := if m.event.writeOk then Accept(d.transfers[h.id], h)
                                          else d.transfers[h.id].(status := Failed, error := "write")])
  {
    hide Expire, HexId, Place, Accept;
  }

  lemma AppendedMoves(k: Config, hash: seq<byte> -> string, m: Moment, t: Transfer)
    requires k.maxFile <= I64_MAX && m.event.DoChunk? && TransferOk(k, hash, m.event.chunk.id, t)
    requires ChunkOk(m.event.chunk) && hash(m.event.chunk.data) == m.event.chunk.sha
    requires t.owner == m.event.owner && Running(t, m.now) && Place(t, m.event.chunk).Appended?
    ensures Moved(hash, m, m.event.chunk.id, t,
                  if m.event.writeOk then Accept(t, m.event.chunk) else t.(status := Failed, error := "write"))
  {
    AppendedFits(k, hash, t, m.event.chunk);
    hide WriteAt, HexId, Join;
  }

  lemma ChunkCaused(k: Config, hash: seq<byte> -> string, c: Controller, m: Moment)
    requires ConfigOk(k) && Inv(k, hash, c) && m.event.DoChunk?
    ensures Caused(k, hash, c, m, Step(k, hash, c, m))
  {
    var h, d, e := m.event.chunk, Expire(c, m.now), Step(k, hash, c, m);
    SameCaused(k, hash, c, m, c);
    ExpiryCaused(k, hash, c, m);
    ChunkShape(k, hash, c, m);
    hide Step, Caused, Moved, RanOut, TransferOk, ChunkOk, Place, Accept;
    if e != c && e != d {
      assert h.id in c.transfers by { hide Inv; }
      AfterIs(c, m.now, h.id);
      hide Expire;
      var t := c.transfers[h.id];
      assert TransferOk(k, hash, h.id, t);
      AppendedMoves(k, hash, m, t);
      OneMoved(k, hash, c, m, e, h.id, e.transfers[h.id]);
    }
  }

  lemma FinishCaused(k: Config, hash: seq<byte> -> string, c: Controller, m: Moment)
    requires m.event.DoFinish?
    ensures Caused(k, hash, c, m, Step(k, hash, c, m))
  {
    var id, d := m.event.id, Expire(c, m.now);
    SameCaused(k, hash, c, m, c);
    ExpiryCaused(k, hash, c, m);
    if OwnedProblem(d, m.event.owner, id).None? {
      AfterIs(c, m.now, id);
      var t := c.transfers[id];
      var e := Step(k, hash, c, m);
      hide Caused, Expire, HexId, AfterExpiry, RanOut;
      if e != c && e != d {
        assert id in e.transfers && e.transfers == d.transfers[id := e.transfers[id]];
        OneMoved(k, hash, c, m, e, id, e.transfers[id]);
      }
    }
    hide Caused, Expire, HexId, Moved;
  }

  lemma EndCaused(k: Config, hash: seq<byte> -> string, c: Controller, m: Moment)
    requires m.event.DoCancel? || m.event.DoAbort?
    ensures Caused(k, hash, c, m, Step(k, hash, c, m))
  {
    hide HexId;
  }

  /** An offer leaves everything but expiry alone, or adds a transfer and trims the history. */
  lemma OfferShape(k: Config, hash: seq<byte> -> string, c: Controller, m: Moment)
    requires m.event.DoOffer?
    ensures var o, d, e := m.event.offer, Expire(c, m.now), Step(k, hash, c, m);
            var more := d.transfers[o.id := Transfer(o, m.event.owner, [], 0, Offered, "", [])];
            var kept := Trim(more, Listing(Finished(more)), k.maxHistory);
            || e == c || e == d
            || (&& Offerable(k, o, m.event.texts, m.now) && m.event.ioOk && o.id !in d.transfers
                && Sum(d.transfers, One) < k.maxActive
                && e.transfers == if m.publishOk then kept else kept - {o.id})
  {
    hide Expire, HexId, Trim, Listing, Finished, Sum;
  }

  lemma OfferCaused(k: Config, hash: seq<byte> -> string, c: Controller, m: Moment)
    requires ConfigOk(k) && Inv(k, hash, c) && m.event.DoOffer?
    ensures Caused(k, hash, c, m, Step(k, hash, c, m))
  {
    var o, d, e := m.event.offer, Expire(c, m.now), Step(k, hash, c, m);
    SameCaused(k, hash, c, m, c);
    ExpiryCaused(k, hash, c, m);
    OfferShape(k, hash, c, m);
    hide Step, Caused, Inv, Offerable, Listing, Trim, Sum, Expire;
    if e != c && e != d {
      var t := Transfer(o, m.event.owner, [], 0, Offered, "", []);
      var more := d.transfers[o.id := t];
      SumUpdateNew(d.transfers, o.id, t);
      ListedFinished(more);
      TrimIs(more, Listing(Finished(more)), k.maxHistory);
      OfferedCaused(k, hash, c, m, d, Trim(more, Listing(Finished(more)), k.maxHistory), e);
    }
  }

  lemma SumUpdateNew(m: map<string, Transfer>, id: string, t: Transfer)
    requires id !in m
    ensures Sum(m[id := t], One) == Sum(m, One) + One(t)
  {
    SumWithout(m[id := t], One, id);
    assert m[id := t] - {id} == m;
    hide Sum;
  }

  lemma OfferedCaused(k: Config, hash: seq<byte> -> string, c: Controller, m: Moment, d: Controller,
      kept: map<string, Transfer>, e: Controller)
    requires m.event.DoOffer? && Offerable(k, m.event.offer, m.event.texts, m.now) && m.event.ioOk
    requires d == Expire(c, m.now) && m.event.offer.id !in d.transfers
    requires var o := m.event.offer;
             var more := d.transfers[o.id := Transfer(o, m.event.owner, [], 0, Offered, "", [])];
             && kept.Keys <= more.Keys && (forall id :: id in kept ==> kept[id] == more[id])
             && (forall id :: id in more && Active(more[id]) ==> id in kept)
             && e.transfers == if m.publishOk then kept else kept - {o.id}
    ensures Caused(k, hash, c, m, e)
  {
    ExpiryCaused(k, hash, c, m);
    assert d.transfers.Keys == c.transfers.Keys;
    forall id | id in c.transfers && id !in e.transfers ensures !Running(c.transfers[id], m.now) {
      AfterIs(c, m.now, id);
    }
    hide Expire, Moved;
  }

  /** Every change a call makes to the transfers has its cause in that call or in the clock. */
  lemma EveryChangeHasItsCause(k: Config, hash: seq<byte> -> string, c: Controller, m: Moment)
    requires ConfigOk(k) && Inv(k, hash, c)
    ensures Caused(k, hash, c, m, Step(k, hash, c, m))
  {
    hide Step, Caused, Inv, ConfigOk;
    match m.event
    case DoOffer(_, _, _, _) => OfferCaused(k, hash, c, m);
    case DoChunk(_, _, _) => ChunkCaused(k, hash, c, m);
    case DoFinish(_, _, _, _, _) => FinishCaused(k, hash, c, m);
    case DoCancel(_, _, _, _) => EndCaused(k, hash, c, m);
    case DoAbort(_, _, _) => EndCaused(k, hash, c, m);
    case DoSweep =>
      ExpiryCaused(k, hash, c, m);
      SweepIs(k, hash, c, m);
  }

  lemma SweepIs(k: Config, hash: seq<byte> -> string, c: Controller, m: Moment)
    requires m.event.DoSweep?
    ensures Step(k, hash, c, m) == Expire(c, m.now)
  {
    hide Expire;
  }

  // -------------------------------------------------------------------------- forgetting

  /** Trimming forgets the finished transfers with the smallest identifiers, and no more than it has to. */
  lemma {:induction false} TrimForgetsTheFirst(m: map<string, Transfer>, ids: seq<string>, maxHistory: int, x: string,
      y: string)
    requires StrictlySorted(ids) && (forall i :: 0 <= i < |ids| ==> ids[i] in m)
    ensures var r := Trim(m, ids, maxHistory);
            && (x in m && x !in r ==> x in ids && |r| >= maxHistory)
            && (x in m && x !in r && y in ids && y in r ==> Less(x, y))
    decreases |ids|
  {
    hide Less;
    if |m| > maxHistory && ids != [] {
      var first, rest, fewer := ids[0], ids[1..], m - {ids[0]};
      assert Trim(m, ids, maxHistory) == Trim(fewer, rest, maxHistory);
      OneLess(m, first);
      TailListed(m, ids);
      TrimForgetsTheFirst(fewer, rest, maxHistory, x, y);
      TrimKeepsOut(fewer, rest, maxHistory, first);
      TrimStops(fewer, rest, maxHistory);
      assert ids == [first] + rest;
      hide StrictlySorted, Trim;
    }
  }

  lemma TailListed(m: map<string, Transfer>, ids: seq<string>)
    requires StrictlySorted(ids) && ids != [] && (forall i :: 0 <= i < |ids| ==> ids[i] in m)
    ensures StrictlySorted(ids[1..]) && (forall i :: 0 <= i < |ids[1..]| ==> ids[1..][i] in m - {ids[0]})
    ensures forall y :: y in ids[1..] ==> Less(ids[0], y)
  {
    hide Less;
    forall i | 0 <= i < |ids[1..]| ensures ids[1..][i] in m - {ids[0]} {
      assert Less(ids[0], ids[i + 1]);
      LessIrreflexive(ids[0]);
    }
  }

  lemma {:induction false} TrimStops(m: map<string, Transfer>, ids: seq<string>, maxHistory: int)
    requires |m| >= maxHistory && StrictlySorted(ids) && (forall i :: 0 <= i < |ids| ==> ids[i] in m)
    ensures |Trim(m, ids, maxHistory)| >= maxHistory
    decreases |ids|
  {
    hide Less;
    if |m| > maxHistory && ids != [] {
      OneLess(m, ids[0]);
      TailListed(m, ids);
      TrimStops(m - {ids[0]}, ids[1..], maxHistory);
    }
  }

  lemma {:induction false} TrimKeepsOut(m: map<string, Transfer>, ids: seq<string>, maxHistory: int, x: string)
    requires x !in m
    ensures x !in Trim(m, ids, maxHistory)
    decreases |ids|
  {
    if |m| > maxHistory && ids != [] { TrimKeepsOut(m - {ids[0]}, ids[1..], maxHistory, x); }
  }

  // ------------------------------------------------------------------------------ answers

  /** The chunk begins where the file ends, and ends within the announced size or past the largest 64-bit number. */
  predicate FollowsOn(t: Transfer, h: Chunk) {
    h.offset == |t.content| && (h.offset + |h.data| <= t.offer.size || I64_MAX < h.offset + |h.data|)
  }

  /** The file has the bytes of the chunk where the chunk puts them. */
  predicate Repeats(t: Transfer, h: Chunk) {
    0 <= h.offset && h.offset + |h.data| <= |t.content| && t.content[h.offset..h.offset + |h.data|] == h.data
  }

  /** A chunk is accepted exactly from the owner of a running transfer, if it continues it, or repeats what is there. */
  lemma ChunkAnswers(k: Config, hash: seq<byte> -> string, c: Controller, owner: NodeId, h: Chunk, now: int,
      writeOk: bool, publishOk: bool)
    requires ConfigOk(k) && Inv(k, hash, c)
    ensures var (e, r) := TakeChunk(c, hash, owner, h, now, writeOk, publishOk);
            && (r.Ok? <==> && ChunkOk(h) && hash(h.data) == h.sha && h.id in c.transfers
                           && c.transfers[h.id].owner == owner && Running(c.transfers[h.id], now)
                           && var t := c.transfers[h.id];
                              && |h.data| <= t.offer.chunkSize
                              && (|| (FollowsOn(t, h) && writeOk && publishOk)
                                  || (|t.content| <= t.offer.size && Repeats(t, h))))
            && (r.Ok? ==> h.id in e.transfers && r.value == e.transfers[h.id])
  {
    var d := Expire(c, now);
    assert d.transfers.Keys == c.transfers.Keys;
    if h.id in c.transfers {
      AfterIs(c, now, h.id);
      assert TransferOk(k, hash, h.id, c.transfers[h.id]);
      hide Expire, Inv, Place, RanOut, ChunkOk, Accept, TransferOk;
      PlacedExactly(k, hash, c.transfers[h.id], h);
    } else {
      hide Expire, Inv, Place, RanOut, ChunkOk, Accept, TransferOk;
    }
  }

  lemma PlacedExactly(k: Config, hash: seq<byte> -> string, t: Transfer, h: Chunk)
    requires k.maxFile <= I64_MAX && TransferOk(k, hash, h.id, t)
    ensures ChunkOk(h) ==>
              && (Place(t, h).Appended? <==> |h.data| <= t.offer.chunkSize && FollowsOn(t, h))
              && (Place(t, h).Repeated?
                  <==> |h.data| <= t.offer.chunkSize && |t.content| <= t.offer.size && Repeats(t, h))
  {
    LengthOf(k, hash, h.id, t);
    hide HexId, Join;
  }

  /** Completion succeeds exactly for the owner of a running transfer with all of the announced bytes. */
  lemma FinishAnswers(c: Controller, hash: seq<byte> -> string, owner: NodeId, id: string, size: int, sha: string,
      now: int, f: Finishing, publishOk: bool)
    ensures var (e, r) := Finish(c, hash, owner, id, size, sha, now, f, publishOk);
            && (r.Ok? <==> && HexId(id, 16) && HexId(sha, 32) && size >= 0 && id in c.transfers
                           && c.transfers[id].owner == owner && Running(c.transfers[id], now)
                           && var t := c.transfers[id];
                              && size == t.offer.size == t.received && sha == t.offer.sha == hash(t.content)
                              && f.AllWell? && publishOk)
            && (r.Ok? ==> id in e.transfers && r.value == e.transfers[id] && e.transfers[id].status == Completed)
  {
    var d := Expire(c, now);
    if id in c.transfers { AfterIs(c, now, id); }
    assert d.transfers.Keys == c.transfers.Keys;
    hide Expire, RanOut, HexId;
  }

  /**
   * Cancelling succeeds exactly for the owner of a transfer that is cancelled already, or runs and can be published.
   */
  lemma CancelAnswers(c: Controller, owner: NodeId, id: string, reason: string, texts: bool, publishOk: bool)
    ensures var (e, r) := Cancel(c, owner, id, reason, texts, publishOk);
            && (r.Ok? <==> && HexId(id, 16) && texts && id in c.transfers && c.transfers[id].owner == owner
                           && (c.transfers[id].status == Cancelled || (Active(c.transfers[id]) && publishOk)))
            && (r.Ok? ==> id in e.transfers && r.value == e.transfers[id] && e.transfers[id].status == Cancelled)
  {
    hide HexId;
  }

  /** Aborting ends exactly an active transfer of that owner, with the reason, and touches nothing else. */
  lemma AbortEnds(c: Controller, owner: NodeId, id: string, reason: string)
    ensures var e := Abort(c, owner, id, reason);
            if id in c.transfers && c.transfers[id].owner == owner && Active(c.transfers[id]) then
              e.transfers == c.transfers[id := c.transfers[id].(status := Failed, error := reason)]
            else e == c
  {}

  /** An offer forgets finished transfers only where the history is full, and those with the smallest identifiers. */
  lemma OfferForgetsTheFirst(k: Config, hash: seq<byte> -> string, c: Controller, m: Moment, x: string, y: string)
    requires ConfigOk(k) && Inv(k, hash, c) && m.event.DoOffer? && m.publishOk
    requires x in c.transfers && x !in Step(k, hash, c, m).transfers
    ensures |Step(k, hash, c, m).transfers| >= k.maxHistory
    ensures y in c.transfers && y in Step(k, hash, c, m).transfers && !Running(c.transfers[y], m.now) ==> Less(x, y)
  {
    var o, d, e := m.event.offer, Expire(c, m.now), Step(k, hash, c, m);
    OfferShape(k, hash, c, m);
    AfterIs(c, m.now, x);
    if y in c.transfers { AfterIs(c, m.now, y); }
    hide Step, Offerable, Trim, Sum, Expire, Inv, RanOut, Less, Listing, ConfigOk;
    var more := d.transfers[o.id := Transfer(o, m.event.owner, [], 0, Offered, "", [])];
    TrimmedFirst(more, k.maxHistory, x, y);
  }

  lemma TrimmedFirst(m: map<string, Transfer>, maxHistory: int, x: string, y: string)
    requires x in m && x !in Trim(m, Listing(Finished(m)), maxHistory)
    ensures |Trim(m, Listing(Finished(m)), maxHistory)| >= maxHistory
    ensures y in m && !Active(m[y]) && y in Trim(m, Listing(Finished(m)), maxHistory) ==> Less(x, y)
  {
    hide Trim, Less, Listing;
    var ids := Listing(Finished(m));
    ListedFinished(m);
    TrimForgetsTheFirst(m, ids, maxHistory, x, y);
  }

  /** How many transfers are running. */
  function RunningIds(c: Controller, now: int): (r: set<string>) {
    set id | id in c.transfers && Running(c.transfers[id], now)
  }

  /**
   * An offer succeeds exactly when its owner made that very offer before, or when it is new, within the limits of one
   * transfer, the running transfers leave room for it, and its file can be made and published.
   */
  lemma OfferAnswers(k: Config, hash: seq<byte> -> string, c: Controller, owner: NodeId, o: Offer, texts: bool,
      now: int,
      ioOk: bool, publishOk: bool)
    requires ConfigOk(k) && Inv(k, hash, c)
    ensures var (e, r) := MakeOffer(k, c, owner, o, texts, now, ioOk, publishOk);
            && (r.Ok? <==> && Offerable(k, o, texts, now)
                           && if o.id in c.transfers then c.transfers[o.id].owner == owner
                                                          && c.transfers[o.id].offer == o
                              else && |RunningIds(c, now)| < k.maxActive && ioOk && publishOk
                                   && o.size <= k.maxTotal - Sum(AllAfter(c.transfers, now), Bytes))
            && (r.Ok? ==> r.value.owner == owner && r.value.offer == o)
  {
    var d := Expire(c, now);
    Counted(k, hash, c, now);
    if o.id in c.transfers { AfterIs(c, now, o.id); }
    hide Expire, Inv, RanOut, HexId, Sum, Trim, Listing, RunningIds, AllAfter;
  }

  /** After expiry the counters are those of the transfers that still run. */
  lemma Counted(k: Config, hash: seq<byte> -> string, c: Controller, now: int)
    requires ConfigOk(k) && Inv(k, hash, c)
    ensures var d := Expire(c, now);
            && d.transfers == AllAfter(c.transfers, now) && d.transfers.Keys == c.transfers.Keys
            && d.activeBytes == Sum(d.transfers, Bytes) && Sum(d.transfers, One) == |RunningIds(c, now)|
  {
    var d := Expire(c, now);
    CountIs(d.transfers);
    assert ActiveIds(d.transfers) == RunningIds(c, now);
  }

  function ActiveIds(m: map<string, Transfer>): (r: set<string>) { set id | id in m && Active(m[id]) }

  lemma {:induction false} CountIs(m: map<string, Transfer>)
    ensures Sum(m, One) == |ActiveIds(m)|
    decreases |m|
  {
    if m == map[] {
      assert ActiveIds(m) == {};
    } else {
      var id :| id in m;
      SumWithout(m, One, id);
      OneLess(m, id);
      CountIs(m - {id});
      hide Sum;
      if Active(m[id]) {
        assert ActiveIds(m) == ActiveIds(m - {id}) + {id};
      } else {
        assert ActiveIds(m) == ActiveIds(m - {id});
      }
    }
  }

  // --------------------------------------------------------------------------------- runs

  lemma RunCaused(k: Config, hash: seq<byte> -> string, states: seq<Controller>, moments: seq<Moment>, i: nat)
    requires ConfigOk(k) && IsRun(k, hash, states, moments) && i < |moments|
    ensures |states| == |moments| + 1 && Caused(k, hash, states[i], moments[i], states[i + 1])
  {
    hide Inv, Step, Caused, ConfigOk;
    RunKeeps(k, hash, states, moments, i);
    EveryChangeHasItsCause(k, hash, states[i], moments[i]);
  }

  /** Step `i` was a chunk the owner of the transfer sent, intact, with this content. */
  ghost predicate SentAt(hash: seq<byte> -> string, moments: seq<Moment>, i: nat, owner: NodeId, id: string,
      data: seq<byte>) {
    && i < |moments| && moments[i].event.DoChunk? && moments[i].event.owner == owner
    && moments[i].event.chunk.id == id && moments[i].event.chunk.data == data
       && hash(data) == moments[i].event.chunk.sha
  }

  /** A transfer keeps owner and offer, and grows by nothing but an intact chunk its owner sends. */
  lemma StaysTheSame(k: Config, hash: seq<byte> -> string, c: Controller, m: Moment, d: Controller, id: string)
    requires Caused(k, hash, c, m, d) && id in c.transfers && id in d.transfers
    ensures var t, u := c.transfers[id], d.transfers[id];
            && u.owner == t.owner && u.offer == t.offer
            && (|| u.chunks == t.chunks
                || (&& m.event.DoChunk? && m.event.owner == t.owner && m.event.chunk.id == id
                    && hash(m.event.chunk.data) == m.event.chunk.sha && u.chunks == t.chunks + [m.event.chunk.data]))
  {
    hide ChunkOk;
  }

  lemma BeginsEmpty(k: Config, hash: seq<byte> -> string, c: Controller, m: Moment, d: Controller, id: string)
    requires Caused(k, hash, c, m, d) && id !in c.transfers && id in d.transfers
    ensures m.event.DoOffer? && d.transfers[id].owner == m.event.owner && d.transfers[id].offer == m.event.offer
    ensures d.transfers[id].chunks == []
  {
    hide Moved, OfferOk;
  }

  lemma StartsEmpty(k: Config, hash: seq<byte> -> string, states: seq<Controller>, moments: seq<Moment>)
    requires IsRun(k, hash, states, moments)
    ensures |states| == |moments| + 1 && states[0].transfers == map[]
  {}

  /** In every run a file consists of nothing but chunks its owner sent for it, intact. */
  lemma {:induction false} FilesAreWhatTheirOwnersSent(k: Config, hash: seq<byte> -> string, states: seq<Controller>,
      moments: seq<Moment>, j: nat, id: string, n: nat)
    requires ConfigOk(k) && IsRun(k, hash, states, moments) && j < |states|
    requires id in states[j].transfers && n < |states[j].transfers[id].chunks|
    ensures exists i: nat :: i < j && SentAt(hash, moments, i, states[j].transfers[id].owner, id,
                                             states[j].transfers[id].chunks[n])
  {
    hide ConfigOk, IsRun, Caused;
    StartsEmpty(k, hash, states, moments);
    assert j > 0;
    RunCaused(k, hash, states, moments, j - 1);
    var c, m, u := states[j - 1], moments[j - 1], states[j].transfers[id];
    if id !in c.transfers { BeginsEmpty(k, hash, c, m, states[j], id); }
    StaysTheSame(k, hash, c, m, states[j], id);
    var t := c.transfers[id];
    if n < |t.chunks| {
      FilesAreWhatTheirOwnersSent(k, hash, states, moments, j - 1, id, n);
      assert u.chunks[n] == t.chunks[n];
    } else {
      assert SentAt(hash, moments, j - 1, u.owner, id, u.chunks[n]);
    }
  }

  /** Step `i` offered this transfer, and nobody else's has had its identifier since. */
  ghost predicate OfferedAt(states: seq<Controller>, moments: seq<Moment>, i: nat, j: nat, id: string) {
    && i < j < |states| && i < |moments| && id in states[j].transfers && moments[i].event.DoOffer?
    && moments[i].event.owner == states[j].transfers[id].owner
       && moments[i].event.offer == states[j].transfers[id].offer
    && forall x :: i < x <= j ==> id in states[x].transfers
                                  && states[x].transfers[id].owner == states[j].transfers[id].owner
                                  && states[x].transfers[id].offer == states[j].transfers[id].offer
  }

  /** In every run a transfer belongs to the node that offered it, from its offer on and with that offer. */
  lemma {:induction false} TransfersBelongToTheirOfferers(k: Config, hash: seq<byte> -> string, states: seq<Controller>,
      moments: seq<Moment>, j: nat, id: string)
    requires ConfigOk(k) && IsRun(k, hash, states, moments) && j < |states| && id in states[j].transfers
    ensures exists i: nat :: OfferedAt(states, moments, i, j, id)
  {
    hide ConfigOk, IsRun, Caused;
    StartsEmpty(k, hash, states, moments);
    assert j > 0;
    RunCaused(k, hash, states, moments, j - 1);
    var c, m := states[j - 1], moments[j - 1];
    if id in c.transfers {
      TransfersBelongToTheirOfferers(k, hash, states, moments, j - 1, id);
      StaysTheSame(k, hash, c, m, states[j], id);
      var i: nat :| OfferedAt(states, moments, i, j - 1, id);
      assert OfferedAt(states, moments, i, j, id);
    } else {
      BeginsEmpty(k, hash, c, m, states[j], id);
      assert OfferedAt(states, moments, j - 1, j, id);
    }
  }
}
