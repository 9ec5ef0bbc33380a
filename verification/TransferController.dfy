/**
 * The transfer controller as the object it is: a map of transfers and a counter of reserved bytes, changed in place.
 */
module TransferController {
  import opened Basics
  import opened Ordering
  import opened Transfers

  /** The transfers while expiry goes over them: those still left are as they were. */
  ghost predicate Partly(before: map<string, Transfer>, m: map<string, Transfer>, left: set<string>, now: int) {
    && m.Keys == before.Keys && (forall id :: id in before ==> before[id].offer.size >= 0)
    && (forall id :: id in before ==> m[id] == if id in left then before[id] else AfterExpiry(before[id], now))
  }

  lemma PartlyStarts(before: map<string, Transfer>, now: int)
    requires forall id :: id in before ==> before[id].offer.size >= 0
    ensures Partly(before, before, before.Keys, now)
  {
  }

  lemma PartlyNext(before: map<string, Transfer>, m: map<string, Transfer>, left: set<string>, now: int, id: string)
    requires Partly(before, m, left, now) && id in left && id in before
    ensures id in m && m[id].offer.size >= 0
    ensures Partly(before, if Expires(m[id], now) then m[id := AfterExpiry(m[id], now)] else m, left - {id}, now)
  {
  }

  lemma PartlyEnds(before: map<string, Transfer>, m: map<string, Transfer>, now: int)
    requires Partly(before, m, {}, now)
    ensures m == AllAfter(before, now)
  {
  }

  class FileController {
    const config: Config
    const hash: seq<byte> -> string
    var transfers: map<string, Transfer>
    var activeBytes: int

    ghost function View(): Controller
      reads this
    {
      Controller(transfers, activeBytes)
    }

    /** Accounts and files are in order. */
    ghost predicate Valid()
      reads this
    {
      ConfigOk(config) && Inv(config, hash, View())
    }

    constructor (config: Config, hash: seq<byte> -> string)
      requires ConfigOk(config)
      ensures Valid() && View() == Empty() && this.config == config && this.hash == hash
    {
      this.config, this.hash := config, hash;
      transfers, activeBytes := map[], 0;
      new;
      EmptyInv(config, hash);
    }

    /** Goes over all transfers and ends those whose time is up. */
    method ExpireLocked(now: int)
      requires Valid()
      modifies this
      ensures Valid() && View() == Expire(old(View()), now)
    {
      hide Sum, AllAfter, Partly, Inv;
      ghost var before := transfers;
      ExpireKeeps(config, hash, View(), now);
      SizesOk(config, hash, View());
      PartlyStarts(before, now);
      var left := transfers.Keys;
      while left != {}
        invariant left <= before.Keys && Partly(before, transfers, left, now)
        invariant activeBytes == old(activeBytes) - (Sum(before, Bytes) - Sum(transfers, Bytes))
        decreases |left|
      {
        var id :| id in left;
        PartlyNext(before, transfers, left, now, id);
        left := left - {id};
        var t := transfers[id];
        if Active(t) && t.offer.expiresAt <= now {
          var ended := t.(status := Failed, error := "transfer expired");
          SumUpdate(transfers, Bytes, id, ended);
          activeBytes := activeBytes - t.offer.size;
          transfers := transfers[id := ended];
        }
      }
      PartlyEnds(before, transfers, now);
    }

    method ActiveCount() returns (n: nat)
      ensures n == Sum(transfers, One)
    {
      n := 0;
      var left := transfers;
      while left != map[]
        invariant n + Sum(left, One) == Sum(transfers, One)
        decreases |left|
      {
        var id :| id in left;
        OneLess(left, id);
        SumWithout(left, One, id);
        if Active(left[id]) { n := n + 1; }
        left := left - {id};
      }
    }

    /** Forgets finished transfers in order of their identifiers until the history fits. */
    method TrimLocked()
      modifies this`transfers
      ensures transfers == Trim(old(transfers), Listing(Finished(old(transfers))), config.maxHistory)
    {
      if |transfers| <= config.maxHistory { return; }
      var ids := SortedKeys(set id | id in transfers && !Active(transfers[id]));
      ListingIsUnique(ids, Listing(Finished(transfers)), Finished(transfers));
      hide Listing, Finished, Lists;
      ghost var all := ids;
      while |transfers| > config.maxHistory && |ids| > 0
        invariant Trim(transfers, ids, config.maxHistory) == Trim(old(transfers), all, config.maxHistory)
        decreases |ids|
      {
        transfers := transfers - {ids[0]};
        ids := ids[1..];
      }
    }

    method FailLocked(id: string, error: string)
      requires Valid() && id in transfers
      modifies this
      ensures Valid() && View() == Fail(old(View()), id, error)
    {
      FailKeeps(config, hash, View(), id, error);
      hide Inv;
      var t := transfers[id];
      if Active(t) { activeBytes := activeBytes - t.offer.size; }
      transfers := transfers[id := t.(status := Failed, error := error)];
    }

    method OfferFor(owner: NodeId, o: Offer, texts: bool, now: int, ioOk: bool, publishOk: bool)
        returns (r: Result<Transfer, Error>)
      requires Valid()
      modifies this
      ensures Valid() && (View(), r) == MakeOffer(config, old(View()), owner, o, texts, now, ioOk, publishOk)
    {
      OfferStep(config, hash, View(), owner, o, texts, now, ioOk, publishOk);
      hide *;
      r := Reserve(owner, o, texts, now, ioOk, publishOk);
    }

    /** Ends what is overdue, then reserves the bytes of a new transfer or says why not. */
    method Reserve(owner: NodeId, o: Offer, texts: bool, now: int, ioOk: bool, publishOk: bool)
        returns (r: Result<Transfer, Error>)
      requires Valid()
      modifies this
      ensures (View(), r) == MakeOffer(config, old(View()), owner, o, texts, now, ioOk, publishOk)
    {
      hide Inv;
      hide HexId, Trim, Listing, Finished, Sum;
      if !OfferOk(o, texts) { return Err(InvalidRequest); }
      if o.size > config.maxFile || o.expiresAt <= now || o.expiresAt > now + config.maxLifetime {
        return Err(OverLimits);
      }
      ExpireLocked(now);
      hide Expire, OfferOk;
      if o.id in transfers {
        if transfers[o.id].owner == owner && transfers[o.id].offer == o { return Ok(transfers[o.id]); }
        return Err(Exists);
      }
      var active := ActiveCount();
      if active >= config.maxActive || o.size > config.maxTotal - activeBytes { return Err(NoCapacity); }
      if !ioOk { return Err(Io); }
      var t := Transfer(o, owner, [], 0, Offered, "", []);
      transfers := transfers[o.id := t];
      activeBytes := activeBytes + o.size;
      TrimLocked();
      if !publishOk {
        transfers := transfers - {o.id};
        activeBytes := activeBytes - o.size;
        return Err(PublishFailed);
      }
      r := Ok(t);
    }

    method ChunkFor(owner: NodeId, h: Chunk, now: int, writeOk: bool, publishOk: bool)
        returns (r: Result<Transfer, Error>)
      requires Valid()
      modifies this
      ensures Valid() && (View(), r) == TakeChunk(old(View()), hash, owner, h, now, writeOk, publishOk)
    {
      ChunkStep(config, hash, View(), owner, h, now, writeOk, publishOk);
      hide *;
      r := Store(owner, h, now, writeOk, publishOk);
    }

    /** Ends what is overdue, then places a chunk: appends it, recognises it, or refuses it. */
    method Store(owner: NodeId, h: Chunk, now: int, writeOk: bool, publishOk: bool) returns (r: Result<Transfer, Error>)
      requires Valid()
      modifies this
      ensures (View(), r) == TakeChunk(old(View()), hash, owner, h, now, writeOk, publishOk)
    {
      hide Inv;
      hide HexId, Sum;
      if !ChunkOk(h) { return Err(InvalidRequest); }
      if hash(h.data) != h.sha { return Err(BadChecksum); }
      ExpireLocked(now);
      hide Expire;
      var problem := OwnedProblem(Controller(transfers, activeBytes), owner, h.id);
      if problem.Some? { return Err(problem.value); }
      var t := transfers[h.id];
      var end := WrapI64(h.offset + |h.data|);
      if |h.data| > t.offer.chunkSize || end > t.offer.size { return Err(TooLong); }
      if h.offset < t.received {
        if end > t.received { return Err(Overlap); }
        if h.offset + |h.data| > |t.content| || t.content[h.offset..h.offset + |h.data|] != h.data {
          return Err(Conflict);
        }
        return Ok(t);
      }
      if h.offset != t.received { return Err(Gap); }
      if !writeOk {
        FailLocked(h.id, "write");
        return Err(Io);
      }
      hide WriteAt, WrapI64;
      t := t.(content := WriteAt(t.content, h.offset, h.data), received := WrapI64(t.received + |h.data|),
        status := Receiving,
              chunks := t.chunks + [h.data]);
      transfers := transfers[h.id := t];
      if !publishOk { return Err(PublishFailed); }
      r := Ok(t);
    }

    method CompleteFor(owner: NodeId, id: string, size: int, sha: string, now: int, f: Finishing, publishOk: bool)
      returns (r: Result<Transfer, Error>)
      requires Valid()
      modifies this
      ensures Valid() && (View(), r) == Finish(old(View()), hash, owner, id, size, sha, now, f, publishOk)
    {
      FinishStep(config, hash, View(), owner, id, size, sha, now, f, publishOk);
      hide *;
      r := Conclude(owner, id, size, sha, now, f, publishOk);
    }

    /** Ends what is overdue, then completes a transfer, or fails it and says why. */
    method Conclude(owner: NodeId, id: string, size: int, sha: string, now: int, f: Finishing, publishOk: bool)
      returns (r: Result<Transfer, Error>)
      requires Valid()
      modifies this
      ensures (View(), r) == Finish(old(View()), hash, owner, id, size, sha, now, f, publishOk)
    {
      hide Inv;
      hide HexId, Sum;
      if !HexId(id, 16) || size < 0 || !HexId(sha, 32) { return Err(InvalidRequest); }
      ExpireLocked(now);
      hide Expire, Fail;
      var problem := OwnedProblem(Controller(transfers, activeBytes), owner, id);
      if problem.Some? { return Err(problem.value); }
      var t := transfers[id];
      if size != t.offer.size || sha != t.offer.sha || t.received != t.offer.size { return Err(Mismatch); }
      if f.SyncFails? || f.SeekFails? || f.ReadFails? {
        FailLocked(id, "finish");
        return Err(Io);
      }
      if hash(t.content) != t.offer.sha {
        FailLocked(id, "checksum");
        return Err(BadChecksum);
      }
      if !f.AllWell? {
        FailLocked(id, "finish");
        return Err(Io);
      }
      var done := t.(status := Completed);
      transfers := transfers[id := done];
      activeBytes := activeBytes - t.offer.size;
      if !publishOk { return Err(PublishFailed); }
      r := Ok(done);
    }

    method CancelFor(owner: NodeId, id: string, reason: string, texts: bool, publishOk: bool)
        returns (r: Result<Transfer, Error>)
      requires Valid()
      modifies this
      ensures Valid() && (View(), r) == Cancel(old(View()), owner, id, reason, texts, publishOk)
    {
      EndStep(config, hash, View(), owner, id, reason, texts, publishOk);
      hide Inv;
      hide HexId;
      if !HexId(id, 16) || !texts { return Err(InvalidRequest); }
      if id !in transfers || transfers[id].owner != owner { return Err(Unknown); }
      var t := transfers[id];
      if t.status.Cancelled? { return Ok(t); }
      if t.status.Completed? || t.status.Failed? { return Err(Terminal); }
      var ended := t.(status := Cancelled, error := reason);
      transfers := transfers[id := ended];
      activeBytes := activeBytes - t.offer.size;
      if !publishOk { return Err(PublishFailed); }
      r := Ok(ended);
    }

    method AbortFor(owner: NodeId, id: string, reason: string)
      requires Valid()
      modifies this
      ensures Valid() && View() == Abort(old(View()), owner, id, reason)
    {
      EndStep(config, hash, View(), owner, id, reason, true, true);
      hide Inv;
      if id !in transfers || transfers[id].owner != owner || !Active(transfers[id]) { return; }
      FailLocked(id, reason);
    }
  }
}
