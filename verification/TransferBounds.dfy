/**
 * The end of a file chunk is a 64-bit sum that may wrap around. Exactly which files, and which size limits, let a
 * chunk be written past the announced end, shown on runs that do it.
 */
module TransferBounds {
  import opened Basics
  import opened Ordering
  import opened Transfers

  /** The call writes a chunk at the end of a transfer. */
  ghost predicate Writes(hash: seq<byte> -> string, c: Controller, m: Moment) {
    && m.event.DoChunk? && m.event.writeOk && ChunkOk(m.event.chunk) && hash(m.event.chunk.data) == m.event.chunk.sha
    && OwnedProblem(Expire(c, m.now), m.event.owner, m.event.chunk.id).None?
    && Place(Expire(c, m.now).transfers[m.event.chunk.id], m.event.chunk).Appended?
  }

  /** The transfer a chunk is written to. */
  ghost function Target(hash: seq<byte> -> string, c: Controller, m: Moment): (t: Transfer)
    requires Writes(hash, c, m)
  {
    Expire(c, m.now).transfers[m.event.chunk.id]
  }

  /** If the call writes a chunk of a file of this size and chunk size, the chunk ends inside the file. */
  ghost predicate StaysInside(hash: seq<byte> -> string, c: Controller, m: Moment, size: int, chunkSize: int) {
    Writes(hash, c, m) && Target(hash, c, m).offer.size == size && Target(hash, c, m).offer.chunkSize == chunkSize ==>
      m.event.chunk.offset + |m.event.chunk.data| <= size
  }

  /** In every run every chunk written of a file of this size and chunk size ends inside the file. */
  ghost predicate AlwaysInside(k: Config, hash: seq<byte> -> string, size: int, chunkSize: int) {
    forall states, moments, i :: IsRun(k, hash, states, moments) && 0 <= i < |moments| ==>
      StaysInside(hash, states[i], moments[i], size, chunkSize)
  }

  lemma InsideWithoutWrap(k: Config, hash: seq<byte> -> string, states: seq<Controller>, moments: seq<Moment>, i: nat,
      size: int, chunkSize: int)
    requires ConfigOk(k) && IsRun(k, hash, states, moments) && i < |moments| && size + chunkSize <= I64_MAX
    ensures StaysInside(hash, states[i], moments[i], size, chunkSize)
  {
    if Writes(hash, states[i], moments[i]) {
      RunKeeps(k, hash, states, moments, i);
      hide IsRun, Step, Inv, Expire, Place, ChunkOk;
      ExpireKeeps(k, hash, states[i], moments[i].now);
      var h := moments[i].event.chunk;
      MemberOk(k, hash, Expire(states[i], moments[i].now), h.id);
      AppendedFits(k, hash, Target(hash, states[i], moments[i]), h);
    }
  }

  // -------------------------------------------------------------------- a run of small chunks

  /** A text of hexadecimal zeros. */
  function Zeros(n: nat): (s: string) { seq(n, _ => '0') }

  /** An offer of that size and chunk size, open until moment one. */
  function OfferOf(size: int, chunkSize: int): (o: Offer) {
    Offer(Zeros(32), "", size, Zeros(64), chunkSize, "", 1)
  }

  function Blank(n: nat): (data: seq<byte>) { seq(n, _ => 0 as byte) }

  /** The transfer after `n` chunks of one zero byte each. */
  function Partial(size: int, chunkSize: int, n: nat): (t: Transfer) {
    Transfer(OfferOf(size, chunkSize), 1, Blank(n), n, if n == 0 then Offered else Receiving, "", seq(n, _ => Blank(1)))
  }

  function Alone(t: Transfer): (c: Controller) { Controller(map[t.offer.id := t], t.offer.size) }

  function Sends(t: Transfer, data: seq<byte>, hash: seq<byte> -> string): (m: Moment) {
    Moment(DoChunk(t.owner, Chunk(t.offer.id, t.received, data, hash(data)), true), 0, true)
  }

  /** Nothing is due yet, so nothing expires. */
  lemma NothingExpires(t: Transfer)
    requires t.offer.expiresAt == 1
    ensures Expire(Alone(t), 0) == Alone(t)
  {
    assert AllAfter(Alone(t).transfers, 0) == Alone(t).transfers;
  }

  lemma FirstOffer(k: Config, hash: seq<byte> -> string, size: int, chunkSize: int)
    requires ConfigOk(k) && 0 <= size <= k.maxFile && 1 <= chunkSize <= MAX_CHUNK
    ensures Step(k, hash, Empty(), Moment(DoOffer(1, OfferOf(size, chunkSize), true, true), 0, true))
            == Alone(Partial(size, chunkSize, 0))
  {
    var o, t := OfferOf(size, chunkSize), Partial(size, chunkSize, 0);
    assert OfferOk(o, true);
    assert AllAfter(Empty().transfers, 0) == map[];
    assert Expire(Empty(), 0) == Empty();
    assert t == Transfer(o, 1, [], 0, Offered, "", []);
    var more: map<string, Transfer> := map[o.id := t];
    assert Empty().transfers[o.id := t] == more && |more| == 1;
    assert Sum(Empty().transfers, One) == 0;
    hide Listing, Finished, Sum, HexId, Expire;
    assert Trim(more, Listing(Finished(more)), k.maxHistory) == more;
  }

  lemma SmallChunk(k: Config, hash: seq<byte> -> string, size: int, chunkSize: int, n: nat)
    requires n < size <= I64_MAX && 1 <= chunkSize <= MAX_CHUNK && HexId(hash(Blank(1)), 32)
    ensures Step(k, hash, Alone(Partial(size, chunkSize, n)), Sends(Partial(size, chunkSize, n), Blank(1), hash))
            == Alone(Partial(size, chunkSize, n + 1))
  {
    var t := Partial(size, chunkSize, n);
    var h := Sends(t, Blank(1), hash).event.chunk;
    NothingExpires(t);
    assert ChunkOk(h) && Place(t, h).Appended?;
    assert WriteAt(t.content, n, Blank(1)) == Blank(n + 1);
    assert t.chunks + [Blank(1)] == seq(n + 1, _ => Blank(1));
    assert Accept(t, h) == Partial(size, chunkSize, n + 1);
    hide Expire, Place, Accept, Partial;
    assert map[t.offer.id := t][t.offer.id := Accept(t, h)] == map[t.offer.id := Accept(t, h)];
  }

  lemma OneMoreStep(k: Config, hash: seq<byte> -> string, states: seq<Controller>, moments: seq<Moment>, m: Moment)
    requires IsRun(k, hash, states, moments)
    ensures IsRun(k, hash, states + [Step(k, hash, states[|moments|], m)], moments + [m])
  {
    hide Step;
    var more, all := states + [Step(k, hash, states[|moments|], m)], moments + [m];
    forall i | 0 <= i < |all| ensures more[i + 1] == Step(k, hash, more[i], all[i]) {
      if i < |moments| { assert states[i + 1] == Step(k, hash, states[i], moments[i]); }
    }
  }

  /** Any part of any file that may be offered is received in some run, byte by byte. */
  lemma {:induction false} PartIsReceived(k: Config, hash: seq<byte> -> string, size: int, chunkSize: int, n: nat)
    returns (states: seq<Controller>, moments: seq<Moment>)
    requires ConfigOk(k) && n <= size <= k.maxFile && 1 <= chunkSize <= MAX_CHUNK && HexId(hash(Blank(1)), 32)
    ensures IsRun(k, hash, states, moments) && states[|moments|] == Alone(Partial(size, chunkSize, n))
    decreases n
  {
    hide Step, Partial, Alone;
    if n == 0 {
      var m := Moment(DoOffer(1, OfferOf(size, chunkSize), true, true), 0, true);
      FirstOffer(k, hash, size, chunkSize);
      OneMoreStep(k, hash, [Empty()], [], m);
      states, moments := [Empty()] + [Step(k, hash, Empty(), m)], [] + [m];
    } else {
      states, moments := PartIsReceived(k, hash, size, chunkSize, n - 1);
      hide IsRun;
      var t := Partial(size, chunkSize, n - 1);
      var m := Sends(t, Blank(1), hash);
      SmallChunk(k, hash, size, chunkSize, n - 1);
      OneMoreStep(k, hash, states, moments, m);
      RunLength(k, hash, states, moments);
      states, moments := states + [Step(k, hash, states[|moments|], m)], moments + [m];
    }
  }

  lemma RunLength(k: Config, hash: seq<byte> -> string, states: seq<Controller>, moments: seq<Moment>)
    requires IsRun(k, hash, states, moments)
    ensures |states| == |moments| + 1
  {
  }

  // ------------------------------------------------------------------------ what slips past

  /** Checksums are spelled as 64 hexadecimal digits. */
  ghost predicate HashOk(hash: seq<byte> -> string) { forall data :: HexId(hash(data), 32) }

  lemma WrapIsAccepted(hash: seq<byte> -> string, size: int, chunkSize: int, n: nat)
    requires n <= size <= I64_MAX && 1 <= chunkSize <= MAX_CHUNK && n + chunkSize == I64_MAX + 1 && HashOk(hash)
    ensures var t := Partial(size, chunkSize, n);
            var m := Sends(t, Blank(chunkSize), hash);
            && Writes(hash, Alone(t), m) && Target(hash, Alone(t), m) == t
            && m.event.chunk.offset + |m.event.chunk.data| > size
  {
    var t := Partial(size, chunkSize, n);
    NothingExpires(t);
    assert WrapI64(n + chunkSize) == n + chunkSize - U64;
    hide Expire;
  }

  /**
   * Whenever size plus chunk size exceeds the largest 64-bit number, some run writes a chunk past the end: it receives
   * the file byte by byte until one full chunk more makes the end wrap around.
   */
  lemma ChunkSlipsPast(k: Config, hash: seq<byte> -> string, size: int, chunkSize: int)
    returns (states: seq<Controller>, moments: seq<Moment>)
    requires ConfigOk(k) && HashOk(hash) && 0 <= size <= k.maxFile && 1 <= chunkSize <= MAX_CHUNK
    requires size + chunkSize > I64_MAX
    ensures IsRun(k, hash, states, moments) && moments != []
    ensures !StaysInside(hash, states[|moments| - 1], moments[|moments| - 1], size, chunkSize)
  {
    var n := I64_MAX + 1 - chunkSize;
    var t := Partial(size, chunkSize, n);
    WrapIsAccepted(hash, size, chunkSize, n);
    assert t.offer.size == size && t.offer.chunkSize == chunkSize;
    states, moments := PartIsReceived(k, hash, size, chunkSize, n);
    hide IsRun, Step, Writes, Partial, Alone, Sends, Target;
    RunLength(k, hash, states, moments);
    var m := Sends(t, Blank(chunkSize), hash);
    OneMoreStep(k, hash, states, moments, m);
    var before := states[|moments|];
    states, moments := states + [Step(k, hash, before, m)], moments + [m];
    assert states[|moments| - 1] == before && moments[|moments| - 1] == m;
  }

  /**
   * Of a file, in every run, every chunk written ends inside it, if and only if size plus chunk size is a 64-bit
   * number.
   */
  lemma BoundIsExact(k: Config, hash: seq<byte> -> string, size: int, chunkSize: int)
    requires ConfigOk(k) && HashOk(hash) && 0 <= size <= k.maxFile && 1 <= chunkSize <= MAX_CHUNK
    ensures AlwaysInside(k, hash, size, chunkSize) <==> size + chunkSize <= I64_MAX
  {
    hide IsRun, StaysInside, ConfigOk, HashOk;
    if size + chunkSize <= I64_MAX {
      forall states, moments, i | IsRun(k, hash, states, moments) && 0 <= i < |moments|
        ensures |states| == |moments| + 1 && StaysInside(hash, states[i], moments[i], size, chunkSize)
      {
        RunLength(k, hash, states, moments);
        InsideWithoutWrap(k, hash, states, moments, i, size, chunkSize);
      }
    } else {
      var states, moments := ChunkSlipsPast(k, hash, size, chunkSize);
    }
  }

  /** Every chunk of every file stays inside, in every run, if and only if the size limit leaves room for one chunk. */
  lemma LimitIsExact(k: Config, hash: seq<byte> -> string)
    requires ConfigOk(k) && HashOk(hash)
    ensures k.maxFile <= I64_MAX - MAX_CHUNK <==>
              forall size: int, chunkSize: int :: 0 <= size <= k.maxFile && 1 <= chunkSize <= MAX_CHUNK ==>
                AlwaysInside(k, hash, size, chunkSize)
  {
    forall size: int, chunkSize: int | 0 <= size <= k.maxFile && 1 <= chunkSize <= MAX_CHUNK
      ensures AlwaysInside(k, hash, size, chunkSize) <==> size + chunkSize <= I64_MAX
    {
      BoundIsExact(k, hash, size, chunkSize);
    }
    hide AlwaysInside, HashOk;
    if k.maxFile > I64_MAX - MAX_CHUNK { assert !AlwaysInside(k, hash, k.maxFile, MAX_CHUNK); }
  }

  /** With no limit but the largest 64-bit number, some run writes past the end of a file. */
  lemma NoLimitSlips(hash: seq<byte> -> string) returns (k: Config, states: seq<Controller>, moments: seq<Moment>)
    requires HashOk(hash)
    ensures ConfigOk(k) && k.maxFile == k.maxTotal == I64_MAX && IsRun(k, hash, states, moments) && moments != []
    ensures !StaysInside(hash, states[|moments| - 1], moments[|moments| - 1], I64_MAX, 1)
  {
    k := Config(I64_MAX, I64_MAX, 1, 1, 1000);
    hide IsRun, StaysInside;
    states, moments := ChunkSlipsPast(k, hash, I64_MAX, 1);
  }
}
