/** The codec as it works on buffers: one array per frame, filled and read at fixed offsets. */
module CodecBuffer {
  import opened Basics
  import opened Wire
  import opened Codec

  datatype EncodeError = InvalidEnvelope | LengthOverflow

  /** Writes the magic and the kind of frame. */
  method PutKind(buffer: array<byte>, e: Envelope)
    requires buffer.Length >= HEADER_SIZE
    modifies buffer
    ensures buffer[..8] == Join(HeaderParts(e)[..4])
  {
    ghost var p := HeaderParts(e);
    EmptyJoin(buffer, p);
    assert p[0] == MAGIC && p[1] == ToBytes(e.version, 2) && p[2] == [e.phase] && p[3] == [e.operation];
    hide Join, ToBytes, HeaderParts;
    Put(buffer, 0, MAGIC, p, 0);
    Put(buffer, 4, ToBytes(e.version, 2), p, 1);
    Put(buffer, 6, [e.phase], p, 2);
    Put(buffer, 7, [e.operation], p, 3);
  }

  /** Writes the lengths of what follows the header. */
  method PutLengths(buffer: array<byte>, e: Envelope)
    requires buffer.Length >= HEADER_SIZE && buffer[..8] == Join(HeaderParts(e)[..4])
    modifies buffer
    ensures buffer[..18] == Join(HeaderParts(e)[..9])
  {
    ghost var p := HeaderParts(e);
    assert p[4] == ToBytes(|e.contentType|, 1) && p[5] == ToBytes(|e.schema|, 1) && p[6] == ToBytes(|e.capability|, 2)
           && p[7] == ToBytes(|e.name|, 2) && p[8] == ToBytes(|e.payload|, 4);
    hide Join, ToBytes, HeaderParts;
    Put(buffer, 8, ToBytes(|e.contentType|, 1), p, 4);
    Put(buffer, 9, ToBytes(|e.schema|, 1), p, 5);
    Put(buffer, 10, ToBytes(|e.capability|, 2), p, 6);
    Put(buffer, 12, ToBytes(|e.name|, 2), p, 7);
    Put(buffer, 14, ToBytes(|e.payload|, 4), p, 8);
  }

  /** Writes the identifiers behind them. */
  method PutIdentifiers(buffer: array<byte>, e: Envelope)
    requires buffer.Length >= HEADER_SIZE && buffer[..18] == Join(HeaderParts(e)[..9])
    modifies buffer
    ensures buffer[..HEADER_SIZE] == Join(HeaderParts(e))
  {
    ghost var p := HeaderParts(e);
    hide Join, ToBytes, Unsigned;
    Put(buffer, 18, ToBytes(e.source, 8), p, 9);
    Put(buffer, 26, ToBytes(e.principal, 8), p, 10);
    Put(buffer, 34, ToBytes(e.target, 8), p, 11);
    Put(buffer, 42, ToBytes(e.epoch, 8), p, 12);
    Put(buffer, 50, ToBytes(Unsigned(e.deadline), 8), p, 13);
    Put(buffer, 58, e.messageId, p, 14);
    Put(buffer, 74, e.correlationId, p, 15);
    Put(buffer, 90, ToBytes(e.owner, 8), p, 16);
    assert p[..17] == p;
  }

  /** Writes the five variable parts behind the header, moving an offset. */
  method PutBody(buffer: array<byte>, e: Envelope)
    requires buffer.Length == HEADER_SIZE + |e.contentType| + |e.schema| + |e.capability| + |e.name| + |e.payload|
    requires buffer[..HEADER_SIZE] == Join(HeaderParts(e))
    modifies buffer
    ensures buffer[..] == Frame(e)
  {
    ghost var p := HeaderParts(e) + BodyParts(e);
    FrameParts(e);
    assert p[..17] == HeaderParts(e);
    hide Join, HeaderParts;
    var offset := HEADER_SIZE;
    Put(buffer, offset, e.contentType, p, 17);
    offset := offset + |e.contentType|;
    Put(buffer, offset, e.schema, p, 18);
    offset := offset + |e.schema|;
    Put(buffer, offset, e.capability, p, 19);
    offset := offset + |e.capability|;
    Put(buffer, offset, e.name, p, 20);
    offset := offset + |e.name|;
    Put(buffer, offset, e.payload, p, 21);
    assert p[..22] == p && buffer[..buffer.Length] == buffer[..];
  }

  /** Joining all parts at once is joining the header and the body one after the other. */
  lemma FrameParts(e: Envelope)
    ensures Join(HeaderParts(e) + BodyParts(e)) == Frame(e)
  {
    JoinTwo(HeaderParts(e), BodyParts(e), 5);
    assert BodyParts(e)[..5] == BodyParts(e);
    hide Join, HeaderParts;
  }

  lemma {:induction false} JoinTwo(a: seq<seq<byte>>, b: seq<seq<byte>>, n: nat)
    requires n <= |b|
    ensures Join(a + b[..n]) == Join(a) + Join(b[..n])
  {
    hide *;
    if n == 0 {
      JoinNone(a, b);
    } else {
      JoinTwo(a, b, n - 1);
      JoinMore(a + b[..n - 1], b[n - 1]);
      JoinMore(b[..n - 1], b[n - 1]);
      assert b[..n] == b[..n - 1] + [b[n - 1]] && a + b[..n] == (a + b[..n - 1]) + [b[n - 1]];
      assert (Join(a) + Join(b[..n - 1])) + b[n - 1] == Join(a) + (Join(b[..n - 1]) + b[n - 1]);
    }
  }

  lemma JoinNone(a: seq<seq<byte>>, b: seq<seq<byte>>)
    ensures Join(a + b[..0]) == Join(a) + Join(b[..0])
  {
    assert a + b[..0] == a && b[..0] == [];
  }

  /** Encodes an envelope into one new buffer. */
  method EncodeFrame(e: Envelope, maxPayload: int, s: Spelling) returns (r: Result<array<byte>, EncodeError>)
    ensures r.Ok? <==> Valid(e, maxPayload, s) && |e.payload| < 0x1_0000_0000
    ensures r.Ok? ==> fresh(r.value) && r.value[..] == Frame(e)
  {
    var valid := Valid(e, maxPayload, s);
    if !valid { return Err(InvalidEnvelope); }
    if |e.payload| >= 0x1_0000_0000 { return Err(LengthOverflow); }
    ValidLengths(e, maxPayload, s);
    hide Valid, HeaderParts, Join, Frame;
    var buffer := new byte[HEADER_SIZE + |e.contentType| + |e.schema| + |e.capability| + |e.name| + |e.payload|];
    PutKind(buffer, e);
    PutLengths(buffer, e);
    PutIdentifiers(buffer, e);
    PutBody(buffer, e);
    r := Ok(buffer);
  }

  // -------------------------------------------------------------------------- reading

  /** The header fields lie at these offsets. */
  lemma HeaderSlices(bytes: seq<byte>)
    requires |bytes| >= HEADER_SIZE && |HEADER| == 17 && Total(HEADER) == HEADER_SIZE
    ensures var h := Cut(bytes, HEADER);
            && h[0] == bytes[0..4] && h[1] == bytes[4..6] && h[2] == bytes[6..7] && h[3] == bytes[7..8]
               && h[4] == bytes[8..9]
            && h[5] == bytes[9..10] && h[6] == bytes[10..12] && h[7] == bytes[12..14] && h[8] == bytes[14..18]
            && h[9] == bytes[18..26] && h[10] == bytes[26..34] && h[11] == bytes[34..42] && h[12] == bytes[42..50]
            && h[13] == bytes[50..58] && h[14] == bytes[58..74] && h[15] == bytes[74..90] && h[16] == bytes[90..98]
  {
    HeaderTotal();
    hide Offset, Total;
    forall i | 0 <= i < 17 ensures Cut(bytes, HEADER)[i] == Part(bytes, HEADER, i) {}
    assert Offset(HEADER, 0) == 0 by { ZeroOffset(); }
    assert Offset(HEADER, 17) == 98 by { LastOffset(); }
  }

  lemma ZeroOffset()
    ensures Offset(HEADER, 0) == 0
  {
  }

  lemma LastOffset()
    requires |HEADER| == 17 && Total(HEADER) == HEADER_SIZE
    ensures Offset(HEADER, 17) == HEADER_SIZE
  {
  }

  /** Takes the five parts of the body, moving an offset. */
  method TakeBody(rest: seq<byte>, ghost w: seq<nat>, contentLen: nat, schemaLen: nat, capabilityLen: nat,
      nameLen: nat, payloadLen: nat)
    returns (b: seq<seq<byte>>)
    requires w == [contentLen, schemaLen, capabilityLen, nameLen, payloadLen] && Total(w) <= |rest|
    ensures b == Cut(rest, w)
  {
    BodyTotal(w);
    BodySlices(rest, w);
    hide Offset, Total, Cut;
    var body := rest[..contentLen + schemaLen + capabilityLen + nameLen + payloadLen];
    var offset := 0;
    var contentType := body[offset..offset + contentLen];
    offset := offset + contentLen;
    var schema := body[offset..offset + schemaLen];
    offset := offset + schemaLen;
    var capability := body[offset..offset + capabilityLen];
    offset := offset + capabilityLen;
    var name := body[offset..offset + nameLen];
    offset := offset + nameLen;
    var payload := body[offset..offset + payloadLen];
    b := [contentType, schema, capability, name, payload];
  }

  /** Reads the numbers of the header at their offsets. */
  method ReadEnvelope(bytes: seq<byte>, b: seq<seq<byte>>) returns (e: Envelope)
    requires |bytes| >= HEADER_SIZE && |HEADER| == 17 && Total(HEADER) == HEADER_SIZE && |b| == 5
    ensures e == Build(Cut(bytes, HEADER), b)
  {
    HeaderSlices(bytes);
    hide Cut, Offset, Total, Number, Number16, Signed;
    e := Envelope(
      Number16(bytes[4..6]), bytes[6], bytes[7], bytes[58..74], bytes[74..90], Number(bytes[18..26]),
        Number(bytes[26..34]),
      Number(bytes[34..42]), Number(bytes[90..98]), b[3], Number(bytes[42..50]), Signed(Number(bytes[50..58])), b[0],
        b[1], b[2], b[4]);
  }

  /** Decodes one frame from the front of a byte string. */
  method DecodeFrame(bytes: seq<byte>, maxPayload: int, s: Spelling)
      returns (r: Result<(Envelope, seq<byte>), DecodeError>)
    ensures r == Decode(bytes, maxPayload, s)
  {
    if |bytes| < HEADER_SIZE { return Err(ShortHeader); }
    HeaderTotal();
    HeaderSlices(bytes);
    ghost var w := BodyWidths(Cut(bytes, HEADER));
    BodyTotal(w);
    hide Valid, FromBytes, Offset, Cut, Build, Total;
    if bytes[0..4] != MAGIC { return Err(BadMagic); }
    var contentLen, schemaLen := FromBytes(bytes[8..9]), FromBytes(bytes[9..10]);
    var capabilityLen, nameLen, payloadLen := FromBytes(bytes[10..12]), FromBytes(bytes[12..14]),
      FromBytes(bytes[14..18]);
    if contentLen > MAX_CONTENT_TYPE || schemaLen > MAX_SCHEMA || capabilityLen > MAX_CAPABILITY || nameLen > MAX_NAME {
      return Err(MetadataTooLong);
    }
    if payloadLen > Limit(maxPayload) { return Err(PayloadTooLarge); }
    var size := contentLen + schemaLen + capabilityLen + nameLen + payloadLen;
    if |bytes| - HEADER_SIZE < size { return Err(ShortBody); }
    var b := TakeBody(bytes[HEADER_SIZE..], w, contentLen, schemaLen, capabilityLen, nameLen, payloadLen);
    var e := ReadEnvelope(bytes, b);
    var valid := Valid(e, maxPayload, s);
    if !valid { return Err(Invalid); }
    r := Ok((e, bytes[HEADER_SIZE + size..]));
  }

  lemma BodyTotal(w: seq<nat>)
    requires |w| == 5
    ensures Offset(w, 0) == 0 && Offset(w, 1) == w[0] && Offset(w, 2) == w[0] + w[1]
            && Offset(w, 3) == w[0] + w[1] + w[2]
    ensures Offset(w, 4) == w[0] + w[1] + w[2] + w[3] && Total(w) == w[0] + w[1] + w[2] + w[3] + w[4]
  {
    assert Offset(w, 1) == w[0];
    assert Offset(w, 2) == w[0] + w[1];
    assert Offset(w, 3) == w[0] + w[1] + w[2];
    assert Offset(w, 4) == w[0] + w[1] + w[2] + w[3];
  }

  lemma BodySlices(rest: seq<byte>, w: seq<nat>)
    requires |w| == 5 && Total(w) <= |rest|
    ensures var b, body := Cut(rest, w), rest[..Total(w)];
            && Total(w) == w[0] + w[1] + w[2] + w[3] + w[4]
            && b[0] == body[0..w[0]] && b[1] == body[w[0]..w[0] + w[1]]
            && b[2] == body[w[0] + w[1]..w[0] + w[1] + w[2]]
            && b[3] == body[w[0] + w[1] + w[2]..w[0] + w[1] + w[2] + w[3]]
            && b[4] == body[w[0] + w[1] + w[2] + w[3]..w[0] + w[1] + w[2] + w[3] + w[4]]
  {
    BodyTotal(w);
    WholeOffset(w);
    hide Offset, Total, Cut, Part;
    BodySlice(rest, w, 0);
    BodySlice(rest, w, 1);
    BodySlice(rest, w, 2);
    BodySlice(rest, w, 3);
    BodySlice(rest, w, 4);
  }

  lemma WholeOffset(w: seq<nat>)
    ensures Offset(w, |w|) == Total(w)
  {
  }

  lemma BodySlice(rest: seq<byte>, w: seq<nat>, i: nat)
    requires i < |w| && Total(w) <= |rest|
    ensures Offset(w, i) <= Offset(w, i + 1) <= Total(w)
    ensures Cut(rest, w)[i] == rest[..Total(w)][Offset(w, i)..Offset(w, i + 1)]
  {
    CutAt(rest, w, i);
    OffsetsRise(w, i + 1, |w|);
    hide Offset, Cut, Part;
    SliceOfPrefix(rest, Total(w), Offset(w, i), Offset(w, i + 1));
  }

  lemma SliceOfPrefix(bytes: seq<byte>, n: nat, lo: nat, hi: nat)
    requires lo <= hi <= n <= |bytes|
    ensures bytes[..n][lo..hi] == bytes[lo..hi]
  {
  }

  lemma EmptyJoin(buffer: array<byte>, p: seq<seq<byte>>)
    ensures buffer[..0] == Join(p[..0])
  {
    assert p[..0] == [];
  }
}
