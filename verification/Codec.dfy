/**
 * The frame codec: a fixed header of 98 bytes, then content type, schema, capability, resource name
 * and payload. Texts are the byte strings they are on the wire.
 */
module Codec {
  import opened Basics
  import opened Wire

  type U16 = n: nat | n < 0x1_0000
  type U64Number = n: nat | n < 0x1_0000_0000_0000_0000
  type I64 = n: int | -0x8000_0000_0000_0000 <= n < 0x8000_0000_0000_0000
  type Id16 = s: seq<byte> | |s| == 16 witness seq(16, _ => 0 as byte)

  const MAGIC: seq<byte> := [77, 70, 72, 52]
  const VERSION: nat := 2
  const DEFAULT_MAX_PAYLOAD: int := 0x10_0000
  const MAX_CONTENT_TYPE: int := 127
  const MAX_SCHEMA: int := 255
  const MAX_CAPABILITY: int := 128
  const MAX_NAME: int := 255

  datatype Envelope = Envelope(
    version: U16, phase: byte, operation: byte, messageId: Id16, correlationId: Id16, source: NodeId, principal: NodeId,
    target: NodeId, owner: NodeId, name: seq<byte>, epoch: U64Number, deadline: I64, contentType: seq<byte>,
      schema: seq<byte>,
    capability: seq<byte>, payload: seq<byte>)

  /** The rules for the spelling of resource names and capabilities, beyond their length. */
  datatype Spelling = Spelling(name: seq<byte> -> bool, capability: seq<byte> -> bool)

  // ------------------------------------------------------------------- validation

  function Limit(maxPayload: int): (r: int)
    ensures r > 0
  {
    if maxPayload <= 0 then DEFAULT_MAX_PAYLOAD else maxPayload
  }

  predicate RequiresResource(op: byte) { 5 <= op <= 15 }

  predicate RequiresCorrelation(op: byte) { op in [2, 7, 8, 9, 11, 13, 14, 15, 16] }

  /** Phases are request 1, control 2, response 3, event 4. */
  predicate PhaseAllows(phase: byte, op: byte) {
    if op == 1 then phase == 1
    else if op in [2, 7, 11, 13, 16] then phase == 3
    else if op in [3, 4, 9, 17] then phase == 4
    else if op == 8 then phase == 3 || phase == 4
    else if op == 14 || op == 15 then phase == 1 || phase == 2 || phase == 3
    else if op in [5, 6, 10, 12] then phase == 1 || phase == 2
    else false
  }

  predicate IsZero(id: Id16) { forall i :: 0 <= i < 16 ==> id[i] == 0 }

  predicate ResourceOk(e: Envelope, s: Spelling) {
    if RequiresResource(e.operation) then e.owner != 0 && 1 <= |e.name| <= MAX_NAME && s.name(e.name)
                                          && s.capability(e.capability)
    else e.owner == 0 && e.name == [] && e.capability == []
  }

  predicate LengthsOk(e: Envelope, maxPayload: int) {
    && |e.contentType| <= MAX_CONTENT_TYPE && |e.schema| <= MAX_SCHEMA && |e.capability| <= MAX_CAPABILITY
       && |e.name| <= MAX_NAME
    && |e.payload| <= Limit(maxPayload)
  }

  predicate Valid(e: Envelope, maxPayload: int, s: Spelling) {
    && e.version == VERSION && 1 <= e.phase <= 4 && 1 <= e.operation <= 17 && PhaseAllows(e.phase, e.operation)
    && !IsZero(e.messageId) && e.source != 0 && e.target != 0
    && ResourceOk(e, s)
    && (RequiresCorrelation(e.operation) ==> !IsZero(e.correlationId))
    && e.deadline >= 0 && LengthsOk(e, maxPayload)
  }

  // ----------------------------------------------------------------------- layout

  /** Two's complement of a 64-bit number. */
  function Unsigned(d: I64): (n: nat)
    ensures n < U64
  {
    if d < 0 then d + U64 else d
  }

  function Signed(n: nat): (d: I64)
    requires n < U64
    ensures Unsigned(d) == n
  {
    if n >= 0x8000_0000_0000_0000 then n - U64 else n
  }

  /** Widths of the header fields, in the order they lie on the wire. */
  const HEADER: seq<nat> := [4, 2, 1, 1, 1, 1, 2, 2, 4, 8, 8, 8, 8, 8, 16, 16, 8]
  const HEADER_SIZE: nat := 98

  function HeaderParts(e: Envelope): (r: seq<seq<byte>>)
    ensures |r| == 17
  {
    [MAGIC, ToBytes(e.version, 2), [e.phase], [e.operation], ToBytes(|e.contentType|, 1), ToBytes(|e.schema|, 1),
     ToBytes(|e.capability|, 2), ToBytes(|e.name|, 2), ToBytes(|e.payload|, 4), ToBytes(e.source, 8),
       ToBytes(e.principal, 8),
     ToBytes(e.target, 8), ToBytes(e.epoch, 8), ToBytes(Unsigned(e.deadline), 8), e.messageId, e.correlationId,
       ToBytes(e.owner, 8)]
  }

  function BodyParts(e: Envelope): (r: seq<seq<byte>>)
    ensures |r| == 5
  {
    [e.contentType, e.schema, e.capability, e.name, e.payload]
  }

  function Frame(e: Envelope): (bytes: seq<byte>) { Join(HeaderParts(e)) + Join(BodyParts(e)) }

  function BodyWidths(h: seq<seq<byte>>): (r: seq<nat>)
    requires |h| == 17
    ensures |r| == 5
  {
    [FromBytes(h[4]), FromBytes(h[5]), FromBytes(h[6]), FromBytes(h[7]), FromBytes(h[8])]
  }

  function Number(bytes: seq<byte>): (n: nat)
    requires |bytes| == 8
    ensures n < U64
  {
    FromBytesBound(bytes);
    Widths();
    FromBytes(bytes)
  }

  function Number16(bytes: seq<byte>): (n: nat)
    requires |bytes| == 2
    ensures n < 0x1_0000
  {
    FromBytesBound(bytes);
    Widths();
    FromBytes(bytes)
  }

  function Build(h: seq<seq<byte>>, b: seq<seq<byte>>): (e: Envelope)
    requires HasWidths(h, HEADER) && |b| == 5
  {
    Envelope(Number16(h[1]), h[2][0], h[3][0], h[14], h[15], Number(h[9]), Number(h[10]), Number(h[11]),
      Number(h[16]), b[3],
             Number(h[12]), Signed(Number(h[13])), b[0], b[1], b[2], b[4])
  }

  datatype DecodeError = ShortHeader | BadMagic | MetadataTooLong | PayloadTooLarge | ShortBody | Invalid

  lemma HeaderTotal()
    ensures |HEADER| == 17 && Total(HEADER) == HEADER_SIZE
    ensures Offset(HEADER, 1) == 4 && Offset(HEADER, 2) == 6 && Offset(HEADER, 3) == 7 && Offset(HEADER, 4) == 8
    ensures Offset(HEADER, 5) == 9 && Offset(HEADER, 6) == 10 && Offset(HEADER, 7) == 12 && Offset(HEADER, 8) == 14
    ensures Offset(HEADER, 9) == 18 && Offset(HEADER, 10) == 26 && Offset(HEADER, 11) == 34 && Offset(HEADER, 12) == 42
    ensures Offset(HEADER, 13) == 50 && Offset(HEADER, 14) == 58 && Offset(HEADER, 15) == 74 && Offset(HEADER, 16) == 90
  {
    assert Offset(HEADER, 1) == 4;
    assert Offset(HEADER, 2) == 6;
    assert Offset(HEADER, 3) == 7;
    assert Offset(HEADER, 4) == 8;
    assert Offset(HEADER, 5) == 9;
    assert Offset(HEADER, 6) == 10;
    assert Offset(HEADER, 7) == 12;
    assert Offset(HEADER, 8) == 14;
    assert Offset(HEADER, 9) == 18;
    assert Offset(HEADER, 10) == 26;
    assert Offset(HEADER, 11) == 34;
    assert Offset(HEADER, 12) == 42;
    assert Offset(HEADER, 13) == 50;
    assert Offset(HEADER, 14) == 58;
    assert Offset(HEADER, 15) == 74;
    assert Offset(HEADER, 16) == 90;
    assert Offset(HEADER, 17) == 98;
  }

  /** Reads one frame from the front of a byte string and leaves the rest. */
  function Decode(bytes: seq<byte>, maxPayload: int, s: Spelling): (r: Result<(Envelope, seq<byte>), DecodeError>) {
    if |bytes| < HEADER_SIZE then Err(ShortHeader)
    else
      HeaderTotal();
      var h := Cut(bytes, HEADER);
      var w := BodyWidths(h);
      if h[0] != MAGIC then Err(BadMagic)
      else if w[0] > MAX_CONTENT_TYPE || w[1] > MAX_SCHEMA || w[2] > MAX_CAPABILITY
           || w[3] > MAX_NAME then Err(MetadataTooLong)
      else if w[4] > Limit(maxPayload) then Err(PayloadTooLarge)
      else if |bytes| - HEADER_SIZE < Total(w) then Err(ShortBody)
      else
        var e := Build(h, Cut(bytes[HEADER_SIZE..], w));
        if Valid(e, maxPayload, s) then Ok((e, bytes[HEADER_SIZE + Total(w)..])) else Err(Invalid)
  }

  // ------------------------------------------------------------------- round trips

  /** The lengths a frame can express. */
  predicate Encodable(e: Envelope) {
    |e.contentType| < 0x100 && |e.schema| < 0x100 && |e.capability| < 0x1_0000 && |e.name| < 0x1_0000
      && |e.payload| < 0x1_0000_0000
  }

  lemma ValidLengths(e: Envelope, maxPayload: int, s: Spelling)
    requires Valid(e, maxPayload, s) && |e.payload| < 0x1_0000_0000
    ensures Encodable(e)
  {
  }

  lemma HeaderHasWidths(e: Envelope)
    ensures HasWidths(HeaderParts(e), HEADER)
  {
    hide ToBytes, Unsigned;
    forall i | 0 <= i < 17 ensures |HeaderParts(e)[i]| == HEADER[i] {}
  }

  lemma LengthsReadBack(e: Envelope)
    requires Encodable(e)
    ensures BodyWidths(HeaderParts(e)) == [|e.contentType|, |e.schema|, |e.capability|, |e.name|, |e.payload|]
  {
    Widths();
    hide ToBytes, FromBytes, Pow256;
    FromToBytes(|e.contentType|, 1);
    FromToBytes(|e.schema|, 1);
    FromToBytes(|e.capability|, 2);
    FromToBytes(|e.name|, 2);
    FromToBytes(|e.payload|, 4);
  }

  lemma PartWidths(e: Envelope)
    requires Encodable(e)
    ensures HasWidths(HeaderParts(e), HEADER)
    ensures BodyWidths(HeaderParts(e)) == [|e.contentType|, |e.schema|, |e.capability|, |e.name|, |e.payload|]
    ensures HasWidths(BodyParts(e), BodyWidths(HeaderParts(e)))
  {
    hide HeaderParts, BodyWidths;
    HeaderHasWidths(e);
    LengthsReadBack(e);
    hide Encodable;
  }

  /** Reading back the parts of an envelope gives the envelope. */
  lemma BuildParts(e: Envelope)
    requires Encodable(e)
    ensures HasWidths(HeaderParts(e), HEADER) && Build(HeaderParts(e), BodyParts(e)) == e
  {
    PartWidths(e);
    Widths();
    FromToBytes(e.version, 2);
    FromToBytes(e.source, 8);
    FromToBytes(e.principal, 8);
    FromToBytes(e.target, 8);
    FromToBytes(e.epoch, 8);
    FromToBytes(Unsigned(e.deadline), 8);
    FromToBytes(e.owner, 8);
    hide ToBytes, FromBytes, Pow256;
  }

  /** Taking an envelope built from parts apart gives the parts. */
  lemma PartsBuild(h: seq<seq<byte>>, b: seq<seq<byte>>)
    requires HasWidths(h, HEADER) && h[0] == MAGIC && HasWidths(b, BodyWidths(h))
    ensures HeaderParts(Build(h, b)) == h && BodyParts(Build(h, b)) == b
  {
    hide ToBytes, FromBytes;
    var e := Build(h, b);
    LengthParts(h, b);
    NumberParts(h, b);
    assert HeaderParts(e) == h by {
      forall i | 0 <= i < 17 ensures HeaderParts(e)[i] == h[i] {}
    }
  }

  lemma LengthParts(h: seq<seq<byte>>, b: seq<seq<byte>>)
    requires HasWidths(h, HEADER) && HasWidths(b, BodyWidths(h))
    ensures h[4] == ToBytes(|b[0]|, 1) && h[5] == ToBytes(|b[1]|, 1) && h[6] == ToBytes(|b[2]|, 2)
    ensures h[7] == ToBytes(|b[3]|, 2) && h[8] == ToBytes(|b[4]|, 4)
  {
    hide ToBytes, FromBytes;
    ToFromBytes(h[4]);
    ToFromBytes(h[5]);
    ToFromBytes(h[6]);
    ToFromBytes(h[7]);
    ToFromBytes(h[8]);
  }

  lemma NumberParts(h: seq<seq<byte>>, b: seq<seq<byte>>)
    requires HasWidths(h, HEADER) && |b| == 5
    ensures var e := Build(h, b);
            && h[1] == ToBytes(e.version, 2) && h[2] == [e.phase] && h[3] == [e.operation]
               && h[9] == ToBytes(e.source, 8)
            && h[10] == ToBytes(e.principal, 8) && h[11] == ToBytes(e.target, 8) && h[12] == ToBytes(e.epoch, 8)
            && h[13] == ToBytes(Unsigned(e.deadline), 8) && h[16] == ToBytes(e.owner, 8)
  {
    hide ToBytes, FromBytes;
    ToFromBytes(h[1]);
    ToFromBytes(h[9]);
    ToFromBytes(h[10]);
    ToFromBytes(h[11]);
    ToFromBytes(h[12]);
    ToFromBytes(h[13]);
    ToFromBytes(h[16]);
  }

  /** Decoding an encoded valid envelope, whatever follows it, gives the envelope and what follows. */
  lemma DecodeOfFrame(e: Envelope, rest: seq<byte>, maxPayload: int, s: Spelling)
    requires Valid(e, maxPayload, s) && |e.payload| < 0x1_0000_0000
    ensures Decode(Frame(e) + rest, maxPayload, s) == Ok((e, rest))
  {
    hide *;
    ValidLengths(e, maxPayload, s);
    PartWidths(e);
    BuildParts(e);
    HeaderTotal();
    var h, b := Join(HeaderParts(e)), Join(BodyParts(e));
    var w := BodyWidths(HeaderParts(e));
    CutJoin(HeaderParts(e), HEADER, b + rest);
    CutJoin(BodyParts(e), w, rest);
    FrameSplits(e, h, b, rest);
    DecodeParts(h, b, rest, e, w, maxPayload, s);
  }

  lemma FrameSplits(e: Envelope, h: seq<byte>, b: seq<byte>, rest: seq<byte>)
    requires h == Join(HeaderParts(e)) && b == Join(BodyParts(e))
    ensures Frame(e) + rest == h + (b + rest)
  {
    hide Join, HeaderParts, BodyParts;
  }

  lemma DecodeUnfolds(bytes: seq<byte>, p: seq<seq<byte>>, w: seq<nat>, body: seq<byte>, e: Envelope, maxPayload: int,
      s: Spelling)
    requires |HEADER| == 17 && Total(HEADER) == HEADER_SIZE <= |bytes| && Cut(bytes, HEADER) == p
             && HasWidths(p, HEADER)
    requires p[0] == MAGIC && w == BodyWidths(p) && body == bytes[HEADER_SIZE..]
    requires w[0] <= MAX_CONTENT_TYPE && w[1] <= MAX_SCHEMA && w[2] <= MAX_CAPABILITY && w[3] <= MAX_NAME
             && w[4] <= Limit(maxPayload)
    requires Total(w) <= |body| && Build(p, Cut(body, w)) == e && Valid(e, maxPayload, s)
    ensures Decode(bytes, maxPayload, s) == Ok((e, bytes[HEADER_SIZE + Total(w)..]))
  {
    hide Valid, Cut, Build, BodyWidths, Total, HasWidths, Limit;
  }

  lemma DecodeParts(h: seq<byte>, b: seq<byte>, rest: seq<byte>, e: Envelope, w: seq<nat>, maxPayload: int, s: Spelling)
    requires |HEADER| == 17 && Total(HEADER) == HEADER_SIZE == |h| && |w| == 5 && Total(w) == |b|
    requires Cut(h + (b + rest), HEADER) == HeaderParts(e) && Cut(b + rest, w) == BodyParts(e)
             && HasWidths(HeaderParts(e), HEADER)
    requires w == BodyWidths(HeaderParts(e)) == [|e.contentType|, |e.schema|, |e.capability|, |e.name|, |e.payload|]
    requires Build(HeaderParts(e), BodyParts(e)) == e && Valid(e, maxPayload, s)
    ensures Decode(h + (b + rest), maxPayload, s) == Ok((e, rest))
  {
    assert LengthsOk(e, maxPayload);
    assert HeaderParts(e)[0] == MAGIC;
    hide Valid, Cut, Build, HeaderParts, BodyParts, BodyWidths, Total, HasWidths, Decode, Limit;
    Tails(h, b, rest);
    DecodeUnfolds(h + (b + rest), HeaderParts(e), w, b + rest, e, maxPayload, s);
  }

  lemma Tails(h: seq<byte>, b: seq<byte>, rest: seq<byte>)
    ensures var bytes := h + (b + rest);
            |bytes| == |h| + |b| + |rest| && bytes[|h|..] == b + rest && bytes[|h| + |b|..] == rest
  {
  }

  /** Every accepted frame re-encodes to the very bytes it was read from. */
  lemma FrameOfDecode(bytes: seq<byte>, maxPayload: int, s: Spelling)
    requires Decode(bytes, maxPayload, s).Ok?
    ensures var (e, rest) := Decode(bytes, maxPayload, s).value;
            Valid(e, maxPayload, s) && |e.payload| < 0x1_0000_0000 && Frame(e) + rest == bytes
  {
    HeaderTotal();
    var h := Cut(bytes, HEADER);
    var w := BodyWidths(h);
    var body := bytes[HEADER_SIZE..];
    hide HeaderParts, BodyParts, Valid, Build;
    PartsFrame(bytes, h, w, body);
    PayloadFits(h, Cut(body, w));
    var (e, rest) := Decode(bytes, maxPayload, s).value;
    assert rest == body[Total(w)..];
  }

  lemma PayloadFits(h: seq<seq<byte>>, b: seq<seq<byte>>)
    requires HasWidths(h, HEADER) && HasWidths(b, BodyWidths(h))
    ensures |Build(h, b).payload| < 0x1_0000_0000
  {
    FromBytesBound(h[8]);
    Widths();
  }

  lemma PartsFrame(bytes: seq<byte>, h: seq<seq<byte>>, w: seq<nat>, body: seq<byte>)
    requires |HEADER| == 17 && Total(HEADER) == HEADER_SIZE <= |bytes| && body == bytes[HEADER_SIZE..]
    requires h == Cut(bytes, HEADER) && h[0] == MAGIC && w == BodyWidths(h) && Total(w) <= |body|
    ensures Frame(Build(h, Cut(body, w))) + body[Total(w)..] == bytes
  {
    var b := Cut(body, w);
    assert HasWidths(h, HEADER) && HasWidths(b, BodyWidths(h));
    var e := Build(h, b);
    assert Frame(e) == Join(HeaderParts(e)) + Join(BodyParts(e));
    hide *;
    PartsBuild(h, b);
    JoinWholeCut(bytes, HEADER);
    JoinWholeCut(body, w);
    ThreePieces(bytes, HEADER_SIZE, Total(w));
  }

  // ---------------------------------------------------------------------- streams

  function Stream(es: seq<Envelope>): (bytes: seq<byte>) { if es == [] then [] else Frame(es[0]) + Stream(es[1..]) }

  /** Reads frames until the bytes run out. */
  function DecodeStream(bytes: seq<byte>, maxPayload: int, s: Spelling): (r: Result<seq<Envelope>, DecodeError>)
    decreases |bytes|
  {
    if bytes == [] then Ok([])
    else
      match Decode(bytes, maxPayload, s)
      case Err(e) => Err(e)
      case Ok((e, rest)) =>
        DecodeShortens(bytes, maxPayload, s);
        match DecodeStream(rest, maxPayload, s)
        case Err(x) => Err(x)
        case Ok(es) => Ok([e] + es)
  }

  lemma DecodeShortens(bytes: seq<byte>, maxPayload: int, s: Spelling)
    requires Decode(bytes, maxPayload, s).Ok?
    ensures |Decode(bytes, maxPayload, s).value.1| < |bytes|
  {
    hide Valid, Build, BodyWidths, Cut;
  }

  predicate AllValid(es: seq<Envelope>, maxPayload: int, s: Spelling) {
    forall i :: 0 <= i < |es| ==> Valid(es[i], maxPayload, s) && |es[i].payload| < 0x1_0000_0000
  }

  /** Frames written one after another are read back in order. */
  lemma {:induction false} StreamsRoundTrip(es: seq<Envelope>, maxPayload: int, s: Spelling)
    requires AllValid(es, maxPayload, s)
    ensures DecodeStream(Stream(es), maxPayload, s) == Ok(es)
  {
    hide *;
    if es == [] {
      NoFrames(maxPayload, s);
    } else {
      FirstFrame(es, maxPayload, s);
      DecodeOfFrame(es[0], Stream(es[1..]), maxPayload, s);
      StreamsRoundTrip(es[1..], maxPayload, s);
      OneMore(Stream(es), es[0], Stream(es[1..]), es[1..], maxPayload, s);
      assert es == [es[0]] + es[1..];
    }
  }

  /** Whatever bytes are read as frames are exactly the bytes those frames are written as. */
  lemma {:induction false} StreamOfDecode(bytes: seq<byte>, maxPayload: int, s: Spelling)
    requires DecodeStream(bytes, maxPayload, s).Ok?
    ensures AllValid(DecodeStream(bytes, maxPayload, s).value, maxPayload, s)
    ensures Stream(DecodeStream(bytes, maxPayload, s).value) == bytes
    decreases |bytes|
  {
    if bytes != [] {
      hide Valid, Decode, Frame, Stream, AllValid;
      var (e, rest) := Decode(bytes, maxPayload, s).value;
      DecodeShortens(bytes, maxPayload, s);
      FrameOfDecode(bytes, maxPayload, s);
      StreamOfDecode(rest, maxPayload, s);
      MoreFrames(bytes, e, rest, maxPayload, s);
    }
  }

  lemma MoreFrames(bytes: seq<byte>, e: Envelope, rest: seq<byte>, maxPayload: int, s: Spelling)
    requires bytes != [] && Decode(bytes, maxPayload, s) == Ok((e, rest)) && DecodeStream(rest, maxPayload, s).Ok?
    requires Valid(e, maxPayload, s) && |e.payload| < 0x1_0000_0000 && Frame(e) + rest == bytes
    requires AllValid(DecodeStream(rest, maxPayload, s).value, maxPayload, s)
    requires Stream(DecodeStream(rest, maxPayload, s).value) == rest
    ensures DecodeStream(bytes, maxPayload, s).Ok? && Stream(DecodeStream(bytes, maxPayload, s).value) == bytes
    ensures AllValid(DecodeStream(bytes, maxPayload, s).value, maxPayload, s)
  {
    hide Valid, Decode, Frame, DecodeStream;
    var es := DecodeStream(rest, maxPayload, s).value;
    OneMore(bytes, e, rest, es, maxPayload, s);
    assert Stream([e] + es) == bytes by {
      hide AllValid;
      assert ([e] + es)[1..] == es;
    }
  }

  lemma NoFrames(maxPayload: int, s: Spelling)
    ensures DecodeStream(Stream([]), maxPayload, s) == Ok([])
  {
  }

  lemma FirstFrame(es: seq<Envelope>, maxPayload: int, s: Spelling)
    requires es != [] && AllValid(es, maxPayload, s)
    ensures Valid(es[0], maxPayload, s) && |es[0].payload| < 0x1_0000_0000 && AllValid(es[1..], maxPayload, s)
    ensures Stream(es) == Frame(es[0]) + Stream(es[1..])
  {
    hide Valid, Frame;
  }

  lemma OneMore(bytes: seq<byte>, e: Envelope, rest: seq<byte>, es: seq<Envelope>, maxPayload: int, s: Spelling)
    requires Decode(bytes, maxPayload, s) == Ok((e, rest)) && DecodeStream(rest, maxPayload, s) == Ok(es)
    ensures DecodeStream(bytes, maxPayload, s) == Ok([e] + es)
  {
    EmptyIsNoFrame(maxPayload, s);
    hide Decode;
  }

  lemma EmptyIsNoFrame(maxPayload: int, s: Spelling)
    ensures Decode([], maxPayload, s).Err?
  {
  }

  /** Two valid envelopes with the same bytes are the same: no frame is a proper beginning of another. */
  lemma FramesAreUnambiguous(a: Envelope, b: Envelope, x: seq<byte>, y: seq<byte>, maxPayload: int, s: Spelling)
    requires Valid(a, maxPayload, s) && Valid(b, maxPayload, s) && |a.payload| < 0x1_0000_0000
             && |b.payload| < 0x1_0000_0000
    requires Frame(a) + x == Frame(b) + y
    ensures a == b && x == y
  {
    DecodeOfFrame(a, x, maxPayload, s);
    DecodeOfFrame(b, y, maxPayload, s);
  }
}
