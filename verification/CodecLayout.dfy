/**
 * The wire format itself, byte by byte: where every field of a frame lies and how it is spelled. Encoding lays a frame
 * out like this and decoding accepts exactly the byte strings that lie like this.
 */
module CodecLayout {
  import opened Basics
  import opened Wire
  import opened Codec
  import opened CodecBuffer
  import EC = EnrollmentCodec

  // ----------------------------------------------------------------------- numbers

  /** Two bytes, the higher one first. */
  function Big2(b: seq<byte>): (n: nat)
    requires |b| == 2
  {
    b[0] as nat * 0x100 + b[1] as nat
  }

  function Big4(b: seq<byte>): (n: nat)
    requires |b| == 4
  {
    Big2(b[..2]) * 0x1_0000 + Big2(b[2..])
  }

  function Big8(b: seq<byte>): (n: nat)
    requires |b| == 8
  {
    Big4(b[..4]) * 0x1_0000_0000 + Big4(b[4..])
  }

  lemma OneMoreByte(front: seq<byte>, x: byte)
    ensures FromBytes(front + [x]) == FromBytes(front) * 0x100 + x as nat
  {
    assert (front + [x])[..|front|] == front;
  }

  lemma TwoMoreBytes(front: seq<byte>, b: seq<byte>)
    requires |b| == 2
    ensures FromBytes(front + b) == FromBytes(front) * 0x1_0000 + Big2(b)
  {
    hide FromBytes;
    OneMoreByte(front, b[0]);
    OneMoreByte(front + [b[0]], b[1]);
    assert front + b == front + [b[0]] + [b[1]];
  }

  lemma FourMoreBytes(front: seq<byte>, b: seq<byte>)
    requires |b| == 4
    ensures FromBytes(front + b) == FromBytes(front) * 0x1_0000_0000 + Big4(b)
  {
    hide FromBytes, Big2;
    TwoMoreBytes(front, b[..2]);
    TwoMoreBytes(front + b[..2], b[2..]);
    assert front + b == front + b[..2] + b[2..];
  }

  /** The numbers on the wire are the positional values of their bytes. */
  lemma BigEndian(b: seq<byte>)
    ensures |b| == 1 ==> FromBytes(b) == b[0] as nat
    ensures |b| == 2 ==> FromBytes(b) == Big2(b)
    ensures |b| == 4 ==> FromBytes(b) == Big4(b)
    ensures |b| == 8 ==> FromBytes(b) == Big8(b)
  {
    assert FromBytes([]) == 0;
    hide FromBytes, Big2, Big4;
    if |b| == 1 {
      OneMoreByte([], b[0]);
      assert [] + [b[0]] == b;
    } else if |b| == 2 {
      TwoMoreBytes([], b);
      assert [] + b == b;
    } else if |b| == 4 {
      FourMoreBytes([], b);
      assert [] + b == b;
    } else if |b| == 8 {
      FourMoreBytes([], b[..4]);
      assert [] + b[..4] == b[..4];
      FourMoreBytes(b[..4], b[4..]);
      assert b[..4] + b[4..] == b;
    }
  }

  /** A field of its width spells a number exactly when its positional value is that number. */
  lemma SpelledExactly(b: seq<byte>, n: nat)
    requires n < Pow256(|b|)
    ensures b == ToBytes(n, |b|) <==> FromBytes(b) == n
  {
    FromToBytes(n, |b|);
    ToFromBytes(b);
    hide FromBytes, ToBytes, Pow256;
  }

  // ------------------------------------------------------------------------ layout

  const BODY: nat := 98

  /** Magic, version, phase, operation, and the lengths of what follows the header. */
  predicate StartsWith(bytes: seq<byte>, e: Envelope)
    requires |bytes| >= BODY
  {
    && bytes[..4] == [77, 70, 72, 52] && Big2(bytes[4..6]) == e.version && bytes[6] == e.phase
       && bytes[7] == e.operation
    && bytes[8] as nat == |e.contentType| && bytes[9] as nat == |e.schema| && Big2(bytes[10..12]) == |e.capability|
    && Big2(bytes[12..14]) == |e.name| && Big4(bytes[14..18]) == |e.payload|
  }

  /** Who, for whom, to whom, in which epoch, until when, which message about which resource. */
  predicate Addresses(bytes: seq<byte>, e: Envelope)
    requires |bytes| >= BODY
  {
    && Big8(bytes[18..26]) == e.source && Big8(bytes[26..34]) == e.principal && Big8(bytes[34..42]) == e.target
    && Big8(bytes[42..50]) == e.epoch
    && Big8(bytes[50..58]) == (if e.deadline < 0 then e.deadline + 0x1_0000_0000_0000_0000 else e.deadline)
    && bytes[58..74] == e.messageId && bytes[74..90] == e.correlationId && Big8(bytes[90..98]) == e.owner
  }

  /** Content type, schema, capability, resource name and payload, one after another. */
  predicate Carries(bytes: seq<byte>, e: Envelope) {
    var schema := BODY + |e.contentType|;
    var capability := schema + |e.schema|;
    var name := capability + |e.capability|;
    var payload := name + |e.name|;
    && payload + |e.payload| <= |bytes|
    && bytes[BODY..schema] == e.contentType && bytes[schema..capability] == e.schema
    && bytes[capability..name] == e.capability && bytes[name..payload] == e.name
    && bytes[payload..payload + |e.payload|] == e.payload
  }

  function FrameLength(e: Envelope): (n: nat) {
    BODY + |e.contentType| + |e.schema| + |e.capability| + |e.name| + |e.payload|
  }

  /** The bytes begin with the frame of this envelope. */
  predicate LaidOut(bytes: seq<byte>, e: Envelope) {
    |bytes| >= BODY && StartsWith(bytes, e) && Addresses(bytes, e) && Carries(bytes, e)
  }

  lemma LengthsMatch(h: seq<seq<byte>>, e: Envelope)
    requires HasWidths(h, HEADER) && Encodable(e)
    ensures (forall i :: 0 <= i < 9 ==> h[i] == HeaderParts(e)[i])
            <==> PartsSay(h, e)
  {
    Widths();
    hide FromBytes, ToBytes, Pow256, Big2, Big4;
    BigEndian(h[1]);
    BigEndian(h[4]);
    BigEndian(h[5]);
    BigEndian(h[6]);
    BigEndian(h[7]);
    BigEndian(h[8]);
    SpelledExactly(h[1], e.version);
    SpelledExactly(h[4], |e.contentType|);
    SpelledExactly(h[5], |e.schema|);
    SpelledExactly(h[6], |e.capability|);
    SpelledExactly(h[7], |e.name|);
    SpelledExactly(h[8], |e.payload|);
    assert h[2] == [h[2][0]] && h[3] == [h[3][0]];
    NineParts(h, HeaderParts(e));
  }

  lemma NineParts(h: seq<seq<byte>>, p: seq<seq<byte>>)
    requires |h| == |p| == 17
    ensures (forall i :: 0 <= i < 9 ==> h[i] == p[i])
            <==> && h[0] == p[0] && h[1] == p[1] && h[2] == p[2] && h[3] == p[3] && h[4] == p[4] && h[5] == p[5]
                 && h[6] == p[6] && h[7] == p[7] && h[8] == p[8]
    ensures (forall i :: 9 <= i < 17 ==> h[i] == p[i])
            <==> && h[9] == p[9] && h[10] == p[10] && h[11] == p[11] && h[12] == p[12] && h[13] == p[13]
                 && h[14] == p[14] && h[15] == p[15] && h[16] == p[16]
  {}

  lemma AddressesMatch(h: seq<seq<byte>>, e: Envelope)
    requires HasWidths(h, HEADER)
    ensures (forall i :: 9 <= i < 17 ==> h[i] == HeaderParts(e)[i])
            <==> PartsName(h, e)
  {
    Widths();
    hide FromBytes, ToBytes, Pow256, Big8;
    BigEndian(h[9]);
    BigEndian(h[10]);
    BigEndian(h[11]);
    BigEndian(h[12]);
    BigEndian(h[13]);
    BigEndian(h[16]);
    SpelledExactly(h[9], e.source);
    SpelledExactly(h[10], e.principal);
    SpelledExactly(h[11], e.target);
    SpelledExactly(h[12], e.epoch);
    SpelledExactly(h[13], Unsigned(e.deadline));
    SpelledExactly(h[16], e.owner);
    NineParts(h, HeaderParts(e));
  }

  predicate PartsSay(h: seq<seq<byte>>, e: Envelope)
    requires HasWidths(h, HEADER)
  {
    && h[0] == [77, 70, 72, 52] && Big2(h[1]) == e.version && h[2][0] == e.phase && h[3][0] == e.operation
    && h[4][0] as nat == |e.contentType| && h[5][0] as nat == |e.schema| && Big2(h[6]) == |e.capability|
    && Big2(h[7]) == |e.name| && Big4(h[8]) == |e.payload|
  }

  predicate PartsName(h: seq<seq<byte>>, e: Envelope)
    requires HasWidths(h, HEADER)
  {
    && Big8(h[9]) == e.source && Big8(h[10]) == e.principal && Big8(h[11]) == e.target && Big8(h[12]) == e.epoch
    && Big8(h[13]) == (if e.deadline < 0 then e.deadline + 0x1_0000_0000_0000_0000 else e.deadline)
    && h[14] == e.messageId && h[15] == e.correlationId && Big8(h[16]) == e.owner
  }

  lemma SlicesSay(bytes: seq<byte>, e: Envelope)
    requires |bytes| >= BODY && |HEADER| == 17 && Total(HEADER) == BODY
    ensures HasWidths(Cut(bytes, HEADER), HEADER)
    ensures PartsSay(Cut(bytes, HEADER), e) <==> StartsWith(bytes, e)
    ensures PartsName(Cut(bytes, HEADER), e) <==> Addresses(bytes, e)
  {
    HeaderSlices(bytes);
    assert HasWidths(Cut(bytes, HEADER), HEADER);
    hide Cut, Total, Big2, Big4, Big8;
    assert bytes[0..4] == bytes[..4];
  }

  lemma HeaderMatches(bytes: seq<byte>, e: Envelope)
    requires |bytes| >= BODY && Encodable(e)
    ensures |HEADER| == 17 && Total(HEADER) == BODY
    ensures Cut(bytes, HEADER) == HeaderParts(e) <==> StartsWith(bytes, e) && Addresses(bytes, e)
  {
    HeaderTotal();
    hide Offset, Total, HeaderParts, Encodable, StartsWith, Addresses, PartsSay, PartsName, Cut;
    SlicesSay(bytes, e);
    var h := Cut(bytes, HEADER);
    LengthsMatch(h, e);
    AddressesMatch(h, e);
    AllParts(h, HeaderParts(e));
  }

  lemma AllParts(h: seq<seq<byte>>, p: seq<seq<byte>>)
    requires |h| == |p| == 17
    ensures h == p <==> (forall i :: 0 <= i < 9 ==> h[i] == p[i]) && (forall i :: 9 <= i < 17 ==> h[i] == p[i])
  {}

  lemma Slid(bytes: seq<byte>, lo: nat, hi: nat)
    requires |bytes| >= BODY && lo <= hi <= |bytes| - BODY
    ensures bytes[BODY..][lo..hi] == bytes[BODY + lo..BODY + hi]
  {}

  lemma BodyPart(bytes: seq<byte>, w: seq<nat>, i: nat, lo: nat, hi: nat)
    requires |bytes| >= BODY && Total(w) <= |bytes| - BODY && i < |w| && Offset(w, i) == lo && Offset(w, i + 1) == hi
    ensures lo <= hi <= |bytes| - BODY && Cut(bytes[BODY..], w)[i] == bytes[BODY + lo..BODY + hi]
  {
    hide Cut, Total, Offset;
    CutAt(bytes[BODY..], w, i);
    Slid(bytes, lo, hi);
  }

  /** The parts of the body, cut out of the whole. */
  lemma BodyFields(bytes: seq<byte>, w: seq<nat>)
    requires |w| == 5 && |bytes| >= BODY + w[0] + w[1] + w[2] + w[3] + w[4]
    ensures Total(w) == w[0] + w[1] + w[2] + w[3] + w[4]
    ensures var b := Cut(bytes[BODY..], w);
            var schema := BODY + w[0];
            var capability := schema + w[1];
            var name := capability + w[2];
            var payload := name + w[3];
            && b[0] == bytes[BODY..schema] && b[1] == bytes[schema..capability] && b[2] == bytes[capability..name]
            && b[3] == bytes[name..payload] && b[4] == bytes[payload..payload + w[4]]
  {
    BodyTotal(w);
    WholeOffset(w);
    hide Cut, Total, Offset;
    BodyPart(bytes, w, 0, 0, w[0]);
    BodyPart(bytes, w, 1, w[0], w[0] + w[1]);
    BodyPart(bytes, w, 2, w[0] + w[1], w[0] + w[1] + w[2]);
    BodyPart(bytes, w, 3, w[0] + w[1] + w[2], w[0] + w[1] + w[2] + w[3]);
    BodyPart(bytes, w, 4, w[0] + w[1] + w[2] + w[3], w[0] + w[1] + w[2] + w[3] + w[4]);
  }

  lemma FiveParts(b: seq<seq<byte>>, e: Envelope)
    requires |b| == 5
    ensures b == BodyParts(e)
            <==> b[0] == e.contentType && b[1] == e.schema && b[2] == e.capability && b[3] == e.name
                 && b[4] == e.payload
  {}

  lemma BodyMatches(bytes: seq<byte>, e: Envelope, w: seq<nat>)
    requires |bytes| >= FrameLength(e)
    requires w == [|e.contentType|, |e.schema|, |e.capability|, |e.name|, |e.payload|]
    ensures Total(w) == FrameLength(e) - BODY
    ensures Cut(bytes[BODY..], w) == BodyParts(e) <==> Carries(bytes, e)
  {
    hide Cut, Total, Offset, BodyParts;
    BodyFields(bytes, w);
    FiveParts(Cut(bytes[BODY..], w), e);
  }

  lemma FrameParts(e: Envelope)
    requires Encodable(e)
    ensures |Join(HeaderParts(e))| == BODY && |Join(BodyParts(e))| == FrameLength(e) - BODY
  {
    PartWidths(e);
    HeaderTotal();
    var w := BodyWidths(HeaderParts(e));
    BodyTotal(w);
    hide HeaderParts, BodyParts, BodyWidths, Join, Offset, Encodable, Cut, HasWidths, Total;
    CutJoin(HeaderParts(e), HEADER, []);
    CutJoin(BodyParts(e), w, []);
  }

  lemma FrameIsLaidOut(e: Envelope, rest: seq<byte>)
    requires Encodable(e)
    ensures LaidOut(Frame(e) + rest, e)
  {
    FrameParts(e);
    PartWidths(e);
    var w := BodyWidths(HeaderParts(e));
    var h, b, bytes := Join(HeaderParts(e)), Join(BodyParts(e)), Frame(e) + rest;
    FrameSplits(e, h, b, rest);
    hide Frame, HeaderParts, BodyParts, BodyWidths, Join, Encodable, Cut, HasWidths, Total, StartsWith, Addresses,
      Carries;
    CutJoin(HeaderParts(e), HEADER, b + rest);
    CutJoin(BodyParts(e), w, rest);
    HeaderMatches(bytes, e);
    assert bytes[BODY..] == b + rest;
    BodyMatches(bytes, e, w);
  }

  lemma LaidOutIsFrame(bytes: seq<byte>, e: Envelope)
    requires Encodable(e) && LaidOut(bytes, e)
    ensures |bytes| >= FrameLength(e) && bytes[..FrameLength(e)] == Frame(e)
  {
    assert |bytes| >= FrameLength(e) by { hide StartsWith, Addresses; }
    PartWidths(e);
    var w := BodyWidths(HeaderParts(e));
    hide HeaderParts, BodyParts, BodyWidths, Join, Encodable, Cut, HasWidths, Total, StartsWith, Addresses, Carries;
    HeaderMatches(bytes, e);
    BodyMatches(bytes, e, w);
    JoinWholeCut(bytes, HEADER);
    JoinWholeCut(bytes[BODY..], w);
    assert bytes[..FrameLength(e)] == bytes[..BODY] + bytes[BODY..][..FrameLength(e) - BODY];
  }

  /** A byte string begins with the encoding of an envelope exactly when every field lies in its place. */
  lemma BeginsExactly(bytes: seq<byte>, e: Envelope)
    requires Encodable(e)
    ensures |Frame(e)| == FrameLength(e)
    ensures Frame(e) <= bytes <==> LaidOut(bytes, e)
  {
    FrameParts(e);
    assert |Frame(e)| == FrameLength(e);
    hide Frame, HeaderParts, BodyParts, Join, Encodable, LaidOut;
    if Frame(e) <= bytes {
      FrameIsLaidOut(e, bytes[|Frame(e)|..]);
      assert bytes == Frame(e) + bytes[|Frame(e)|..];
    }
    if LaidOut(bytes, e) { LaidOutIsFrame(bytes, e); }
  }

  /**
   * Decoding accepts exactly the byte strings in which every field of a valid envelope lies in its place, and gives
   * that
   * envelope and what follows it.
   */
  lemma DecodesExactly(bytes: seq<byte>, e: Envelope, rest: seq<byte>, maxPayload: int, s: Spelling)
    ensures Decode(bytes, maxPayload, s) == Ok((e, rest))
            <==> && Valid(e, maxPayload, s) && |e.payload| < 0x1_0000_0000 && LaidOut(bytes, e)
                 && FrameLength(e) <= |bytes| && rest == bytes[FrameLength(e)..]
  {
    hide *;
    if Decode(bytes, maxPayload, s) == Ok((e, rest)) {
      FrameOfDecode(bytes, maxPayload, s);
      ValidLengths(e, maxPayload, s);
      BeginsExactly(bytes, e);
      assert bytes[|Frame(e)|..] == rest;
    }
    if Valid(e, maxPayload, s) && |e.payload| < 0x1_0000_0000 && LaidOut(bytes, e) && FrameLength(e) <= |bytes|
       && rest == bytes[FrameLength(e)..]
    {
      ValidLengths(e, maxPayload, s);
      BeginsExactly(bytes, e);
      assert bytes == Frame(e) + rest;
      DecodeOfFrame(e, rest, maxPayload, s);
    }
  }

  // ------------------------------------------------------------------- what is valid, phase by phase

  /** The operations of each phase, told apart by whether they name a resource and answer another message. */
  predicate FitsPhase(e: Envelope, resource: bool, answers: bool) {
    match e.phase
    case 1 =>
      || (e.operation == 1 && !resource && !answers)
      || (e.operation in [5, 6, 10, 12] && resource && !answers)
      || (e.operation in [14, 15] && resource && answers)
    case 2 =>
      || (e.operation in [5, 6, 10, 12] && resource && !answers)
      || (e.operation in [14, 15] && resource && answers)
    case 3 =>
      || (e.operation in [2, 16] && !resource && answers)
      || (e.operation in [7, 8, 11, 13, 14, 15] && resource && answers)
    case 4 =>
      || (e.operation in [3, 4, 17] && !resource && !answers)
      || (e.operation in [8, 9] && resource && answers)
    case _ => false
  }

  /**
   * An envelope is valid exactly when it has version 2, a message identifier, source and target, no negative deadline
   * and
   * no part too long, and its operation fits its phase: with a resource and a capability where one is named and neither
   * where none is, and with the identifier of the message it answers.
   */
  lemma ValidByPhase(e: Envelope, maxPayload: int, s: Spelling)
    ensures Valid(e, maxPayload, s)
            <==> && e.version == 2 && e.source != 0 && e.target != 0 && e.deadline >= 0
                 && (exists i :: 0 <= i < 16 && e.messageId[i] != 0)
                 && |e.contentType| <= 127 && |e.schema| <= 255 && |e.capability| <= 128 && |e.name| <= 255
                 && |e.payload| <= (if maxPayload <= 0 then 0x10_0000 else maxPayload)
                 && exists resource, answers :: FitsPhase(e, resource, answers) && SaysSo(e, resource, answers, s)
  {
    var resource, answers := 5 <= e.operation <= 15, RequiresCorrelation(e.operation);
    assert !IsZero(e.messageId) <==> exists i :: 0 <= i < 16 && e.messageId[i] != 0;
    hide LengthsOk, IsZero;
    if Valid(e, maxPayload, s) {
      assert FitsPhase(e, resource, answers) && SaysSo(e, resource, answers, s);
    }
    forall r, a | FitsPhase(e, r, a) && SaysSo(e, r, a, s)
      ensures r == resource && a == answers && PhaseAllows(e.phase, e.operation)
    {}
  }

  /** Whether it names a resource, and whether it answers a message, as its fields say. */
  predicate SaysSo(e: Envelope, resource: bool, answers: bool, s: Spelling) {
    && (if resource then e.owner != 0 && e.name != [] && s.name(e.name) && s.capability(e.capability)
        else e.owner == 0 && e.name == [] && e.capability == [])
    && (answers ==> !IsZero(e.correlationId))
  }

  // ------------------------------------------------------------------- enrollment frames

  /** Magic, version, kind, one zero byte, the length of the payload, then the payload. */
  predicate MessageLaidOut(bytes: seq<byte>, m: EC.Message) {
    && |bytes| >= 12 + |m.payload| && bytes[..4] == [77, 70, 72, 69] && Big2(bytes[4..6]) == m.version
    && bytes[6] == m.kind && bytes[7] == 0 && Big4(bytes[8..12]) == |m.payload|
    && bytes[12..12 + |m.payload|] == m.payload
  }

  lemma MessageSlices(bytes: seq<byte>)
    requires |bytes| >= 12
    ensures |EC.ENROLLMENT_HEADER| == 5 && Total(EC.ENROLLMENT_HEADER) == 12
    ensures Cut(bytes, EC.ENROLLMENT_HEADER) == [bytes[0..4], bytes[4..6], bytes[6..7], bytes[7..8], bytes[8..12]]
  {
    EC.HeaderWidth();
    hide Offset, Total, Cut;
    CutAt(bytes, EC.ENROLLMENT_HEADER, 0);
    CutAt(bytes, EC.ENROLLMENT_HEADER, 1);
    CutAt(bytes, EC.ENROLLMENT_HEADER, 2);
    CutAt(bytes, EC.ENROLLMENT_HEADER, 3);
    CutAt(bytes, EC.ENROLLMENT_HEADER, 4);
  }

  lemma MessagePartsMatch(bytes: seq<byte>, m: EC.Message)
    requires |bytes| >= 12 && |m.payload| < 0x1_0000_0000
    ensures [bytes[0..4], bytes[4..6], bytes[6..7], bytes[7..8], bytes[8..12]] == EC.Parts(m)
            <==> && bytes[..4] == [77, 70, 72, 69] && Big2(bytes[4..6]) == m.version && bytes[6] == m.kind
                 && bytes[7] == 0 && Big4(bytes[8..12]) == |m.payload|
  {
    Widths();
    hide FromBytes, ToBytes, Pow256, Big2, Big4;
    BigEndian(bytes[4..6]);
    BigEndian(bytes[8..12]);
    SpelledExactly(bytes[4..6], m.version);
    SpelledExactly(bytes[8..12], |m.payload|);
    assert bytes[0..4] == bytes[..4] && bytes[6..7] == [bytes[6]] && bytes[7..8] == [bytes[7]];
  }

  /** A byte string begins with an enrollment frame exactly when every field of it lies in its place. */
  lemma MessageBeginsExactly(bytes: seq<byte>, m: EC.Message)
    requires |m.payload| < 0x1_0000_0000
    ensures |EC.MessageBytes(m)| == 12 + |m.payload|
    ensures EC.MessageBytes(m) <= bytes <==> MessageLaidOut(bytes, m)
  {
    EC.MessageWidths(m);
    EC.HeaderWidth();
    var h := Join(EC.Parts(m));
    hide FromBytes, ToBytes, Pow256, Big2, Big4, Join, Offset, Cut, EC.Parts, Number16;
    CutJoin(EC.Parts(m), EC.ENROLLMENT_HEADER, []);
    hide Total, HasWidths;
    if EC.MessageBytes(m) <= bytes {
      var rest := bytes[12 + |m.payload|..];
      assert bytes == h + (m.payload + rest);
      CutJoin(EC.Parts(m), EC.ENROLLMENT_HEADER, m.payload + rest);
      MessageSlices(bytes);
      MessagePartsMatch(bytes, m);
    }
    if MessageLaidOut(bytes, m) {
      MessageSlices(bytes);
      MessagePartsMatch(bytes, m);
      JoinWholeCut(bytes, EC.ENROLLMENT_HEADER);
      assert h == bytes[..12];
      assert bytes[..12 + |m.payload|] == bytes[..12] + bytes[12..12 + |m.payload|];
    }
  }

  /** Decoding accepts exactly the byte strings in which every field of a well-formed message lies in its place. */
  lemma MessageDecodesExactly(bytes: seq<byte>, m: EC.Message, rest: seq<byte>, maxPayload: int)
    ensures EC.DecodeMessage(bytes, maxPayload) == Ok((m, rest))
            <==> && EC.MessageOk(m, maxPayload) && |m.payload| < 0x1_0000_0000 && MessageLaidOut(bytes, m)
                 && 12 + |m.payload| <= |bytes| && rest == bytes[12 + |m.payload|..]
  {
    hide *;
    if EC.DecodeMessage(bytes, maxPayload) == Ok((m, rest)) {
      EC.MessageOfDecode(bytes, maxPayload);
      MessageBeginsExactly(bytes, m);
      assert bytes[|EC.MessageBytes(m)|..] == rest;
    }
    if EC.MessageOk(m, maxPayload) && |m.payload| < 0x1_0000_0000 && MessageLaidOut(bytes, m)
       && 12 + |m.payload| <= |bytes| && rest == bytes[12 + |m.payload|..]
    {
      MessageBeginsExactly(bytes, m);
      assert bytes == EC.MessageBytes(m) + rest;
      EC.DecodeOfMessage(m, rest, maxPayload);
    }
  }
}
