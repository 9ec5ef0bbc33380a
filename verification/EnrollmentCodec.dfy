/** The codec of the enrollment handshake: a header of twelve bytes with one reserved byte, then the payload. */
module EnrollmentCodec {
  import opened Basics
  import opened Wire
  import opened Codec

  const ENROLLMENT_MAGIC: seq<byte> := [77, 70, 72, 69]
  const ENROLLMENT_VERSION: nat := 1
  const MAX_ENROLLMENT_PAYLOAD: int := 0x1_0000
  const ENROLLMENT_HEADER: seq<nat> := [4, 2, 1, 1, 4]
  const ENROLLMENT_HEADER_SIZE: nat := 12

  datatype Message = Message(version: U16, kind: byte, payload: seq<byte>)

  function PayloadLimit(maxPayload: int): (r: int)
    ensures r > 0
  {
    if maxPayload <= 0 then MAX_ENROLLMENT_PAYLOAD else maxPayload
  }

  predicate MessageOk(m: Message, maxPayload: int) {
    m.version == ENROLLMENT_VERSION && 1 <= m.kind <= 4 && 1 <= |m.payload| <= PayloadLimit(maxPayload)
  }

  function Parts(m: Message): (r: seq<seq<byte>>)
    ensures |r| == 5
  {
    [ENROLLMENT_MAGIC, ToBytes(m.version, 2), [m.kind], [0], ToBytes(|m.payload|, 4)]
  }

  function MessageBytes(m: Message): (bytes: seq<byte>) { Join(Parts(m)) + m.payload }

  datatype MessageError = HeaderTooShort | WrongMagic | ReservedFlags | TooLarge | PayloadTooShort | Malformed

  lemma HeaderWidth()
    ensures |ENROLLMENT_HEADER| == 5 && Total(ENROLLMENT_HEADER) == ENROLLMENT_HEADER_SIZE
    ensures Offset(ENROLLMENT_HEADER, 0) == 0 && Offset(ENROLLMENT_HEADER, 1) == 4 && Offset(ENROLLMENT_HEADER, 2) == 6
    ensures Offset(ENROLLMENT_HEADER, 3) == 7 && Offset(ENROLLMENT_HEADER, 4) == 8 && Offset(ENROLLMENT_HEADER, 5) == 12
  {
    assert Offset(ENROLLMENT_HEADER, 1) == 4;
    assert Offset(ENROLLMENT_HEADER, 2) == 6;
    assert Offset(ENROLLMENT_HEADER, 3) == 7;
    assert Offset(ENROLLMENT_HEADER, 4) == 8;
    assert Offset(ENROLLMENT_HEADER, 5) == 12;
  }

  function DecodeMessage(bytes: seq<byte>, maxPayload: int): (r: Result<(Message, seq<byte>), MessageError>) {
    if |bytes| < ENROLLMENT_HEADER_SIZE then Err(HeaderTooShort)
    else
      HeaderWidth();
      var h := Cut(bytes, ENROLLMENT_HEADER);
      var n := FromBytes(h[4]);
      if h[0] != ENROLLMENT_MAGIC then Err(WrongMagic)
      else if h[3] != [0] then Err(ReservedFlags)
      else if n > PayloadLimit(maxPayload) then Err(TooLarge)
      else if |bytes| - ENROLLMENT_HEADER_SIZE < n then Err(PayloadTooShort)
      else
        var m := Message(Number16(h[1]), h[2][0], bytes[ENROLLMENT_HEADER_SIZE..ENROLLMENT_HEADER_SIZE + n]);
        if MessageOk(m, maxPayload) then Ok((m, bytes[ENROLLMENT_HEADER_SIZE + n..])) else Err(Malformed)
  }

  lemma MessageWidths(m: Message)
    requires |m.payload| < 0x1_0000_0000
    ensures HasWidths(Parts(m), ENROLLMENT_HEADER) && FromBytes(Parts(m)[4]) == |m.payload|
            && Number16(Parts(m)[1]) == m.version
  {
    Widths();
    FromToBytes(|m.payload|, 4);
    FromToBytes(m.version, 2);
    hide ToBytes, FromBytes, Pow256;
  }

  /** Decoding an encoded message, whatever follows it, gives the message and what follows. */
  lemma DecodeOfMessage(m: Message, rest: seq<byte>, maxPayload: int)
    requires MessageOk(m, maxPayload) && |m.payload| < 0x1_0000_0000
    ensures DecodeMessage(MessageBytes(m) + rest, maxPayload) == Ok((m, rest))
  {
    MessageWidths(m);
    HeaderWidth();
    var bytes := MessageBytes(m) + rest;
    CutJoin(Parts(m), ENROLLMENT_HEADER, m.payload + rest);
    assert bytes == Join(Parts(m)) + (m.payload + rest);
    hide Join, Offset, Cut, FromBytes, ToBytes, Total, HasWidths;
    assert bytes[ENROLLMENT_HEADER_SIZE..ENROLLMENT_HEADER_SIZE + |m.payload|] == m.payload;
    assert bytes[ENROLLMENT_HEADER_SIZE + |m.payload|..] == rest;
  }

  lemma HeaderReadBack(h: seq<seq<byte>>, m: Message)
    requires HasWidths(h, ENROLLMENT_HEADER) && h[0] == ENROLLMENT_MAGIC && h[3] == [0]
    requires m.version == Number16(h[1]) && m.kind == h[2][0] && |m.payload| == FromBytes(h[4])
    ensures Parts(m) == h && |m.payload| < 0x1_0000_0000
  {
    FromBytesBound(h[4]);
    Widths();
    ToFromBytes(h[1]);
    ToFromBytes(h[4]);
    hide FromBytes, ToBytes, Pow256;
    assert h[2] == [h[2][0]];
  }

  /** Every accepted message re-encodes to the very bytes it was read from, reserved byte included. */
  lemma MessageOfDecode(bytes: seq<byte>, maxPayload: int)
    requires DecodeMessage(bytes, maxPayload).Ok?
    ensures var (m, rest) := DecodeMessage(bytes, maxPayload).value;
            MessageOk(m, maxPayload) && |m.payload| < 0x1_0000_0000 && MessageBytes(m) + rest == bytes
  {
    HeaderWidth();
    var h := Cut(bytes, ENROLLMENT_HEADER);
    var (m, rest) := DecodeMessage(bytes, maxPayload).value;
    JoinWholeCut(bytes, ENROLLMENT_HEADER);
    HeaderReadBack(h, m);
    hide Join, Offset, FromBytes, ToBytes, Total, Cut, Pow256, Parts, PayloadLimit;
    assert (bytes[..ENROLLMENT_HEADER_SIZE] + m.payload) + rest == bytes;
  }

  /** Messages written one after another. */
  function MessageStream(ms: seq<Message>): (bytes: seq<byte>) {
    if ms == [] then [] else MessageBytes(ms[0]) + MessageStream(ms[1..])
  }

  /** Reads messages until the bytes are used up. */
  function DecodeMessages(bytes: seq<byte>, maxPayload: int): (r: Result<seq<Message>, MessageError>)
    decreases |bytes|
  {
    if bytes == [] then Ok([])
    else
      match DecodeMessage(bytes, maxPayload)
      case Err(e) => Err(e)
      case Ok((m, rest)) =>
        MessageShortens(bytes, maxPayload);
        match DecodeMessages(rest, maxPayload)
        case Err(e) => Err(e)
        case Ok(ms) => Ok([m] + ms)
  }

  lemma MessageShortens(bytes: seq<byte>, maxPayload: int)
    requires DecodeMessage(bytes, maxPayload).Ok?
    ensures |DecodeMessage(bytes, maxPayload).value.1| < |bytes|
  {
    hide Cut, FromBytes;
  }

  predicate AllOk(ms: seq<Message>, maxPayload: int) {
    forall i :: 0 <= i < |ms| ==> MessageOk(ms[i], maxPayload) && |ms[i].payload| < 0x1_0000_0000
  }

  /** Messages written one after another are read back in order. */
  lemma {:induction false} MessagesRoundTrip(ms: seq<Message>, maxPayload: int)
    requires AllOk(ms, maxPayload)
    ensures DecodeMessages(MessageStream(ms), maxPayload) == Ok(ms)
  {
    hide *;
    if ms == [] {
      NoMessages(maxPayload);
    } else {
      FirstMessage(ms, maxPayload);
      DecodeOfMessage(ms[0], MessageStream(ms[1..]), maxPayload);
      MessagesRoundTrip(ms[1..], maxPayload);
      NotEmpty(ms[0], MessageStream(ms[1..]));
      OneMoreMessage(MessageStream(ms), ms[0], MessageStream(ms[1..]), ms[1..], maxPayload);
      assert ms == [ms[0]] + ms[1..];
    }
  }

  lemma NoMessages(maxPayload: int)
    ensures DecodeMessages(MessageStream([]), maxPayload) == Ok([])
  {
  }

  lemma FirstMessage(ms: seq<Message>, maxPayload: int)
    requires ms != [] && AllOk(ms, maxPayload)
    ensures MessageOk(ms[0], maxPayload) && |ms[0].payload| < 0x1_0000_0000 && AllOk(ms[1..], maxPayload)
    ensures MessageStream(ms) == MessageBytes(ms[0]) + MessageStream(ms[1..])
  {
    hide MessageOk, MessageBytes;
  }

  lemma OneMoreMessage(bytes: seq<byte>, m: Message, rest: seq<byte>, ms: seq<Message>, maxPayload: int)
    requires bytes != [] && DecodeMessage(bytes, maxPayload) == Ok((m, rest))
             && DecodeMessages(rest, maxPayload) == Ok(ms)
    ensures DecodeMessages(bytes, maxPayload) == Ok([m] + ms)
  {
    hide DecodeMessage;
  }

  lemma NotEmpty(m: Message, rest: seq<byte>)
    ensures MessageBytes(m) + rest != []
  {
    JoinStarts(Parts(m));
    hide Join, ToBytes;
  }

  lemma JoinStarts(parts: seq<seq<byte>>)
    ensures parts != [] ==> |Join(parts)| >= |parts[0]|
  {
  }

  /** Whatever bytes are read as messages are exactly the bytes those messages are written as. */
  lemma {:induction false} MessagesOfDecode(bytes: seq<byte>, maxPayload: int)
    requires DecodeMessages(bytes, maxPayload).Ok?
    ensures AllOk(DecodeMessages(bytes, maxPayload).value, maxPayload)
    ensures MessageStream(DecodeMessages(bytes, maxPayload).value) == bytes
    decreases |bytes|
  {
    if bytes != [] {
      hide MessageOk, DecodeMessage, MessageBytes, MessageStream, AllOk;
      var (m, rest) := DecodeMessage(bytes, maxPayload).value;
      MessageShortens(bytes, maxPayload);
      MessageOfDecode(bytes, maxPayload);
      MessagesOfDecode(rest, maxPayload);
      MoreMessages(m, DecodeMessages(rest, maxPayload).value, maxPayload);
    }
  }

  lemma MoreMessages(m: Message, ms: seq<Message>, maxPayload: int)
    requires MessageOk(m, maxPayload) && |m.payload| < 0x1_0000_0000 && AllOk(ms, maxPayload)
    ensures AllOk([m] + ms, maxPayload) && MessageStream([m] + ms) == MessageBytes(m) + MessageStream(ms)
  {
    hide MessageOk, MessageBytes;
    assert ([m] + ms)[1..] == ms;
  }

  /** Writes the header of a message. */
  method PutMessageHeader(header: array<byte>, m: Message)
    requires header.Length == ENROLLMENT_HEADER_SIZE && |m.payload| < 0x1_0000_0000
    modifies header
    ensures header[..] == Join(Parts(m))
  {
    ghost var p := Parts(m);
    assert header[..0] == Join(p[..0]) by { assert p[..0] == []; }
    hide Join, ToBytes;
    Put(header, 0, ENROLLMENT_MAGIC, p, 0);
    Put(header, 4, ToBytes(m.version, 2), p, 1);
    Put(header, 6, [m.kind], p, 2);
    Put(header, 7, [0], p, 3);
    Put(header, 8, ToBytes(|m.payload|, 4), p, 4);
    assert p[..5] == p && header[..12] == header[..];
  }

  /** Header and payload are handed to the writer one after the other. */
  method EncodeMessage(m: Message, maxPayload: int, headerAnswers: nat -> Answer, payloadAnswers: nat -> Answer)
    returns (sink: seq<byte>, ok: bool)
    ensures ok ==> MessageOk(m, maxPayload) && |m.payload| < 0x1_0000_0000 && sink == MessageBytes(m)
    ensures !ok && MessageOk(m, maxPayload) && |m.payload| < 0x1_0000_0000 ==> sink <= MessageBytes(m)
    ensures !MessageOk(m, maxPayload) || |m.payload| >= 0x1_0000_0000 ==> !ok && sink == []
  {
    var valid := MessageOk(m, maxPayload);
    if !valid || |m.payload| >= 0x1_0000_0000 { return [], false; }
    var header := new byte[ENROLLMENT_HEADER_SIZE];
    PutMessageHeader(header, m);
    var first, r := WriteAll(header[..], headerAnswers);
    if r.Err? { return first, false; }
    var second, q := WriteAll(m.payload, payloadAnswers);
    return first + second, q.Ok?;
  }

  /** Decodes a message by reading the header at fixed offsets. */
  method DecodeMessageFrame(bytes: seq<byte>, maxPayload: int) returns (r: Result<(Message, seq<byte>), MessageError>)
    ensures r == DecodeMessage(bytes, maxPayload)
  {
    if |bytes| < ENROLLMENT_HEADER_SIZE { return Err(HeaderTooShort); }
    HeaderWidth();
    CutAt(bytes, ENROLLMENT_HEADER, 0);
    CutAt(bytes, ENROLLMENT_HEADER, 1);
    CutAt(bytes, ENROLLMENT_HEADER, 2);
    CutAt(bytes, ENROLLMENT_HEADER, 3);
    CutAt(bytes, ENROLLMENT_HEADER, 4);
    hide Offset, Cut, FromBytes, Number16, Total;
    if bytes[0..4] != ENROLLMENT_MAGIC { return Err(WrongMagic); }
    assert bytes[7..8] == [bytes[7]];
    if bytes[7] != 0 { return Err(ReservedFlags); }
    var n := FromBytes(bytes[8..12]);
    if n > PayloadLimit(maxPayload) { return Err(TooLarge); }
    if |bytes| - ENROLLMENT_HEADER_SIZE < n { return Err(PayloadTooShort); }
    var m := Message(Number16(bytes[4..6]), bytes[6], bytes[ENROLLMENT_HEADER_SIZE..ENROLLMENT_HEADER_SIZE + n]);
    var valid := MessageOk(m, maxPayload);
    if !valid { return Err(Malformed); }
    r := Ok((m, bytes[ENROLLMENT_HEADER_SIZE + n..]));
  }
}
