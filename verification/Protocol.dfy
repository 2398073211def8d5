/** Messages, their payloads and the frames of a byte stream (packages protocol and transport). */
module Protocol {
  import opened Bytes
  import opened Crypto

  /** A 16-byte message ID, read as one big-endian number. */
  type MessageId = nat

  const INV: nat := 0
  const GET: nat := 1
  const TX: nat := 2
  const PROOF_REQ: nat := 3
  const PROOF_RESP: nat := 4
  const ACK: nat := 5
  const ERROR: nat := 6

  const MAX_FRAME_SIZE: nat := 0x100_0000

  datatype Message = Message(messageId: MessageId, timestamp: Int64, ttl: Int64, typ: nat, payload: Bytes)

  datatype TxPayload = TxPayload(transferBytes: Bytes, signature: Bytes)

  datatype ProofPayload = ProofPayload(target: Hash, seen: bool, seenTime: Int64, conflict: bool, distance: Int64)

  datatype ErrorPayload = ErrorPayload(referenced: MessageId, code: Bytes)

  // ---------------------------------------------------------------------------------------
  // Payloads

  function EncodeTxPayload(transferBytes: Bytes, signature: Bytes): Bytes {
    EncodeBytes(transferBytes) + EncodeBytes(signature)
  }

  function LengthPrefixed(payload: Bytes, offset: nat): (r: Result<(Bytes, nat), DecodeError>)
    requires offset <= |payload|
    ensures r.Ok? ==> r.value.1 <= |payload|
  {
    if |payload[offset..]| < 4 then Err(ShortUint32)
    else
      var length := FromBigEndian(payload[offset..offset + 4]);
      var start := offset + 4;
      if |payload[start..]| < length then Err(ShortBytes)
      else Ok((payload[start..start + length], start + length))
  }

  function DecodeTxPayload(payload: Bytes): Result<TxPayload, DecodeError> {
    var (transferBytes, offset) :- LengthPrefixed(payload, 0);
    var (signature, end) :- LengthPrefixed(payload, offset);
    if end != |payload| then Err(BadLength) else Ok(TxPayload(transferBytes, signature))
  }

  /** The payload of INV, GET and PROOF_REQ: one hash. */
  function DecodeHashPayload(payload: Bytes): Result<Hash, DecodeError> {
    if |payload| != 32 then Err(BadLength) else Ok(HashOfBytes(payload))
  }

  function EncodeBool(b: bool): Bytes {
    if b then [1] else [0]
  }

  function DecodeBool(b: Byte): Result<bool, DecodeError> {
    if b == 0 then Ok(false) else if b == 1 then Ok(true) else Err(BadBool)
  }

  function DecodeInt64(s: Bytes): Int64
    requires |s| == 8
  {
    FromBigEndianBound(s);
    PowerValues();
    FromTwos(FromBigEndian(s))
  }

  function EncodeProofPayload(p: ProofPayload): Bytes {
    EncodeHash(p.target) + EncodeBool(p.seen) + EncodeInt64(p.seenTime) + EncodeBool(p.conflict) + EncodeInt64(p.distance)
  }

  function DecodeProofPayload(payload: Bytes): Result<ProofPayload, DecodeError> {
    if |payload| != 50 then Err(BadLength)
    else
      var seen :- DecodeBool(payload[32]);
      var conflict :- DecodeBool(payload[41]);
      Ok(ProofPayload(HashOfBytes(payload[..32]), seen, DecodeInt64(payload[33..41]), conflict, DecodeInt64(payload[42..50])))
  }

  function EncodeErrorPayload(p: ErrorPayload): Bytes {
    BigEndian(16, p.referenced) + EncodeBytes(p.code)
  }

  function DecodeErrorPayload(payload: Bytes): Result<ErrorPayload, DecodeError> {
    if |payload| < 20 || |payload| != 20 + FromBigEndian(payload[16..20]) then Err(BadLength)
    else Ok(ErrorPayload(FromBigEndian(payload[..16]), payload[20..]))
  }

  // ---------------------------------------------------------------------------------------
  // Messages

  function EncodeMessage(m: Message): Bytes {
    BigEndian(16, m.messageId) + EncodeInt64(m.timestamp) + EncodeInt64(m.ttl) + BigEndian(4, m.typ) + EncodeBytes(m.payload)
  }

  function DecodeMessage(data: Bytes): Result<Message, DecodeError> {
    if |data| < 40 then Err(BadLength)
    else
      var typ := FromBigEndian(data[32..36]);
      if typ > ERROR then Err(BadType)
      else
        var (payload, end) :- LengthPrefixed(data, 36);
        if end != |data| then Err(BadLength)
        else Ok(Message(FromBigEndian(data[..16]), DecodeInt64(data[16..24]), DecodeInt64(data[24..32]), typ, payload))
  }

  predicate SizedMessage(m: Message) {
    m.messageId < TWO_128 && m.typ <= ERROR && |m.payload| < TWO_32
  }

  function NewInv(id: MessageId, now: Int64, ttl: Int64, txID: Hash): Message {
    Message(id, now, ttl, INV, EncodeHash(txID))
  }

  function NewGet(id: MessageId, now: Int64, ttl: Int64, txID: Hash): Message {
    Message(id, now, ttl, GET, EncodeHash(txID))
  }

  function NewTx(id: MessageId, now: Int64, ttl: Int64, t: Transfer): Message {
    Message(id, now, ttl, TX, EncodeTxPayload(EncodeTransfer(t), t.sig))
  }

  function NewProofResponse(id: MessageId, now: Int64, ttl: Int64, p: ProofPayload): Message {
    Message(id, now, ttl, PROOF_RESP, EncodeProofPayload(p))
  }

  // ---------------------------------------------------------------------------------------
  // Round trips

  lemma DecodeEncodedHash(h: Hash)
    ensures HashOfBytes(EncodeHash(h)) == h && DecodeHashPayload(EncodeHash(h)) == Ok(h)
  {
    PowerValues();
    DecodeBigEndian(32, h);
  }

  lemma DecodeEncodedInt64(x: Int64)
    ensures DecodeInt64(EncodeInt64(x)) == x
  {
    PowerValues();
    DecodeBigEndian(8, ToTwos(x));
  }

  lemma EncodeDecodedInt64(s: Bytes)
    requires |s| == 8
    ensures EncodeInt64(DecodeInt64(s)) == s
  {
    EncodeBigEndian(s);
    FromBigEndianBound(s);
    PowerValues();
  }

  lemma PrefixedRead(before: Bytes, b: Bytes, after: Bytes)
    requires |b| < TWO_32
    ensures var payload := before + EncodeBytes(b) + after;
            LengthPrefixed(payload, |before|) == Ok((b, |before| + 4 + |b|))
  {
    hide FromBigEndian, BigEndian;
    var payload := before + EncodeBytes(b) + after;
    var at := |before|;
    PowerValues();
    DecodeBigEndian(4, |b|);
    assert payload[at..at + 4] == BigEndian(4, |b|);
    assert payload[at + 4..at + 4 + |b|] == b;
  }

  lemma PrefixedBytes(payload: Bytes, offset: nat)
    requires offset <= |payload| && LengthPrefixed(payload, offset).Ok?
    ensures var (b, end) := LengthPrefixed(payload, offset).value;
            |b| < TWO_32 && end == offset + 4 + |b| && payload[offset..end] == EncodeBytes(b)
  {
    hide FromBigEndian, BigEndian;
    var prefix := payload[offset..offset + 4];
    FromBigEndianBound(prefix);
    EncodeBigEndian(prefix);
    PowerValues();
    var (b, end) := LengthPrefixed(payload, offset).value;
    assert payload[offset..end] == prefix + b;
  }

  lemma DecodeTxRoundTrip(transferBytes: Bytes, signature: Bytes)
    requires |transferBytes| < TWO_32 && |signature| < TWO_32
    ensures DecodeTxPayload(EncodeTxPayload(transferBytes, signature)) == Ok(TxPayload(transferBytes, signature))
  {
    hide EncodeBytes, LengthPrefixed;
    var payload := EncodeTxPayload(transferBytes, signature);
    var first := EncodeBytes(transferBytes);
    assert |first| == 4 + |transferBytes| && |EncodeBytes(signature)| == 4 + |signature| by {
      EncodedBytesLength(transferBytes);
      EncodedBytesLength(signature);
    }
    assert payload == [] + first + EncodeBytes(signature) == first + EncodeBytes(signature) + [];
    PrefixedRead([], transferBytes, EncodeBytes(signature));
    PrefixedRead(first, signature, []);
  }

  lemma EncodedBytesLength(b: Bytes)
    ensures |EncodeBytes(b)| == 4 + |b|
  {}

  lemma EncodeTxRoundTrip(payload: Bytes)
    requires DecodeTxPayload(payload).Ok?
    ensures var p := DecodeTxPayload(payload).value;
            EncodeTxPayload(p.transferBytes, p.signature) == payload
            && |p.transferBytes| < TWO_32 && |p.signature| < TWO_32
  {
    var (transferBytes, offset) := LengthPrefixed(payload, 0).value;
    PrefixedBytes(payload, 0);
    PrefixedBytes(payload, offset);
    hide EncodeBytes;
    assert payload == payload[0..offset] + payload[offset..|payload|];
  }

  /** The proof payload codec is exact in both directions; only the two flag bytes can be wrong. */
  lemma ProofRoundTrip(p: ProofPayload)
    ensures DecodeProofPayload(EncodeProofPayload(p)) == Ok(p)
  {
    hide BigEndian, FromBigEndian;
    var e := EncodeProofPayload(p);
    DecodeEncodedHash(p.target);
    DecodeEncodedInt64(p.seenTime);
    DecodeEncodedInt64(p.distance);
    assert e[..32] == EncodeHash(p.target) && e[33..41] == EncodeInt64(p.seenTime) && e[42..50] == EncodeInt64(p.distance);
  }

  lemma ProofDecodeEncode(payload: Bytes)
    ensures DecodeProofPayload(payload).Ok? <==> |payload| == 50 && payload[32] <= 1 && payload[41] <= 1
    ensures DecodeProofPayload(payload).Ok? ==> EncodeProofPayload(DecodeProofPayload(payload).value) == payload
  {
    if DecodeProofPayload(payload).Ok? {
      EncodeBigEndian(payload[..32]);
      EncodeDecodedInt64(payload[33..41]);
      EncodeDecodedInt64(payload[42..50]);
      hide BigEndian, FromBigEndian;
      assert payload == payload[..32] + [payload[32]] + payload[33..41] + [payload[41]] + payload[42..50];
    }
  }

  lemma ErrorRoundTrip(p: ErrorPayload)
    requires p.referenced < TWO_128 && |p.code| < TWO_32
    ensures DecodeErrorPayload(EncodeErrorPayload(p)) == Ok(p)
  {
    PowerValues();
    DecodeBigEndian(16, p.referenced);
    DecodeBigEndian(4, |p.code|);
    hide BigEndian, FromBigEndian;
    var e := EncodeErrorPayload(p);
    assert e[..16] == BigEndian(16, p.referenced) && e[16..20] == BigEndian(4, |p.code|) && e[20..] == p.code;
  }

  lemma ErrorDecodeEncode(payload: Bytes)
    requires DecodeErrorPayload(payload).Ok?
    ensures EncodeErrorPayload(DecodeErrorPayload(payload).value) == payload
  {
    EncodeBigEndian(payload[..16]);
    EncodeBigEndian(payload[16..20]);
    hide BigEndian, FromBigEndian;
    assert payload == payload[..16] + (payload[16..20] + payload[20..]);
  }

  lemma MessageRoundTrip(m: Message)
    requires SizedMessage(m)
    ensures DecodeMessage(EncodeMessage(m)) == Ok(m)
  {
    hide BigEndian, FromBigEndian, EncodeInt64, LengthPrefixed, DecodeInt64;
    PowerValues();
    DecodeBigEndian(16, m.messageId);
    DecodeBigEndian(4, m.typ);
    DecodeEncodedInt64(m.timestamp);
    DecodeEncodedInt64(m.ttl);
    var a, b, c, d := BigEndian(16, m.messageId), EncodeInt64(m.timestamp), EncodeInt64(m.ttl), BigEndian(4, m.typ);
    assert |b| == 8 && |c| == 8 by {
      Int64Length(m.timestamp);
      Int64Length(m.ttl);
    }
    var data := EncodeMessage(m);
    assert data[..16] == a && data[16..24] == b && data[24..32] == c && data[32..36] == d;
    PrefixedRead(a + b + c + d, m.payload, []);
    assert data == a + b + c + d + EncodeBytes(m.payload) + [];
  }

  lemma Int64Length(x: Int64)
    ensures |EncodeInt64(x)| == 8
  {}

  lemma MessageDecodeEncode(data: Bytes)
    requires DecodeMessage(data).Ok?
    ensures var m := DecodeMessage(data).value; EncodeMessage(m) == data && SizedMessage(m)
  {
    hide BigEndian, FromBigEndian, EncodeInt64, LengthPrefixed, DecodeInt64, EncodeBytes;
    PowerValues();
    EncodeBigEndian(data[..16]);
    FromBigEndianBound(data[..16]);
    EncodeDecodedInt64(data[16..24]);
    EncodeDecodedInt64(data[24..32]);
    EncodeBigEndian(data[32..36]);
    PrefixedBytes(data, 36);
    assert data == data[..16] + data[16..24] + data[24..32] + data[32..36] + data[36..|data|];
  }

  /** Round trip exactly for the messages whose fields fit the wire. */
  lemma MessageRoundTripIff(m: Message)
    ensures SizedMessage(m) <==> DecodeMessage(EncodeMessage(m)) == Ok(m)
  {
    hide EncodeMessage, DecodeMessage;
    if SizedMessage(m) {
      MessageRoundTrip(m);
    } else if DecodeMessage(EncodeMessage(m)) == Ok(m) {
      MessageDecodeEncode(EncodeMessage(m));
    }
  }

  // ---------------------------------------------------------------------------------------
  // Where everything is in a message

  lemma DecodedInt64(s: Bytes)
    requires |s| == 8
    ensures HoldsInt64(s, DecodeInt64(s))
  {
    FromBigEndianBound(s);
    PowerValues();
  }

  lemma SmallUint32(s: Bytes, bound: Byte)
    requires |s| == 4
    ensures FromBigEndian(s) <= bound <==> s[0] == s[1] == s[2] == 0 && s[3] <= bound
    ensures s[0] == s[1] == s[2] == 0 ==> FromBigEndian(s) == s[3]
  {
    Shifts(s);
    hide FromBigEndian;
  }

  /** Which bytes are a message, and what each of them means: ID, timestamp, TTL, a type from 0 to 6 in
      four bytes, and the payload after its length. */
  lemma MessageLayout(data: Bytes)
    ensures DecodeMessage(data).Ok? <==>
              |data| >= 40 && data[32] == data[33] == data[34] == 0 && data[35] <= 6 && FromBigEndian(data[36..40]) == |data| - 40
    ensures DecodeMessage(data).Ok? ==>
              var m := DecodeMessage(data).value;
              && m.messageId == FromBigEndian(data[..16]) && HoldsInt64(data[16..24], m.timestamp) && HoldsInt64(data[24..32], m.ttl)
              && m.typ == data[35] && m.payload == data[40..]
  {
    hide DecodeInt64, HoldsInt64, FromBigEndian;
    if |data| >= 40 {
      DecodedInt64(data[16..24]);
      DecodedInt64(data[24..32]);
      SmallUint32(data[32..36], 6);
    }
  }

  /** The payload of INV, GET and PROOF_REQ is the hash and nothing else. */
  lemma HashLayout(payload: Bytes)
    ensures DecodeHashPayload(payload).Ok? <==> |payload| == 32
    ensures |payload| == 32 ==> DecodeHashPayload(payload).value == FromBigEndian(payload) && EncodeHash(FromBigEndian(payload)) == payload
  {
    if |payload| == 32 {
      EncodeBigEndian(payload);
      FromBigEndianBound(payload);
      PowerValues();
    }
  }

  /** Target, seen, seen time, conflict, distance; both flags are 0 or 1. */
  lemma ProofLayout(payload: Bytes)
    ensures DecodeProofPayload(payload).Ok? <==>
              |payload| == 50 && (payload[32] == 0 || payload[32] == 1) && (payload[41] == 0 || payload[41] == 1)
    ensures DecodeProofPayload(payload).Ok? ==>
              var p := DecodeProofPayload(payload).value;
              && p.target == FromBigEndian(payload[..32])
              && (p.seen <==> payload[32] == 1) && HoldsInt64(payload[33..41], p.seenTime)
              && (p.conflict <==> payload[41] == 1) && HoldsInt64(payload[42..50], p.distance)
  {
    hide DecodeInt64, HoldsInt64, FromBigEndian;
    if |payload| == 50 {
      DecodedInt64(payload[33..41]);
      DecodedInt64(payload[42..50]);
    }
  }

  /** The transfer's bytes and then the signature, each after its length. */
  lemma TxLayout(payload: Bytes)
    ensures DecodeTxPayload(payload).Ok? <==>
              |payload| >= 4
              && var n := FromBigEndian(payload[..4]); |payload| >= 8 + n && FromBigEndian(payload[4 + n..8 + n]) == |payload| - 8 - n
    ensures DecodeTxPayload(payload).Ok? ==>
              var p, n := DecodeTxPayload(payload).value, FromBigEndian(payload[..4]);
              p.transferBytes == payload[4..4 + n] && p.signature == payload[8 + n..]
  {
    hide FromBigEndian;
  }

  lemma ErrorLayout(payload: Bytes)
    ensures DecodeErrorPayload(payload).Ok? <==> |payload| >= 20 && FromBigEndian(payload[16..20]) == |payload| - 20
    ensures DecodeErrorPayload(payload).Ok? ==>
              var p := DecodeErrorPayload(payload).value; p.referenced == FromBigEndian(payload[..16]) && p.code == payload[20..]
  {
    hide FromBigEndian;
  }

  /** A frame is the length in four bytes, at most 16 MiB, and the message. */
  lemma FrameLayout(s: Bytes, m: Message, rest: Bytes)
    ensures ReadFrame(s) == (Ok(m), rest) <==>
              |s| >= 4
              && var n := FromBigEndian(s[..4]); n <= 16 * 1024 * 1024 && |s| >= 4 + n && DecodeMessage(s[4..4 + n]) == Ok(m) && rest == s[4 + n..]
  {
    hide FromBigEndian, DecodeMessage;
    if |s| >= 4 {
      var n := FromBigEndian(s[..4]);
      assert |s| >= 4 + n ==> s[4..][..n] == s[4..4 + n] && s[4..][n..] == s[4 + n..];
    }
  }

  lemma EncodedLayout(m: Message)
    ensures var e := EncodeMessage(m);
            && |e| == 40 + |m.payload| && HoldsInt64(e[16..24], m.timestamp) && HoldsInt64(e[24..32], m.ttl)
            && e[32..36] == BigEndian(4, m.typ) && e[40..] == m.payload
            && (m.messageId < TWO_128 ==> FromBigEndian(e[..16]) == m.messageId)
  {
    hide BigEndian, FromBigEndian, HoldsInt64, EncodeInt64;
    PowerValues();
    if m.messageId < TWO_128 {
      DecodeBigEndian(16, m.messageId);
    }
    EncodedInt64(m.timestamp);
    EncodedInt64(m.ttl);
    Int64Length(m.timestamp);
    Int64Length(m.ttl);
    var e := EncodeMessage(m);
    assert e[..16] == BigEndian(16, m.messageId);
    assert e[16..24] == EncodeInt64(m.timestamp) && e[24..32] == EncodeInt64(m.ttl);
  }

  lemma TypeBytes(typ: nat)
    requires typ < 256
    ensures BigEndian(4, typ) == [0, 0, 0, typ]
  {
    assert BigEndian(1, typ / 0x100_0000) == [0] && BigEndian(2, typ / 0x1_0000) == [0, 0] && BigEndian(3, typ / 0x100) == [0, 0, 0];
  }

  // ---------------------------------------------------------------------------------------
  // Frames and streams

  function EncodeFrame(m: Message): Bytes {
    EncodeBytes(EncodeMessage(m))
  }

  /** One DecodeMessageFrame on a stream holding `s`: its result and the bytes left unread. A read
      that runs out of bytes consumes what there was. */
  function ReadFrame(s: Bytes): (r: (Result<Message, DecodeError>, Bytes))
    ensures r.0.Ok? ==> |r.1| < |s|
  {
    if |s| < 4 then (Err(EndOfStream), [])
    else
      var length := FromBigEndian(s[..4]);
      if length > MAX_FRAME_SIZE then (Err(FrameTooLarge), s[4..])
      else if |s[4..]| < length then (Err(EndOfStream), [])
      else (DecodeMessage(s[4..][..length]), s[4..][length..])
  }

  /** Reading frames until one fails: the messages delivered and the failure. */
  function ReadAll(s: Bytes): (seq<Message>, DecodeError) {
    match ReadFrame(s) {
      case (Ok(m), rest) => var (ms, e) := ReadAll(rest); ([m] + ms, e)
      case (Err(e), _) => ([], e)
    }
  }

  function Frames(ms: seq<Message>): Bytes {
    if ms == [] then [] else EncodeFrame(ms[0]) + Frames(ms[1..])
  }

  predicate Framable(m: Message) {
    SizedMessage(m) && |EncodeMessage(m)| <= MAX_FRAME_SIZE
  }

  lemma ReadEncodedFrame(m: Message, rest: Bytes)
    requires Framable(m)
    ensures ReadFrame(EncodeFrame(m) + rest) == (Ok(m), rest)
  {
    MessageRoundTrip(m);
    PowerValues();
    var e := EncodeMessage(m);
    DecodeBigEndian(4, |e|);
    hide EncodeMessage, DecodeMessage, BigEndian, FromBigEndian;
    var s := EncodeFrame(m) + rest;
    assert s[..4] == BigEndian(4, |e|) && s[4..][..|e|] == e && s[4..][|e|..] == rest;
  }

  lemma ReadCutFrame(m: Message, cut: Bytes)
    requires Framable(m) && |cut| < |EncodeFrame(m)| && cut == EncodeFrame(m)[..|cut|]
    ensures ReadFrame(cut) == (Err(EndOfStream), [])
  {
    PowerValues();
    var e := EncodeMessage(m);
    DecodeBigEndian(4, |e|);
    hide EncodeMessage, DecodeMessage, BigEndian, FromBigEndian;
    if |cut| >= 4 {
      assert cut[..4] == BigEndian(4, |e|);
    }
  }

  /** A stream of frames, cut anywhere inside the next frame, delivers exactly the whole messages. */
  lemma {:induction false} StreamRoundTrip(ms: seq<Message>, next: Message, cut: Bytes)
    requires (forall m <- ms :: Framable(m)) && Framable(next)
    requires |cut| < |EncodeFrame(next)| && cut == EncodeFrame(next)[..|cut|]
    ensures ReadAll(Frames(ms) + cut) == (ms, EndOfStream)
  {
    hide EncodeFrame, ReadFrame, Framable;
    if ms == [] {
      ReadCutFrame(next, cut);
      assert Frames(ms) + cut == cut;
    } else {
      var rest := Frames(ms[1..]) + cut;
      assert Frames(ms) + cut == EncodeFrame(ms[0]) + rest;
      ReadEncodedFrame(ms[0], rest);
      StreamRoundTrip(ms[1..], next, cut);
      assert [ms[0]] + ms[1..] == ms;
    }
  }

  /** Whatever a reader delivers was framed canonically in the bytes it consumed. */
  lemma {:induction false} StreamDecodeEncode(s: Bytes) returns (rest: Bytes)
    ensures var ms := ReadAll(s).0; s == Frames(ms) + rest && (forall m <- ms :: Framable(m)) && ReadFrame(rest).0 == Err(ReadAll(s).1)
    decreases |s|
  {
    hide EncodeMessage, DecodeMessage, EncodeFrame, Framable;
    match ReadFrame(s) {
      case (Ok(m), tail) =>
        ReadFrameEncode(s);
        rest := StreamDecodeEncode(tail);
        var ms := ReadAll(tail).0;
        assert ([m] + ms)[1..] == ms;
        assert Frames([m] + ms) + rest == EncodeFrame(m) + (Frames(ms) + rest);
      case (Err(_), _) =>
        rest := s;
        assert Frames([]) + s == s;
    }
  }

  lemma ReadFrameEncode(s: Bytes)
    requires ReadFrame(s).0.Ok?
    ensures var (r, rest) := ReadFrame(s); s == EncodeFrame(r.value) + rest && Framable(r.value)
  {
    EncodeBigEndian(s[..4]);
    var length := FromBigEndian(s[..4]);
    MessageDecodeEncode(s[4..][..length]);
    hide EncodeMessage, DecodeMessage, BigEndian, FromBigEndian;
    assert s == (s[..4] + s[4..][..length]) + s[4..][length..];
  }

  /** End to end: a TX message that fits a frame hands over the transfer's content and signature. */
  lemma TxOverTheWire(hash: Hasher, m: Message, t: Transfer, rest: Bytes)
    requires m == NewTx(m.messageId, m.timestamp, m.ttl, t) && m.messageId < TWO_128
    requires |EncodeMessage(m)| <= MAX_FRAME_SIZE
    ensures ReadFrame(EncodeFrame(m) + rest) == (Ok(m), rest)
    ensures DecodeTxPayload(m.payload) == Ok(TxPayload(EncodeTransfer(t), t.sig))
    ensures DecodeTransfer(hash, EncodeTransfer(t)) == Ok(Normalize(hash, t).(sig := [], timestamp := 0))
  {
    EncodedMessageLength(m);
    hide EncodeMessage, DecodeMessage, EncodeTransfer, DecodeTransfer, EncodeFrame;
    EncodedBytesLength(EncodeTransfer(t));
    EncodedBytesLength(t.sig);
    ReadEncodedFrame(m, rest);
    DecodeTxRoundTrip(EncodeTransfer(t), t.sig);
    SizedByLength(t);
    DecodeEncode(hash, t);
  }

  lemma EncodedMessageLength(m: Message)
    ensures |EncodeMessage(m)| == 16 + 8 + 8 + 4 + 4 + |m.payload|
  {}

  // ---------------------------------------------------------------------------------------
  // The code

  method EncodeMessageFrame(m: Message) returns (frame: array<Byte>)
    ensures fresh(frame) && frame[..] == EncodeFrame(m)
  {
    hide EncodeMessage, BigEndian;
    var payload := EncodeMessage(m);
    var prefix := BigEndian(4, |payload|);
    frame := new Byte[4 + |payload|](_ => 0);
    for i := 0 to 4
      invariant frame[..i] == prefix[..i]
    {
      frame[i] := prefix[i];
    }
    for i := 0 to |payload|
      invariant frame[..4 + i] == prefix + payload[..i]
    {
      frame[4 + i] := payload[i];
    }
    assert frame[..] == frame[..4 + |payload|] && payload[..|payload|] == payload;
  }

  /** An io.Reader over the bytes that will still arrive. */
  class Reader {
    var pending: Bytes

    constructor (s: Bytes)
      ensures pending == s
    {
      pending := s;
    }

    /** io.ReadFull. */
    method ReadFull(n: nat) returns (r: Result<Bytes, DecodeError>)
      modifies this
      ensures r == if |old(pending)| < n then Err(EndOfStream) else Ok(old(pending)[..n])
      ensures pending == if |old(pending)| < n then [] else old(pending)[n..]
    {
      if |pending| < n {
        r, pending := Err(EndOfStream), [];
      } else {
        r, pending := Ok(pending[..n]), pending[n..];
      }
    }

    method DecodeMessageFrame() returns (r: Result<Message, DecodeError>)
      modifies this
      ensures (r, pending) == ReadFrame(old(pending))
    {
      var lengthBuf :- ReadFull(4);
      var frameLen := FromBigEndian(lengthBuf);
      if frameLen > MAX_FRAME_SIZE {
        return Err(FrameTooLarge);
      }
      var payload :- ReadFull(frameLen);
      r := DecodeMessage(payload);
    }
  }
}
