/** Values, transfers, their canonical encoding and its decoder (package crypto). */
module Crypto {
  import opened Bytes

  /** A 32-byte hash, read as one big-endian number (see Bytes.CompareIsNumeric). */
  type Hash = h: nat | h < 0x1_0000_0000_0000_0000_0000_0000_0000_0000_0000_0000_0000_0000_0000_0000_0000_0000

  /** BLAKE3, abstracted: any function from byte strings to hashes. */
  type Hasher = Bytes -> Hash

  datatype Value = Value(
    id: Hash, amount: UInt64, unit: Bytes, owner: Bytes, expiry: Int64, depth: Int64)

  datatype Transfer = Transfer(
    id: Hash, inputs: seq<Hash>, outputs: seq<Value>, sig: Bytes, timestamp: Int64)

  datatype DecodeError =
    ShortUint32 | ShortUint64 | ShortHash | ShortBytes | Trailing | BadLength | BadBool | BadType | FrameTooLarge | EndOfStream

  // ---------------------------------------------------------------------------------------
  // Encoding

  function EncodeHash(h: Hash): (s: Bytes)
    ensures |s| == 32
  {
    BigEndian(32, h)
  }

  function HashOfBytes(s: Bytes): Hash
    requires |s| == 32
  {
    FromBigEndianBound(s);
    PowerValues();
    FromBigEndian(s)
  }

  /** A four-byte length, truncated to 32 bits, then the bytes. */
  function EncodeBytes(b: Bytes): Bytes {
    BigEndian(4, |b|) + b
  }

  function EncodeInt64(x: Int64): Bytes {
    BigEndian(8, ToTwos(x))
  }

  function EncodeValue(v: Value): Bytes {
    BigEndian(8, v.amount) + (EncodeBytes(v.unit) + (EncodeBytes(v.owner) + (EncodeInt64(v.expiry) + EncodeInt64(v.depth))))
  }

  function EncodeHashes(hs: seq<Hash>): Bytes {
    if hs == [] then [] else EncodeHash(hs[0]) + EncodeHashes(hs[1..])
  }

  function EncodeValues(vs: seq<Value>): Bytes {
    if vs == [] then [] else EncodeValue(vs[0]) + EncodeValues(vs[1..])
  }

  function EncodeTransfer(t: Transfer): Bytes {
    BigEndian(4, |t.inputs|) + (EncodeHashes(t.inputs) + (BigEndian(4, |t.outputs|) + EncodeValues(t.outputs)))
  }

  function ComputeValueID(hash: Hasher, v: Value): Hash {
    hash(EncodeValue(v))
  }

  function ComputeTransferID(hash: Hasher, t: Transfer): Hash {
    hash(EncodeTransfer(t))
  }

  function WithValueID(hash: Hasher, v: Value): Value {
    v.(id := ComputeValueID(hash, v))
  }

  function WithIDs(hash: Hasher, vs: seq<Value>): seq<Value> {
    seq(|vs|, i requires 0 <= i < |vs| => WithValueID(hash, vs[i]))
  }

  /** Every identifier recomputed from content. */
  function Normalize(hash: Hasher, t: Transfer): Transfer {
    var outputs := WithIDs(hash, t.outputs);
    t.(outputs := outputs, id := ComputeTransferID(hash, t.(outputs := outputs)))
  }

  predicate SizedValue(v: Value) {
    |v.unit| < TWO_32 && |v.owner| < TWO_32
  }

  /** Every count and length fits its 32-bit prefix. */
  predicate Sized(t: Transfer) {
    |t.inputs| < TWO_32 && |t.outputs| < TWO_32 && forall v <- t.outputs :: SizedValue(v)
  }

  // ---------------------------------------------------------------------------------------
  // Decoding, as parsers that return what they read and the bytes that follow

  function TakeUint(k: nat, s: Bytes, short: DecodeError): Result<(nat, Bytes), DecodeError> {
    if |s| < k then Err(short) else Ok((FromBigEndian(s[..k]), s[k..]))
  }

  function TakeInt64(s: Bytes): Result<(Int64, Bytes), DecodeError> {
    var (u, rest) :- TakeUint(8, s, ShortUint64);
    FromBigEndianBound(s[..8]);
    PowerValues();
    Ok((FromTwos(u), rest))
  }

  function TakeBytes(s: Bytes): Result<(Bytes, Bytes), DecodeError> {
    var (length, rest) :- TakeUint(4, s, ShortUint32);
    if |rest| < length then Err(ShortBytes) else Ok((rest[..length], rest[length..]))
  }

  function TakeValue(hash: Hasher, s: Bytes): Result<(Value, Bytes), DecodeError> {
    var (amount, s1) :- TakeUint(8, s, ShortUint64);
    var (unit, s2) :- TakeBytes(s1);
    var (owner, s3) :- TakeBytes(s2);
    var (expiry, s4) :- TakeInt64(s3);
    var (depth, s5) :- TakeInt64(s4);
    FromBigEndianBound(s[..8]);
    PowerValues();
    Ok((WithValueID(hash, Value(0, amount, unit, owner, expiry, depth)), s5))
  }

  function Prepend<T>(xs: seq<T>, p: Result<(seq<T>, Bytes), DecodeError>): Result<(seq<T>, Bytes), DecodeError> {
    var (ys, rest) :- p;
    Ok((xs + ys, rest))
  }

  function TakeHashes(n: nat, s: Bytes): Result<(seq<Hash>, Bytes), DecodeError> {
    if n == 0 then Ok(([], s))
    else if |s| < 32 then Err(ShortHash)
    else Prepend([HashOfBytes(s[..32])], TakeHashes(n - 1, s[32..]))
  }

  function TakeValues(hash: Hasher, n: nat, s: Bytes): Result<(seq<Value>, Bytes), DecodeError> {
    if n == 0 then Ok(([], s))
    else
      var (v, s1) :- TakeValue(hash, s);
      Prepend([v], TakeValues(hash, n - 1, s1))
  }

  function TakeTransfer(hash: Hasher, s: Bytes): Result<(Transfer, Bytes), DecodeError> {
    var (inputCount, s1) :- TakeUint(4, s, ShortUint32);
    var (inputs, s2) :- TakeHashes(inputCount, s1);
    var (outputCount, s3) :- TakeUint(4, s2, ShortUint32);
    var (outputs, rest) :- TakeValues(hash, outputCount, s3);
    Ok((Transfer(0, inputs, outputs, [], 0), rest))
  }

  function DecodeTransfer(hash: Hasher, data: Bytes): Result<Transfer, DecodeError> {
    var (t, rest) :- TakeTransfer(hash, data);
    if rest != [] then Err(Trailing) else Ok(t.(id := ComputeTransferID(hash, t)))
  }

  lemma Regroup(a: Bytes, b: Bytes, c: Bytes, d: Bytes, e: Bytes, rest: Bytes)
    ensures (a + (b + (c + (d + e)))) + rest == a + (b + (c + (d + (e + rest))))
  {
    assert (d + e) + rest == d + (e + rest);
    assert (c + (d + e)) + rest == c + ((d + e) + rest);
    assert (b + (c + (d + e))) + rest == b + ((c + (d + e)) + rest);
    assert (a + (b + (c + (d + e)))) + rest == a + ((b + (c + (d + e))) + rest);
  }

  // ---------------------------------------------------------------------------------------
  // Decoding what was encoded

  lemma TakeEncodedUint(k: nat, n: nat, rest: Bytes, short: DecodeError)
    requires n < Pow256(k)
    ensures TakeUint(k, BigEndian(k, n) + rest, short) == Ok((n, rest))
  {
    DecodeBigEndian(k, n);
    var s := BigEndian(k, n) + rest;
    assert s[..k] == BigEndian(k, n) && s[k..] == rest;
  }

  lemma TakeEncodedInt64(x: Int64, rest: Bytes)
    ensures TakeInt64(EncodeInt64(x) + rest) == Ok((x, rest))
  {
    PowerValues();
    TakeEncodedUint(8, ToTwos(x), rest, ShortUint64);
  }

  lemma TakeEncodedBytes(b: Bytes, rest: Bytes)
    requires |b| < TWO_32
    ensures TakeBytes(EncodeBytes(b) + rest) == Ok((b, rest))
  {
    PowerValues();
    TakeEncodedUint(4, |b|, b + rest, ShortUint32);
    assert EncodeBytes(b) + rest == BigEndian(4, |b|) + (b + rest);
    assert (b + rest)[..|b|] == b && (b + rest)[|b|..] == rest;
  }

  lemma TakeEncodedValue(hash: Hasher, v: Value, rest: Bytes)
    requires SizedValue(v)
    ensures TakeValue(hash, EncodeValue(v) + rest) == Ok((WithValueID(hash, v), rest))
  {
    var s4 := EncodeInt64(v.depth) + rest;
    var s3 := EncodeInt64(v.expiry) + s4;
    var s2 := EncodeBytes(v.owner) + s3;
    var s1 := EncodeBytes(v.unit) + s2;
    Regroup(BigEndian(8, v.amount), EncodeBytes(v.unit), EncodeBytes(v.owner), EncodeInt64(v.expiry), EncodeInt64(v.depth), rest);
    PowerValues();
    TakeEncodedUint(8, v.amount, s1, ShortUint64);
    TakeEncodedBytes(v.unit, s2);
    TakeEncodedBytes(v.owner, s3);
    TakeEncodedInt64(v.expiry, s4);
    TakeEncodedInt64(v.depth, rest);
    assert EncodeValue(v.(id := 0)) == EncodeValue(v);
  }

  lemma TakeEncodedHash(h: Hash, rest: Bytes)
    ensures var s := EncodeHash(h) + rest; HashOfBytes(s[..32]) == h && s[32..] == rest
  {
    PowerValues();
    DecodeBigEndian(32, h);
    assert (EncodeHash(h) + rest)[..32] == EncodeHash(h);
  }

  lemma {:induction false} TakeEncodedHashes(hs: seq<Hash>, rest: Bytes)
    ensures TakeHashes(|hs|, EncodeHashes(hs) + rest) == Ok((hs, rest))
  {
    if hs == [] {
      assert EncodeHashes(hs) + rest == rest;
    } else {
      var s1 := EncodeHashes(hs[1..]) + rest;
      var s := EncodeHashes(hs) + rest;
      assert s == EncodeHash(hs[0]) + s1;
      TakeEncodedHash(hs[0], s1);
      assert s[32..] == s1;
      TakeEncodedHashes(hs[1..], rest);
      assert hs == [hs[0]] + hs[1..];
    }
  }

  lemma {:induction false} TakeEncodedValues(hash: Hasher, vs: seq<Value>, rest: Bytes)
    requires forall v <- vs :: SizedValue(v)
    ensures TakeValues(hash, |vs|, EncodeValues(vs) + rest) == Ok((WithIDs(hash, vs), rest))
  {
    hide TakeValue, EncodeValue;
    if vs == [] {
      assert EncodeValues(vs) + rest == rest;
    } else {
      var s1 := EncodeValues(vs[1..]) + rest;
      assert EncodeValues(vs) + rest == EncodeValue(vs[0]) + s1;
      TakeEncodedValue(hash, vs[0], s1);
      TakeEncodedValues(hash, vs[1..], rest);
      assert WithIDs(hash, vs) == [WithValueID(hash, vs[0])] + WithIDs(hash, vs[1..]);
    }
  }

  lemma {:induction false} EncodingIgnoresValueIDs(hash: Hasher, vs: seq<Value>)
    ensures EncodeValues(WithIDs(hash, vs)) == EncodeValues(vs)
  {
    if vs != [] {
      assert WithIDs(hash, vs)[1..] == WithIDs(hash, vs[1..]);
      EncodingIgnoresValueIDs(hash, vs[1..]);
    }
  }

  lemma EncodingIgnoresIDs(hash: Hasher, t: Transfer)
    ensures EncodeTransfer(Normalize(hash, t)) == EncodeTransfer(t)
    ensures Normalize(hash, t).id == ComputeTransferID(hash, t)
    ensures Normalize(hash, t).outputs == WithIDs(hash, t.outputs)
    ensures Normalize(hash, Normalize(hash, t)) == Normalize(hash, t)
    ensures Sized(Normalize(hash, t)) <==> Sized(t)
  {
    hide EncodeHashes;
    assert forall i | 0 <= i < |t.outputs| :: SizedValue(t.outputs[i]) == SizedValue(WithIDs(hash, t.outputs)[i]);
    EncodingIgnoresValueIDs(hash, t.outputs);
    var n := Normalize(hash, t);
    assert n.outputs == WithIDs(hash, t.outputs);
    assert WithIDs(hash, n.outputs) == n.outputs;
    assert Normalize(hash, n).outputs == n.outputs;
    if Sized(n) {
      forall v | v in t.outputs ensures SizedValue(v) {
        var i :| 0 <= i < |t.outputs| && t.outputs[i] == v;
        assert n.outputs[i] in n.outputs;
      }
    }
  }

  // ---------------------------------------------------------------------------------------
  // Where everything is in an encoding

  lemma EncodedInt64(x: Int64)
    ensures HoldsInt64(EncodeInt64(x), x)
  {
    PowerValues();
    DecodeBigEndian(8, ToTwos(x));
  }

  /** Amount, unit, owner, expiry, depth; the strings after their lengths. */
  lemma ValueLayout(v: Value)
    requires SizedValue(v)
    ensures var e, u, o := EncodeValue(v), |v.unit|, |v.owner|;
            && |e| == 32 + u + o
            && FromBigEndian(e[..8]) == v.amount
            && FromBigEndian(e[8..12]) == u && e[12..12 + u] == v.unit
            && FromBigEndian(e[12 + u..16 + u]) == o && e[16 + u..16 + u + o] == v.owner
            && HoldsInt64(e[16 + u + o..24 + u + o], v.expiry) && HoldsInt64(e[24 + u + o..], v.depth)
  {
    hide BigEndian, FromBigEndian, HoldsInt64;
    PowerValues();
    DecodeBigEndian(8, v.amount);
    DecodeBigEndian(4, |v.unit|);
    DecodeBigEndian(4, |v.owner|);
    EncodedInt64(v.expiry);
    EncodedInt64(v.depth);
    FiveParts(BigEndian(8, v.amount), EncodeBytes(v.unit), EncodeBytes(v.owner), EncodeInt64(v.expiry), EncodeInt64(v.depth));
    var e, u, o := EncodeValue(v), |v.unit|, |v.owner|;
    assert e[8..12] == EncodeBytes(v.unit)[..4] && e[12..12 + u] == EncodeBytes(v.unit)[4..];
    assert e[12 + u..16 + u] == EncodeBytes(v.owner)[..4] && e[16 + u..16 + u + o] == EncodeBytes(v.owner)[4..];
  }

  lemma FiveParts(a: Bytes, b: Bytes, c: Bytes, d: Bytes, e: Bytes)
    ensures var s, i, j, k := a + (b + (c + (d + e))), |a| + |b|, |a| + |b| + |c|, |a| + |b| + |c| + |d|;
            s[..|a|] == a && s[|a|..i] == b && s[i..j] == c && s[j..k] == d && s[k..] == e
  {
    var s := a + (b + (c + (d + e)));
    assert s[|a|..] == b + (c + (d + e));
    assert s[|a| + |b|..] == c + (d + e);
    assert s[|a| + |b| + |c|..] == d + e;
  }

  /** The count of inputs, the inputs, the count of outputs, and then each output's encoding in turn. */
  lemma TransferLayout(t: Transfer, i: nat, j: nat)
    requires Sized(t) && i < |t.inputs| && j < |t.outputs|
    ensures var e, n, before := EncodeTransfer(t), 32 * |t.inputs|, |EncodeValues(t.outputs[..j])|;
            && |e| >= 8 + n + before + |EncodeValue(t.outputs[j])|
            && FromBigEndian(e[..4]) == |t.inputs| && FromBigEndian(e[4 + 32 * i..36 + 32 * i]) == t.inputs[i]
            && FromBigEndian(e[4 + n..8 + n]) == |t.outputs|
            && e[8 + n + before..8 + n + before + |EncodeValue(t.outputs[j])|] == EncodeValue(t.outputs[j])
  {
    hide BigEndian, FromBigEndian, EncodeValue, EncodeValues;
    PowerValues();
    DecodeBigEndian(4, |t.inputs|);
    DecodeBigEndian(4, |t.outputs|);
    DecodeBigEndian(32, t.inputs[i]);
    HashesLayout(t.inputs, i);
    ValuesLayout(t.outputs, j);
    hide EncodeHashes;
    var hs, vs, before, size := EncodeHashes(t.inputs), EncodeValues(t.outputs), |EncodeValues(t.outputs[..j])|, |EncodeValue(t.outputs[j])|;
    FourParts(BigEndian(4, |t.inputs|), hs, BigEndian(4, |t.outputs|), vs);
    var e, n := EncodeTransfer(t), 32 * |t.inputs|;
    assert e[4 + 32 * i..36 + 32 * i] == e[4..4 + n][32 * i..32 * i + 32];
    assert e[8 + n + before..8 + n + before + size] == e[8 + n..][before..before + size];
  }

  lemma FourParts(a: Bytes, b: Bytes, c: Bytes, d: Bytes)
    ensures var s, i, j := a + (b + (c + d)), |a| + |b|, |a| + |b| + |c|;
            s[..|a|] == a && s[|a|..i] == b && s[i..j] == c && s[j..] == d && |s| == j + |d|
  {
    var s := a + (b + (c + d));
    assert s[|a|..] == b + (c + d);
    assert s[|a| + |b|..] == c + d;
  }

  lemma {:induction false} HashesLayout(hs: seq<Hash>, i: nat)
    requires i < |hs|
    ensures |EncodeHashes(hs)| == 32 * |hs| && EncodeHashes(hs)[32 * i..32 * i + 32] == BigEndian(32, hs[i])
  {
    hide BigEndian;
    if |hs| > 1 {
      HashesLayout(hs[1..], if i == 0 then 0 else i - 1);
      assert i > 0 ==> EncodeHashes(hs)[32 * i..32 * i + 32] == EncodeHashes(hs[1..])[32 * (i - 1)..32 * (i - 1) + 32];
    }
  }

  lemma {:induction false} ValuesLayout(vs: seq<Value>, j: nat)
    requires j < |vs|
    ensures var before := EncodeValues(vs[..j]);
            |before + EncodeValue(vs[j])| <= |EncodeValues(vs)| && before + EncodeValue(vs[j]) <= EncodeValues(vs)
  {
    hide EncodeValue;
    if j > 0 {
      ValuesLayout(vs[1..], j - 1);
      assert vs[..j][1..] == vs[1..][..j - 1];
      assert EncodeValues(vs[..j]) + EncodeValue(vs[j]) == EncodeValue(vs[0]) + (EncodeValues(vs[1..][..j - 1]) + EncodeValue(vs[j]));
    }
  }

  // ---------------------------------------------------------------------------------------
  // Encoding what was decoded

  lemma TakenUint(k: nat, s: Bytes, short: DecodeError)
    requires TakeUint(k, s, short).Ok?
    ensures var (n, rest) := TakeUint(k, s, short).value; n < Pow256(k) && s == BigEndian(k, n) + rest
  {
    FromBigEndianBound(s[..k]);
    EncodeBigEndian(s[..k]);
  }

  lemma TakenInt64(s: Bytes)
    requires TakeInt64(s).Ok?
    ensures var (x, rest) := TakeInt64(s).value; s == EncodeInt64(x) + rest
  {
    TakenUint(8, s, ShortUint64);
    PowerValues();
  }

  lemma TakenBytes(s: Bytes)
    requires TakeBytes(s).Ok?
    ensures var (b, rest) := TakeBytes(s).value; |b| < TWO_32 && s == EncodeBytes(b) + rest
  {
    hide FromBigEndian, BigEndian;
    TakenUint(4, s, ShortUint32);
    PowerValues();
    var (length, after) := TakeUint(4, s, ShortUint32).value;
    assert after == after[..length] + after[length..];
  }

  lemma TakenValue(hash: Hasher, s: Bytes)
    requires TakeValue(hash, s).Ok?
    ensures var (v, rest) := TakeValue(hash, s).value;
            SizedValue(v) && v == WithValueID(hash, v) && s == EncodeValue(v) + rest
  {
    var (amount, s1) := TakeUint(8, s, ShortUint64).value;
    var (unit, s2) := TakeBytes(s1).value;
    var (owner, s3) := TakeBytes(s2).value;
    var (expiry, s4) := TakeInt64(s3).value;
    var (v, rest) := TakeValue(hash, s).value;
    TakenUint(8, s, ShortUint64);
    TakenBytes(s1);
    TakenBytes(s2);
    TakenInt64(s3);
    TakenInt64(s4);
    Regroup(BigEndian(8, amount), EncodeBytes(unit), EncodeBytes(owner), EncodeInt64(expiry), EncodeInt64(v.depth), rest);
  }

  lemma {:induction false} TakenHashes(n: nat, s: Bytes)
    requires TakeHashes(n, s).Ok?
    ensures var (hs, rest) := TakeHashes(n, s).value; |hs| == n && s == EncodeHashes(hs) + rest
  {
    if n > 0 {
      TakenHashes(n - 1, s[32..]);
      EncodeBigEndian(s[..32]);
      assert s == s[..32] + s[32..];
    }
  }

  lemma EncodeValuesCons(v: Value, vs: seq<Value>, rest: Bytes)
    ensures EncodeValues([v] + vs) + rest == EncodeValue(v) + (EncodeValues(vs) + rest)
  {
    assert ([v] + vs)[1..] == vs;
  }

  lemma {:induction false} TakenValues(hash: Hasher, n: nat, s: Bytes)
    requires TakeValues(hash, n, s).Ok?
    ensures var (vs, rest) := TakeValues(hash, n, s).value;
            |vs| == n && s == EncodeValues(vs) + rest
  {
    hide TakeValue, EncodeValue;
    if n > 0 {
      var (v, s1) := TakeValue(hash, s).value;
      var (vs, rest) := TakeValues(hash, n - 1, s1).value;
      TakenValue(hash, s);
      TakenValues(hash, n - 1, s1);
      EncodeValuesCons(v, vs, rest);
    }
  }

  lemma {:induction false} TakenValuesNormal(hash: Hasher, n: nat, s: Bytes)
    requires TakeValues(hash, n, s).Ok?
    ensures var vs := TakeValues(hash, n, s).value.0; vs == WithIDs(hash, vs) && forall v <- vs :: SizedValue(v)
  {
    hide TakeValue, EncodeValue;
    if n > 0 {
      var (v, s1) := TakeValue(hash, s).value;
      TakenValue(hash, s);
      TakenValuesNormal(hash, n - 1, s1);
      var vs := TakeValues(hash, n - 1, s1).value.0;
      assert WithIDs(hash, [v] + vs) == [WithValueID(hash, v)] + WithIDs(hash, vs);
    }
  }

  // ---------------------------------------------------------------------------------------
  // The codec's promises

  /** Decoding an encoding gives the same content back, with identifiers recomputed. */
  lemma DecodeEncode(hash: Hasher, t: Transfer)
    requires Sized(t)
    ensures DecodeTransfer(hash, EncodeTransfer(t)) == Ok(Normalize(hash, t).(sig := [], timestamp := 0))
  {
    var s3 := EncodeValues(t.outputs);
    var s2 := BigEndian(4, |t.outputs|) + s3;
    var s1 := EncodeHashes(t.inputs) + s2;
    PowerValues();
    TakeEncodedUint(4, |t.inputs|, s1, ShortUint32);
    TakeEncodedHashes(t.inputs, s2);
    TakeEncodedUint(4, |t.outputs|, s3, ShortUint32);
    TakeEncodedValues(hash, t.outputs, []);
    assert s3 + [] == s3;
    var outputs := WithIDs(hash, t.outputs);
    assert Normalize(hash, t).outputs == outputs;
    assert EncodeTransfer(Transfer(0, t.inputs, outputs, [], 0)) == EncodeTransfer(t.(outputs := outputs));
  }

  lemma AcceptedIsEncoded(hash: Hasher, data: Bytes)
    requires DecodeTransfer(hash, data).Ok?
    ensures var t := DecodeTransfer(hash, data).value;
            EncodeTransfer(t) == data && Sized(t) && t == Normalize(hash, t) && t.id == hash(data)
            && t.sig == [] && t.timestamp == 0
  {
    var t := DecodeTransfer(hash, data).value;
    var (inputCount, s1) := TakeUint(4, data, ShortUint32).value;
    var (inputs, s2) := TakeHashes(inputCount, s1).value;
    var (outputCount, s3) := TakeUint(4, s2, ShortUint32).value;
    TakenUint(4, data, ShortUint32);
    TakenHashes(inputCount, s1);
    TakenUint(4, s2, ShortUint32);
    TakenValues(hash, outputCount, s3);
    TakenValuesNormal(hash, outputCount, s3);
    PowerValues();
    var outputs := TakeValues(hash, outputCount, s3).value.0;
    assert s3 == EncodeValues(outputs) + [] == EncodeValues(outputs);
    assert t.inputs == inputs && t.outputs == outputs;
    EncodingIgnoresIDs(hash, t);
    assert EncodeTransfer(t.(id := 0)) == EncodeTransfer(t);
  }

  /** The decoder accepts exactly the encodings of sized transfers, and returns what was encoded. */
  lemma EncodeDecode(hash: Hasher, data: Bytes)
    ensures DecodeTransfer(hash, data).Ok? <==> exists t: Transfer :: Sized(t) && EncodeTransfer(t) == data
    ensures DecodeTransfer(hash, data).Ok? ==>
              var t := DecodeTransfer(hash, data).value;
              EncodeTransfer(t) == data && Sized(t) && t == Normalize(hash, t) && t.id == hash(data)
              && t.sig == [] && t.timestamp == 0
  {
    hide EncodeTransfer, DecodeTransfer, Sized, Normalize;
    if DecodeTransfer(hash, data).Ok? {
      AcceptedIsEncoded(hash, data);
    }
    forall t: Transfer | Sized(t) && EncodeTransfer(t) == data ensures DecodeTransfer(hash, data).Ok? {
      DecodeEncode(hash, t);
    }
  }

  /** Two transfers with one encoding have the same inputs and the same outputs up to identifiers. */
  lemma EncodeInjective(hash: Hasher, t: Transfer, u: Transfer)
    requires Sized(t) && Sized(u) && EncodeTransfer(t) == EncodeTransfer(u)
    ensures t.inputs == u.inputs && WithIDs(hash, t.outputs) == WithIDs(hash, u.outputs)
  {
    DecodeEncode(hash, t);
    DecodeEncode(hash, u);
    EncodingIgnoresIDs(hash, t);
    EncodingIgnoresIDs(hash, u);
  }

  lemma ValueEncodeInjective(hash: Hasher, v: Value, w: Value)
    requires SizedValue(v) && SizedValue(w) && EncodeValue(v) == EncodeValue(w)
    ensures v.(id := 0) == w.(id := 0)
  {
    TakeEncodedValue(hash, v, []);
    TakeEncodedValue(hash, w, []);
  }

  /** The round trip holds exactly for the transfers whose lengths fit their prefixes: a longer field
      has its length truncated and can never come back. */
  lemma RoundTripIffSized(hash: Hasher, t: Transfer)
    ensures Sized(t) <==> DecodeTransfer(hash, EncodeTransfer(t)) == Ok(Normalize(hash, t).(sig := [], timestamp := 0))
  {
    if Sized(t) {
      DecodeEncode(hash, t);
    } else if DecodeTransfer(hash, EncodeTransfer(t)).Ok? {
      EncodeDecode(hash, EncodeTransfer(t));
      var n := Normalize(hash, t);
      EncodingIgnoresIDs(hash, t);
      assert !Sized(n);
      assert Sized(n.(sig := [], timestamp := 0)) ==> Sized(n);
    }
  }

  lemma {:induction false} EncodedHashesLength(hs: seq<Hash>)
    ensures |EncodeHashes(hs)| == 32 * |hs|
  {
    if hs != [] {
      EncodedHashesLength(hs[1..]);
    }
  }

  /** A transfer whose encoding is shorter than 4 GiB has no truncated length in it. */
  lemma SizedByLength(t: Transfer)
    requires |EncodeTransfer(t)| < TWO_32
    ensures Sized(t)
  {
    EncodedHashesLength(t.inputs);
    EncodedValuesLength(t.outputs);
  }

  lemma {:induction false} EncodedValuesLength(vs: seq<Value>)
    ensures |EncodeValues(vs)| >= |vs|
    ensures forall v <- vs :: |v.unit| <= |EncodeValues(vs)| && |v.owner| <= |EncodeValues(vs)|
  {
    if vs != [] {
      EncodedValuesLength(vs[1..]);
      assert vs == [vs[0]] + vs[1..];
    }
  }

  lemma {:induction false} EncodeHashesSnoc(hs: seq<Hash>, h: Hash)
    ensures EncodeHashes(hs + [h]) == EncodeHashes(hs) + EncodeHash(h)
  {
    if hs == [] {
      assert hs + [h] == [h];
    } else {
      EncodeHashesSnoc(hs[1..], h);
      assert (hs + [h])[1..] == hs[1..] + [h];
    }
  }

  lemma {:induction false} EncodeValuesSnoc(vs: seq<Value>, v: Value)
    ensures EncodeValues(vs + [v]) == EncodeValues(vs) + EncodeValue(v)
  {
    hide EncodeValue;
    if vs == [] {
      assert vs + [v] == [v];
    } else {
      EncodeValuesSnoc(vs[1..], v);
      assert (vs + [v])[1..] == vs[1..] + [v];
    }
  }

  // ---------------------------------------------------------------------------------------
  // The code: buffers that grow, offsets that advance

  method AppendValueEncoding(dst: Bytes, v: Value) returns (buf: Bytes)
    ensures buf == dst + EncodeValue(v)
  {
    buf := dst + BigEndian(8, v.amount);
    buf := buf + BigEndian(4, |v.unit|) + v.unit;
    buf := buf + BigEndian(4, |v.owner|) + v.owner;
    buf := buf + EncodeInt64(v.expiry);
    buf := buf + EncodeInt64(v.depth);
  }

  method AppendTransferEncoding(dst: Bytes, t: Transfer) returns (buf: Bytes)
    ensures buf == dst + EncodeTransfer(t)
  {
    hide EncodeValue, EncodeHash, BigEndian;
    buf := dst + BigEndian(4, |t.inputs|);
    ghost var head := buf;
    for i := 0 to |t.inputs|
      invariant buf == head + EncodeHashes(t.inputs[..i])
    {
      EncodeHashesSnoc(t.inputs[..i], t.inputs[i]);
      assert t.inputs[..i + 1] == t.inputs[..i] + [t.inputs[i]];
      buf := buf + EncodeHash(t.inputs[i]);
    }
    assert t.inputs[..|t.inputs|] == t.inputs;
    buf := buf + BigEndian(4, |t.outputs|);
    ghost var head2 := buf;
    for i := 0 to |t.outputs|
      invariant buf == head2 + EncodeValues(t.outputs[..i])
    {
      EncodeValuesSnoc(t.outputs[..i], t.outputs[i]);
      assert t.outputs[..i + 1] == t.outputs[..i] + [t.outputs[i]];
      buf := AppendValueEncoding(buf, t.outputs[i]);
    }
    assert t.outputs[..|t.outputs|] == t.outputs;
  }

  /** The capacity reserved for an encoding is its exact length. */
  method EncodedTransferLen(t: Transfer) returns (length: nat)
    ensures length == |EncodeTransfer(t)|
  {
    length := 4 + |t.inputs| * 32 + 4;
    EncodedHashesLength(t.inputs);
    for i := 0 to |t.outputs|
      invariant length == 8 + |EncodeHashes(t.inputs)| + |EncodeValues(t.outputs[..i])|
    {
      EncodeValuesSnoc(t.outputs[..i], t.outputs[i]);
      assert t.outputs[..i + 1] == t.outputs[..i] + [t.outputs[i]];
      length := length + (8 + 4 + |t.outputs[i].unit| + 4 + |t.outputs[i].owner| + 8 + 8);
    }
    assert t.outputs[..|t.outputs|] == t.outputs;
  }

  /** An offset-based read of `data` agrees with a parser run on the bytes from the offset on. */
  ghost predicate Reads<T(!new)>(data: Bytes, r: Result<(T, nat), DecodeError>, p: Result<(T, Bytes), DecodeError>) {
    match p
    case Ok((v, rest)) => r.Ok? && r.value.0 == v && r.value.1 <= |data| && rest == data[r.value.1..]
    case Err(e) => r == Err(e)
  }

  method DecodeUintAt(data: Bytes, offset: nat, k: nat, short: DecodeError)
    returns (r: Result<(nat, nat), DecodeError>)
    requires offset <= |data|
    ensures Reads(data, r, TakeUint(k, data[offset..], short))
    ensures r.Ok? ==> r.value.0 < Pow256(k)
  {
    if |data[offset..]| < k {
      return Err(short);
    }
    assert data[offset..][..k] == data[offset..offset + k];
    FromBigEndianBound(data[offset..offset + k]);
    r := Ok((FromBigEndian(data[offset..offset + k]), offset + k));
  }

  method DecodeInt64At(data: Bytes, offset: nat) returns (r: Result<(Int64, nat), DecodeError>)
    requires offset <= |data|
    ensures Reads(data, r, TakeInt64(data[offset..]))
  {
    var readBits :- DecodeUintAt(data, offset, 8, ShortUint64);
    var bits, next := readBits.0, readBits.1;
    PowerValues();
    r := Ok((FromTwos(bits), next));
  }

  method DecodeBytesAt(data: Bytes, offset: nat) returns (r: Result<(Bytes, nat), DecodeError>)
    requires offset <= |data|
    ensures Reads(data, r, TakeBytes(data[offset..]))
  {
    var readLength :- DecodeUintAt(data, offset, 4, ShortUint32);
    var length, next := readLength.0, readLength.1;
    if |data[next..]| < length {
      return Err(ShortBytes);
    }
    assert data[next..][..length] == data[next..next + length];
    r := Ok((data[next..next + length], next + length));
  }

  method DecodeValueAt(hash: Hasher, data: Bytes, offset: nat) returns (r: Result<(Value, nat), DecodeError>)
    requires offset <= |data|
    ensures Reads(data, r, TakeValue(hash, data[offset..]))
  {
    var readAmount :- DecodeUintAt(data, offset, 8, ShortUint64);
    var amount, next1 := readAmount.0, readAmount.1;
    var readUnit :- DecodeBytesAt(data, next1);
    var unit, next2 := readUnit.0, readUnit.1;
    var readOwner :- DecodeBytesAt(data, next2);
    var owner, next3 := readOwner.0, readOwner.1;
    var readExpiry :- DecodeInt64At(data, next3);
    var expiry, next4 := readExpiry.0, readExpiry.1;
    var readDepth :- DecodeInt64At(data, next4);
    var depth, next5 := readDepth.0, readDepth.1;
    PowerValues();
    var value := Value(0, amount, unit, owner, expiry, depth);
    r := Ok((value.(id := ComputeValueID(hash, value)), next5));
  }

  lemma PrependNothing<T>(p: Result<(seq<T>, Bytes), DecodeError>)
    ensures Prepend([], p) == p
  {
    if p.Ok? {
      assert [] + p.value.0 == p.value.0;
    }
  }

  lemma PrependTwice<T>(xs: seq<T>, ys: seq<T>, p: Result<(seq<T>, Bytes), DecodeError>)
    ensures Prepend(xs, Prepend(ys, p)) == Prepend(xs + ys, p)
  {
    if p.Ok? {
      assert xs + (ys + p.value.0) == xs + ys + p.value.0;
    }
  }

  /** The first decoding loop: `count` input hashes. */
  method DecodeHashesAt(data: Bytes, start: nat, count: nat) returns (r: Result<(seq<Hash>, nat), DecodeError>)
    requires start <= |data|
    ensures Reads(data, r, TakeHashes(count, data[start..]))
  {
    hide HashOfBytes, FromBigEndian;
    var inputs: seq<Hash> := [];
    var offset: nat := start;
    ghost var all := TakeHashes(count, data[start..]);
    PrependNothing(all);
    for i := 0 to count
      invariant offset <= |data|
      invariant all == Prepend(inputs, TakeHashes(count - i, data[offset..]))
    {
      if |data[offset..]| < 32 {
        return Err(ShortHash);
      }
      assert data[offset..][..32] == data[offset..offset + 32] && data[offset..][32..] == data[offset + 32..];
      PrependTwice(inputs, [HashOfBytes(data[offset..offset + 32])], TakeHashes(count - i - 1, data[offset + 32..]));
      inputs := inputs + [HashOfBytes(data[offset..offset + 32])];
      offset := offset + 32;
    }
    assert inputs + [] == inputs;
    r := Ok((inputs, offset));
  }

  /** The second decoding loop: `count` output values. */
  method DecodeValuesAt(hash: Hasher, data: Bytes, start: nat, count: nat) returns (r: Result<(seq<Value>, nat), DecodeError>)
    requires start <= |data|
    ensures Reads(data, r, TakeValues(hash, count, data[start..]))
  {
    hide TakeValue, EncodeValue;
    var outputs: seq<Value> := [];
    var offset: nat := start;
    ghost var all := TakeValues(hash, count, data[start..]);
    PrependNothing(all);
    for i := 0 to count
      invariant offset <= |data|
      invariant all == Prepend(outputs, TakeValues(hash, count - i, data[offset..]))
    {
      var readValue :- DecodeValueAt(hash, data, offset);
      var value, next := readValue.0, readValue.1;
      PrependTwice(outputs, [value], TakeValues(hash, count - i - 1, data[next..]));
      outputs := outputs + [value];
      offset := next;
    }
    assert outputs + [] == outputs;
    r := Ok((outputs, offset));
  }

  method DecodeTransferAt(hash: Hasher, data: Bytes, start: nat) returns (r: Result<(Transfer, nat), DecodeError>)
    requires start <= |data|
    ensures Reads(data, r, TakeTransfer(hash, data[start..]))
  {
    hide TakeValues, TakeHashes, TakeUint, Prepend;
    var readInputCount :- DecodeUintAt(data, start, 4, ShortUint32);
    var readInputs :- DecodeHashesAt(data, readInputCount.1, readInputCount.0);
    var readOutputCount :- DecodeUintAt(data, readInputs.1, 4, ShortUint32);
    var readOutputs :- DecodeValuesAt(hash, data, readOutputCount.1, readOutputCount.0);
    r := Ok((Transfer(0, readInputs.0, readOutputs.0, [], 0), readOutputs.1));
  }

  method DecodeTransferBytes(hash: Hasher, data: Bytes) returns (r: Result<Transfer, DecodeError>)
    ensures r == DecodeTransfer(hash, data)
  {
    assert data[0..] == data;
    var readT :- DecodeTransferAt(hash, data, 0);
    var t, offset := readT.0, readT.1;
    if offset != |data| {
      return Err(Trailing);
    }
    r := Ok(t.(id := ComputeTransferID(hash, t)));
  }
}
