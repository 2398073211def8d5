/** What a node answers, from the bytes it receives to the bytes it sends. */
module Replies {
  import opened Bytes
  import opened Crypto
  import opened Protocol
  import opened Replay
  import opened Selection
  import opened NodeState
  import opened Coherence
  import opened Invariants
  import opened Runs
  import opened Promises
  import opened Rules
  import opened Histories
  import opened Relay

  /** A node receives bytes that are a message. */
  ghost function Receive(env: Env, tick: Tick, st: State, from: PeerId, data: Bytes): (State, Outcome)
    requires MembersStored(st) && DecodeMessage(data).Ok?
  {
    OnMessage(env, tick, st, from, DecodeMessage(data).value)
  }

  /** `data` is a message of the given type whose ID the node has no live entry for. */
  predicate Arrives(tick: Tick, st: State, data: Bytes, typ: Byte) {
    && DecodeMessage(data).Ok? && |data| >= 40 && data[35] == typ
    && DecodeMessage(data).value.messageId !in Pruned(st.seen, tick.now)
  }

  /** The bytes of the k-th message sent. */
  function SentBytes(st: State, k: nat): Bytes
    requires k < |st.sent|
  {
    EncodeMessage(st.sent[k].message)
  }

  /** Exactly one message was sent, to `to`. */
  predicate OneSent(st: State, r: State, to: PeerId) {
    |r.sent| == |st.sent| + 1 && r.sent[..|st.sent|] == st.sent && r.sent[|st.sent|].to == to
  }

  /** A message of the given type, made at clock `now`, with these eight bytes of TTL. */
  predicate Stamped(now: Int64, ttl: Bytes, typ: Byte, reply: Bytes) {
    |reply| >= 40 && HoldsInt64(reply[16..24], now) && reply[24..32] == ttl && reply[32..36] == [0, 0, 0, typ]
  }

  /** The hash that an INV, a GET or a PROOF_REQ of 72 bytes is about. */
  function Subject(data: Bytes): Hash
    requires |data| == 72
  {
    HashOfBytes(data[40..])
  }

  // ---------------------------------------------------------------------------------------
  // From messages to bytes

  lemma ArrivedFields(data: Bytes)
    requires DecodeMessage(data).Ok?
    ensures |data| >= 40 && data[35] <= 6
    ensures var m := DecodeMessage(data).value;
            && m.typ == data[35] && m.payload == data[40..] && EncodeInt64(m.ttl) == data[24..32]
            && (if |data| == 72 then DecodeHashPayload(m.payload).Ok? else DecodeHashPayload(m.payload) == Err(BadLength))
            && (|data| == 72 ==> DecodeHashPayload(m.payload) == Ok(Subject(data)) && EncodeHash(Subject(data)) == data[40..])
  {
    MessageLayout(data);
    EncodeDecodedInt64(data[24..32]);
    if |data| == 72 {
      HashLayout(data[40..]);
    }
    hide DecodeInt64, EncodeInt64, FromBigEndian, EncodeHash;
  }

  lemma StampedMessage(m: Message)
    requires m.typ < 256
    ensures Stamped(m.timestamp, EncodeInt64(m.ttl), m.typ, EncodeMessage(m)) && EncodeMessage(m)[40..] == m.payload
    ensures |EncodeMessage(m)| == 40 + |m.payload|
  {
    EncodedLayout(m);
    TypeBytes(m.typ);
    assert EncodeMessage(m)[24..32] == EncodeInt64(m.ttl) by {
      hide BigEndian;
      Int64Length(m.timestamp);
      Int64Length(m.ttl);
    }
    hide EncodeMessage, EncodeInt64, BigEndian, HoldsInt64;
  }

  /** What a node does with a message that arrives: mark it, and call the handler for its type code. */
  lemma Arrived(env: Env, tick: Tick, st: State, from: PeerId, data: Bytes, typ: Byte) returns (m: Message, marked: State)
    requires MembersStored(st) && Arrives(tick, st, data, typ)
    ensures DecodeMessage(data) == Ok(m) && typ <= 6 && |data| >= 40 && m.payload == data[40..] && EncodeInt64(m.ttl) == data[24..32]
    ensures if |data| == 72 then DecodeHashPayload(m.payload).Ok? else DecodeHashPayload(m.payload) == Err(BadLength)
    ensures |data| == 72 ==> DecodeHashPayload(m.payload) == Ok(Subject(data)) && EncodeHash(Subject(data)) == data[40..]
    ensures marked == st.(seen := marked.seen) && MembersStored(marked) && SameCore(st, marked)
    ensures var r := Receive(env, tick, st, from, data);
            && (typ == 0 ==> r == HandleInv(tick, marked, from, m))
            && (typ == 1 ==> r == HandleGet(tick, marked, from, m))
            && (typ == 2 ==> r == HandleTx(env, tick, marked, from, m))
            && (typ == 3 ==> r == HandleProofRequest(tick, marked, from, m))
            && (typ == 4 ==> r == HandleProofResponse(env, tick, marked, from, m))
            && (typ == 5 || typ == 6 ==> r == (marked, Nil))
  {
    hide DecodeMessage, DecodeHashPayload, EncodeInt64, EncodeHash, Subject, HandleInv, HandleGet, HandleTx, HandleProofRequest;
    hide HandleProofResponse, MembersStored, Pruned;
    ArrivedFields(data);
    m := DecodeMessage(data).value;
    marked := Mark(tick, st, m.messageId);
    SameMembersStored(st, marked);
  }

  // ---------------------------------------------------------------------------------------
  // Queries

  /** INV (type 0) for an unknown transfer is answered by GET (type 1) with the same hash and TTL. */
  lemma InvIsAnswered(env: Env, tick: Tick, st: State, from: PeerId, data: Bytes)
    requires MembersStored(st) && Arrives(tick, st, data, 0)
    ensures var (r, out) := Receive(env, tick, st, from, data);
            if |data| != 72 then r.sent == st.sent && out == Failed(Decoding(BadLength))
            else if Subject(data) in st.txStore then r.sent == st.sent && out == Nil
            else
              && OneSent(st, r, from) && (out == Nil <==> tick.up(from))
              && Stamped(tick.now, data[24..32], 1, SentBytes(r, |st.sent|)) && SentBytes(r, |st.sent|)[40..] == data[40..]
  {
    hide Receive, Arrives, DecodeMessage, DecodeHashPayload, EncodeMessage, Stamped, MembersStored, Subject, EncodeHash, EncodeInt64;
    var m, _ := Arrived(env, tick, st, from, data, 0);
    if |data| == 72 {
      StampedMessage(NewGet(tick.ids(|st.sent|), tick.now, m.ttl, Subject(data)));
    }
  }

  /** GET (type 1) for a stored transfer is answered by TX (type 2) with its canonical bytes and signature. */
  lemma GetIsAnswered(env: Env, tick: Tick, st: State, from: PeerId, data: Bytes)
    requires Inv(env, st) && MembersStored(st) && Arrives(tick, st, data, 1)
    ensures var (r, out) := Receive(env, tick, st, from, data);
            if |data| != 72 then r.sent == st.sent && out == Failed(Decoding(BadLength))
            else if Subject(data) !in st.txStore then r.sent == st.sent && out == Nil
            else
              && OneSent(st, r, from) && (out == Nil <==> tick.up(from))
              && Stamped(tick.now, data[24..32], 2, SentBytes(r, |st.sent|))
              && var record := st.txStore[Subject(data)];
                 && env.hash(record.canonical) == Subject(data)
                 && (Sendable(record.tx) ==>
                       DecodeTxPayload(SentBytes(r, |st.sent|)[40..]) == Ok(TxPayload(record.canonical, record.tx.sig)))
  {
    hide Receive, Arrives, DecodeMessage, DecodeHashPayload, EncodeMessage, Stamped, MembersStored, Subject, EncodeHash, EncodeInt64;
    hide EncodeTransfer, DecodeTxPayload, EncodeTxPayload, Sized, Inv;
    var m, _ := Arrived(env, tick, st, from, data, 1);
    if |data| == 72 && Subject(data) in st.txStore {
      var record := st.txStore[Subject(data)];
      StampedMessage(NewTx(tick.ids(|st.sent|), tick.now, m.ttl, record.tx));
      CanonicalRecord(env, st, Subject(data));
      if Sendable(record.tx) {
        DecodeTxRoundTrip(EncodeTransfer(record.tx), record.tx.sig);
      }
    }
  }

  lemma CanonicalRecord(env: Env, st: State, x: Hash)
    requires Inv(env, st) && x in st.txStore
    ensures st.txStore[x].canonical == EncodeTransfer(st.txStore[x].tx) && env.hash(st.txStore[x].canonical) == x
  {
    hide EncodeTransfer, Normalize, Cached, Indexed, Numbered, Evident;
    assert RecordAddressed(env, x, st.txStore[x]);
  }

  lemma ConflictIsContest(env: Env, st: State, x: Hash)
    requires Inv(env, st) && x in st.txStore
    ensures HasConflict(st, x) <==> !Uncontested(st, x)
  {
    hide Cached, Evident, Addressed;
    forall i | i in st.txStore[x].tx.inputs
      ensures |ConflictSet(st, i)| > 1 <==> exists y :: y != x && y in st.txStore && i in st.txStore[y].tx.inputs
    {
      SharedInput(st, x, i);
    }
  }

  function Flag(b: bool): Byte {
    if b then 1 else 0
  }

  /** The attestation about `x`, by offset in a PROOF_RESP message: the target; 1 if it is stored, and
      since when; 1 if another stored transfer spends one of its inputs; distance 1. */
  predicate SaysWhatIsKnown(st: State, x: Hash, reply: Bytes) {
    && |reply| == 90 && reply[40..72] == EncodeHash(x)
    && reply[72] == Flag(x in st.txStore)
    && HoldsInt64(reply[73..81], if x in st.txStore then st.txStore[x].firstSeen else 0)
    && reply[81] == Flag(x in st.txStore && !Uncontested(st, x))
    && HoldsInt64(reply[82..90], 1)
  }

  /** PROOF_REQ (type 3) is always answered by PROOF_RESP (type 4), with what the node knows. */
  lemma ProofIsAnswered(env: Env, tick: Tick, st: State, from: PeerId, data: Bytes)
    requires Inv(env, st) && MembersStored(st) && Arrives(tick, st, data, 3)
    ensures var (r, out) := Receive(env, tick, st, from, data);
            if |data| != 72 then r.sent == st.sent && out == Failed(Decoding(BadLength))
            else
              && OneSent(st, r, from) && (out == Nil <==> tick.up(from))
              && Stamped(tick.now, data[24..32], 4, SentBytes(r, |st.sent|))
              && SaysWhatIsKnown(st, Subject(data), SentBytes(r, |st.sent|)) && SentBytes(r, |st.sent|)[40..72] == data[40..]
  {
    hide Receive, Arrives, DecodeMessage, DecodeHashPayload, EncodeMessage, Stamped, MembersStored, Subject, EncodeHash, EncodeInt64;
    hide EncodeProofPayload, HasConflict, Uncontested, HoldsInt64, Inv;
    if |data| == 72 {
      var m := Attests(env, tick, st, from, data);
      StampedMessage(m);
      AttestedBytes(env, st, Subject(data), m);
    } else {
      var m, _ := Arrived(env, tick, st, from, data, 3);
    }
  }

  lemma Attests(env: Env, tick: Tick, st: State, from: PeerId, data: Bytes) returns (m: Message)
    requires MembersStored(st) && Arrives(tick, st, data, 3) && |data| == 72
    ensures m.messageId == tick.ids(|st.sent|) && m.timestamp == tick.now && EncodeInt64(m.ttl) == data[24..32] && m.typ == 4
    ensures m.payload == EncodeProofPayload(ProofFor(st, Subject(data))) && EncodeHash(Subject(data)) == data[40..]
    ensures var (r, out) := Receive(env, tick, st, from, data);
            r.sent == st.sent + [SentMessage(from, m)] && (out == Nil <==> tick.up(from))
  {
    hide Receive, Arrives, DecodeMessage, DecodeHashPayload, MembersStored, Subject, EncodeHash, EncodeInt64, EncodeProofPayload, HasConflict;
    var query, marked := Arrived(env, tick, st, from, data, 3);
    m := NewProofResponse(tick.ids(|st.sent|), tick.now, query.ttl, ProofFor(st, Subject(data)));
    if Subject(data) in st.txStore {
      SameConflict(st, marked, Subject(data));
    }
  }

  lemma AttestedBytes(env: Env, st: State, x: Hash, m: Message)
    requires Inv(env, st)
    requires m.payload == EncodeProofPayload(ProofFor(st, x)) && |EncodeMessage(m)| == 40 + |m.payload| && EncodeMessage(m)[40..] == m.payload
    ensures SaysWhatIsKnown(st, x, EncodeMessage(m))
  {
    hide EncodeMessage, EncodeProofPayload, EncodeHash, HoldsInt64, HasConflict, Uncontested, Inv;
    if x in st.txStore {
      ConflictIsContest(env, st, x);
    }
    ProofBytes(ProofFor(st, x));
    ReplyBytes(EncodeMessage(m), m.payload);
  }

  lemma ReplyBytes(reply: Bytes, payload: Bytes)
    requires |reply| == 90 && reply[40..] == payload
    ensures reply[40..72] == payload[..32] && reply[72] == payload[32] && reply[73..81] == payload[33..41]
    ensures reply[81] == payload[41] && reply[82..90] == payload[42..50]
  {}

  lemma SameConflict(st: State, r: State, x: Hash)
    requires r.txStore == st.txStore && r.conflictSets == st.conflictSets
    ensures HasConflict(r, x) <==> HasConflict(st, x)
  {}

  lemma ProofBytes(p: ProofPayload)
    ensures var e := EncodeProofPayload(p);
            && |e| == 50 && e[..32] == EncodeHash(p.target)
            && e[32] == Flag(p.seen) && HoldsInt64(e[33..41], p.seenTime)
            && e[41] == Flag(p.conflict) && HoldsInt64(e[42..50], p.distance)
  {
    var e := EncodeProofPayload(p);
    EncodedInt64(p.seenTime);
    EncodedInt64(p.distance);
    Int64Length(p.seenTime);
    Int64Length(p.distance);
    hide BigEndian, HoldsInt64, EncodeInt64, EncodeHash;
    assert e[..32] == EncodeHash(p.target) && e[33..41] == EncodeInt64(p.seenTime) && e[42..50] == EncodeInt64(p.distance);
  }

  /** A replay of anything changes nothing but the replay cache. */
  lemma ReplayIsIgnored(env: Env, tick: Tick, st: State, from: PeerId, data: Bytes)
    requires MembersStored(st) && DecodeMessage(data).Ok? && DecodeMessage(data).value.messageId in Pruned(st.seen, tick.now)
    ensures var (r, out) := Receive(env, tick, st, from, data); r == st.(seen := r.seen) && out == Nil
  {
    hide DecodeMessage, Pruned, MembersStored;
  }

  /** ACK and ERROR (types 5 and 6) neither; PROOF_RESP (type 4) is not answered, and fails only where
      its payload does not decode. */
  lemma RestIsSilent(env: Env, tick: Tick, st: State, from: PeerId, data: Bytes, typ: Byte)
    requires Inv(env, st) && MembersStored(st) && typ >= 4 && Arrives(tick, st, data, typ)
    ensures var (r, out) := Receive(env, tick, st, from, data);
            && r.sent == st.sent && r.txStore == st.txStore && typ <= 6 && |data| >= 40
            && (typ != 4 ==> r == st.(seen := r.seen) && out == Nil)
            && (typ == 4 ==> (out == Nil <==> DecodeProofPayload(data[40..]).Ok?))
  {
    hide Receive, Arrives, DecodeMessage, MembersStored, DecodeProofPayload, Inv, RecomputeTransfer, UpdateProof;
    var m, marked := Arrived(env, tick, st, from, data, typ);
    if typ == 4 && DecodeProofPayload(m.payload).Ok? {
      var p := DecodeProofPayload(m.payload).value;
      ProofLeaves(marked, p.target, ProofRecord(from, p.seen, p.seenTime, p.conflict, p.distance));
    }
  }

  // ---------------------------------------------------------------------------------------
  // Transfers

  /** The peers other than `skip`, in increasing order. */
  ghost predicate IsPeerList(st: State, skip: PeerId, tos: seq<PeerId>) {
    && (forall i, j | 0 <= i < j < |tos| :: LexLess(tos[i], tos[j]))
    && (forall p :: p in tos <==> p in st.peers && p != skip)
  }

  /** One INV (type 0) about `x` to each of the first `n` peers listed, and nothing else. */
  predicate InvsSent(now: Int64, ttl: Bytes, st: State, r: State, tos: seq<PeerId>, n: nat, x: Hash) {
    && n <= |tos| && |r.sent| == |st.sent| + n && r.sent[..|st.sent|] == st.sent
    && forall j | 0 <= j < n :: IsInvTo(now, ttl, r.sent[|st.sent| + j], tos[j], x)
  }

  predicate IsInvTo(now: Int64, ttl: Bytes, o: SentMessage, to: PeerId, x: Hash) {
    var bytes := EncodeMessage(o.message);
    o.to == to && Stamped(now, ttl, 0, bytes) && bytes[40..] == EncodeHash(x)
  }

  lemma InvsAreSent(tick: Tick, st: State, r: State, tos: seq<PeerId>, n: nat, ttl: Int64, x: Hash)
    requires n <= |tos| && r.sent == st.sent + Invs(tick, |st.sent|, tos[..n], ttl, x)
    ensures InvsSent(tick.now, EncodeInt64(ttl), st, r, tos, n, x)
  {
    hide EncodeMessage, Stamped, EncodeInt64, EncodeHash;
    assert r.sent[..|st.sent|] == st.sent;
    forall j | 0 <= j < n ensures IsInvTo(tick.now, EncodeInt64(ttl), r.sent[|st.sent| + j], tos[j], x) {
      StampedMessage(NewInv(tick.ids(|st.sent| + j), tick.now, ttl, x));
    }
  }

  /** TX (type 2) with a new valid transfer is stored and announced to every peer but the sender, in
      increasing order until a send fails; any other TX sends nothing. */
  lemma TransferIsAnnounced(env: Env, tick: Tick, st: State, from: PeerId, data: Bytes) returns (tos: seq<PeerId>, n: nat)
    requires Inv(env, st) && MembersStored(st) && Arrives(tick, st, data, 2)
    ensures IsPeerList(st, from, tos)
    ensures var (r, out) := Receive(env, tick, st, from, data);
            var d := DecodedTransfer(env, data[40..]);
            if d.Ok? && Validate(env, tick.now, st.valueStore, d.value.0) == Nil && env.hash(d.value.1) !in st.txStore then
              && InvsSent(tick.now, data[24..32], st, r, tos, n, env.hash(d.value.1))
              && StopsAt(tick, tos, n) && (out == Nil <==> forall p <- tos :: tick.up(p))
              && env.hash(d.value.1) in r.txStore && r.txStore[env.hash(d.value.1)].firstSeen == tick.now
            else
              && r.sent == st.sent && r.txStore.Keys == st.txStore.Keys
              && out == if d.Err? then Failed(Decoding(d.error)) else Validate(env, tick.now, st.valueStore, d.value.0)
  {
    hide Receive, Arrives, DecodeMessage, MembersStored, Inv, EncodeInt64, DecodeHashPayload, EncodeHash, Subject, Validate;
    hide DecodedTransfer, InvsSent, HandleTx, Invs, Quiet, Grew, EncodeTransfer, PeersExcept, Normalize;
    var m, marked := Arrived(env, tick, st, from, data, 2);
    SameCoreKeepsInv(env, st, marked);
    tos := PeersListed(st, from);
    SamePeersExcept(st, marked, from);
    n := HandleTxSends(env, tick, marked, from, m);
    if NewAndValid(env, tick, marked, m) {
      DecodedTransferFacts(env, m.payload);
      var tx := DecodedTransfer(env, m.payload).value.0;
      InvsAreSent(tick, st, Receive(env, tick, st, from, data).0, tos, n, m.ttl, tx.id);
      GrewStores(tick.now, marked, Receive(env, tick, st, from, data).0, tx);
    } else {
      if DecodedTransfer(env, m.payload).Ok? {
        DecodedTransferFacts(env, m.payload);
      }
      QuietStores(marked, Receive(env, tick, st, from, data).0);
    }
  }

  lemma PeersListed(st: State, skip: PeerId) returns (tos: seq<PeerId>)
    ensures tos == PeersExcept(st, skip) && IsPeerList(st, skip, tos)
  {
    tos := PeersExcept(st, skip);
    forall p ensures p in tos <==> p in st.peers && p != skip {
      PeerListed(st, skip, p);
    }
  }

  lemma GrewStores(now: Int64, st: State, r: State, tx: Transfer)
    requires Grew(now, st, r, tx)
    ensures tx.id in r.txStore && r.txStore[tx.id].tx == tx && r.txStore[tx.id].firstSeen == now
  {
    hide MemberAdded, StoreOutputs, RecordsKept;
  }

  lemma QuietStores(st: State, r: State)
    requires Quiet(st, r)
    ensures r.txStore.Keys == st.txStore.Keys
  {}

  /** A submission that is valid and spends nothing twice is announced with TTL 30 to every peer. */
  lemma SubmissionIsAnnounced(env: Env, tick: Tick, st: State, t: Transfer) returns (tos: seq<PeerId>, n: nat)
    requires Inv(env, st) && MembersStored(st)
    ensures IsPeerList(st, [], tos)
    ensures var (r, out) := AcceptLocal(env, tick, st, t);
            if Submittable(env, tick, st, t) then
              && InvsSent(tick.now, [0, 0, 0, 0, 0, 0, 0, 30], st, r, tos, n, env.hash(EncodeTransfer(t)))
              && StopsAt(tick, tos, n) && (out == Nil <==> forall p <- tos :: tick.up(p))
              && env.hash(EncodeTransfer(t)) in r.txStore
            else
              && r == st
              && out == if Validate(env, tick.now, st.valueStore, Normalize(env.hash, t)) != Nil
                        then Validate(env, tick.now, st.valueStore, Normalize(env.hash, t)) else Failed(InputConsumed)
  {
    hide MembersStored, Inv, EncodeInt64, EncodeHash, InvsSent, AcceptLocal, Invs, EncodeTransfer, Submittable, Quiet, Grew, PeersExcept;
    hide Normalize, SameCore;
    tos := PeersListed(st, []);
    n := AcceptLocalSends(env, tick, st, t);
    EncodingIgnoresIDs(env.hash, t);
    var r, tx := AcceptLocal(env, tick, st, t).0, Normalize(env.hash, t);
    if Submittable(env, tick, st, t) {
      ThirtySeconds();
      InvsAreSent(tick, st, r, tos, n, 30, tx.id);
      if tx.id in st.txStore {
        QuietStores(st, r);
      } else {
        GrewStores(tick.now, st, r, tx);
      }
    }
  }

  lemma ThirtySeconds()
    ensures EncodeInt64(30) == [0, 0, 0, 0, 0, 0, 0, 30]
  {
    TypeBytes(30 / 0x1_0000_0000);
    assert BigEndian(5, 30 / 0x100_0000) == BigEndian(4, 0) + [0];
    assert BigEndian(6, 30 / 0x1_0000) == BigEndian(5, 0) + [0];
    assert BigEndian(7, 30 / 0x100) == BigEndian(6, 0) + [0];
  }

  // ---------------------------------------------------------------------------------------
  // From attestation to weight

  /** End to end: the bytes that answer a PROOF_REQ, received by a node that had no proof from the
      answerer, add exactly 1 to the weight of the transfer there if the answerer stores it
      uncontested, and nothing otherwise. */
  lemma AttestationCounts(
      env: Env, tick: Tick, st: State, from: PeerId, data: Bytes, tick': Tick, asker: State, answerer: PeerId)
    requires Inv(env, st) && MembersStored(st) && Arrives(tick, st, data, 3) && |data| == 72 && tick.ids(|st.sent|) < TWO_128
    requires MembersStored(asker) && answerer !in ProofsOf(asker, Subject(data))
    ensures var x, r := Subject(data), Receive(env, tick, st, from, data).0;
            && |r.sent| == |st.sent| + 1 && DecodeMessage(SentBytes(r, |st.sent|)).Ok?
            && (Arrives(tick', asker, SentBytes(r, |st.sent|), 4) ==>
                  var after := Receive(env, tick', asker, answerer, SentBytes(r, |st.sent|)).0;
                  && ProofWeight(ProofsOf(after, x)) ==
                     ProofWeight(ProofsOf(asker, x)) + (if x in st.txStore && Uncontested(st, x) then 1.0 else 0.0)
                  && forall y | y != x :: ProofsOf(after, y) == ProofsOf(asker, y))
  {
    hide Receive, Arrives, DecodeMessage, MembersStored, Inv, Uncontested, HasConflict, Subject, EncodeMessage, EncodeHash, EncodeInt64;
    hide EncodeProofPayload, DecodeProofPayload, ProofsOf, ProofWeight;
    var x := Subject(data);
    var m := Attests(env, tick, st, from, data);
    var reply := EncodeMessage(m);
    assert |m.payload| == 50 by {
      ProofBytes(ProofFor(st, x));
    }
    MessageRoundTrip(m);
    ProofRoundTrip(ProofFor(st, x));
    if x in st.txStore {
      ConflictIsContest(env, st, x);
    }
    if Arrives(tick', asker, reply, 4) {
      var _, marked := Arrived(env, tick', asker, answerer, reply, 4);
      ProofIsRecorded(env, tick', asker, marked, answerer, m, ProofFor(st, x));
      var proof := ProofFor(st, x);
      ProofWeightAdd(ProofsOf(asker, x), answerer, ProofRecord(answerer, proof.seen, proof.seenTime, proof.conflict, proof.distance));
    }
  }

  lemma ProofIsRecorded(env: Env, tick: Tick, st: State, marked: State, from: PeerId, m: Message, p: ProofPayload)
    requires MembersStored(marked) && marked == st.(seen := marked.seen) && DecodeProofPayload(m.payload) == Ok(p)
    ensures var after := HandleProofResponse(env, tick, marked, from, m).0;
            && ProofsOf(after, p.target) == ProofsOf(st, p.target)[from := ProofRecord(from, p.seen, p.seenTime, p.conflict, p.distance)]
            && forall y | y != p.target :: ProofsOf(after, y) == ProofsOf(st, y)
  {
    hide MembersStored, DecodeProofPayload, RecomputeTransfer;
  }
}
