/** What one step of a node sends. */
module Relay {
  import opened Bytes
  import opened Crypto
  import opened Protocol
  import opened Replay
  import opened Selection
  import opened NodeState
  import opened Coherence
  import opened Invariants
  import opened Runs
  import opened Histories

  // ---------------------------------------------------------------------------------------
  // What a TX message carries

  /** The identifier that a node handling `m` may store. */
  function Carried(env: Env, m: Message): set<Hash> {
    if m.typ == TX && DecodedTransfer(env, m.payload).Ok? then {DecodedTransfer(env, m.payload).value.0.id} else {}
  }

  /** The identifier carried by the TX messages made from a record. */
  function CarriedBy(env: Env, tx: Transfer): set<Hash> {
    Carried(env, NewTx(0, 0, 0, tx))
  }

  lemma CarriedSize(env: Env, m: Message)
    ensures |Carried(env, m)| <= 1
  {}

  lemma CarriesWhatItIsMadeFrom(env: Env, id: MessageId, now: Int64, ttl: Int64, tx: Transfer)
    ensures Carried(env, NewTx(id, now, ttl, tx)) == CarriedBy(env, tx)
  {}

  /** Every length fits its 32-bit prefix in a TX payload. */
  predicate Sendable(tx: Transfer) {
    Sized(tx) && |EncodeTransfer(tx)| < TWO_32 && |tx.sig| < TWO_32
  }

  /** A sendable transfer arrives as the same bytes with the same signature. */
  lemma SendableArrives(env: Env, tx: Transfer)
    requires Sendable(tx)
    ensures var d := DecodedTransfer(env, EncodeTxPayload(EncodeTransfer(tx), tx.sig));
            && d.Ok? && d.value.1 == EncodeTransfer(tx) && d.value.0.id == env.hash(EncodeTransfer(tx))
            && d.value.0.sig == tx.sig && EncodeTransfer(d.value.0) == EncodeTransfer(tx)
  {
    hide EncodeTxPayload, DecodeTxPayload, DecodeTransfer, EncodeTransfer, Normalize;
    var payload := EncodeTxPayload(EncodeTransfer(tx), tx.sig);
    DecodeTxRoundTrip(EncodeTransfer(tx), tx.sig);
    DecodeEncode(env.hash, tx);
    DecodedTransferFacts(env, payload);
  }

  lemma SendableCarriesItself(env: Env, tx: Transfer)
    requires Sendable(tx) && tx.id == env.hash(EncodeTransfer(tx))
    ensures CarriedBy(env, tx) == {tx.id}
  {
    hide EncodeTransfer, DecodedTransfer, EncodeTxPayload, Sendable;
    SendableArrives(env, tx);
  }

  lemma DecodedIsSendable(env: Env, payload: Bytes)
    requires DecodedTransfer(env, payload).Ok?
    ensures var tx := DecodedTransfer(env, payload).value.0; Sendable(tx) && CarriedBy(env, tx) == {tx.id}
  {
    hide DecodedTransfer, EncodeTransfer, Normalize, CarriedBy;
    DecodedTransferFacts(env, payload);
    SendableCarriesItself(env, DecodedTransfer(env, payload).value.0);
  }

  // ---------------------------------------------------------------------------------------
  // Announcements

  function Invs(tick: Tick, base: nat, tos: seq<PeerId>, ttl: Int64, x: Hash): seq<SentMessage> {
    seq(|tos|, j requires 0 <= j < |tos| => SentMessage(tos[j], NewInv(tick.ids(base + j), tick.now, ttl, x)))
  }

  lemma InvsStep(tick: Tick, base: nat, p: PeerId, tos: seq<PeerId>, ttl: Int64, x: Hash)
    ensures Invs(tick, base, [], ttl, x) == []
    ensures Invs(tick, base, [p] + tos, ttl, x)
         == [SentMessage(p, NewInv(tick.ids(base), tick.now, ttl, x))] + Invs(tick, base + 1, tos, ttl, x)
  {
    hide NewInv;
  }

  lemma AppendTwice(st: State, a: seq<SentMessage>, b: seq<SentMessage>)
    ensures st.(sent := st.sent + (a + b)) == st.(sent := st.sent + a).(sent := st.sent + a + b)
  {
    assert st.sent + (a + b) == st.sent + a + b;
  }

  /** `n` messages were tried: each send but the last succeeded, and the last one failed if peers are left. */
  predicate StopsAt(tick: Tick, tos: seq<PeerId>, n: nat) {
    && n <= |tos| && (forall j | 0 <= j < n - 1 :: tick.up(tos[j]))
    && (n < |tos| ==> n > 0 && !tick.up(tos[n - 1]))
  }

  /** Announcing sends INVs to the first `n` peers, up to the first failing send, whose error it returns. */
  lemma {:induction false} AnnounceForm(tick: Tick, st: State, tos: seq<PeerId>, ttl: Int64, x: Hash) returns (n: nat)
    ensures n <= |tos| && Announce(tick, st, tos, ttl, x).0 == st.(sent := st.sent + Invs(tick, |st.sent|, tos[..n], ttl, x))
    ensures StopsAt(tick, tos, n) && ((forall p <- tos :: tick.up(p)) ==> n == |tos|)
    ensures Announce(tick, st, tos, ttl, x).1 == SendsOutcome(tick, tos)
    decreases |tos|
  {
    hide NewInv, Invs;
    if tos == [] {
      n := 0;
      InvsStep(tick, |st.sent|, [], [], ttl, x);
      assert tos[..n] == [] && st.sent + [] == st.sent;
    } else {
      var first := SentMessage(tos[0], NewInv(tick.ids(|st.sent|), tick.now, ttl, x));
      var next := st.(sent := st.sent + [first]);
      if !tick.up(tos[0]) {
        n := 1;
        InvsStep(tick, |st.sent|, tos[0], [], ttl, x);
        InvsStep(tick, |st.sent| + 1, tos[0], [], ttl, x);
        assert tos[..n] == [tos[0]] + [] && [first] + [] == [first];
      } else {
        var rest := AnnounceForm(tick, next, tos[1..], ttl, x);
        n := rest + 1;
        assert tos == [tos[0]] + tos[1..];
        assert tos[..n] == [tos[0]] + tos[1..][..rest];
        InvsStep(tick, |st.sent|, tos[0], tos[1..][..rest], ttl, x);
        AppendTwice(st, [first], Invs(tick, |st.sent| + 1, tos[1..][..rest], ttl, x));
      }
    }
  }

  // ---------------------------------------------------------------------------------------
  // Steps that may store

  ghost predicate AllUp(tick: Tick) {
    forall p: PeerId :: tick.up(p)
  }

  /** `r` stored `tx` and announced it to the peers except `skip`; to all of them if no send fails. */
  ghost predicate Announced(tick: Tick, st: State, r: State, tx: Transfer, skip: PeerId, ttl: Int64, n: nat) {
    && Grew(tick.now, st, r, tx) && r.peers == st.peers && n <= |PeersExcept(st, skip)|
    && r.sent == st.sent + Invs(tick, |st.sent|, PeersExcept(st, skip)[..n], ttl, tx.id)
    && (AllUp(tick) ==> n == |PeersExcept(st, skip)|) && StopsAt(tick, PeersExcept(st, skip), n)
  }

  /** What sending to all of `tos` in turn returns. */
  ghost function SendsOutcome(tick: Tick, tos: seq<PeerId>): Outcome {
    if forall p <- tos :: tick.up(p) then Nil else Failed(SendFailed)
  }

  lemma StoreLeaves(env: Env, now: Int64, st: State, tx: Transfer, canonical: Bytes, from: PeerId)
    requires MembersStored(st) && tx == Normalize(env.hash, tx)
    ensures var (r, x, inserted) := Store(env, now, st, tx, canonical, from);
            && r.sent == st.sent && r.peers == st.peers && r.seen == st.seen && r.consumed == st.consumed
            && x == tx.id && (inserted <==> tx.id !in st.txStore)
  {
    hide Normalize, RecomputeTransfer, Insert, ObservePeer, MembersStored;
    UpsertKeepsMembersStored(env, now, st, tx, canonical, from);
    InsertLeaves(now, st, tx, canonical, from);
  }

  lemma InsertLeaves(now: Int64, st: State, tx: Transfer, canonical: Bytes, from: PeerId)
    ensures var r := Insert(now, st, tx, canonical, from);
            r.sent == st.sent && r.peers == st.peers && r.seen == st.seen && r.consumed == st.consumed
  {
    hide ObservePeer, AddMembership, StoreOutputs;
  }

  lemma StoreQuietOrGrew(env: Env, now: Int64, st: State, tx: Transfer, canonical: Bytes, from: PeerId)
    requires Inv(env, st) && MembersStored(st)
    requires tx == Normalize(env.hash, tx) && Validate(env, now, st.valueStore, tx) == Nil
    ensures var r := Store(env, now, st, tx, canonical, from).0;
            if tx.id in st.txStore then Quiet(st, r) else Grew(now, st, r, tx)
  {
    hide Inv, Validate, Normalize, Insert, ObservePeer, RecomputeTransfer, Store;
    StoreSteps(env, now, st, tx, canonical, from, Store(env, now, st, tx, canonical, from).0);
    StoreDomain(env, now, st, tx, canonical, from);
    hide MemberAdded, StoreOutputs, RecordsKept;
  }

  lemma StoreDomain(env: Env, now: Int64, st: State, tx: Transfer, canonical: Bytes, from: PeerId)
    requires MembersStored(st) && tx == Normalize(env.hash, tx)
    ensures Store(env, now, st, tx, canonical, from).0.txStore.Keys == st.txStore.Keys + {tx.id}
  {
    hide Normalize, RecomputeTransfer, ObservePeer, Insert, MembersStored;
  }

  ghost predicate NewAndValid(env: Env, tick: Tick, st: State, m: Message) {
    var d := DecodedTransfer(env, m.payload);
    d.Ok? && d.value.0.id !in st.txStore && Validate(env, tick.now, st.valueStore, d.value.0) == Nil
  }

  /** `next` is `st` with a valid transfer stored, `r` is `next` after announcing it if that is done. */
  ghost predicate StoredAnd(tick: Tick, st: State, next: State, r: State, tx: Transfer, from: PeerId, ttl: Int64, n: nat) {
    var tos := PeersExcept(st, from);
    && n <= |tos| && (AllUp(tick) ==> n == |tos|) && StopsAt(tick, tos, n)
    && next.sent == st.sent && r.seen == next.seen == st.seen && r.peers == next.peers == st.peers
    && r.sent == st.sent + Invs(tick, |st.sent|, tos[..n], ttl, tx.id)
    && (if tx.id in st.txStore then Quiet(st, next) && Quiet(st, r) else Grew(tick.now, st, r, tx))
  }

  /** Storing a valid transfer and announcing it. */
  lemma StoreAndAnnounce(env: Env, tick: Tick, st: State, tx: Transfer, canonical: Bytes, from: PeerId, ttl: Int64)
    returns (n: nat)
    requires Inv(env, st) && MembersStored(st)
    requires tx == Normalize(env.hash, tx) && Validate(env, tick.now, st.valueStore, tx) == Nil
    ensures var (next, x, inserted) := Store(env, tick.now, st, tx, canonical, from);
            var (r, out) := Announce(tick, next, PeersExcept(next, from), ttl, x);
            && x == tx.id && (inserted <==> tx.id !in st.txStore)
            && StoredAnd(tick, st, next, r, tx, from, ttl, n) && out == SendsOutcome(tick, PeersExcept(st, from))
  {
    hide Inv, MembersStored, Validate, Store, Announce, Grew, Quiet, Invs, Normalize, PeersExcept;
    StoreLeaves(env, tick.now, st, tx, canonical, from);
    StoreQuietOrGrew(env, tick.now, st, tx, canonical, from);
    var next := Store(env, tick.now, st, tx, canonical, from).0;
    SamePeersExcept(st, next, from);
    n := AnnounceForm(tick, next, PeersExcept(next, from), ttl, tx.id);
    SentFrame(tick.now, st, next, Announce(tick, next, PeersExcept(next, from), ttl, tx.id).0, tx);
  }

  lemma SamePeersExcept(st: State, r: State, skip: PeerId)
    requires r.peers == st.peers
    ensures PeersExcept(r, skip) == PeersExcept(st, skip)
  {}

  lemma PeerListed(st: State, skip: PeerId, p: PeerId)
    ensures p in PeersExcept(st, skip) <==> p in st.peers && p != skip
  {}

  lemma HandleTxSends(env: Env, tick: Tick, st: State, from: PeerId, m: Message) returns (n: nat)
    requires Inv(env, st) && MembersStored(st)
    ensures var r := HandleTx(env, tick, st, from, m).0;
            && r.seen == st.seen && r.peers == st.peers
            && if NewAndValid(env, tick, st, m)
               then Announced(tick, st, r, DecodedTransfer(env, m.payload).value.0, from, m.ttl, n)
               else Quiet(st, r) && r.sent == st.sent
    ensures HandleTx(env, tick, st, from, m).1 == TransferOutcome(env, tick, st, from, m)
  {
    hide Inv, MembersStored, Validate, Store, DecodedTransfer, Announce, Grew, Quiet, Invs, PeersExcept;
    n := 0;
    SelfQuiet(st);
    var d := DecodedTransfer(env, m.payload);
    if d.Ok? && Validate(env, tick.now, st.valueStore, d.value.0) == Nil {
      DecodedTransferFacts(env, m.payload);
      n := StoreAndAnnounce(env, tick, st, d.value.0, d.value.1, from, m.ttl);
    }
  }

  /** The error of a TX: of decoding, of validation, or of the first announcement that fails. */
  ghost function TransferOutcome(env: Env, tick: Tick, st: State, from: PeerId, m: Message): Outcome {
    var d := DecodedTransfer(env, m.payload);
    if d.Err? then Failed(Decoding(d.error))
    else if Validate(env, tick.now, st.valueStore, d.value.0) != Nil then Validate(env, tick.now, st.valueStore, d.value.0)
    else if d.value.0.id in st.txStore then Nil
    else SendsOutcome(tick, PeersExcept(st, from))
  }

  lemma SelfQuiet(st: State)
    ensures Quiet(st, st)
  {}

  ghost predicate Submittable(env: Env, tick: Tick, st: State, t: Transfer) {
    Validate(env, tick.now, st.valueStore, Normalize(env.hash, t)) == Nil && Consumable(st.consumed, Normalize(env.hash, t).inputs)
  }

  lemma AcceptLocalSends(env: Env, tick: Tick, st: State, t: Transfer) returns (n: nat)
    requires Inv(env, st) && MembersStored(st)
    ensures var r, tx, tos := AcceptLocal(env, tick, st, t).0, Normalize(env.hash, t), PeersExcept(st, []);
            && r.seen == st.seen && r.peers == st.peers && n <= |tos|
            && if Submittable(env, tick, st, t)
               then && (if tx.id in st.txStore then Quiet(st, r) else Grew(tick.now, st, r, tx))
                    && r.sent == st.sent + Invs(tick, |st.sent|, tos[..n], LOCAL_TTL, tx.id) && (AllUp(tick) ==> n == |tos|)
                    && StopsAt(tick, tos, n) && AcceptLocal(env, tick, st, t).1 == SendsOutcome(tick, tos)
               else
                 && r == st
                 && AcceptLocal(env, tick, st, t).1 ==
                    (if Validate(env, tick.now, st.valueStore, tx) != Nil then Validate(env, tick.now, st.valueStore, tx)
                     else Failed(InputConsumed))
  {
    hide Inv, MembersStored, Validate, Store, Normalize, Announce, Grew, Quiet, Invs, EncodeTransfer, Consumable;
    hide PeersExcept;
    n := 0;
    SelfQuiet(st);
    var tx := Normalize(env.hash, t);
    EncodingIgnoresIDs(env.hash, t);
    if Submittable(env, tick, st, t) {
      var consumed := st.(consumed := st.consumed + Elements(tx.inputs));
      SameCoreKeepsInv(env, st, consumed);
      InvMembersStored(env, consumed);
      SamePeersExcept(st, consumed, []);
      n := StoreAndAnnounce(env, tick, consumed, tx, EncodeTransfer(tx), [], LOCAL_TTL);
      var r := AcceptLocal(env, tick, st, t).0;
      StepAfterSameCore(tick.now, st, consumed, r, tx);
    }
  }

  lemma SentFrame(now: Int64, st: State, r: State, r': State, tx: Transfer)
    requires r' == r.(sent := r'.sent)
    ensures Quiet(st, r) ==> Quiet(st, r')
    ensures Grew(now, st, r, tx) ==> Grew(now, st, r', tx)
  {
    hide StoreOutputs;
  }

  lemma ProofResponseSends(env: Env, tick: Tick, st: State, from: PeerId, m: Message)
    requires Inv(env, st) && MembersStored(st)
    ensures var r := HandleProofResponse(env, tick, st, from, m).0;
            r.seen == st.seen && r.peers == st.peers && Quiet(st, r) && r.sent == st.sent
  {
    hide Inv, MembersStored, RecomputeTransfer, UpdateProof, DecodeProofPayload, Reevidenced, Quiet;
    SelfQuiet(st);
    match DecodeProofPayload(m.payload) {
      case Ok(p) =>
        var proof := ProofRecord(from, p.seen, p.seenTime, p.conflict, p.distance);
        ProofReevidences(st, p.target, proof);
        ProofLeaves(st, p.target, proof);
        ReevidencedQuiet(st, UpdateProof(st, p.target, proof), HandleProofResponse(env, tick, st, from, m).0, p.target);
      case Err(_) =>
    }
  }

  lemma ProofLeaves(st: State, x: Hash, r: ProofRecord)
    ensures UpdateProof(st, x, r) == st.(proofs := UpdateProof(st, x, r).proofs)
  {}
}
