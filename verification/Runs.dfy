/** Every step keeps the invariant; runs from a new node. */
module Runs {
  import opened Bytes
  import opened Crypto
  import opened Protocol
  import opened Replay
  import opened Selection
  import opened NodeState
  import opened Coherence
  import opened Invariants

  // ---------------------------------------------------------------------------------------
  // Steps keep the invariant

  lemma DecodedTransferFacts(env: Env, payload: Bytes)
    requires DecodedTransfer(env, payload).Ok?
    ensures var (tx, canonical) := DecodedTransfer(env, payload).value;
            && tx == Normalize(env.hash, tx) && canonical == EncodeTransfer(tx) && tx.id == env.hash(canonical)
            && Sized(tx) && DecodeTxPayload(payload) == Ok(TxPayload(canonical, tx.sig)) && |tx.sig| < TWO_32 && |canonical| < TWO_32
  {
    hide DecodeTxPayload, DecodeTransfer, EncodeTransfer, Normalize;
    var p := DecodeTxPayload(payload).value;
    var t := DecodeTransfer(env.hash, p.transferBytes).value;
    EncodeTxRoundTrip(payload);
    EncodeDecode(env.hash, p.transferBytes);
    var s := t.(sig := p.signature);
    EncodingIgnoresIDs(env.hash, s);
    EncodingIgnoresSignature(t, s);
    NormalizeKeepsSignature(env.hash, s);
    NormalizedID(env.hash, Normalize(env.hash, s));
  }

  lemma EncodingIgnoresSignature(t: Transfer, s: Transfer)
    requires s.inputs == t.inputs && s.outputs == t.outputs
    ensures EncodeTransfer(s) == EncodeTransfer(t) && (Sized(s) <==> Sized(t))
  {}

  lemma NormalizeKeepsSignature(hash: Hasher, t: Transfer)
    ensures Normalize(hash, t).sig == t.sig && Normalize(hash, t).inputs == t.inputs
    ensures |Normalize(hash, t).outputs| == |t.outputs|
  {}

  lemma ValidatedShape(env: Env, now: Int64, values: map<Hash, Value>, tx: Transfer)
    requires Validate(env, now, values, tx) == Nil
    ensures tx.inputs != [] && NoDuplicates(tx.inputs) && tx.outputs != []
    ensures forall i <- tx.inputs :: i in values
  {
    SignerKnowsInputs(values, tx.inputs, []);
  }

  lemma {:induction false} SignerKnowsInputs(values: map<Hash, Value>, inputs: seq<Hash>, owner: Bytes)
    requires ResolveSigner(values, inputs, owner).Ok?
    ensures forall i <- inputs :: i in values
  {
    if inputs != [] {
      assert inputs == [inputs[0]] + inputs[1..];
      SignerKnowsInputs(values, inputs[1..], if owner == [] then values[inputs[0]].owner else owner);
    }
  }

  lemma StoreKeepsInv(env: Env, now: Int64, st: State, tx: Transfer, from: PeerId)
    requires Inv(env, st) && MembersStored(st)
    requires tx == Normalize(env.hash, tx) && Validate(env, now, st.valueStore, tx) == Nil
    ensures Inv(env, Store(env, now, st, tx, EncodeTransfer(tx), from).0)
  {
    hide Inv, Validate, Normalize, EncodeTransfer, Insert, ObservePeer, RecomputeTransfer;
    ValidatedShape(env, now, st.valueStore, tx);
    if tx.id in st.txStore {
      CopyKeepsInv(env, now, st, tx.id, from);
    } else {
      InsertKeepsInv(env, now, st, tx, EncodeTransfer(tx), from);
    }
  }

  lemma {:induction false} AnnounceSends(tick: Tick, st: State, tos: seq<PeerId>, ttl: Int64, x: Hash)
    ensures var r := Announce(tick, st, tos, ttl, x).0; r == st.(sent := r.sent) && st.sent <= r.sent
    decreases |tos|
  {
    if tos != [] {
      var next := SendTo(tick, st, tos[0], NewInv(tick.ids(|st.sent|), tick.now, ttl, x)).0;
      AnnounceSends(tick, next, tos[1..], ttl, x);
    }
  }

  lemma InvMembersStored(env: Env, st: State)
    requires Inv(env, st)
    ensures MembersStored(st)
  {}

  lemma HandleTxKeepsInv(env: Env, tick: Tick, st: State, from: PeerId, m: Message)
    requires Inv(env, st) && MembersStored(st)
    ensures Inv(env, HandleTx(env, tick, st, from, m).0)
  {
    hide Inv, Validate, Store, DecodedTransfer, Announce;
    var decoded := DecodedTransfer(env, m.payload);
    if decoded.Ok? && Validate(env, tick.now, st.valueStore, decoded.value.0) == Nil {
      var (tx, canonical) := decoded.value;
      DecodedTransferFacts(env, m.payload);
      StoreKeepsInv(env, tick.now, st, tx, from);
      var (next, x, _) := Store(env, tick.now, st, tx, canonical, from);
      var tos := PeersExcept(next, from);
      AnnounceSends(tick, next, tos, m.ttl, x);
      SameCoreKeepsInv(env, next, Announce(tick, next, tos, m.ttl, x).0);
    }
  }

  /** INV, GET and PROOF_REQ change nothing but the sent log. */
  lemma QueriesSend(tick: Tick, st: State, from: PeerId, m: Message)
    ensures var r := HandleInv(tick, st, from, m).0; r == st.(sent := r.sent) && SameCore(st, r)
    ensures var r := HandleGet(tick, st, from, m).0; r == st.(sent := r.sent) && SameCore(st, r)
    ensures var r := HandleProofRequest(tick, st, from, m).0; r == st.(sent := r.sent) && SameCore(st, r)
    ensures SameCore(st, st)
  {
    hide DecodeHashPayload;
  }

  lemma HandleProofResponseKeepsInv(env: Env, tick: Tick, st: State, from: PeerId, m: Message)
    requires Inv(env, st) && MembersStored(st)
    ensures Inv(env, HandleProofResponse(env, tick, st, from, m).0)
  {
    hide Inv, RecomputeTransfer, UpdateProof, DecodeProofPayload, MembersStored;
    match DecodeProofPayload(m.payload) {
      case Ok(p) => ProofKeepsInv(env, tick.now, st, p.target, ProofRecord(from, p.seen, p.seenTime, p.conflict, p.distance));
      case Err(_) =>
    }
  }

  lemma HandleKeepsInv(env: Env, tick: Tick, st: State, from: PeerId, m: Message)
    requires Inv(env, st) && MembersStored(st)
    ensures Inv(env, Handle(env, tick, st, from, m).0)
  {
    hide Inv, HandleInv, HandleGet, HandleTx, HandleProofRequest, HandleProofResponse, SameCore, MembersStored;
    QueriesSend(tick, st, from, m);
    if m.typ == TX {
      HandleTxKeepsInv(env, tick, st, from, m);
    } else if m.typ == PROOF_RESP {
      HandleProofResponseKeepsInv(env, tick, st, from, m);
    } else {
      SameCoreKeepsInv(env, st, Handle(env, tick, st, from, m).0);
    }
  }

  lemma OnMessageKeepsInv(env: Env, tick: Tick, st: State, from: PeerId, m: Message)
    requires Inv(env, st) && MembersStored(st)
    ensures Inv(env, OnMessage(env, tick, st, from, m).0)
  {
    hide Inv, Handle, Pruned;
    SameCoreKeepsInv(env, st, st.(seen := Pruned(st.seen, tick.now)));
    var marked := Mark(tick, st, m.messageId);
    SameCoreKeepsInv(env, st, marked);
    InvMembersStored(env, marked);
    HandleKeepsInv(env, tick, marked, from, m);
  }

  lemma AcceptLocalKeepsInv(env: Env, tick: Tick, st: State, t: Transfer)
    requires Inv(env, st) && MembersStored(st)
    ensures Inv(env, AcceptLocal(env, tick, st, t).0)
  {
    hide Inv, Validate, Store, Normalize, Announce, EncodeTransfer;
    var tx := Normalize(env.hash, t);
    EncodingIgnoresIDs(env.hash, t);
    if Validate(env, tick.now, st.valueStore, tx) == Nil && Consumable(st.consumed, tx.inputs) {
      var consumed := st.(consumed := st.consumed + Elements(tx.inputs));
      SameCoreKeepsInv(env, st, consumed);
      InvMembersStored(env, consumed);
      StoreKeepsInv(env, tick.now, consumed, tx, []);
      var (next, x, _) := Store(env, tick.now, consumed, tx, EncodeTransfer(tx), []);
      var tos := PeersExcept(next, []);
      AnnounceSends(tick, next, tos, LOCAL_TTL, x);
      SameCoreKeepsInv(env, next, Announce(tick, next, tos, LOCAL_TTL, x).0);
    }
  }

  lemma SeedKeepsInv(env: Env, st: State, v: Value)
    requires Inv(env, st)
    ensures Inv(env, SeedValue(env, st, v))
  {
    hide Cached, Indexed, Numbered, Addressed, Evident, WithValueID;
    var r := SeedValue(env, st, v);
    IndexedFrame(st, r);
    NumberedFrame(st, r);
    CachedFrame(env, st, r);
    SeedAddressed(env, st, v);
    SeedEvident(st, r);
  }

  lemma SeedEvident(st: State, r: State)
    requires Evident(st) && r.txStore == st.txStore && r.observations == st.observations
    ensures Evident(r)
  {
    assert forall x <- st.txStore :: PeersOf(r, x) == PeersOf(st, x);
  }

  lemma SeedAddressed(env: Env, st: State, v: Value)
    requires Addressed(env, st)
    ensures Addressed(env, SeedValue(env, st, v))
  {
    hide EncodeValue, RecordAddressed;
    SameValueEncoding(env.hash, v);
  }

  lemma SameValueEncoding(hash: Hasher, v: Value)
    ensures ComputeValueID(hash, WithValueID(hash, v)) == ComputeValueID(hash, v)
  {}

  lemma NewNodeInv(env: Env)
    ensures Inv(env, NEW_NODE)
  {}

  // ---------------------------------------------------------------------------------------
  // Runs

  datatype Event =
    | Deliver(tick: Tick, from: PeerId, message: Message)
    | Submit(tick: Tick, tx: Transfer)
    | Seed(value: Value)
    | Connect(peer: PeerId, attached: bool)

  ghost function Apply(env: Env, st: State, e: Event): State
    requires MembersStored(st)
  {
    match e
    case Deliver(tick, from, m) => OnMessage(env, tick, st, from, m).0
    case Submit(tick, tx) => AcceptLocal(env, tick, st, tx).0
    case Seed(v) => SeedValue(env, st, v)
    case Connect(p, attached) => if attached then AddPeer(st, p) else AddPeerID(st, p)
  }

  lemma ApplyKeepsInv(env: Env, st: State, e: Event)
    requires Inv(env, st) && MembersStored(st)
    ensures Inv(env, Apply(env, st, e))
  {
    hide Inv, OnMessage, AcceptLocal, SeedValue, AddPeer, AddPeerID, SameCore, MembersStored;
    match e {
      case Deliver(tick, from, m) => OnMessageKeepsInv(env, tick, st, from, m);
      case Submit(tick, tx) => AcceptLocalKeepsInv(env, tick, st, tx);
      case Seed(v) => SeedKeepsInv(env, st, v);
      case Connect(p, _) =>
        ConnectSameCore(st, p);
        SameCoreKeepsInv(env, st, Apply(env, st, e));
    }
  }

  lemma ConnectSameCore(st: State, p: PeerId)
    ensures SameCore(st, AddPeer(st, p)) && SameCore(st, AddPeerID(st, p))
  {}

  /** The state of a new node after a run of events; every reachable state satisfies the invariant. */
  ghost function Run(env: Env, events: seq<Event>): (st: State)
    ensures Inv(env, st) && MembersStored(st)
  {
    if events == [] then
      NewNodeInv(env);
      NEW_NODE
    else
      var before := Run(env, events[..|events| - 1]);
      ApplyKeepsInv(env, before, events[|events| - 1]);
      var after := Apply(env, before, events[|events| - 1]);
      InvMembersStored(env, after);
      after
  }
}
