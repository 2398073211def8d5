/** Without loss, a network with nothing in flight has spread a valid transfer along every link. */
module Quiescence {
  import opened Bytes
  import opened Crypto
  import opened Protocol
  import opened Replay
  import opened Selection
  import opened NodeState
  import opened Coherence
  import opened Invariants
  import opened Runs
  import opened Promises
  import opened Histories
  import opened Relay
  import opened Gossip

  /** The transfer to follow, with the values its inputs name and their common owner. */
  datatype Target = Target(tx: Transfer, values: map<Hash, Value>, owner: Bytes)

  function TargetBytes(t: Target): Bytes {
    EncodeTransfer(t.tx)
  }

  ghost predicate Deliverable(env: Env, t: Target) {
    && t.tx.id == env.hash(TargetBytes(t)) && Sized(t.tx)
    && t.tx.inputs != [] && t.tx.outputs != [] && NoDuplicates(t.tx.inputs)
    && (forall i <- t.tx.inputs :: i in t.values)
    && ResolveSigner(t.values, t.tx.inputs, []) == Ok(t.owner) && |t.owner| == PUBLIC_KEY_SIZE
    && NoSecondPreimage(env, t)
    && (forall sig :: env.verify(t.owner, TargetBytes(t), sig) ==> |sig| < TWO_32)
  }

  /** Nothing else hashes to the transfer; nothing with another owner hashes to one of its inputs. */
  ghost predicate NoSecondPreimage(env: Env, t: Target) {
    && (forall b: Bytes :: env.hash(b) == t.tx.id ==> b == TargetBytes(t))
    && (forall v: Value :: ComputeValueID(env.hash, v) in t.tx.inputs ==> SameOwner(env, t, v))
  }

  predicate SameOwner(env: Env, t: Target, v: Value) {
    var i := ComputeValueID(env.hash, v);
    i in t.values && v.owner == t.values[i].owner
  }

  predicate Unexpired(t: Target, now: Int64) {
    forall v <- t.tx.outputs :: v.expiry == 0 || now < v.expiry
  }

  predicate SignedBy(env: Env, t: Target, sig: Bytes) {
    env.verify(t.owner, TargetBytes(t), sig)
  }

  /** The node knows the inputs, and what it stores fits TX messages; a stored target is signed. */
  ghost predicate Prepared(env: Env, t: Target, st: State) {
    && (forall i <- t.tx.inputs :: i in st.valueStore)
    && (forall x <- st.txStore :: Sendable(st.txStore[x].tx))
    && (t.tx.id in st.txStore ==> SignedBy(env, t, st.txStore[t.tx.id].tx.sig))
  }

  predicate Holds(t: Target, st: State) {
    t.tx.id in st.txStore
  }

  // ---------------------------------------------------------------------------------------
  // Every prepared node accepts the target

  predicate SameExpiries(a: seq<Value>, b: seq<Value>) {
    |a| == |b| && forall j | 0 <= j < |a| :: a[j].expiry == b[j].expiry
  }

  lemma SameContent(env: Env, t: Target, tx: Transfer)
    requires Deliverable(env, t) && Sized(tx) && env.hash(EncodeTransfer(tx)) == t.tx.id
    ensures EncodeTransfer(tx) == TargetBytes(t) && tx.inputs == t.tx.inputs && SameExpiries(tx.outputs, t.tx.outputs)
  {
    hide EncodeTransfer, Sized, ResolveSigner;
    EncodeInjective(env.hash, tx, t.tx);
    var a, b := WithIDs(env.hash, tx.outputs), WithIDs(env.hash, t.tx.outputs);
    assert |a| == |tx.outputs| && |b| == |t.tx.outputs|;
    forall j | 0 <= j < |tx.outputs| ensures tx.outputs[j].expiry == t.tx.outputs[j].expiry {
      assert a[j].expiry == b[j].expiry;
    }
  }

  lemma SameSignerEverywhere(env: Env, t: Target, st: State)
    requires Deliverable(env, t) && Addressed(env, st) && Prepared(env, t, st)
    ensures ResolveSigner(st.valueStore, t.tx.inputs, []) == Ok(t.owner)
  {
    hide ResolveSigner, ComputeValueID, RecordAddressed, Sized, Sendable;
    forall i | i in t.tx.inputs ensures i in st.valueStore && i in t.values && st.valueStore[i].owner == t.values[i].owner {
      assert SameOwner(env, t, st.valueStore[i]);
    }
    SameSigner(st.valueStore, t.values, t.tx.inputs, []);
  }

  /** Whatever else a prepared node holds, it accepts the target's content exactly when it is signed. */
  lemma AcceptedIffSigned(env: Env, t: Target, now: Int64, st: State, tx: Transfer)
    requires Deliverable(env, t) && Addressed(env, st) && Prepared(env, t, st) && Unexpired(t, now)
    requires Sized(tx) && env.hash(EncodeTransfer(tx)) == t.tx.id
    ensures Validate(env, now, st.valueStore, tx) == Nil <==> SignedBy(env, t, tx.sig)
  {
    hide ResolveSigner, EncodeTransfer, Sized, Addressed, Prepared;
    SameContent(env, t, tx);
    SameSignerEverywhere(env, t, st);
    assert tx.outputs != [];
    forall v | v in tx.outputs ensures v.expiry == 0 || now < v.expiry {
      var j :| 0 <= j < |tx.outputs| && tx.outputs[j] == v;
      assert t.tx.outputs[j] in t.tx.outputs;
    }
  }

  // ---------------------------------------------------------------------------------------
  // Messages about the target

  predicate IsInv(t: Target, m: Message) {
    m.typ == INV && DecodeHashPayload(m.payload) == Ok(t.tx.id)
  }

  predicate IsGet(t: Target, m: Message) {
    m.typ == GET && DecodeHashPayload(m.payload) == Ok(t.tx.id)
  }

  predicate IsSignedTx(env: Env, t: Target, m: Message) {
    m.typ == TX && DecodedTransfer(env, m.payload).Ok?
    && DecodedTransfer(env, m.payload).value.0.id == t.tx.id && SignedBy(env, t, DecodedTransfer(env, m.payload).value.0.sig)
  }

  /** What a step of a prepared node does about the target; `skip` is not announced to. */
  ghost predicate Effects(env: Env, t: Target, tick: Tick, st: State, r: State, skip: PeerId) {
    && Prepared(env, t, r) && r.peers == st.peers && st.sent <= r.sent
    && (Holds(t, st) ==> Holds(t, r))
    && Numbering(tick, st, r)
    && (forall o <- NewlySent(st, r) :: t.tx.id in Carried(env, o.message) ==> Holds(t, r))
    && (Holds(t, r) && !Holds(t, st) ==> forall p <- st.peers | p != skip :: Tells(t, NewlySent(st, r), p))
  }

  /** A step sends at most one message to each peer or one reply, with IDs drawn in the order of the sent log. */
  ghost predicate Numbering(tick: Tick, st: State, r: State) {
    && |NewlySent(st, r)| <= |st.peers| + 1
    && forall i | 0 <= i < |NewlySent(st, r)| :: NewlySent(st, r)[i].message.messageId == tick.ids(|st.sent| + i)
  }

  ghost predicate Tells(t: Target, out: seq<SentMessage>, p: PeerId) {
    exists o <- out :: o.to == p && IsInv(t, o.message)
  }

  lemma QuietPrepared(env: Env, t: Target, st: State, r: State)
    requires Prepared(env, t, st) && Quiet(st, r)
    ensures Prepared(env, t, r) && (Holds(t, r) <==> Holds(t, st))
  {
    hide Sendable;
    forall x | x in r.txStore ensures Sendable(r.txStore[x].tx) {
      assert r.txStore[x].tx == st.txStore[x].tx;
    }
  }

  lemma GrewPrepared(env: Env, t: Target, now: Int64, st: State, r: State, tx: Transfer)
    requires Prepared(env, t, st) && Grew(now, st, r, tx) && Sendable(tx)
    requires tx.id == t.tx.id ==> SignedBy(env, t, tx.sig)
    ensures Prepared(env, t, r) && (Holds(t, r) <==> Holds(t, st) || tx.id == t.tx.id)
  {
    hide Sendable, MemberAdded;
    StoreOutputsKeeps(st.valueStore, tx.outputs);
    forall x | x in r.txStore ensures Sendable(r.txStore[x].tx) {
      assert x in st.txStore ==> r.txStore[x].tx == st.txStore[x].tx;
    }
  }

  lemma InvIs(env: Env, t: Target, id: MessageId, now: Int64, ttl: Int64, x: Hash)
    ensures var m := NewInv(id, now, ttl, x); m.messageId == id && Carried(env, m) == {} && (x == t.tx.id ==> IsInv(t, m))
  {
    DecodeEncodedHash(x);
    hide DecodeHashPayload, EncodeHash;
  }

  lemma InvsAre(env: Env, t: Target, tick: Tick, base: nat, tos: seq<PeerId>, ttl: Int64, x: Hash)
    ensures var out := Invs(tick, base, tos, ttl, x);
            && |out| == |tos|
            && forall j | 0 <= j < |out| ::
                 && out[j].to == tos[j] && out[j].message.messageId == tick.ids(base + j) && Carried(env, out[j].message) == {}
                 && (x == t.tx.id ==> IsInv(t, out[j].message))
  {
    hide NewInv, IsInv, Carried;
    var out := Invs(tick, base, tos, ttl, x);
    forall j | 0 <= j < |out|
      ensures out[j].to == tos[j] && out[j].message.messageId == tick.ids(base + j) && Carried(env, out[j].message) == {}
      ensures x == t.tx.id ==> IsInv(t, out[j].message)
    {
      InvIs(env, t, tick.ids(base + j), tick.now, ttl, x);
    }
  }

  /** One announcement to each peer but one. */
  lemma InvsTell(env: Env, t: Target, tick: Tick, st: State, r: State, skip: PeerId, ttl: Int64)
    requires r.sent == st.sent + Invs(tick, |st.sent|, PeersExcept(st, skip), ttl, t.tx.id)
    ensures forall p <- st.peers | p != skip :: Tells(t, NewlySent(st, r), p)
  {
    hide Invs, IsInv, NewlySent, PeersExcept, Carried;
    var tos := PeersExcept(st, skip);
    var out := Invs(tick, |st.sent|, tos, ttl, t.tx.id);
    SentMany(st, r, out);
    InvsAre(env, t, tick, |st.sent|, tos, ttl, t.tx.id);
    forall p | p in st.peers && p != skip ensures Tells(t, out, p) {
      PeerListed(st, skip, p);
      var j :| 0 <= j < |tos| && tos[j] == p;
      assert out[j] in out;
    }
  }

  lemma InvsNumbered(env: Env, t: Target, tick: Tick, st: State, r: State, tos: seq<PeerId>, ttl: Int64, x: Hash)
    requires r.sent == st.sent + Invs(tick, |st.sent|, tos, ttl, x) && |tos| <= |st.peers|
    ensures st.sent <= r.sent && Numbering(tick, st, r) && forall o <- NewlySent(st, r) :: Carried(env, o.message) == {}
  {
    hide Invs, IsInv, NewlySent, Carried;
    SentMany(st, r, Invs(tick, |st.sent|, tos, ttl, x));
    InvsAre(env, t, tick, |st.sent|, tos, ttl, x);
  }

  lemma QuietEffects(env: Env, t: Target, tick: Tick, st: State, r: State, skip: PeerId)
    requires Prepared(env, t, st) && Quiet(st, r) && r.peers == st.peers && r.sent == st.sent
    ensures Effects(env, t, tick, st, r, skip)
  {
    hide Quiet, Prepared;
    QuietPrepared(env, t, st, r);
  }

  lemma GrewEffects(env: Env, t: Target, tick: Tick, st: State, r: State, tx: Transfer, skip: PeerId, ttl: Int64)
    requires Prepared(env, t, st) && Grew(tick.now, st, r, tx) && r.peers == st.peers && Sendable(tx)
    requires tx.id == t.tx.id ==> SignedBy(env, t, tx.sig)
    requires r.sent == st.sent + Invs(tick, |st.sent|, PeersExcept(st, skip), ttl, tx.id)
    ensures Effects(env, t, tick, st, r, skip)
  {
    hide Grew, Prepared, Sendable, Invs, Carried, PeersExcept, NewlySent, Numbering, Tells;
    GrewPrepared(env, t, tick.now, st, r, tx);
    FewerThanPeers(st, skip);
    InvsNumbered(env, t, tick, st, r, PeersExcept(st, skip), ttl, tx.id);
    if tx.id == t.tx.id {
      InvsTell(env, t, tick, st, r, skip, ttl);
    }
  }

  // ---------------------------------------------------------------------------------------
  // Handlers

  /** INV is answered by GET, GET by the signed transfer, and the signed transfer is stored. */
  ghost predicate Answers(env: Env, t: Target, st: State, from: PeerId, m: Message, r: State) {
    && (IsInv(t, m) && !Holds(t, st) ==> exists o <- NewlySent(st, r) :: o.to == from && IsGet(t, o.message))
    && (IsGet(t, m) && Holds(t, st) ==> exists o <- NewlySent(st, r) :: o.to == from && IsSignedTx(env, t, o.message))
    && (IsSignedTx(env, t, m) ==> Holds(t, r))
    && (Holds(t, r) && !Holds(t, st) ==> t.tx.id in Carried(env, m))
  }

  lemma ReplyEffects(env: Env, t: Target, tick: Tick, st: State, r: State, o: SentMessage, skip: PeerId)
    requires Prepared(env, t, st) && (r == st || r == st.(sent := st.sent + [o]))
    requires o.message.messageId == tick.ids(|st.sent|) && (t.tx.id in Carried(env, o.message) ==> Holds(t, st))
    ensures Effects(env, t, tick, st, r, skip) && NewlySent(st, r) == if r == st then [] else [o]
  {
    hide Prepared, Carried, Quiet, Tells;
    SentOne([], st, o);
    SelfQuiet(st);
    SameCoreQuiet(st, r);
    QuietPrepared(env, t, st, r);
  }

  lemma InvHandled(env: Env, t: Target, tick: Tick, st: State, from: PeerId, m: Message)
    requires Prepared(env, t, st) && m.typ == INV
    ensures var r := HandleInv(tick, st, from, m).0; Effects(env, t, tick, st, r, from) && Answers(env, t, st, from, m, r)
  {
    hide DecodeHashPayload, EncodeHash, Prepared, Effects, Answers, NewlySent, Carried;
    SelfQuiet(st);
    match DecodeHashPayload(m.payload) {
      case Ok(x) =>
        var r, o := HandleInv(tick, st, from, m).0, SentMessage(from, NewGet(tick.ids(|st.sent|), tick.now, m.ttl, x));
        CarriesNothing(env, o.message);
        ReplyEffects(env, t, tick, st, r, o, from);
        InvAnswers(env, t, st, from, m, r, x, o);
      case Err(_) =>
        QuietEffects(env, t, tick, st, st, from);
        UndecodedAnswers(env, t, st, from, m);
    }
  }

  lemma CarriesNothing(env: Env, m: Message)
    requires m.typ != TX
    ensures Carried(env, m) == {}
  {}

  lemma InvAnswers(env: Env, t: Target, st: State, from: PeerId, m: Message, r: State, x: Hash, o: SentMessage)
    requires m.typ == INV && DecodeHashPayload(m.payload) == Ok(x) && r.txStore == st.txStore
    requires x !in st.txStore ==> NewlySent(st, r) == [o]
    requires o.to == from && o.message.typ == GET && o.message.payload == EncodeHash(x)
    ensures Answers(env, t, st, from, m, r)
  {
    hide DecodeHashPayload, EncodeHash, NewlySent, DecodedTransfer, SignedBy;
    DecodeEncodedHash(x);
    assert o in [o];
  }

  lemma UndecodedAnswers(env: Env, t: Target, st: State, from: PeerId, m: Message)
    requires m.typ == INV && DecodeHashPayload(m.payload).Err?
    ensures Answers(env, t, st, from, m, st)
  {
    hide DecodeHashPayload, NewlySent, DecodedTransfer, SignedBy;
  }

  lemma RecordArrives(env: Env, t: Target, tick: Tick, st: State, x: Hash, id: MessageId, ttl: Int64)
    requires Prepared(env, t, st) && Addressed(env, st) && x in st.txStore && Deliverable(env, t)
    ensures var m := NewTx(id, tick.now, ttl, st.txStore[x].tx);
            (t.tx.id in Carried(env, m) <==> x == t.tx.id) && (x == t.tx.id ==> IsSignedTx(env, t, m))
  {
    hide Prepared, EncodeTransfer, Addressed, Sendable, Deliverable, DecodedTransfer, Normalize, EncodeTxPayload, SignedBy;
    RecordSendable(env, t, st, x);
    SendableArrives(env, st.txStore[x].tx);
    if x == t.tx.id {
      TargetSigned(env, t, st);
    }
  }

  lemma RecordSendable(env: Env, t: Target, st: State, x: Hash)
    requires Prepared(env, t, st) && Addressed(env, st) && x in st.txStore
    ensures Sendable(st.txStore[x].tx) && env.hash(EncodeTransfer(st.txStore[x].tx)) == x
  {
    hide EncodeTransfer, Sendable, Normalize;
    assert RecordAddressed(env, x, st.txStore[x]);
  }

  lemma TargetSigned(env: Env, t: Target, st: State)
    requires Prepared(env, t, st) && Holds(t, st)
    ensures SignedBy(env, t, st.txStore[t.tx.id].tx.sig)
  {}

  lemma GetHandled(env: Env, t: Target, tick: Tick, st: State, from: PeerId, m: Message)
    requires Prepared(env, t, st) && Addressed(env, st) && Deliverable(env, t) && m.typ == GET
    ensures var r := HandleGet(tick, st, from, m).0; Effects(env, t, tick, st, r, from) && Answers(env, t, st, from, m, r)
  {
    hide DecodeHashPayload, Prepared, Effects, Addressed, Deliverable, EncodeTxPayload, EncodeTransfer, Carried;
    hide IsSignedTx, NewlySent;
    SelfQuiet(st);
    QuietEffects(env, t, tick, st, st, from);
    OnlyTxIsSigned(env, t, m);
    match DecodeHashPayload(m.payload) {
      case Ok(x) =>
        if x in st.txStore {
          var o := SentMessage(from, NewTx(tick.ids(|st.sent|), tick.now, m.ttl, st.txStore[x].tx));
          RecordArrives(env, t, tick, st, x, tick.ids(|st.sent|), m.ttl);
          ReplyEffects(env, t, tick, st, HandleGet(tick, st, from, m).0, o, from);
          assert o in [o];
        }
      case Err(_) =>
    }
  }

  lemma OnlyTxIsSigned(env: Env, t: Target, m: Message)
    requires m.typ != TX
    ensures !IsSignedTx(env, t, m) && Carried(env, m) == {}
  {}

  lemma ProofRequestHandled(env: Env, t: Target, tick: Tick, st: State, from: PeerId, m: Message)
    requires Prepared(env, t, st) && m.typ == PROOF_REQ
    ensures var r := HandleProofRequest(tick, st, from, m).0; Effects(env, t, tick, st, r, from) && Answers(env, t, st, from, m, r)
  {
    hide DecodeHashPayload, EncodeProofPayload, Prepared, Effects, HasConflict, NewlySent;
    SelfQuiet(st);
    QuietEffects(env, t, tick, st, st, from);
    match DecodeHashPayload(m.payload) {
      case Ok(x) =>
        var r := HandleProofRequest(tick, st, from, m).0;
        ReplyEffects(env, t, tick, st, r, r.sent[|st.sent|], from);
      case Err(_) =>
    }
  }

  lemma TxHandled(env: Env, t: Target, tick: Tick, st: State, from: PeerId, m: Message)
    requires Inv(env, st) && MembersStored(st) && Prepared(env, t, st) && Deliverable(env, t)
    requires Unexpired(t, tick.now) && AllUp(tick) && m.typ == TX
    ensures var r := HandleTx(env, tick, st, from, m).0; Effects(env, t, tick, st, r, from) && Answers(env, t, st, from, m, r)
  {
    hide Inv, MembersStored, HandleTx, DecodedTransfer, Validate, Quiet, Grew, Prepared, Deliverable, Effects;
    hide Unexpired, Sendable, SignedBy;
    hide Invs, CarriedBy, PeersExcept;
    var r, d := HandleTx(env, tick, st, from, m).0, DecodedTransfer(env, m.payload);
    var n := HandleTxSends(env, tick, st, from, m);
    InvAddressed(env, st);
    if d.Ok? {
      var tx := d.value.0;
      DecodedIsSendable(env, m.payload);
      if tx.id == t.tx.id {
        DecodedAccepted(env, t, tick.now, st, m.payload);
      }
      if NewAndValid(env, tick, st, m) {
        var tos := PeersExcept(st, from);
        assert tos[..n] == tos;
        GrewEffects(env, t, tick, st, r, tx, from, m.ttl);
        GrewPrepared(env, t, tick.now, st, r, tx);
      } else {
        QuietEffects(env, t, tick, st, r, from);
        QuietPrepared(env, t, st, r);
      }
    } else {
      QuietEffects(env, t, tick, st, r, from);
      QuietPrepared(env, t, st, r);
    }
  }

  lemma InvAddressed(env: Env, st: State)
    requires Inv(env, st)
    ensures Addressed(env, st)
  {}

  lemma DecodedAccepted(env: Env, t: Target, now: Int64, st: State, payload: Bytes)
    requires Deliverable(env, t) && Addressed(env, st) && Prepared(env, t, st) && Unexpired(t, now)
    requires DecodedTransfer(env, payload).Ok? && DecodedTransfer(env, payload).value.0.id == t.tx.id
    ensures var tx := DecodedTransfer(env, payload).value.0; Validate(env, now, st.valueStore, tx) == Nil <==> SignedBy(env, t, tx.sig)
  {
    hide DecodedTransfer, Validate, Deliverable, Addressed, Prepared, Unexpired, Sized, EncodeTransfer, Normalize;
    DecodedTransferFacts(env, payload);
    AcceptedIffSigned(env, t, now, st, DecodedTransfer(env, payload).value.0);
  }

  lemma OtherHandled(env: Env, t: Target, tick: Tick, st: State, from: PeerId, m: Message, r: State)
    requires Prepared(env, t, st) && m.typ != INV && m.typ != GET && m.typ != TX
    requires Quiet(st, r) && r.peers == st.peers && r.sent == st.sent
    ensures Effects(env, t, tick, st, r, from) && Answers(env, t, st, from, m, r)
  {
    hide Prepared, Quiet, Effects;
    QuietEffects(env, t, tick, st, r, from);
    QuietPrepared(env, t, st, r);
  }

  lemma Handled(env: Env, t: Target, tick: Tick, st: State, from: PeerId, m: Message)
    requires Inv(env, st) && MembersStored(st) && Prepared(env, t, st) && Deliverable(env, t)
    requires Unexpired(t, tick.now) && AllUp(tick)
    ensures var r := Handle(env, tick, st, from, m).0;
            Effects(env, t, tick, st, r, from) && Answers(env, t, st, from, m, r) && r.seen == st.seen
  {
    hide Inv, MembersStored, HandleInv, HandleGet, HandleTx, HandleProofRequest, HandleProofResponse, Effects, Answers;
    hide Quiet;
    hide Prepared, Deliverable, Unexpired, SameCore;
    InvAddressed(env, st);
    SelfQuiet(st);
    QueriesSend(tick, st, from, m);
    if m.typ == INV {
      InvHandled(env, t, tick, st, from, m);
    } else if m.typ == GET {
      GetHandled(env, t, tick, st, from, m);
    } else if m.typ == TX {
      TxHandled(env, t, tick, st, from, m);
      var _ := HandleTxSends(env, tick, st, from, m);
    } else if m.typ == PROOF_REQ {
      ProofRequestHandled(env, t, tick, st, from, m);
    } else if m.typ == PROOF_RESP {
      ProofResponseSends(env, tick, st, from, m);
      OtherHandled(env, t, tick, st, from, m, HandleProofResponse(env, tick, st, from, m).0);
    } else {
      OtherHandled(env, t, tick, st, from, m, st);
    }
  }

  /** A message with an unused ID is handled. */
  lemma MessageHandled(env: Env, t: Target, tick: Tick, st: State, from: PeerId, m: Message)
    requires Inv(env, st) && MembersStored(st) && Prepared(env, t, st) && Deliverable(env, t)
    requires Unexpired(t, tick.now) && AllUp(tick) && m.messageId !in st.seen
    ensures var r := OnMessage(env, tick, st, from, m).0;
            Effects(env, t, tick, st, r, from) && Answers(env, t, st, from, m, r) && r.seen.Keys <= st.seen.Keys + {m.messageId}
  {
    hide Inv, MembersStored, Handle, Prepared, Deliverable, Unexpired, Effects, Answers;
    var marked := Mark(tick, st, m.messageId);
    SameCoreKeepsInv(env, st, marked);
    InvMembersStored(env, marked);
    PreparedFrame(env, t, st, marked);
    Handled(env, t, tick, marked, from, m);
    EffectsFrame(env, t, tick, st, marked, Handle(env, tick, marked, from, m).0, from, m);
  }

  lemma PreparedFrame(env: Env, t: Target, st: State, st': State)
    requires Prepared(env, t, st) && st'.txStore == st.txStore && st'.valueStore == st.valueStore
    ensures Prepared(env, t, st')
  {
    hide Sendable;
  }

  lemma EffectsFrame(env: Env, t: Target, tick: Tick, st: State, st': State, r: State, skip: PeerId, m: Message)
    requires Effects(env, t, tick, st', r, skip) && st' == st.(seen := st'.seen, consumed := st'.consumed)
    ensures Effects(env, t, tick, st, r, skip)
    ensures Answers(env, t, st', skip, m, r) ==> Answers(env, t, st, skip, m, r)
  {
    hide Prepared, Carried, Tells, IsInv, IsGet, IsSignedTx;
    assert NewlySent(st, r) == NewlySent(st', r);
  }

  /** A submission announces to every peer. */
  lemma SubmissionHandled(env: Env, t: Target, tick: Tick, st: State, u: Transfer)
    requires Inv(env, st) && MembersStored(st) && Prepared(env, t, st) && Deliverable(env, t)
    requires Unexpired(t, tick.now) && AllUp(tick) && Sendable(Normalize(env.hash, u))
    ensures var r := AcceptLocal(env, tick, st, u).0; Effects(env, t, tick, st, r, []) && r.seen == st.seen
  {
    hide Inv, MembersStored, AcceptLocal, Normalize, Validate, Quiet, Grew, Prepared, Deliverable, Effects, Unexpired;
    hide Sized, SignedBy;
    hide Invs, PeersExcept, EncodeTransfer, Consumable;
    var r, tx, tos := AcceptLocal(env, tick, st, u).0, Normalize(env.hash, u), PeersExcept(st, []);
    var n := AcceptLocalSends(env, tick, st, u);
    InvAddressed(env, st);
    SelfQuiet(st);
    EncodingIgnoresIDs(env.hash, u);
    if Submittable(env, tick, st, u) {
      assert tos[..n] == tos;
      if tx.id == t.tx.id {
        AcceptedIffSigned(env, t, tick.now, st, tx);
      }
      if tx.id in st.txStore {
        AgainEffects(env, t, tick, st, r, tx.id);
      } else {
        GrewEffects(env, t, tick, st, r, tx, [], LOCAL_TTL);
      }
    } else {
      QuietEffects(env, t, tick, st, r, []);
    }
  }

  lemma AgainEffects(env: Env, t: Target, tick: Tick, st: State, r: State, x: Hash)
    requires Prepared(env, t, st) && Quiet(st, r) && r.peers == st.peers
    requires r.sent == st.sent + Invs(tick, |st.sent|, PeersExcept(st, []), LOCAL_TTL, x)
    ensures Effects(env, t, tick, st, r, [])
  {
    hide Prepared, Quiet, Invs, Carried, PeersExcept, NewlySent, Numbering, Tells;
    QuietPrepared(env, t, st, r);
    FewerThanPeers(st, []);
    InvsNumbered(env, t, tick, st, r, PeersExcept(st, []), LOCAL_TTL, x);
  }

  // ---------------------------------------------------------------------------------------
  // The network

  predicate Link(net: Net, u: PeerId, v: PeerId) {
    u in net.nodes && v in net.nodes && v in net.nodes[u].peers
  }

  predicate HeldAt(t: Target, net: Net, v: PeerId) {
    v in net.nodes && Holds(t, net.nodes[v])
  }

  /** The packet will make `v` hold the target that `u` holds. */
  predicate Carries(env: Env, t: Target, p: Packet, u: PeerId, v: PeerId) {
    || (p.src == u && p.dst == v && (IsInv(t, p.message) || IsSignedTx(env, t, p.message)))
    || (p.src == v && p.dst == u && IsGet(t, p.message))
  }

  /** Every link from a holder to another node has an INV, a GET or the transfer in flight. */
  ghost predicate Covered(env: Env, t: Target, net: Net) {
    forall u, v | Link(net, u, v) && HeldAt(t, net, u) && !HeldAt(t, net, v) :: exists p <- net.inflight :: Carries(env, t, p, u, v)
  }

  /** A packet with the transfer comes from a node that holds it, or from outside. */
  ghost predicate TxSourced(env: Env, t: Target, net: Net) {
    forall p <- net.inflight | t.tx.id in Carried(env, p.message) && p.src in net.nodes :: HeldAt(t, net, p.src)
  }

  predicate UsedID(net: Net, id: MessageId) {
    (exists p <- net.inflight :: p.message.messageId == id) || (exists v <- net.nodes :: id in net.nodes[v].seen)
  }

  predicate Distinct(packets: seq<Packet>) {
    forall i, j | 0 <= i < j < |packets| :: packets[i].message.messageId != packets[j].message.messageId
  }

  predicate Unseen(net: Net, p: Packet) {
    p.dst in net.nodes ==> p.message.messageId !in net.nodes[p.dst].seen
  }

  /** Message IDs in flight are distinct and new to their receivers. */
  ghost predicate FreshIDs(net: Net) {
    Distinct(net.inflight) && forall p <- net.inflight :: Unseen(net, p)
  }

  ghost predicate GossipInv(env: Env, t: Target, net: Net) {
    && ValidNodes(env, net.nodes) && [] !in net.nodes
    && (forall v <- net.nodes :: Prepared(env, t, net.nodes[v]))
    && FreshIDs(net) && TxSourced(env, t, net) && Covered(env, t, net)
  }

  /** The `count` message IDs drawn from `base` on are unused and distinct. */
  ghost predicate FreshlyDrawn(net: Net, tick: Tick, base: nat, count: nat) {
    && (forall i: nat | base <= i < base + count :: !UsedID(net, tick.ids(i)))
    && (forall i: nat, j: nat | base <= i < j < base + count :: tick.ids(i) != tick.ids(j))
  }

  /** No send fails, the target's outputs have not expired, and the message IDs that the step may need
      are fresh. */
  ghost predicate GoodTick(t: Target, net: Net, st: State, tick: Tick) {
    && AllUp(tick) && Unexpired(t, tick.now)
    && FreshlyDrawn(net, tick, |st.sent|, |st.peers| + 1)
  }

  /** Nothing is lost, submissions fit TX messages, and outsiders do not send transfers in a node's name. */
  ghost predicate Reliable(env: Env, t: Target, net: Net, a: Action) {
    match a
    case Deliver(k, tick) => k < |net.inflight| && (net.inflight[k].dst in net.nodes ==> GoodTick(t, net, net.nodes[net.inflight[k].dst], tick))
    case Lose(_) => false
    case Submit(at, tick, u) => at in net.nodes && GoodTick(t, net, net.nodes[at], tick) && Sendable(Normalize(env.hash, u))
    case Inject(p) => !UsedID(net, p.message.messageId) && (p.message.typ == TX ==> p.src !in net.nodes)
  }

  // ---------------------------------------------------------------------------------------
  // A node's step in the network

  lemma SentPackets(net: Net, rest: seq<Packet>, at: PeerId, r: State)
    requires at in net.nodes
    ensures var after, out := After(Net(net.nodes, rest), at, r), NewlySent(net.nodes[at], r);
            && after.nodes == net.nodes[at := r]
            && (forall p <- rest :: p in after.inflight)
            && (forall o <- out :: Packet(at, o.to, o.message) in after.inflight)
            && (forall p <- after.inflight :: p in rest || exists o <- out :: p == Packet(at, o.to, o.message))
  {
    hide NewlySent;
    var after, out := After(Net(net.nodes, rest), at, r), NewlySent(net.nodes[at], r);
    forall o | o in out ensures Packet(at, o.to, o.message) in after.inflight {
      var i :| 0 <= i < |out| && out[i] == o;
      assert after.inflight[|rest| + i] == Packet(at, o.to, o.message);
    }
    forall p | p in after.inflight ensures p in rest || exists o <- out :: p == Packet(at, o.to, o.message) {
      var i :| 0 <= i < |after.inflight| && after.inflight[i] == p;
      if i >= |rest| {
        assert out[i - |rest|] in out;
      }
    }
  }

  lemma SourcedAfter(env: Env, t: Target, net: Net, rest: seq<Packet>, at: PeerId, r: State, tick: Tick, skip: PeerId)
    requires TxSourced(env, t, net) && at in net.nodes && (forall p <- rest :: p in net.inflight)
    requires Effects(env, t, tick, net.nodes[at], r, skip)
    ensures TxSourced(env, t, After(Net(net.nodes, rest), at, r))
  {
    hide Carried, Prepared, Numbering, Tells, NewlySent, After;
    SentPackets(net, rest, at, r);
  }

  /** The packet `q` that was taken out is replaced, on the links it was for. */
  ghost predicate Replaced(env: Env, t: Target, net: Net, rest: seq<Packet>, at: PeerId, r: State)
    requires at in net.nodes
  {
    forall u, v, q | q in net.inflight && q !in rest && Carries(env, t, q, u, v) && HeldAt(t, net, u) ::
      (v == at && Holds(t, r)) || exists o <- NewlySent(net.nodes[at], r) :: Carries(env, t, Packet(at, o.to, o.message), u, v)
  }

  lemma CoveredAfter(env: Env, t: Target, net: Net, rest: seq<Packet>, at: PeerId, r: State, tick: Tick, skip: PeerId)
    requires Covered(env, t, net) && at in net.nodes && [] !in net.nodes
    requires Effects(env, t, tick, net.nodes[at], r, skip) && Replaced(env, t, net, rest, at, r)
    requires Holds(t, r) && !Holds(t, net.nodes[at]) && skip in net.nodes ==> HeldAt(t, net, skip)
    ensures Covered(env, t, After(Net(net.nodes, rest), at, r))
  {
    hide Carries, Prepared, Numbering, Tells, NewlySent, After, Holds, Carried;
    SentPackets(net, rest, at, r);
    var after, st := After(Net(net.nodes, rest), at, r), net.nodes[at];
    forall u, v | Link(after, u, v) && HeldAt(t, after, u) && !HeldAt(t, after, v)
      ensures exists p <- after.inflight :: Carries(env, t, p, u, v)
    {
      assert Link(net, u, v) && !HeldAt(t, net, v);
      if HeldAt(t, net, u) {
        var q :| q in net.inflight && Carries(env, t, q, u, v);
        if q !in rest {
          var o :| o in NewlySent(st, r) && Carries(env, t, Packet(at, o.to, o.message), u, v);
        }
      } else {
        assert u == at && v != skip;
        var o := Told(env, t, NewlySent(st, r), u, v);
        assert Carries(env, t, Packet(at, o.to, o.message), u, v);
      }
    }
  }

  lemma Told(env: Env, t: Target, out: seq<SentMessage>, u: PeerId, v: PeerId) returns (o: SentMessage)
    requires Tells(t, out, v)
    ensures o in out && Carries(env, t, Packet(u, o.to, o.message), u, v)
  {
    o :| o in out && o.to == v && IsInv(t, o.message);
  }

  lemma DistinctAppend(net: Net, rest: seq<Packet>, at: PeerId, out: seq<SentMessage>, base: nat, tick: Tick)
    requires Distinct(rest) && (forall p <- rest :: p in net.inflight)
    requires forall i | 0 <= i < |out| :: out[i].message.messageId == tick.ids(base + i)
    requires FreshlyDrawn(net, tick, base, |out|)
    ensures Distinct(rest + Packets(at, out))
  {
    var all := rest + Packets(at, out);
    forall i, j | 0 <= i < j < |all| ensures all[i].message.messageId != all[j].message.messageId {
      if i >= |rest| {
        assert all[i].message.messageId == tick.ids(base + (i - |rest|)) && all[j].message.messageId == tick.ids(base + (j - |rest|));
      } else if j >= |rest| {
        assert rest[i] in net.inflight && !UsedID(net, tick.ids(base + (j - |rest|)));
      }
    }
  }

  lemma FreshAfter(env: Env, t: Target, net: Net, rest: seq<Packet>, at: PeerId, r: State, tick: Tick, skip: PeerId, gone: set<MessageId>)
    requires at in net.nodes && FreshIDs(net) && Distinct(rest) && (forall p <- rest :: p in net.inflight)
    requires GoodTick(t, net, net.nodes[at], tick) && Effects(env, t, tick, net.nodes[at], r, skip)
    requires r.seen.Keys <= net.nodes[at].seen.Keys + gone
    requires forall id <- gone :: UsedID(net, id) && forall p <- rest :: p.message.messageId != id
    ensures FreshIDs(After(Net(net.nodes, rest), at, r))
  {
    hide Prepared, Tells, NewlySent, Holds, Carried, UsedID, Packets;
    var after, st := After(Net(net.nodes, rest), at, r), net.nodes[at];
    var out := NewlySent(st, r);
    assert |out| <= |st.peers| + 1;
    DistinctAppend(net, rest, at, out, |st.sent|, tick);
    forall p | p in after.inflight ensures Unseen(after, p) {
      SentPackets(net, rest, at, r);
      if p in rest {
        assert Unseen(net, p);
      } else {
        var o :| o in out && p == Packet(at, o.to, o.message);
        var i :| 0 <= i < |out| && out[i] == o;
        assert !UsedID(net, tick.ids(|st.sent| + i));
        UnusedUnseen(net, p.message.messageId, p.dst);
      }
    }
  }

  lemma UnusedUnseen(net: Net, id: MessageId, v: PeerId)
    requires !UsedID(net, id)
    ensures v in net.nodes ==> id !in net.nodes[v].seen
  {}

  lemma WithoutKeepsDistinct(packets: seq<Packet>, k: nat)
    requires k < |packets| && Distinct(packets)
    ensures Distinct(Without(packets, k)) && (forall p <- Without(packets, k) :: p in packets)
    ensures forall p <- Without(packets, k) :: p.message.messageId != packets[k].message.messageId
    ensures forall q <- packets :: q in Without(packets, k) || q == packets[k]
  {
    var rest := Without(packets, k);
    assert forall i | 0 <= i < |rest| :: rest[i] == if i < k then packets[i] else packets[i + 1];
    forall q | q in packets && q != packets[k] ensures q in rest {
      var i :| 0 <= i < |packets| && packets[i] == q;
      assert i < k ==> rest[i] == q;
      assert i > k ==> rest[i - 1] == q;
    }
  }

  lemma DeliveryReplaces(env: Env, t: Target, net: Net, k: nat, r: State)
    requires k < |net.inflight| && Distinct(net.inflight)
    requires net.inflight[k].dst in net.nodes
    requires Answers(env, t, net.nodes[net.inflight[k].dst], net.inflight[k].src, net.inflight[k].message, r)
    requires Holds(t, net.nodes[net.inflight[k].dst]) ==> Holds(t, r)
    ensures Replaced(env, t, net, Without(net.inflight, k), net.inflight[k].dst, r)
  {
    hide Carried, NewlySent, Without, DecodedTransfer, DecodeHashPayload, SignedBy;
    WithoutKeepsDistinct(net.inflight, k);
    var q := net.inflight[k];
    var out := NewlySent(net.nodes[q.dst], r);
    forall u, v | Carries(env, t, q, u, v) && HeldAt(t, net, u)
      ensures (v == q.dst && Holds(t, r)) || exists o <- out :: Carries(env, t, Packet(q.dst, o.to, o.message), u, v)
    {
      if IsGet(t, q.message) {
        var o :| o in out && o.to == q.src && IsSignedTx(env, t, o.message);
        assert Carries(env, t, Packet(q.dst, o.to, o.message), u, v);
      } else if IsInv(t, q.message) && !Holds(t, r) {
        var o :| o in out && o.to == q.src && IsGet(t, o.message);
        assert Carries(env, t, Packet(q.dst, o.to, o.message), u, v);
      }
    }
  }

  // ---------------------------------------------------------------------------------------
  // Every step keeps every link covered

  lemma NodeStepKeeps(
      env: Env, t: Target, net: Net, rest: seq<Packet>, at: PeerId, r: State, tick: Tick, skip: PeerId, gone: set<MessageId>)
    requires GossipInv(env, t, net) && at in net.nodes && Inv(env, r) && MembersStored(r)
    requires Distinct(rest) && (forall p <- rest :: p in net.inflight)
    requires GoodTick(t, net, net.nodes[at], tick) && Effects(env, t, tick, net.nodes[at], r, skip)
    requires r.seen.Keys <= net.nodes[at].seen.Keys + gone
    requires forall id <- gone :: UsedID(net, id) && forall p <- rest :: p.message.messageId != id
    requires Replaced(env, t, net, rest, at, r)
    requires Holds(t, r) && !Holds(t, net.nodes[at]) && skip in net.nodes ==> HeldAt(t, net, skip)
    ensures GossipInv(env, t, After(Net(net.nodes, rest), at, r))
  {
    hide Inv, MembersStored, Prepared, FreshIDs, TxSourced, Covered, GoodTick, Replaced, Holds, UsedID, Packets;
    hide Distinct, NewlySent;
    hide Numbering, Tells;
    FreshAfter(env, t, net, rest, at, r, tick, skip, gone);
    SourcedAfter(env, t, net, rest, at, r, tick, skip);
    CoveredAfter(env, t, net, rest, at, r, tick, skip);
    var after := After(Net(net.nodes, rest), at, r);
    assert after.nodes == net.nodes[at := r];
  }

  lemma LossFromNowhere(env: Env, t: Target, net: Net, k: nat)
    requires GossipInv(env, t, net) && k < |net.inflight| && net.inflight[k].dst !in net.nodes
    ensures GossipInv(env, t, net.(inflight := Without(net.inflight, k)))
  {
    hide Without, IsInv, IsGet, IsSignedTx, Carried, Holds, Prepared, Inv, MembersStored, UsedID, Distinct;
    WithoutKeepsDistinct(net.inflight, k);
    var after := net.(inflight := Without(net.inflight, k));
    forall p | p in after.inflight ensures Unseen(after, p) {
      assert Unseen(net, p);
    }
    forall u, v | Link(after, u, v) && HeldAt(t, after, u) && !HeldAt(t, after, v)
      ensures exists p <- after.inflight :: Carries(env, t, p, u, v)
    {
      assert Link(net, u, v);
      var p :| p in net.inflight && Carries(env, t, p, u, v);
    }
  }

  lemma DeliverKeeps(env: Env, t: Target, net: Net, k: nat, tick: Tick)
    requires Deliverable(env, t) && GossipInv(env, t, net) && Reliable(env, t, net, Action.Deliver(k, tick))
    requires net.inflight[k].dst in net.nodes
    ensures var p := net.inflight[k];
            GossipInv(env, t, After(net.(inflight := Without(net.inflight, k)), p.dst, OnMessage(env, tick, net.nodes[p.dst], p.src, p.message).0))
  {
    hide Inv, MembersStored, Deliverable, Prepared, TxSourced, Covered, OnMessage, Replaced, Without, Distinct, After;
    hide Unexpired, Effects, Answers;
    var q := net.inflight[k];
    var st := net.nodes[q.dst];
    var r := OnMessage(env, tick, st, q.src, q.message).0;
    assert Unseen(net, q);
    MessageHandled(env, t, tick, st, q.src, q.message);
    OnMessageKeepsInv(env, tick, st, q.src, q.message);
    InvMembersStored(env, r);
    WithoutKeepsDistinct(net.inflight, k);
    StillHolds(env, t, tick, st, r, q.src);
    DeliveryReplaces(env, t, net, k, r);
    SenderHolds(env, t, net, k, r);
    assert UsedID(net, q.message.messageId);
    NodeStepKeeps(env, t, net, Without(net.inflight, k), q.dst, r, tick, q.src, {q.message.messageId});
  }

  lemma StillHolds(env: Env, t: Target, tick: Tick, st: State, r: State, skip: PeerId)
    requires Effects(env, t, tick, st, r, skip)
    ensures Holds(t, st) ==> Holds(t, r)
  {}

  lemma SenderHolds(env: Env, t: Target, net: Net, k: nat, r: State)
    requires k < |net.inflight| && TxSourced(env, t, net) && net.inflight[k].dst in net.nodes
    requires Answers(env, t, net.nodes[net.inflight[k].dst], net.inflight[k].src, net.inflight[k].message, r)
    ensures Holds(t, r) && !Holds(t, net.nodes[net.inflight[k].dst]) && net.inflight[k].src in net.nodes ==> HeldAt(t, net, net.inflight[k].src)
  {
    hide Carried, NewlySent, Holds, IsInv, IsGet, IsSignedTx;
    assert net.inflight[k] in net.inflight;
  }

  lemma SubmitKeeps(env: Env, t: Target, net: Net, at: PeerId, tick: Tick, u: Transfer)
    requires Deliverable(env, t) && GossipInv(env, t, net) && Reliable(env, t, net, Action.Submit(at, tick, u))
    ensures GossipInv(env, t, After(net, at, AcceptLocal(env, tick, net.nodes[at], u).0))
  {
    hide Inv, MembersStored, Deliverable, Prepared, TxSourced, Covered, AcceptLocal, Distinct, After, Unexpired;
    hide Effects, Sendable, Normalize;
    var st := net.nodes[at];
    var r := AcceptLocal(env, tick, st, u).0;
    SubmissionHandled(env, t, tick, st, u);
    AcceptLocalKeepsInv(env, tick, st, u);
    InvMembersStored(env, r);
    assert Replaced(env, t, net, net.inflight, at, r);
    NodeStepKeeps(env, t, net, net.inflight, at, r, tick, [], {});
  }

  lemma InjectKeeps(env: Env, t: Target, net: Net, p: Packet)
    requires GossipInv(env, t, net) && Reliable(env, t, net, Inject(p))
    ensures GossipInv(env, t, net.(inflight := net.inflight + [p]))
  {
    hide IsInv, IsGet, IsSignedTx, Carried, Holds, Prepared, Inv, MembersStored;
    OnlyTxCarries(env, p.message);
    var after := net.(inflight := net.inflight + [p]);
    forall q | q in after.inflight ensures Unseen(after, q) {
      assert q in net.inflight ==> Unseen(net, q);
      UnusedUnseen(net, p.message.messageId, p.dst);
    }
    forall u, v | Link(after, u, v) && HeldAt(t, after, u) && !HeldAt(t, after, v)
      ensures exists q <- after.inflight :: Carries(env, t, q, u, v)
    {
      assert Link(net, u, v);
      var q :| q in net.inflight && Carries(env, t, q, u, v);
      assert q in after.inflight;
    }
  }

  lemma OnlyTxCarries(env: Env, m: Message)
    ensures m.typ != TX ==> Carried(env, m) == {}
  {}

  lemma ActKeepsGossip(env: Env, t: Target, net: Net, a: Action)
    requires Deliverable(env, t) && GossipInv(env, t, net) && Reliable(env, t, net, a)
    ensures ValidNodes(env, net.nodes) && Enabled(net, a) && GossipInv(env, t, Act(env, net, a))
  {
    hide Inv, MembersStored, Deliverable, Prepared, TxSourced, Covered, OnMessage, AcceptLocal, After, FreshIDs;
    hide GoodTick, Sendable, Without, UsedID;
    match a {
      case Deliver(k, tick) =>
        if net.inflight[k].dst in net.nodes {
          DeliverKeeps(env, t, net, k, tick);
        } else {
          LossFromNowhere(env, t, net, k);
        }
      case Submit(at, tick, u) => SubmitKeeps(env, t, net, at, tick, u);
      case Inject(p) => InjectKeeps(env, t, net, p);
      case Lose(_) =>
    }
  }

  // ---------------------------------------------------------------------------------------
  // Whole runs

  ghost predicate ReliableRun(env: Env, t: Target, net: Net, actions: seq<Action>)
    requires ValidNodes(env, net.nodes) && Runnable(env, net, actions)
    decreases |actions|
  {
    actions == [] ||
    (Reliable(env, t, net, actions[0]) &&
     (ActKeepsValid(env, net, actions[0]); ReliableRun(env, t, Act(env, net, actions[0]), actions[1..])))
  }

  /** At every moment of a reliable run, in any delivery order, every link from a holder of the target
      to a node without it has an INV or the transfer in flight one way, or a GET the other way. */
  lemma {:induction false} LinksCovered(env: Env, t: Target, net: Net, actions: seq<Action>)
    requires Deliverable(env, t) && GossipInv(env, t, net) && Runnable(env, net, actions) && ReliableRun(env, t, net, actions)
    ensures GossipInv(env, t, RunNet(env, net, actions))
    ensures forall u, v :: Link(RunNet(env, net, actions), u, v) <==> Link(net, u, v)
    decreases |actions|
  {
    hide ValidNodes, Deliverable, Prepared, TxSourced, Covered, FreshIDs, Act, Enabled, Reliable;
    if actions != [] {
      ActKeepsGossip(env, t, net, actions[0]);
      ActKeepsLinks(env, net, actions[0]);
      ActKeepsValid(env, net, actions[0]);
      LinksCovered(env, t, Act(env, net, actions[0]), actions[1..]);
    }
  }

  lemma ActKeepsLinks(env: Env, net: Net, a: Action)
    requires ValidNodes(env, net.nodes) && Enabled(net, a)
    ensures forall u, v :: Link(Act(env, net, a), u, v) <==> Link(net, u, v)
  {
    hide Inv, MembersStored, OnMessage, AcceptLocal, RecordsKept;
    match a {
      case Deliver(k, tick) =>
        var p := net.inflight[k];
        if p.dst in net.nodes {
          OnMessageProgress(env, p.dst, tick, net.nodes[p.dst], p.src, p.message);
        }
      case Submit(at, tick, t) => SubmitProgress(env, at, tick, net.nodes[at], t);
      case Lose(_) =>
      case Inject(_) =>
    }
  }

  /** Prepared nodes, none of which holds the target, with nothing in flight. */
  ghost predicate Untouched(env: Env, t: Target, net: Net) {
    && ValidNodes(env, net.nodes) && [] !in net.nodes && net.inflight == []
    && forall v <- net.nodes :: Prepared(env, t, net.nodes[v]) && !Holds(t, net.nodes[v])
  }

  ghost predicate Walk(net: Net, path: seq<PeerId>) {
    path != [] && forall i | 0 <= i < |path| - 1 :: Link(net, path[i], path[i + 1])
  }

  /** With nothing in flight, holding the target spreads along every walk. */
  lemma {:induction false} WalkHolds(env: Env, t: Target, net: Net, path: seq<PeerId>, n: nat)
    requires Covered(env, t, net) && net.inflight == [] && Walk(net, path) && HeldAt(t, net, path[0]) && n < |path|
    ensures HeldAt(t, net, path[n])
    decreases n
  {
    if n > 0 {
      WalkHolds(env, t, net, path, n - 1);
      assert Link(net, path[n - 1], path[n]);
      assert forall p: Packet :: p !in net.inflight;
    }
  }

  /** Asynchronous quiescence: a reliable run from an untouched network, however its messages were
      ordered, that has nothing left in flight has brought the target to every node that can be
      reached from a holder along peer links. Links need not be symmetric. */
  lemma QuietNetworkHasSpread(env: Env, t: Target, net: Net, actions: seq<Action>, path: seq<PeerId>)
    requires Deliverable(env, t) && Untouched(env, t, net) && Runnable(env, net, actions) && ReliableRun(env, t, net, actions)
    requires RunNet(env, net, actions).inflight == []
    requires Walk(net, path) && HeldAt(t, RunNet(env, net, actions), path[0])
    ensures forall v <- path :: HeldAt(t, RunNet(env, net, actions), v)
  {
    hide ValidNodes, Deliverable, Prepared, Runnable, ReliableRun, RunNet, Carried, Carries, Holds, Covered, Link;
    UntouchedStarts(env, t, net);
    LinksCovered(env, t, net, actions);
    var end := RunNet(env, net, actions);
    forall v | v in path ensures HeldAt(t, end, v) {
      var n :| 0 <= n < |path| && path[n] == v;
      WalkHolds(env, t, end, path, n);
    }
  }

  lemma UntouchedStarts(env: Env, t: Target, net: Net)
    requires Untouched(env, t, net)
    ensures GossipInv(env, t, net)
  {
    hide ValidNodes, Prepared, Carried, Carries;
  }
}
