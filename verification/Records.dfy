/** Where everything that a node holds came from: each entry of its stores, traced to the event of the
    run that made it. */
module Records {
  import opened Bytes
  import opened Crypto
  import opened Protocol
  import opened Replay
  import opened Selection
  import opened NodeState
  import opened Coherence
  import opened Invariants
  import opened Runs
  import opened Promises
  import opened Histories
  import opened Relay

  // ---------------------------------------------------------------------------------------
  // Peers

  lemma PeersKept(env: Env, st: State, e: Event)
    requires Inv(env, st) && MembersStored(st) && !e.Connect?
    ensures Apply(env, st, e).peers == st.peers
  {
    hide Inv, MembersStored, OnMessage, AcceptLocal, Quiet, Grew, Submittable, Invs, PeersExcept;
    match e {
      case Deliver(tick, from, m) => DeliveryKeepsPeers(env, tick, st, from, m);
      case Submit(tick, t) => var n := AcceptLocalSends(env, tick, st, t);
      case Seed(v) => SeedSteps(env, st, v);
    }
  }

  lemma DeliveryKeepsPeers(env: Env, tick: Tick, st: State, from: PeerId, m: Message)
    requires Inv(env, st) && MembersStored(st)
    ensures OnMessage(env, tick, st, from, m).0.peers == st.peers
  {
    hide Inv, MembersStored, Handle, Pruned;
    if m.messageId !in Pruned(st.seen, tick.now) {
      MarkKeepsInv(env, tick, st, m.messageId);
      var marked := Mark(tick, st, m.messageId);
      InvMembersStored(env, marked);
      HandlingKeepsPeers(env, tick, marked, from, m);
    }
  }

  lemma HandlingKeepsPeers(env: Env, tick: Tick, st: State, from: PeerId, m: Message)
    requires Inv(env, st) && MembersStored(st)
    ensures Handle(env, tick, st, from, m).0.peers == st.peers
  {
    hide Inv, MembersStored, HandleInv, HandleGet, HandleProofRequest, HandleTx, HandleProofResponse, Quiet, SameCore, NewAndValid;
    hide Announced, TransferOutcome, SendsOutcome, DecodedTransfer, Validate;
    QueriesSend(tick, st, from, m);
    if m.typ == TX {
      var n := HandleTxSends(env, tick, st, from, m);
    } else if m.typ == PROOF_RESP {
      ProofResponseSends(env, tick, st, from, m);
    }
  }

  lemma MarkKeepsInv(env: Env, tick: Tick, st: State, id: MessageId)
    requires Inv(env, st)
    ensures Inv(env, Mark(tick, st, id))
  {
    hide Inv, Pruned;
    SameCoreKeepsInv(env, st, Mark(tick, st, id));
  }

  /** The peers of a node are those it was connected to, and a peer has a node object attached iff one
      of the connections attached it: naming it again by its ID does not detach it. */
  lemma {:induction false} PeersAreConnections(env: Env, events: seq<Event>, p: PeerId)
    ensures var peers := Run(env, events).peers;
            && (p in peers <==> exists n: nat | n < |events| :: events[n].Connect? && events[n].peer == p)
            && (p in peers && peers[p] <==> exists n: nat | n < |events| :: events[n] == Connect(p, true))
  {
    hide Inv, MembersStored, Apply;
    if events != [] {
      var k := |events| - 1;
      var init, last := events[..k], events[k];
      PeersAreConnections(env, init, p);
      var st := Run(env, init);
      assert events == init + [last];
      if last.Connect? {
        Connected(env, st, last);
      } else {
        PeersKept(env, st, last);
      }
      forall n: nat | n < k ensures events[n] == init[n] {}
    }
  }

  lemma Connected(env: Env, st: State, e: Event)
    requires e.Connect? && MembersStored(st)
    ensures var r := Apply(env, st, e);
            && r.peers.Keys == st.peers.Keys + {e.peer}
            && r.peers[e.peer] == (e.attached || (e.peer in st.peers && st.peers[e.peer]))
            && forall p <- st.peers | p != e.peer :: r.peers[p] == st.peers[p]
  {
    hide OnMessage, AcceptLocal, SeedValue, MembersStored, AddPeer, AddPeerID;
    PeerAdded(st, e.peer);
  }

  lemma PeerAdded(st: State, p: PeerId)
    ensures AddPeer(st, p).peers == st.peers[p := true]
    ensures AddPeerID(st, p).peers == if p in st.peers then st.peers else st.peers[p := false]
  {}

  // ---------------------------------------------------------------------------------------
  // Values and transfers

  /** The known values are the seeded ones and the outputs of the stored transfers. */
  lemma {:induction false} ValuesExact(env: Env, events: seq<Event>, v: Hash)
    ensures var st := Run(env, events);
            v in st.valueStore <==> v in Seeds(env, events) || exists y :: y in st.txStore && OutputOf(st, y, v)
  {
    hide Inv, MembersStored, Apply, Run, Seeds, OutputOf;
    RunSourced(env, events);
    ValuesStay(env, events, v);
  }

  lemma {:induction false} ValuesStay(env: Env, events: seq<Event>, v: Hash)
    ensures var st := Run(env, events);
            v in Seeds(env, events) || (exists y :: y in st.txStore && OutputOf(st, y, v)) ==> v in st.valueStore
  {
    hide Inv, MembersStored, Apply, ComputeValueID, Quiet, Grew, SeedValue;
    if events != [] {
      var init, last := events[..|events| - 1], events[|events| - 1];
      assert events == init + [last];
      ValuesStay(env, init, v);
      var st, r := Run(env, init), Run(env, events);
      if last.Seed? {
        SeedApplied(env, st, last);
        SeedSteps(env, st, last.value);
        SeededBy(env, init, last);
        if y :| y in r.txStore && OutputOf(r, y, v) {
          assert OutputOf(st, y, v);
        }
      } else {
        assert Seeds(env, events) == Seeds(env, init);
        var tx := ApplySteps(env, st, last);
        if y :| y in r.txStore && OutputOf(r, y, v) {
          OutputsStay(TimeOf(last), st, r, tx, y, v);
        }
        ValuesGrow(TimeOf(last), st, r, tx);
      }
    }
  }

  lemma ValuesGrow(now: Int64, st: State, r: State, tx: Transfer)
    requires Quiet(st, r) || Grew(now, st, r, tx)
    ensures st.valueStore.Keys <= r.valueStore.Keys
  {
    hide MemberAdded, RecordsKept;
    StoreOutputsKeeps(st.valueStore, tx.outputs);
  }

  lemma OutputsStay(now: Int64, st: State, r: State, tx: Transfer, y: Hash, v: Hash)
    requires (Quiet(st, r) || Grew(now, st, r, tx)) && y in r.txStore && OutputOf(r, y, v)
    ensures v in r.valueStore || (y in st.txStore && OutputOf(st, y, v))
  {
    hide MemberAdded, StoreOutputs;
  }

  /** The n-th event stored `x`. */
  ghost predicate StoredAt(env: Env, events: seq<Event>, n: nat, x: Hash)
    requires n < |events|
  {
    x !in Run(env, events[..n]).txStore && x in Run(env, events[..n + 1]).txStore
  }

  /** A record says when it was made: its first-seen time is the clock of the event that stored it, and
      its arrival number is one more than the number of transfers stored then. */
  lemma {:induction false} StoredWhen(env: Env, events: seq<Event>, x: Hash) returns (n: nat)
    requires x in Run(env, events).txStore
    ensures n < |events| && StoredAt(env, events, n, x) && Timed(events[n])
    ensures var r := Run(env, events).txStore[x];
            r.firstSeen == TimeOf(events[n]) && r.arrivalSeq == |Run(env, events[..n]).txStore| + 1
  {
    hide Inv, MembersStored, Apply, Quiet, Grew;
    var k := |events| - 1;
    var init, last := events[..k], events[k];
    var st := Run(env, init);
    assert events[..k + 1] == events;
    if last.Seed? {
      UntimedKeepsRecords(env, st, last);
    } else {
      var tx := ApplySteps(env, st, last);
      StepRecords(TimeOf(last), st, Run(env, events), tx, x);
      CountedArrivals(env, st);
    }
    if x in st.txStore {
      n := StoredWhen(env, init, x);
      assert init[..n] == events[..n] && init[..n + 1] == events[..n + 1];
    } else {
      n := k;
      if !Timed(last) {
        UntimedKeepsRecords(env, st, last);
      }
    }
  }

  lemma CountedArrivals(env: Env, st: State)
    requires Inv(env, st)
    ensures st.arrivalSeq == |st.txStore|
  {}

  lemma StepRecords(now: Int64, st: State, r: State, tx: Transfer, x: Hash)
    requires (Quiet(st, r) || Grew(now, st, r, tx)) && x in r.txStore
    ensures x in st.txStore ==> r.txStore[x].firstSeen == st.txStore[x].firstSeen && r.txStore[x].arrivalSeq == st.txStore[x].arrivalSeq
    ensures x !in st.txStore ==> r.txStore[x].firstSeen == now && r.txStore[x].arrivalSeq == st.arrivalSeq + 1
  {
    hide MemberAdded, StoreOutputs;
  }

  // ---------------------------------------------------------------------------------------
  // Evidence

  /** The event is a message of the given type from `p` that gets to its handler. */
  predicate Handles(st: State, e: Event, typ: nat, p: PeerId) {
    e.Deliver? && e.from == p && e.message.typ == typ && e.message.messageId !in Pruned(st.seen, e.tick.now)
  }

  /** The event shows the node a valid copy of `x`, from a named peer: a TX (type 2). */
  predicate Shows(env: Env, st: State, e: Event, p: PeerId, x: Hash) {
    && p != [] && Handles(st, e, 2, p)
    && DecodedTransfer(env, e.message.payload).Ok?
    && var d := DecodedTransfer(env, e.message.payload).value;
       env.hash(d.1) == x && Validate(env, e.tick.now, st.valueStore, d.0) == Nil
  }

  /** The event tells the node what `p` attests about `x`: a PROOF_RESP (type 4). */
  predicate Attested(st: State, e: Event, p: PeerId, x: Hash) {
    Handles(st, e, 4, p) && DecodeProofPayload(e.message.payload).Ok? && DecodeProofPayload(e.message.payload).value.target == x
  }

  function RecordOf(e: Event): ProofRecord
    requires e.Deliver? && DecodeProofPayload(e.message.payload).Ok?
  {
    var p := DecodeProofPayload(e.message.payload).value;
    ProofRecord(e.from, p.seen, p.seenTime, p.conflict, p.distance)
  }

  /** What one event does to the evidence: the observations get at most the one shown, at the clock of
      the event, and the proofs at most the one attested. */
  lemma ApplyEvidence(env: Env, st: State, e: Event, x: Hash)
    requires Inv(env, st) && MembersStored(st)
    ensures var r := Apply(env, st, e);
            && PeersOf(r, x) == (if e.Deliver? && Shows(env, st, e, e.from, x) then PeersOf(st, x)[e.from := e.tick.now] else PeersOf(st, x))
            && ProofsOf(r, x) == (if e.Deliver? && Attested(st, e, e.from, x) then ProofsOf(st, x)[e.from := RecordOf(e)] else ProofsOf(st, x))
  {
    hide Inv, MembersStored, OnMessage, AcceptLocal, Shows, Attested, SeedValue, AddPeer, AddPeerID, RecordOf;
    match e {
      case Deliver(tick, from, m) => DeliverEvidence(env, st, e, x);
      case Submit(tick, t) => SubmitEvidence(env, tick, st, t, x);
      case Seed(v) => SeedSteps(env, st, v);
      case Connect(p, _) => ConnectEvidence(st, p, x);
    }
  }

  lemma ConnectEvidence(st: State, p: PeerId, x: Hash)
    ensures PeersOf(AddPeer(st, p), x) == PeersOf(AddPeerID(st, p), x) == PeersOf(st, x)
    ensures ProofsOf(AddPeer(st, p), x) == ProofsOf(AddPeerID(st, p), x) == ProofsOf(st, x)
  {}

  /** Storing a valid transfer, with the evidence it leaves. */
  lemma StoreEvidence(env: Env, now: Int64, st: State, tx: Transfer, canonical: Bytes, from: PeerId, x: Hash)
    requires MembersStored(st) && tx == Normalize(env.hash, tx)
    ensures var r := Store(env, now, st, tx, canonical, from).0;
            && PeersOf(r, x) == (if from != [] && x == tx.id then PeersOf(st, x)[from := now] else PeersOf(st, x))
            && ProofsOf(r, x) == ProofsOf(st, x)
  {
    hide Normalize, RecomputeTransfer, Insert, ObservePeer, MembersStored, PeersOf, ProofsOf;
    UpsertKeepsMembersStored(env, now, st, tx, canonical, from);
    var stored := Upsert(env, now, st, tx, canonical, from).0;
    SameEvidenceAfter(stored, RecomputeTransfer(env, now, stored, tx.id), x);
    if tx.id in st.txStore {
      ObservedEvidence(now, st, tx.id, from, x);
    } else {
      InsertedEvidence(now, st, tx, canonical, from, x);
    }
  }

  lemma SameEvidenceAfter(st: State, r: State, x: Hash)
    requires r.observations == st.observations && r.proofs == st.proofs
    ensures PeersOf(r, x) == PeersOf(st, x) && ProofsOf(r, x) == ProofsOf(st, x)
  {}

  lemma InsertedEvidence(now: Int64, st: State, tx: Transfer, canonical: Bytes, from: PeerId, x: Hash)
    requires tx.id !in st.txStore
    ensures var r := Insert(now, st, tx, canonical, from);
            && PeersOf(r, x) == (if from != [] && x == tx.id then PeersOf(st, x)[from := now] else PeersOf(st, x))
            && ProofsOf(r, x) == ProofsOf(st, x)
  {
    hide Insert, RecordAdded, NewRecord, StoreOutputs, AddMembership;
    InsertForm(now, st, tx, canonical, from);
    var r := Insert(now, st, tx, canonical, from);
    assert r.proofs == st.proofs;
    ObservationAdded(st, r, tx.id, from, now, x);
  }

  lemma ObservationAdded(st: State, r: State, y: Hash, from: PeerId, now: Int64, x: Hash)
    requires r.observations == (if from == [] then st.observations else st.observations[y := PeersOf(st, y)[from := now]])
    ensures PeersOf(r, x) == (if from != [] && x == y then PeersOf(st, x)[from := now] else PeersOf(st, x))
  {
  }

  lemma ObservedEvidence(now: Int64, st: State, y: Hash, from: PeerId, x: Hash)
    ensures var r := ObservePeer(now, st, y, from);
            && PeersOf(r, x) == (if from != [] && x == y then PeersOf(st, x)[from := now] else PeersOf(st, x))
            && ProofsOf(r, x) == ProofsOf(st, x)
  {
    hide ObservedInRecord;
  }

  lemma SubmitEvidence(env: Env, tick: Tick, st: State, t: Transfer, x: Hash)
    requires Inv(env, st) && MembersStored(st)
    ensures var r := AcceptLocal(env, tick, st, t).0; PeersOf(r, x) == PeersOf(st, x) && ProofsOf(r, x) == ProofsOf(st, x)
  {
    hide Inv, Normalize, Validate, Store, Announce, EncodeTransfer, MembersStored, Consumable;
    var tx := Normalize(env.hash, t);
    EncodingIgnoresIDs(env.hash, t);
    if Validate(env, tick.now, st.valueStore, tx) == Nil && Consumable(st.consumed, tx.inputs) {
      var consumed := st.(consumed := st.consumed + Elements(tx.inputs));
      SameMembersStored(st, consumed);
      StoreEvidence(env, tick.now, consumed, tx, EncodeTransfer(tx), [], x);
      var (next, y, _) := Store(env, tick.now, consumed, tx, EncodeTransfer(tx), []);
      AnnounceSends(tick, next, PeersExcept(next, []), LOCAL_TTL, y);
    }
  }

  lemma DeliverEvidence(env: Env, st: State, e: Event, x: Hash)
    requires Inv(env, st) && MembersStored(st) && e.Deliver?
    ensures var r := OnMessage(env, e.tick, st, e.from, e.message).0;
            && PeersOf(r, x) == (if Shows(env, st, e, e.from, x) then PeersOf(st, x)[e.from := e.tick.now] else PeersOf(st, x))
            && ProofsOf(r, x) == (if Attested(st, e, e.from, x) then ProofsOf(st, x)[e.from := RecordOf(e)] else ProofsOf(st, x))
  {
    hide Inv, MembersStored, Handle, Pruned, Mark, DecodedTransfer, Validate, DecodeProofPayload, PeersOf, ProofsOf;
    var m, tick := e.message, e.tick;
    var r := OnMessage(env, tick, st, e.from, m).0;
    if m.messageId in Pruned(st.seen, tick.now) {
      SameEvidenceAfter(st, r, x);
    } else {
      MarkedEvidence(tick, st, m.messageId, x);
      HandledEvidence(env, tick, Mark(tick, st, m.messageId), e.from, m, x);
    }
  }

  lemma MarkedEvidence(tick: Tick, st: State, id: MessageId, x: Hash)
    requires MembersStored(st)
    ensures var marked := Mark(tick, st, id);
            && MembersStored(marked) && marked.valueStore == st.valueStore
            && PeersOf(marked, x) == PeersOf(st, x) && ProofsOf(marked, x) == ProofsOf(st, x)
  {
    hide MembersStored, Pruned;
    SameMembersStored(st, Mark(tick, st, id));
  }

  lemma HandledEvidence(env: Env, tick: Tick, st: State, from: PeerId, m: Message, x: Hash)
    requires MembersStored(st)
    ensures var r, d, q := Handle(env, tick, st, from, m).0, DecodedTransfer(env, m.payload), DecodeProofPayload(m.payload);
            && PeersOf(r, x) ==
               (if m.typ == 2 && from != [] && d.Ok? && env.hash(d.value.1) == x && Validate(env, tick.now, st.valueStore, d.value.0) == Nil
                then PeersOf(st, x)[from := tick.now] else PeersOf(st, x))
            && ProofsOf(r, x) ==
               (if m.typ == 4 && q.Ok? && q.value.target == x
                then ProofsOf(st, x)[from := ProofRecord(from, q.value.seen, q.value.seenTime, q.value.conflict, q.value.distance)]
                else ProofsOf(st, x))
  {
    hide MembersStored, HandleInv, HandleGet, HandleProofRequest, HandleTx, HandleProofResponse, SameCore, DecodedTransfer;
    hide Validate, DecodeProofPayload, PeersOf, ProofsOf;
    if m.typ == TX {
      TransferEvidence(env, tick, st, from, m, x);
    } else if m.typ == PROOF_RESP {
      ProofEvidence(env, tick, st, from, m, x);
    } else {
      QueriesSend(tick, st, from, m);
      SameEvidenceAfter(st, Handle(env, tick, st, from, m).0, x);
    }
  }

  lemma TransferEvidence(env: Env, tick: Tick, st: State, from: PeerId, m: Message, x: Hash)
    requires MembersStored(st)
    ensures var r, d := HandleTx(env, tick, st, from, m).0, DecodedTransfer(env, m.payload);
            && PeersOf(r, x) ==
               (if from != [] && d.Ok? && env.hash(d.value.1) == x && Validate(env, tick.now, st.valueStore, d.value.0) == Nil
                then PeersOf(st, x)[from := tick.now] else PeersOf(st, x))
            && ProofsOf(r, x) == ProofsOf(st, x)
  {
    hide Validate, Store, Announce, DecodedTransfer, MembersStored, Normalize, EncodeTransfer;
    var d := DecodedTransfer(env, m.payload);
    if d.Ok? && Validate(env, tick.now, st.valueStore, d.value.0) == Nil {
      DecodedTransferFacts(env, m.payload);
      StoreEvidence(env, tick.now, st, d.value.0, d.value.1, from, x);
      var (next, y, _) := Store(env, tick.now, st, d.value.0, d.value.1, from);
      AnnounceSends(tick, next, PeersExcept(next, from), m.ttl, y);
    }
  }

  lemma ProofEvidence(env: Env, tick: Tick, st: State, from: PeerId, m: Message, x: Hash)
    requires MembersStored(st)
    ensures var r, d := HandleProofResponse(env, tick, st, from, m).0, DecodeProofPayload(m.payload);
            && PeersOf(r, x) == PeersOf(st, x)
            && ProofsOf(r, x) ==
               (if d.Ok? && d.value.target == x
                then ProofsOf(st, x)[from := ProofRecord(from, d.value.seen, d.value.seenTime, d.value.conflict, d.value.distance)]
                else ProofsOf(st, x))
  {
    hide MembersStored, DecodeProofPayload, RecomputeTransfer;
  }

  ghost predicate ShownAt(env: Env, events: seq<Event>, n: nat, p: PeerId, x: Hash)
    requires n < |events|
  {
    Shows(env, Run(env, events[..n]), events[n], p, x)
  }

  ghost predicate AttestedAt(env: Env, events: seq<Event>, n: nat, p: PeerId, x: Hash)
    requires n < |events|
  {
    Attested(Run(env, events[..n]), events[n], p, x)
  }

  /** Of the first `k` events, the n-th is the last to show `x` from `p`. */
  ghost predicate LastShown(env: Env, events: seq<Event>, k: nat, n: nat, p: PeerId, x: Hash)
    requires k <= |events|
  {
    n < k && ShownAt(env, events, n, p, x) && forall j: nat | n < j < k :: !ShownAt(env, events, j, p, x)
  }

  ghost predicate LastAttested(env: Env, events: seq<Event>, k: nat, n: nat, p: PeerId, x: Hash)
    requires k <= |events|
  {
    n < k && AttestedAt(env, events, n, p, x) && forall j: nat | n < j < k :: !AttestedAt(env, events, j, p, x)
  }

  lemma OneMoreEvent(env: Env, events: seq<Event>, k: nat, n: nat, p: PeerId, x: Hash)
    requires k < |events|
    ensures LastShown(env, events, k + 1, n, p, x) <==> if ShownAt(env, events, k, p, x) then n == k else LastShown(env, events, k, n, p, x)
    ensures LastAttested(env, events, k + 1, n, p, x) <==> if AttestedAt(env, events, k, p, x) then n == k else LastAttested(env, events, k, n, p, x)
  {
    hide ShownAt, AttestedAt;
  }

  lemma FromSender(env: Env, st: State, e: Event, p: PeerId, x: Hash)
    ensures Shows(env, st, e, p, x) ==> e.Deliver? && e.from == p
    ensures Attested(st, e, p, x) ==> e.Deliver? && e.from == p && DecodeProofPayload(e.message.payload).Ok?
  {
    hide DecodedTransfer, Validate, DecodeProofPayload;
  }

  /** Who has shown a transfer and when: `p` is recorded with a time iff the last valid copy that it
      sent was handled at that time. */
  lemma {:induction false} ObservationsExact(env: Env, events: seq<Event>, k: nat, p: PeerId, x: Hash, t: Int64)
    requires k <= |events|
    ensures var peers := PeersOf(Run(env, events[..k]), x);
            p in peers && peers[p] == t <==> exists n: nat :: LastShown(env, events, k, n, p, x) && TimeOf(events[n]) == t
    decreases k
  {
    hide Inv, MembersStored, Apply, Shows, Attested, RecordOf, LastShown, LastAttested;
    if k == 0 {
      NoneLast(env, events, p, x);
    } else {
      var st, last := Run(env, events[..k - 1]), events[k - 1];
      assert events[..k] == events[..k - 1] + [last];
      ObservationsExact(env, events, k - 1, p, x, t);
      ApplyEvidence(env, st, last, x);
      FromSender(env, st, last, p, x);
      forall n: nat ensures LastShown(env, events, k, n, p, x) <==>
          if ShownAt(env, events, k - 1, p, x) then n == k - 1 else LastShown(env, events, k - 1, n, p, x) {
        OneMoreEvent(env, events, k - 1, n, p, x);
      }
    }
  }

  lemma NoneLast(env: Env, events: seq<Event>, p: PeerId, x: Hash)
    ensures forall n: nat :: !LastShown(env, events, 0, n, p, x) && !LastAttested(env, events, 0, n, p, x)
    ensures Run(env, events[..0]) == NEW_NODE
  {}

  /** Which proof counts: the one kept for `p` is the last that it sent, field by field. */
  lemma {:induction false} ProofsExact(env: Env, events: seq<Event>, k: nat, p: PeerId, x: Hash, a: ProofPayload)
    requires k <= |events| && a.target == x
    ensures var proofs := ProofsOf(Run(env, events[..k]), x);
            p in proofs && proofs[p] == ProofRecord(p, a.seen, a.seenTime, a.conflict, a.distance) <==>
            exists n: nat :: LastAttested(env, events, k, n, p, x) && AttestsTo(events[n], a)
    decreases k
  {
    hide Inv, MembersStored, Apply, Shows, Attested, LastShown, LastAttested, DecodeProofPayload, AttestsTo;
    if k == 0 {
      NoneLast(env, events, p, x);
    } else {
      var st, last := Run(env, events[..k - 1]), events[k - 1];
      assert events[..k] == events[..k - 1] + [last];
      ProofsExact(env, events, k - 1, p, x, a);
      ApplyEvidence(env, st, last, x);
      FromSender(env, st, last, p, x);
      forall n: nat ensures LastAttested(env, events, k, n, p, x) <==>
          if AttestedAt(env, events, k - 1, p, x) then n == k - 1 else LastAttested(env, events, k - 1, n, p, x) {
        OneMoreEvent(env, events, k - 1, n, p, x);
      }
      if Attested(st, last, p, x) {
        AttestedRecord(st, last, p, x, a);
      }
    }
  }

  /** The message carries this payload. */
  predicate AttestsTo(e: Event, a: ProofPayload) {
    e.Deliver? && DecodeProofPayload(e.message.payload) == Ok(a)
  }

  lemma AttestedRecord(st: State, e: Event, p: PeerId, x: Hash, a: ProofPayload)
    requires Attested(st, e, p, x) && a.target == x
    ensures RecordOf(e) == ProofRecord(p, a.seen, a.seenTime, a.conflict, a.distance) <==> AttestsTo(e, a)
  {
    hide DecodeProofPayload;
  }

  // ---------------------------------------------------------------------------------------
  // Decisions

  /** The transfer whose inputs an event decides anew: one shown validly, attested or submitted. */
  function Concern(env: Env, st: State, e: Event): set<Hash> {
    if e.Deliver? && Handles(st, e, 2, e.from) then ShownBy(env, e.tick, st, e.message)
    else if e.Deliver? && Handles(st, e, 4, e.from) then
      if DecodeProofPayload(e.message.payload).Ok? then {DecodeProofPayload(e.message.payload).value.target} else {}
    else if e.Submit? then SubmittedBy(env, e.tick, st, e.tx)
    else {}
  }

  function ShownBy(env: Env, tick: Tick, st: State, m: Message): set<Hash> {
    var d := DecodedTransfer(env, m.payload);
    if d.Ok? && Validate(env, tick.now, st.valueStore, d.value.0) == Nil then {env.hash(d.value.1)} else {}
  }

  function SubmittedBy(env: Env, tick: Tick, st: State, t: Transfer): set<Hash> {
    if Validate(env, tick.now, st.valueStore, Normalize(env.hash, t)) == Nil && Consumable(st.consumed, t.inputs)
    then {env.hash(EncodeTransfer(t))} else {}
  }

  /** In `r` a transfer of `xs` is stored that spends `i`. */
  predicate Spends(r: State, xs: set<Hash>, i: Hash) {
    exists x <- xs :: x in r.txStore && i in r.txStore[x].tx.inputs
  }

  /** The lineage of `i` is decided at `now` if `decided`, and as before otherwise. */
  predicate LineageAfter(now: Int64, st: State, r: State, i: Hash, decided: bool) {
    if decided then i in r.selected && r.selected[i].updatedAt == now
    else (i in r.selected <==> i in st.selected) && (i in st.selected ==> r.selected[i] == st.selected[i])
  }

  lemma RecomputedLineages(env: Env, now: Int64, st: State, x: Hash, i: Hash)
    requires Indexed(st) && MembersStored(st)
    ensures var r := RecomputeTransfer(env, now, st, x); LineageAfter(now, st, r, i, Spends(r, {x}, i))
  {
    hide MembersStored, RecomputeTransfer, FinalityOf, EntryAt;
    var r := RecomputeTransfer(env, now, st, x);
    if x in st.txStore {
      InputsIndexed(st, x);
      var inputs := Elements(st.txStore[x].tx.inputs);
      RecomputeTransferRefreshes(env, now, st, x);
      RefreshedLineages(env, now, st, inputs, r);
      hide Refreshes, Indexed, Touched;
      if i in inputs {
        assert DecidedAs(env, now, st, r, i);
        DecidedTime(env, now, st, i);
      }
    } else {
      RecomputeUnknown(env, now, st, x);
    }
  }

  lemma DecidedTime(env: Env, now: Int64, st: State, i: Hash)
    requires ConflictSet(st, i) != [] && forall x <- ConflictSet(st, i) :: x in st.txStore
    ensures EntryAt(env, now, st, i).updatedAt == now
  {}

  lemma UpsertedIndexed(env: Env, now: Int64, st: State, tx: Transfer, canonical: Bytes, from: PeerId)
    requires Inv(env, st) && tx == Normalize(env.hash, tx) && tx.inputs != [] && NoDuplicates(tx.inputs)
    ensures var stored := Upsert(env, now, st, tx, canonical, from).0;
            Indexed(stored) && MembersStored(stored) && stored.selected == st.selected
  {
    hide Cached, Numbered, Evident, Addressed, Normalize, Insert, ObservePeer, Indexed, MembersStored;
    var stored := Upsert(env, now, st, tx, canonical, from).0;
    if tx.id in st.txStore {
      ObserveReevidences(now, st, tx.id, from);
      ReevidencedIndexed(st, stored, tx.id);
    } else {
      InsertForm(now, st, tx, canonical, from);
      InsertMember(now, st, tx, canonical, from);
      AddedIndexed(st, NewRecord(now, st, tx, canonical, from), stored);
    }
    IndexedMembersStored(stored);
  }

  lemma StoreDecides(env: Env, now: Int64, st: State, tx: Transfer, canonical: Bytes, from: PeerId, i: Hash)
    requires Inv(env, st) && MembersStored(st) && tx == Normalize(env.hash, tx) && Validate(env, now, st.valueStore, tx) == Nil
    ensures var r := Store(env, now, st, tx, canonical, from).0; LineageAfter(now, st, r, i, Spends(r, {tx.id}, i))
  {
    hide Inv, MembersStored, Normalize, Validate, Upsert, RecomputeTransfer, Spends, Indexed;
    ValidatedShape(env, now, st.valueStore, tx);
    UpsertedIndexed(env, now, st, tx, canonical, from);
    UpsertedID(env, now, st, tx, canonical, from);
    RecomputedLineages(env, now, Upsert(env, now, st, tx, canonical, from).0, tx.id, i);
  }

  lemma UpsertedID(env: Env, now: Int64, st: State, tx: Transfer, canonical: Bytes, from: PeerId)
    requires tx == Normalize(env.hash, tx)
    ensures Upsert(env, now, st, tx, canonical, from).1 == tx.id
  {
    hide Normalize, Insert, ObservePeer;
  }

  lemma SameLineage(now: Int64, st: State, mid: State, next: State, r: State, i: Hash, decided: bool)
    requires mid.selected == st.selected && r.selected == next.selected && LineageAfter(now, mid, next, i, decided)
    ensures LineageAfter(now, st, r, i, decided)
  {}

  lemma SameSpends(next: State, r: State, xs: set<Hash>, i: Hash)
    requires r.txStore == next.txStore
    ensures Spends(r, xs, i) == Spends(next, xs, i)
  {}

  /** An event decides anew exactly the inputs of the transfer it is about, at its own clock; every
      other lineage stays as it is. */
  lemma ApplyDecides(env: Env, st: State, e: Event, i: Hash)
    requires Inv(env, st) && MembersStored(st)
    ensures var r := Apply(env, st, e); LineageAfter(TimeOf(e), st, r, i, Spends(r, Concern(env, st, e), i))
  {
    hide Inv, MembersStored, OnMessage, AcceptLocal, SeedValue, AddPeer, AddPeerID, Spends, ShownBy, SubmittedBy, DecodeProofPayload;
    match e {
      case Deliver(tick, from, m) => DeliverDecides(env, st, e, i);
      case Submit(tick, t) => SubmitDecides(env, tick, st, t, i);
      case Seed(v) =>
        SeedSteps(env, st, v);
        SpendsNothing(Apply(env, st, e), i);
      case Connect(p, _) =>
        ConnectSameCore(st, p);
        SpendsNothing(Apply(env, st, e), i);
    }
  }

  lemma SpendsNothing(r: State, i: Hash)
    ensures !Spends(r, {}, i)
  {}

  lemma SubmitDecides(env: Env, tick: Tick, st: State, t: Transfer, i: Hash)
    requires Inv(env, st) && MembersStored(st)
    ensures var r := AcceptLocal(env, tick, st, t).0; LineageAfter(tick.now, st, r, i, Spends(r, SubmittedBy(env, tick, st, t), i))
  {
    hide Inv, MembersStored, Normalize, Validate, Store, Announce, EncodeTransfer, Consumable, Spends, LineageAfter;
    var r, tx := AcceptLocal(env, tick, st, t).0, Normalize(env.hash, t);
    EncodingIgnoresIDs(env.hash, t);
    NormalizeKeepsSignature(env.hash, t);
    if Validate(env, tick.now, st.valueStore, tx) == Nil && Consumable(st.consumed, tx.inputs) {
      var consumed := st.(consumed := st.consumed + Elements(tx.inputs));
      SameCoreKeepsInv(env, st, consumed);
      InvMembersStored(env, consumed);
      StoreDecides(env, tick.now, consumed, tx, EncodeTransfer(tx), [], i);
      var (next, x, _) := Store(env, tick.now, consumed, tx, EncodeTransfer(tx), []);
      AnnounceSends(tick, next, PeersExcept(next, []), LOCAL_TTL, x);
      SameSpends(next, r, {tx.id}, i);
      SameLineage(tick.now, st, consumed, next, r, i, Spends(next, {tx.id}, i));
    } else {
      SpendsNothing(r, i);
      Untouched(tick.now, st, r, i);
    }
  }

  lemma Untouched(now: Int64, st: State, r: State, i: Hash)
    requires r.selected == st.selected
    ensures LineageAfter(now, st, r, i, false)
  {}

  lemma DeliverDecides(env: Env, st: State, e: Event, i: Hash)
    requires Inv(env, st) && MembersStored(st) && e.Deliver?
    ensures var r := OnMessage(env, e.tick, st, e.from, e.message).0;
            LineageAfter(e.tick.now, st, r, i, Spends(r, Concern(env, st, e), i))
  {
    hide Inv, MembersStored, Handle, Pruned, Mark, Spends, LineageAfter, ShownBy, DecodeProofPayload;
    var m, tick := e.message, e.tick;
    var r := OnMessage(env, tick, st, e.from, m).0;
    if m.messageId in Pruned(st.seen, tick.now) {
      SpendsNothing(r, i);
      Untouched(tick.now, st, r, i);
    } else {
      var marked := Mark(tick, st, m.messageId);
      MarkKeepsInv(env, tick, st, m.messageId);
      InvMembersStored(env, marked);
      MarkedLineages(tick, st, m.messageId);
      HandlingDecides(env, tick, marked, e.from, m, i);
      SameShown(env, tick, st, marked, m);
      SameLineage(tick.now, st, marked, r, r, i, Spends(r, Concern(env, st, e), i));
    }
  }

  lemma MarkedLineages(tick: Tick, st: State, id: MessageId)
    ensures Mark(tick, st, id).selected == st.selected && Mark(tick, st, id).valueStore == st.valueStore
  {}

  lemma HandlingDecides(env: Env, tick: Tick, st: State, from: PeerId, m: Message, i: Hash)
    requires Inv(env, st) && MembersStored(st)
    ensures var r, d := Handle(env, tick, st, from, m).0, DecodeProofPayload(m.payload);
            LineageAfter(tick.now, st, r, i,
              Spends(r, if m.typ == 2 then ShownBy(env, tick, st, m) else if m.typ == 4 && d.Ok? then {d.value.target} else {}, i))
  {
    hide Inv, MembersStored, HandleTx, HandleProofResponse, HandleInv, HandleGet, HandleProofRequest, Spends, LineageAfter;
    hide ShownBy, DecodeProofPayload, SameCore;
    if m.typ == TX {
      TransferDecides(env, tick, st, from, m, i);
    } else if m.typ == PROOF_RESP {
      ProofDecides(env, tick, st, from, m, i);
    } else {
      var r := Handle(env, tick, st, from, m).0;
      QueriesSend(tick, st, from, m);
      SpendsNothing(r, i);
      Untouched(tick.now, st, r, i);
    }
  }

  lemma SameShown(env: Env, tick: Tick, st: State, r: State, m: Message)
    requires r.valueStore == st.valueStore
    ensures ShownBy(env, tick, r, m) == ShownBy(env, tick, st, m)
  {
    hide DecodedTransfer, Validate;
  }

  lemma TransferDecides(env: Env, tick: Tick, st: State, from: PeerId, m: Message, i: Hash)
    requires Inv(env, st) && MembersStored(st)
    ensures var r := HandleTx(env, tick, st, from, m).0; LineageAfter(tick.now, st, r, i, Spends(r, ShownBy(env, tick, st, m), i))
  {
    hide Inv, Validate, Store, Announce, DecodedTransfer, MembersStored, Normalize, EncodeTransfer, Spends, LineageAfter;
    var d, r := DecodedTransfer(env, m.payload), HandleTx(env, tick, st, from, m).0;
    if d.Ok? && Validate(env, tick.now, st.valueStore, d.value.0) == Nil {
      DecodedTransferFacts(env, m.payload);
      StoreDecides(env, tick.now, st, d.value.0, d.value.1, from, i);
      var (next, y, _) := Store(env, tick.now, st, d.value.0, d.value.1, from);
      AnnounceSends(tick, next, PeersExcept(next, from), m.ttl, y);
      SameSpends(next, r, {d.value.0.id}, i);
      SameLineage(tick.now, st, st, next, r, i, Spends(next, {d.value.0.id}, i));
    } else {
      SpendsNothing(r, i);
      Untouched(tick.now, st, r, i);
    }
  }

  lemma ProofDecides(env: Env, tick: Tick, st: State, from: PeerId, m: Message, i: Hash)
    requires Inv(env, st) && MembersStored(st)
    ensures var r, d := HandleProofResponse(env, tick, st, from, m).0, DecodeProofPayload(m.payload);
            LineageAfter(tick.now, st, r, i, Spends(r, if d.Ok? then {d.value.target} else {}, i))
  {
    hide Inv, MembersStored, DecodeProofPayload, RecomputeTransfer, UpdateProof, Spends, LineageAfter, Reevidenced, Indexed;
    var d, r := DecodeProofPayload(m.payload), HandleProofResponse(env, tick, st, from, m).0;
    if d.Ok? {
      var p := d.value;
      var proof := ProofRecord(from, p.seen, p.seenTime, p.conflict, p.distance);
      var after := UpdateProof(st, p.target, proof);
      ProofLeaves(st, p.target, proof);
      ProofReevidences(st, p.target, proof);
      InvDistinct(env, st);
      ReevidencedIndexed(st, after, p.target);
      IndexedMembersStored(after);
      RecomputedLineages(env, tick.now, after, p.target, i);
      SameLineage(tick.now, st, after, r, r, i, Spends(r, {p.target}, i));
    } else {
      SpendsNothing(r, i);
      Untouched(tick.now, st, r, i);
    }
  }

  ghost predicate DecidesAt(env: Env, events: seq<Event>, n: nat, i: Hash)
    requires n < |events|
  {
    var st := Run(env, events[..n]);
    Spends(Apply(env, st, events[n]), Concern(env, st, events[n]), i)
  }

  ghost predicate LastDecided(env: Env, events: seq<Event>, k: nat, n: nat, i: Hash)
    requires k <= |events|
  {
    n < k && DecidesAt(env, events, n, i) && forall j: nat | n < j < k :: !DecidesAt(env, events, j, i)
  }

  lemma NextDecision(env: Env, events: seq<Event>, k: nat, n: nat, i: Hash)
    requires k < |events|
    ensures LastDecided(env, events, k + 1, n, i) <==> if DecidesAt(env, events, k, i) then n == k else LastDecided(env, events, k, n, i)
  {
    hide DecidesAt;
  }

  /** An input has a lineage carrying a time iff the last event about a transfer that spends it was
      handled then. */
  lemma {:induction false} DecisionTimes(env: Env, events: seq<Event>, k: nat, i: Hash, t: Int64)
    requires k <= |events|
    ensures var selected := Run(env, events[..k]).selected;
            i in selected && selected[i].updatedAt == t <==> exists n: nat :: LastDecided(env, events, k, n, i) && TimeOf(events[n]) == t
    decreases k
  {
    hide Inv, MembersStored, Apply, Spends, Concern, LastDecided;
    if k == 0 {
      NothingDecided(env, events, i);
    } else {
      var st, last := Run(env, events[..k - 1]), events[k - 1];
      assert events[..k] == events[..k - 1] + [last];
      DecisionTimes(env, events, k - 1, i, t);
      ApplyDecides(env, st, last, i);
      forall n: nat ensures LastDecided(env, events, k, n, i) <==>
          if DecidesAt(env, events, k - 1, i) then n == k - 1 else LastDecided(env, events, k - 1, n, i) {
        NextDecision(env, events, k - 1, n, i);
      }
    }
  }

  lemma NothingDecided(env: Env, events: seq<Event>, i: Hash)
    ensures (forall n: nat :: !LastDecided(env, events, 0, n, i)) && Run(env, events[..0]) == NEW_NODE
  {}
}
