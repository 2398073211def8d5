/** The state of a node and what each of its operations does to it (package node). The class in
    Node.dfy is proved against these functions; the other modules prove what they promise. */
module NodeState {
  import opened Bytes
  import opened Crypto
  import opened Protocol
  import opened Replay
  import opened Selection

  /** BLAKE3, ed25519.Verify(owner, message, signature) and n -> math.Log(1 + n). */
  datatype Env = Env(hash: Hasher, verify: (Bytes, Bytes, Bytes) -> bool, log: LogCount)

  datatype TxRecord = TxRecord(
    tx: Transfer, canonical: Bytes, firstSeen: Int64, arrivalSeq: nat, seenCount: nat, peers: map<PeerId, Int64>)

  datatype SelectedLineage = SelectedLineage(txID: Hash, score: real, updatedAt: Int64)

  datatype Status = PENDING | SELECTED | FINAL

  datatype FinalityState = FinalityState(score: real, confidence: real, status: Status)

  datatype SentMessage = SentMessage(to: PeerId, message: Message)

  /** `peers` maps a peer to whether a node object is attached to it (AddPeer) or not (AddPeerID). */
  datatype State = State(
    txStore: map<Hash, TxRecord>,
    valueStore: map<Hash, Value>,
    conflictSets: map<Hash, seq<Hash>>,
    selected: map<Hash, SelectedLineage>,
    finality: map<Hash, FinalityState>,
    observations: map<Hash, map<PeerId, Int64>>,
    proofs: map<Hash, Proofs>,
    seen: Seen,
    consumed: set<Hash>,
    peers: map<PeerId, bool>,
    sent: seq<SentMessage>,
    arrivalSeq: nat)

  const NEW_NODE: State := State(map[], map[], map[], map[], map[], map[], map[], map[], {}, map[], [], 0)

  const REPLAY_TTL: Int64 := 60
  const LOCAL_TTL: Int64 := 30
  const PUBLIC_KEY_SIZE: nat := 32

  datatype NodeError =
    | Decoding(cause: DecodeError) | NoInputs | NoOutputs | InputConsumed | OutputExpired | UnknownInput
    | DifferentOwners | BadOwnerKey | BadSignature | UnknownPeer | SendFailed | UnsupportedType

  /** A Go `error` result. */
  datatype Outcome = Nil | Failed(error: NodeError)

  /** What one step reads from outside: the node's clock, the replay cache's own clock, the ID drawn
      for the message at each position of the sent log, and which sends the transport accepts. */
  datatype Tick = Tick(now: Int64, cacheNow: Int64, ids: nat -> MessageId, up: PeerId -> bool)

  function Lookup<K(==), V>(m: map<K, V>, k: K, absent: V): V {
    if k in m then m[k] else absent
  }

  // ---------------------------------------------------------------------------------------
  // Evidence

  function PeersOf(st: State, x: Hash): map<PeerId, Int64> {
    Lookup(st.observations, x, map[])
  }

  function ProofsOf(st: State, x: Hash): Proofs {
    Lookup(st.proofs, x, map[])
  }

  function ConflictSet(st: State, input: Hash): seq<Hash> {
    Lookup(st.conflictSets, input, [])
  }

  function CandidateOf(st: State, x: Hash): Candidate
    requires x in st.txStore
  {
    Candidate(x, st.txStore[x].arrivalSeq, st.txStore[x].firstSeen, |PeersOf(st, x)|, ProofsOf(st, x))
  }

  function Candidates(st: State, xs: seq<Hash>): seq<Candidate>
    requires forall x <- xs :: x in st.txStore
  {
    seq(|xs|, i requires 0 <= i < |xs| => CandidateOf(st, xs[i]))
  }

  /** Every member of a conflict set has its record. */
  ghost predicate MembersStored(st: State) {
    forall i <- st.conflictSets, x <- st.conflictSets[i] :: x in st.txStore
  }

  // ---------------------------------------------------------------------------------------
  // Selection and finality caches

  /** The lineage selected from scratch for an input at clock `now`. */
  ghost function EntryAt(env: Env, now: Int64, st: State, input: Hash): SelectedLineage
    requires ConflictSet(st, input) != [] && forall x <- ConflictSet(st, input) :: x in st.txStore
  {
    var best := SelectBest(env.log, now, Candidates(st, ConflictSet(st, input)));
    SelectedLineage(best.txID, best.score, now)
  }

  /** The finality loop: whether `x` is selected on all the inputs, and the score it ends with. */
  function ScanInputs(selected: map<Hash, SelectedLineage>, x: Hash, inputs: seq<Hash>, score: real): (bool, real) {
    if inputs == [] then (true, score)
    else if inputs[0] !in selected || selected[inputs[0]].txID != x then (false, score)
    else ScanInputs(selected, x, inputs[1..], selected[inputs[0]].score)
  }

  function TransferAmount(outputs: seq<Value>): UInt64 {
    if outputs == [] then 0
    else (TransferAmount(outputs[..|outputs| - 1]) + outputs[|outputs| - 1].amount) % TWO_64
  }

  /** The finality entry computed from scratch from the selected lineages and the evidence. */
  ghost function FinalityOf(env: Env, now: Int64, st: State, x: Hash): FinalityState
    requires x in st.txStore
  {
    var tx := st.txStore[x].tx;
    var (selected, score) := ScanInputs(st.selected, x, tx.inputs, 0.0);
    if !selected then FinalityState(score, 0.0, PENDING)
    else
      var confidence := Confidence(env.log, now, CandidateOf(st, x));
      FinalityState(score, confidence, if confidence >= Threshold(TransferAmount(tx.outputs)) then FINAL else SELECTED)
  }

  ghost function UpdateFinality(env: Env, now: Int64, st: State, x: Hash): (r: State)
    ensures r == st.(finality := r.finality)
  {
    if x in st.txStore then st.(finality := st.finality[x := FinalityOf(env, now, st, x)]) else st
  }

  ghost function UpdateFinalities(env: Env, now: Int64, st: State, xs: seq<Hash>): (r: State)
    ensures r == st.(finality := r.finality)
  {
    if xs == [] then st
    else UpdateFinality(env, now, UpdateFinalities(env, now, st, xs[..|xs| - 1]), xs[|xs| - 1])
  }

  ghost function RecomputeInput(env: Env, now: Int64, st: State, input: Hash): (r: State)
    requires MembersStored(st)
    ensures r == st.(selected := r.selected, finality := r.finality)
  {
    var xs := ConflictSet(st, input);
    if xs == [] then st.(selected := st.selected - {input})
    else UpdateFinalities(env, now, st.(selected := st.selected[input := EntryAt(env, now, st, input)]), xs)
  }

  ghost function RecomputeInputs(env: Env, now: Int64, st: State, inputs: seq<Hash>): (r: State)
    requires MembersStored(st)
    ensures r == st.(selected := r.selected, finality := r.finality)
  {
    if inputs == [] then st
    else RecomputeInput(env, now, RecomputeInputs(env, now, st, inputs[..|inputs| - 1]), inputs[|inputs| - 1])
  }

  ghost function RecomputeTransfer(env: Env, now: Int64, st: State, x: Hash): (r: State)
    requires MembersStored(st)
    ensures r == st.(selected := r.selected, finality := r.finality)
  {
    if x in st.txStore then UpdateFinality(env, now, RecomputeInputs(env, now, st, st.txStore[x].tx.inputs), x) else st
  }

  // ---------------------------------------------------------------------------------------
  // Stores

  function Observed(
      observations: map<Hash, map<PeerId, Int64>>, x: Hash, from: PeerId, now: Int64): map<Hash, map<PeerId, Int64>> {
    observations[x := Lookup(observations, x, map[])[from := now]]
  }

  /** The copy of an observation that the record keeps. */
  function ObservedInRecord(txStore: map<Hash, TxRecord>, x: Hash, from: PeerId, now: Int64): (r: map<Hash, TxRecord>)
    ensures r.Keys == txStore.Keys
  {
    if x !in txStore then txStore
    else
      var peers := txStore[x].peers[from := now];
      txStore[x := txStore[x].(peers := peers, seenCount := |peers|)]
  }

  function ObservePeer(now: Int64, st: State, x: Hash, from: PeerId): (r: State)
    ensures r == st.(observations := r.observations, txStore := r.txStore) && r.txStore.Keys == st.txStore.Keys
  {
    if from == [] then st
    else st.(observations := Observed(st.observations, x, from, now), txStore := ObservedInRecord(st.txStore, x, from, now))
  }

  function AddMember(conflictSets: map<Hash, seq<Hash>>, x: Hash, input: Hash): map<Hash, seq<Hash>> {
    var xs := Lookup(conflictSets, input, []);
    if x in xs then conflictSets else conflictSets[input := xs + [x]]
  }

  function AddMembership(conflictSets: map<Hash, seq<Hash>>, x: Hash, inputs: seq<Hash>): map<Hash, seq<Hash>> {
    if inputs == [] then conflictSets
    else AddMember(AddMembership(conflictSets, x, inputs[..|inputs| - 1]), x, inputs[|inputs| - 1])
  }

  function StoreOutputs(values: map<Hash, Value>, outputs: seq<Value>): map<Hash, Value> {
    if outputs == [] then values
    else
      var last := outputs[|outputs| - 1];
      StoreOutputs(values, outputs[..|outputs| - 1])[last.id := last]
  }

  /** A new record, its outputs, the peer it came from and its place in the conflict sets; for a
      normalized transfer that is not stored yet. */
  function Insert(now: Int64, st: State, tx: Transfer, canonical: Bytes, from: PeerId): (r: State)
    ensures r.txStore.Keys == st.txStore.Keys + {tx.id}
    ensures r.conflictSets == AddMembership(st.conflictSets, tx.id, tx.inputs)
  {
    var record := TxRecord(tx, canonical, now, st.arrivalSeq + 1, 0, map[]);
    var stored := st.(
      arrivalSeq := st.arrivalSeq + 1,
      txStore := st.txStore[tx.id := record],
      valueStore := StoreOutputs(st.valueStore, tx.outputs));
    var observed := ObservePeer(now, stored, tx.id, from);
    observed.(conflictSets := AddMembership(observed.conflictSets, tx.id, tx.inputs))
  }

  function Upsert(env: Env, now: Int64, st: State, t: Transfer, canonical: Bytes, from: PeerId): (State, Hash, bool) {
    var tx := Normalize(env.hash, t);
    if tx.id in st.txStore then (ObservePeer(now, st, tx.id, from), tx.id, false)
    else (Insert(now, st, tx, canonical, from), tx.id, true)
  }

  function UpdateProof(st: State, x: Hash, r: ProofRecord): State {
    st.(proofs := st.proofs[x := ProofsOf(st, x)[r.peer := r]])
  }

  // ---------------------------------------------------------------------------------------
  // Validation

  /** The owner of the inputs. A nil owner is an empty one, so an ownerless value leaves it unset. */
  function ResolveSigner(values: map<Hash, Value>, inputs: seq<Hash>, owner: Bytes): Result<Bytes, NodeError> {
    if inputs == [] then Ok(owner)
    else if inputs[0] !in values then Err(UnknownInput)
    else if owner == [] then ResolveSigner(values, inputs[1..], values[inputs[0]].owner)
    else if owner != values[inputs[0]].owner then Err(DifferentOwners)
    else ResolveSigner(values, inputs[1..], owner)
  }

  predicate Expires(v: Value, now: Int64) {
    v.expiry != 0 && v.expiry <= now
  }

  function Validate(env: Env, now: Int64, values: map<Hash, Value>, tx: Transfer): Outcome {
    if tx.inputs == [] then Failed(NoInputs)
    else if tx.outputs == [] then Failed(NoOutputs)
    else if !NoDuplicates(tx.inputs) then Failed(InputConsumed)
    else if exists v <- tx.outputs :: Expires(v, now) then Failed(OutputExpired)
    else
      match ResolveSigner(values, tx.inputs, [])
      case Err(e) => Failed(e)
      case Ok(owner) =>
        if |owner| != PUBLIC_KEY_SIZE then Failed(BadOwnerKey)
        else if !env.verify(owner, EncodeTransfer(tx), tx.sig) then Failed(BadSignature)
        else Nil
  }

  predicate HasConflict(st: State, x: Hash) {
    x in st.txStore && exists i <- st.txStore[x].tx.inputs :: |ConflictSet(st, i)| > 1
  }

  // ---------------------------------------------------------------------------------------
  // Sending

  function SendTo(tick: Tick, st: State, to: PeerId, m: Message): (State, Outcome) {
    (st.(sent := st.sent + [SentMessage(to, m)]), if tick.up(to) then Nil else Failed(SendFailed))
  }

  /** An INV to each peer in turn, stopping at the first send that fails. */
  function Announce(tick: Tick, st: State, tos: seq<PeerId>, ttl: Int64, x: Hash): (State, Outcome)
    decreases |tos|
  {
    if tos == [] then (st, Nil)
    else
      match SendTo(tick, st, tos[0], NewInv(tick.ids(|st.sent|), tick.now, ttl, x))
      case (next, Failed(e)) => (next, Failed(e))
      case (next, Nil) => Announce(tick, next, tos[1..], ttl, x)
  }

  lemma {:induction false} LeastPeer(s: set<PeerId>) returns (m: PeerId)
    requires s != {}
    ensures m in s && forall p <- s :: p == m || LexLess(m, p)
    decreases |s|
  {
    var q :| q in s;
    if s - {q} == {} {
      assert forall p <- s :: p == q || p in s - {q};
      m := q;
    } else {
      m := LeastPeer(s - {q});
      LexTotal(q, m);
      if LexLess(q, m) {
        forall p | p in s ensures p == q || LexLess(q, p) {
          if p != q && p != m {
            LexTransitive(q, m, p);
          }
        }
        m := q;
      }
    }
  }

  ghost predicate IsLeast(m: PeerId, s: set<PeerId>) {
    m in s && forall p <- s :: p == m || LexLess(m, p)
  }

  /** The peers in sorted order. */
  ghost function Ordered(s: set<PeerId>): (r: seq<PeerId>)
    ensures |r| == |s| && forall p :: p in r <==> p in s
    ensures forall i, j | 0 <= i < j < |r| :: LexLess(r[i], r[j])
  {
    if s == {} then []
    else
      assert exists m :: IsLeast(m, s) by {
        var m := LeastPeer(s);
        assert IsLeast(m, s);
      }
      var m :| IsLeast(m, s);
      [m] + Ordered(s - {m})
  }

  ghost function PeersExcept(st: State, skip: PeerId): seq<PeerId> {
    Ordered(st.peers.Keys - {skip})
  }

  // ---------------------------------------------------------------------------------------
  // Message handlers

  function DecodedTransfer(env: Env, payload: Bytes): Result<(Transfer, Bytes), DecodeError> {
    var p :- DecodeTxPayload(payload);
    var t :- DecodeTransfer(env.hash, p.transferBytes);
    Ok((Normalize(env.hash, t.(sig := p.signature)), p.transferBytes))
  }

  /** Everything a valid transfer changes before anything is sent: the stores, then the caches. */
  ghost function Store(env: Env, now: Int64, st: State, tx: Transfer, canonical: Bytes, from: PeerId): (State, Hash, bool)
    requires MembersStored(st)
  {
    var (stored, x, inserted) := Upsert(env, now, st, tx, canonical, from);
    UpsertKeepsMembersStored(env, now, st, tx, canonical, from);
    (RecomputeTransfer(env, now, stored, x), x, inserted)
  }

  lemma {:induction false} AddMembershipMembers(sets: map<Hash, seq<Hash>>, x: Hash, inputs: seq<Hash>)
    ensures var r := AddMembership(sets, x, inputs);
            && r.Keys == sets.Keys + Elements(inputs)
            && (forall i <- sets | i !in inputs :: r[i] == sets[i])
            && (forall i <- inputs :: r[i] == if x in Lookup(sets, i, []) then sets[i] else Lookup(sets, i, []) + [x])
  {
    if inputs != [] {
      var init, last := inputs[..|inputs| - 1], inputs[|inputs| - 1];
      AddMembershipMembers(sets, x, init);
      assert inputs == init + [last];
    }
  }

  lemma UpsertKeepsMembersStored(env: Env, now: Int64, st: State, t: Transfer, canonical: Bytes, from: PeerId)
    requires MembersStored(st)
    ensures MembersStored(Upsert(env, now, st, t, canonical, from).0)
  {
    hide Normalize, AddMembership, ObservePeer, Insert;
    var tx := Normalize(env.hash, t);
    AddMembershipMembers(st.conflictSets, tx.id, tx.inputs);
    var after := Upsert(env, now, st, t, canonical, from).0;
    forall i, x | i in after.conflictSets && x in after.conflictSets[i] ensures x in after.txStore {
      assert x == tx.id || (i in st.conflictSets && x in st.conflictSets[i]);
    }
  }

  function HandleInv(tick: Tick, st: State, from: PeerId, m: Message): (State, Outcome) {
    match DecodeHashPayload(m.payload)
    case Err(e) => (st, Failed(Decoding(e)))
    case Ok(x) =>
      if x in st.txStore then (st, Nil)
      else SendTo(tick, st, from, NewGet(tick.ids(|st.sent|), tick.now, m.ttl, x))
  }

  function HandleGet(tick: Tick, st: State, from: PeerId, m: Message): (State, Outcome) {
    match DecodeHashPayload(m.payload)
    case Err(e) => (st, Failed(Decoding(e)))
    case Ok(x) =>
      if x !in st.txStore then (st, Nil)
      else SendTo(tick, st, from, NewTx(tick.ids(|st.sent|), tick.now, m.ttl, st.txStore[x].tx))
  }

  ghost function HandleTx(env: Env, tick: Tick, st: State, from: PeerId, m: Message): (State, Outcome)
    requires MembersStored(st)
  {
    match DecodedTransfer(env, m.payload)
    case Err(e) => (st, Failed(Decoding(e)))
    case Ok((tx, canonical)) =>
      match Validate(env, tick.now, st.valueStore, tx)
      case Failed(e) => (st, Failed(e))
      case Nil =>
        var (next, x, inserted) := Store(env, tick.now, st, tx, canonical, from);
        if !inserted then (next, Nil) else Announce(tick, next, PeersExcept(next, from), m.ttl, x)
  }

  /** What a node attests about a transfer. */
  function ProofFor(st: State, x: Hash): ProofPayload {
    if x in st.txStore then ProofPayload(x, true, st.txStore[x].firstSeen, HasConflict(st, x), 1)
    else ProofPayload(x, false, 0, false, 1)
  }

  function HandleProofRequest(tick: Tick, st: State, from: PeerId, m: Message): (State, Outcome) {
    match DecodeHashPayload(m.payload)
    case Err(e) => (st, Failed(Decoding(e)))
    case Ok(x) =>
      SendTo(tick, st, from, NewProofResponse(tick.ids(|st.sent|), tick.now, m.ttl, ProofFor(st, x)))
  }

  ghost function HandleProofResponse(env: Env, tick: Tick, st: State, from: PeerId, m: Message): (State, Outcome)
    requires MembersStored(st)
  {
    match DecodeProofPayload(m.payload)
    case Err(e) => (st, Failed(Decoding(e)))
    case Ok(p) =>
      var r := ProofRecord(from, p.seen, p.seenTime, p.conflict, p.distance);
      (RecomputeTransfer(env, tick.now, UpdateProof(st, p.target, r), p.target), Nil)
  }

  ghost function Handle(env: Env, tick: Tick, st: State, from: PeerId, m: Message): (State, Outcome)
    requires MembersStored(st)
  {
    if m.typ == INV then HandleInv(tick, st, from, m)
    else if m.typ == GET then HandleGet(tick, st, from, m)
    else if m.typ == TX then HandleTx(env, tick, st, from, m)
    else if m.typ == PROOF_REQ then HandleProofRequest(tick, st, from, m)
    else if m.typ == PROOF_RESP then HandleProofResponse(env, tick, st, from, m)
    else if m.typ == ACK || m.typ == ERROR then (st, Nil)
    else (st, Failed(UnsupportedType))
  }

  function Mark(tick: Tick, st: State, id: MessageId): State {
    st.(seen := Pruned(st.seen, tick.now)[id := Expiry(REPLAY_TTL, tick.cacheNow)])
  }

  ghost function OnMessage(env: Env, tick: Tick, st: State, from: PeerId, m: Message): (State, Outcome)
    requires MembersStored(st)
  {
    if m.messageId in Pruned(st.seen, tick.now) then (st.(seen := Pruned(st.seen, tick.now)), Nil)
    else Handle(env, tick, Mark(tick, st, m.messageId), from, m)
  }

  ghost function AcceptLocal(env: Env, tick: Tick, st: State, t: Transfer): (State, Outcome)
    requires MembersStored(st)
  {
    var tx := Normalize(env.hash, t);
    match Validate(env, tick.now, st.valueStore, tx)
    case Failed(e) => (st, Failed(e))
    case Nil =>
      if !Consumable(st.consumed, tx.inputs) then (st, Failed(InputConsumed))
      else
        var consumed := st.(consumed := st.consumed + Elements(tx.inputs));
        var (next, x, _) := Store(env, tick.now, consumed, tx, EncodeTransfer(tx), []);
        Announce(tick, next, PeersExcept(next, []), LOCAL_TTL, x)
  }

  function SeedValue(env: Env, st: State, v: Value): State {
    var value := WithValueID(env.hash, v);
    st.(valueStore := st.valueStore[value.id := value])
  }

  function AddPeer(st: State, p: PeerId): State {
    st.(peers := st.peers[p := true])
  }

  function AddPeerID(st: State, p: PeerId): State {
    if p in st.peers then st else st.(peers := st.peers[p := false])
  }
}
