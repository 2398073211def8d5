/** What every step of a node keeps, and so what holds in every reachable state. */
module Invariants {
  import opened Bytes
  import opened Crypto
  import opened Protocol
  import opened Replay
  import opened Selection
  import opened NodeState
  import opened Coherence

  /** The observations of a transfer are those in its record. */
  ghost predicate Evident(st: State) {
    && (forall x <- st.observations :: x in st.txStore)
    && (forall x <- st.txStore ::
          st.txStore[x].peers == PeersOf(st, x) && st.txStore[x].seenCount == |st.txStore[x].peers|)
  }

  ghost predicate RecordAddressed(env: Env, x: Hash, r: TxRecord) {
    && r.tx == Normalize(env.hash, r.tx) && r.tx.id == x
    && r.canonical == EncodeTransfer(r.tx) && env.hash(r.canonical) == x
    && r.tx.outputs != []
  }

  /** Both stores are addressed by content. */
  ghost predicate Addressed(env: Env, st: State) {
    && (forall x <- st.txStore :: RecordAddressed(env, x, st.txStore[x]))
    && (forall v <- st.valueStore :: st.valueStore[v].id == v == ComputeValueID(env.hash, st.valueStore[v]))
  }

  ghost predicate Inv(env: Env, st: State) {
    Indexed(st) && Numbered(st) && Cached(env, st) && Evident(st) && Addressed(env, st)
  }

  // ---------------------------------------------------------------------------------------
  // Steps that leave the stores and the caches alone

  /** `st'` may differ from `st` in the replay cache, the consumed inputs, the peers and the sent log. */
  ghost predicate SameCore(st: State, st': State) {
    st' == st.(seen := st'.seen, consumed := st'.consumed, peers := st'.peers, sent := st'.sent)
  }

  lemma CachedFrame(env: Env, st: State, st': State)
    requires Indexed(st) && Indexed(st') && Cached(env, st)
    requires st'.txStore == st.txStore && st'.conflictSets == st.conflictSets && st'.observations == st.observations
    requires st'.proofs == st.proofs && st'.selected == st.selected && st'.finality == st.finality
    ensures Cached(env, st')
  {
    hide FinalityOf, EntryAt, Indexed;
    forall i | i in st'.conflictSets ensures EntryFresh(env, st', i) {
      assert EntryFresh(env, st, i);
      ConflictSetTouched(st, i);
      EntryFrame(env, st.selected[i].updatedAt, st, st', i);
    }
    forall x | x in st'.txStore ensures FinalityFresh(env, st', x) {
      assert FinalityFresh(env, st, x);
      var i :| InputsOf(st, x, i) && i in st.selected && st.finality[x] == FinalityOf(env, st.selected[i].updatedAt, st, x);
      assert InputsOf(st', x, i);
      FinalityFrame(env, st.selected[i].updatedAt, st, st', x);
    }
  }

  lemma NumberedFrame(st: State, st': State)
    requires Numbered(st) && st'.arrivalSeq == st.arrivalSeq && st'.conflictSets == st.conflictSets
    requires st'.txStore.Keys == st.txStore.Keys
    requires forall x <- st.txStore :: st'.txStore[x].arrivalSeq == st.txStore[x].arrivalSeq
    ensures Numbered(st')
  {
    assert |st'.txStore| == |st'.txStore.Keys| == |st.txStore.Keys| == |st.txStore|;
    forall i | i in st'.conflictSets ensures InOrder(st', st'.conflictSets[i]) {
      assert InOrder(st, st.conflictSets[i]);
    }
  }

  lemma RecordsFrame(env: Env, st: State, st': State)
    requires Evident(st) && Addressed(env, st)
    requires st'.txStore == st.txStore && st'.valueStore == st.valueStore && st'.observations == st.observations
    ensures Evident(st') && Addressed(env, st')
  {
    hide RecordAddressed, ComputeValueID;
    assert forall x <- st.txStore :: PeersOf(st', x) == PeersOf(st, x);
  }

  lemma SameCoreKeepsInv(env: Env, st: State, st': State)
    requires Inv(env, st) && SameCore(st, st')
    ensures Inv(env, st')
  {
    hide Cached, Indexed, Numbered, Evident, Addressed;
    IndexedFrame(st, st');
    NumberedFrame(st, st');
    CachedFrame(env, st, st');
    RecordsFrame(env, st, st');
  }

  // ---------------------------------------------------------------------------------------
  // Steps that change the evidence for one transfer

  ghost predicate Reevidenced(st: State, st': State, x: Hash) {
    && st' == st.(txStore := st'.txStore, observations := st'.observations, proofs := st'.proofs)
    && st'.txStore.Keys == st.txStore.Keys
    && (forall y <- st.txStore :: st'.txStore[y] == st.txStore[y].(peers := st'.txStore[y].peers, seenCount := st'.txStore[y].seenCount))
    && (forall y <- st.txStore | y != x :: CandidateOf(st', y) == CandidateOf(st, y))
  }

  function InputSet(st: State, x: Hash): set<Hash> {
    if x in st.txStore then Elements(st.txStore[x].tx.inputs) else {}
  }

  lemma ReevidencedIndexed(st: State, st': State, x: Hash)
    requires Indexed(st) && Reevidenced(st, st', x)
    ensures Indexed(st')
  {
    assert forall y, i | y in st.txStore :: InputsOf(st', y, i) == InputsOf(st, y, i);
  }

  lemma ReevidencedTouched(st: State, st': State, x: Hash, inputs: set<Hash>)
    requires Reevidenced(st, st', x)
    ensures Touched(st', inputs) == Touched(st, inputs)
  {
    assert forall y, i | y in st.txStore :: InputsOf(st', y, i) == InputsOf(st, y, i);
  }

  lemma ReevidencedFields(st: State, st': State, x: Hash)
    requires Reevidenced(st, st', x)
    ensures st'.conflictSets == st.conflictSets && st'.selected == st.selected && st'.finality == st.finality
    ensures st'.txStore.Keys == st.txStore.Keys && (x in st.txStore ==> x in Touched(st, InputSet(st, x)) || st.txStore[x].tx.inputs == [])
  {
    if x in st.txStore && st.txStore[x].tx.inputs != [] {
      assert InputsOf(st, x, st.txStore[x].tx.inputs[0]);
    }
  }

  lemma ReevidencedEntry(env: Env, st: State, st': State, x: Hash, i: Hash)
    requires Indexed(st) && Indexed(st') && Reevidenced(st, st', x) && i in st.conflictSets && i !in InputSet(st, x)
    requires EntryFresh(env, st, i)
    ensures EntryFresh(env, st', i)
  {
    hide EntryAt, CandidateOf;
    forall y | y in ConflictSet(st, i) ensures y != x && y in st.txStore {
      assert InputsOf(st, y, i);
    }
    EntryFrame(env, st.selected[i].updatedAt, st, st', i);
  }

  lemma ReevidencedFinality(env: Env, st: State, st': State, x: Hash, y: Hash)
    requires Reevidenced(st, st', x) && y in st.txStore && y != x && FinalityFresh(env, st, y)
    ensures FinalityFresh(env, st', y)
  {
    hide FinalityOf, CandidateOf;
    var i :| InputsOf(st, y, i) && i in st.selected && st.finality[y] == FinalityOf(env, st.selected[i].updatedAt, st, y);
    assert InputsOf(st', y, i);
    FinalityFrame(env, st.selected[i].updatedAt, st, st', y);
  }

  lemma ReevidencedCachedOutside(env: Env, st: State, st': State, x: Hash)
    requires Indexed(st) && Indexed(st') && Cached(env, st) && Reevidenced(st, st', x)
    ensures CachedOutside(env, st', InputSet(st, x))
  {
    hide EntryFresh, FinalityFresh, Touched, Indexed, Reevidenced;
    var inputs := InputSet(st, x);
    if x in st.txStore {
      InputsIndexed(st, x);
    }
    ReevidencedTouched(st, st', x, inputs);
    ReevidencedFields(st, st', x);
    forall i | i in st'.conflictSets && i !in inputs ensures EntryFresh(env, st', i) {
      ReevidencedEntry(env, st, st', x, i);
    }
    forall y | y in st'.txStore && y !in Touched(st', inputs) ensures FinalityFresh(env, st', y) {
      ReevidencedFinality(env, st, st', x, y);
    }
  }

  /** Changing the evidence for a transfer and then recomputing it keeps the caches right. */
  lemma ReevidencedRecompute(env: Env, now: Int64, st: State, st': State, x: Hash)
    requires Indexed(st) && Numbered(st) && Cached(env, st) && Reevidenced(st, st', x)
    ensures Indexed(st') && MembersStored(st') && Numbered(st')
    ensures var r := RecomputeTransfer(env, now, st', x);
            Indexed(r) && Numbered(r) && Cached(env, r) && Refreshes(env, now, st', InputSet(st, x), r)
  {
    hide Cached, Indexed, Numbered, CachedOutside, Refreshes, RecomputeTransfer;
    ReevidencedIndexed(st, st', x);
    IndexedMembersStored(st');
    NumberedFrame(st, st');
    ReevidencedCachedOutside(env, st, st', x);
    var r := RecomputeTransfer(env, now, st', x);
    if x in st.txStore {
      RecomputeTransferRefreshes(env, now, st', x);
    } else {
      RecomputeUnknown(env, now, st', x);
      RefreshNothing(env, now, st');
    }
    RefreshRepairs(env, now, st', InputSet(st, x), r);
    NumberedFrame(st', r);
  }

  lemma RecomputeUnknown(env: Env, now: Int64, st: State, x: Hash)
    requires MembersStored(st) && x !in st.txStore
    ensures RecomputeTransfer(env, now, st, x) == st
  {}

  lemma ObservedPeers(st: State, r: State, x: Hash, from: PeerId, now: Int64, y: Hash)
    requires r.observations == Observed(st.observations, x, from, now)
    ensures PeersOf(r, y) == if y == x then PeersOf(st, x)[from := now] else PeersOf(st, y)
  {}

  lemma ObservedRecord(txStore: map<Hash, TxRecord>, x: Hash, from: PeerId, now: Int64, y: Hash)
    requires x in txStore && y in txStore
    ensures var peers := txStore[x].peers[from := now];
            ObservedInRecord(txStore, x, from, now)[y] == if y == x then txStore[x].(peers := peers, seenCount := |peers|) else txStore[y]
  {}

  predicate PeersRecorded(st: State, y: Hash)
    requires y in st.txStore
  {
    st.txStore[y].peers == PeersOf(st, y) && st.txStore[y].seenCount == |st.txStore[y].peers|
  }

  lemma ObservedAt(now: Int64, st: State, x: Hash, from: PeerId, y: Hash)
    requires x in st.txStore && y in st.txStore
    ensures var r := ObservePeer(now, st, x, from);
            && r.txStore[y] == st.txStore[y].(peers := r.txStore[y].peers, seenCount := r.txStore[y].seenCount)
            && (y != x ==> CandidateOf(r, y) == CandidateOf(st, y))
            && (PeersRecorded(st, x) && PeersRecorded(st, y) ==> PeersRecorded(r, y))
  {
    hide Observed, ObservedInRecord, PeersOf;
    var r := ObservePeer(now, st, x, from);
    if from == [] {
      assert r == st;
    } else {
      assert r.txStore == ObservedInRecord(st.txStore, x, from, now) && r.observations == Observed(st.observations, x, from, now);
      ObservedPeers(st, r, x, from, now, y);
      ObservedRecord(st.txStore, x, from, now, y);
    }
  }

  lemma ObserveReevidences(now: Int64, st: State, x: Hash, from: PeerId)
    requires x in st.txStore
    ensures Reevidenced(st, ObservePeer(now, st, x, from), x)
  {
    var r := ObservePeer(now, st, x, from);
    forall y | y in st.txStore
      ensures r.txStore[y] == st.txStore[y].(peers := r.txStore[y].peers, seenCount := r.txStore[y].seenCount)
      ensures y != x ==> CandidateOf(r, y) == CandidateOf(st, y)
    {
      ObservedAt(now, st, x, from, y);
    }
    hide Observed, ObservedInRecord, CandidateOf;
  }

  lemma ObserveEvident(now: Int64, st: State, x: Hash, from: PeerId)
    requires x in st.txStore && Evident(st)
    ensures Evident(ObservePeer(now, st, x, from))
  {
    hide Observed, ObservedInRecord;
    var r := ObservePeer(now, st, x, from);
    ObservedKeys(st.observations, x, from, now);
    forall y | y in r.txStore ensures PeersRecorded(r, y) {
      assert PeersRecorded(st, x) && PeersRecorded(st, y);
      ObservedAt(now, st, x, from, y);
    }
  }

  lemma ObservedKeys(observations: map<Hash, map<PeerId, Int64>>, x: Hash, from: PeerId, now: Int64)
    ensures Observed(observations, x, from, now).Keys == observations.Keys + {x}
  {}

  lemma ProofReevidences(st: State, x: Hash, r: ProofRecord)
    ensures Reevidenced(st, UpdateProof(st, x, r), x)
  {}

  lemma ProofKeepsInv(env: Env, now: Int64, st: State, x: Hash, r: ProofRecord)
    requires Inv(env, st)
    ensures MembersStored(UpdateProof(st, x, r)) && Inv(env, RecomputeTransfer(env, now, UpdateProof(st, x, r), x))
  {
    hide Cached, Indexed, Numbered, Refreshes, Evident, Addressed, Reevidenced;
    var st' := UpdateProof(st, x, r);
    ProofReevidences(st, x, r);
    ReevidencedRecompute(env, now, st, st', x);
    RecordsFrame(env, st, RecomputeTransfer(env, now, st', x));
  }

  lemma AddressedFrame(env: Env, st: State, st': State)
    requires Addressed(env, st) && st'.valueStore == st.valueStore && st'.txStore.Keys == st.txStore.Keys
    requires forall y <- st.txStore :: st'.txStore[y].tx == st.txStore[y].tx && st'.txStore[y].canonical == st.txStore[y].canonical
    ensures Addressed(env, st')
  {
    forall x | x in st'.txStore ensures RecordAddressed(env, x, st'.txStore[x]) {
      assert RecordAddressed(env, x, st.txStore[x]);
    }
  }

  lemma CopyKeepsInv(env: Env, now: Int64, st: State, x: Hash, from: PeerId)
    requires Inv(env, st) && x in st.txStore
    ensures var st' := ObservePeer(now, st, x, from); MembersStored(st') && Inv(env, RecomputeTransfer(env, now, st', x))
  {
    hide Cached, Indexed, Numbered, Refreshes, Evident, Addressed;
    var st' := ObservePeer(now, st, x, from);
    ObserveReevidences(now, st, x, from);
    ObserveEvident(now, st, x, from);
    ReevidencedRecompute(env, now, st, st', x);
    AddressedFrame(env, st, st');
    RecordsFrame(env, st', RecomputeTransfer(env, now, st', x));
  }

  // ---------------------------------------------------------------------------------------
  // Storing a new transfer

  /** What an insertion may rely on: content-derived identifiers and a validated shape. */
  ghost predicate Insertable(env: Env, st: State, tx: Transfer, canonical: Bytes) {
    && tx == Normalize(env.hash, tx) && tx.id !in st.txStore
    && canonical == EncodeTransfer(tx)
    && tx.inputs != [] && NoDuplicates(tx.inputs) && tx.outputs != []
  }

  /** The transfer store of `r` is that of `st` with one new record. */
  ghost predicate RecordAdded(st: State, record: TxRecord, r: State) {
    && r.txStore.Keys == st.txStore.Keys + {record.tx.id}
    && (forall y <- st.txStore :: r.txStore[y] == st.txStore[y])
    && r.txStore[record.tx.id] == record
  }

  /** The conflict sets of `r` are those of `st` with `x` appended on its inputs. */
  ghost predicate MemberAdded(st: State, x: Hash, inputs: seq<Hash>, r: State) {
    && r.conflictSets.Keys == st.conflictSets.Keys + Elements(inputs)
    && (forall i <- st.conflictSets | i !in inputs :: r.conflictSets[i] == st.conflictSets[i])
    && (forall i <- inputs :: r.conflictSets[i] == ConflictSet(st, i) + [x])
  }

  function NewRecord(now: Int64, st: State, tx: Transfer, canonical: Bytes, from: PeerId): TxRecord {
    var peers := if from == [] then map[] else map[from := now];
    TxRecord(tx, canonical, now, st.arrivalSeq + 1, |peers|, peers)
  }

  lemma InsertForm(now: Int64, st: State, tx: Transfer, canonical: Bytes, from: PeerId)
    requires tx.id !in st.txStore
    ensures var r := Insert(now, st, tx, canonical, from);
            && RecordAdded(st, NewRecord(now, st, tx, canonical, from), r)
            && r == st.(txStore := r.txStore, valueStore := StoreOutputs(st.valueStore, tx.outputs),
                        conflictSets := r.conflictSets, observations := r.observations, arrivalSeq := st.arrivalSeq + 1)
            && r.observations == (if from == [] then st.observations else st.observations[tx.id := PeersOf(st, tx.id)[from := now]])
  {
    hide AddMembership, StoreOutputs;
  }

  lemma InsertMember(now: Int64, st: State, tx: Transfer, canonical: Bytes, from: PeerId)
    requires Indexed(st) && tx.id !in st.txStore
    ensures MemberAdded(st, tx.id, tx.inputs, Insert(now, st, tx, canonical, from))
  {
    hide AddMembership, StoreOutputs, Insert, Indexed;
    AddMembershipMembers(st.conflictSets, tx.id, tx.inputs);
    forall i ensures tx.id !in ConflictSet(st, i) {
      NotMember(st, tx.id, i);
    }
  }

  lemma NotMember(st: State, x: Hash, i: Hash)
    requires Indexed(st) && x !in st.txStore
    ensures x !in ConflictSet(st, i)
  {}

  lemma AddedIndexed(st: State, record: TxRecord, r: State)
    requires Indexed(st) && record.tx.id !in st.txStore && record.tx.inputs != [] && NoDuplicates(record.tx.inputs)
    requires RecordAdded(st, record, r) && MemberAdded(st, record.tx.id, record.tx.inputs, r)
    ensures Indexed(r)
  {
    var x := record.tx.id;
    forall y, i | y in r.txStore && InputsOf(r, y, i) ensures i in r.conflictSets && y in r.conflictSets[i] {
      AddedInput(st, record, r, y, i);
    }
    forall i, y | i in r.conflictSets && y in r.conflictSets[i] ensures y in r.txStore && InputsOf(r, y, i) {
      AddedMember(st, record, r, y, i);
    }
    forall y | y in r.txStore ensures r.txStore[y].tx.inputs != [] && NoDuplicates(r.txStore[y].tx.inputs) {
      assert y == x || y in st.txStore;
    }
  }

  lemma AddedInput(st: State, record: TxRecord, r: State, y: Hash, i: Hash)
    requires Indexed(st) && RecordAdded(st, record, r) && MemberAdded(st, record.tx.id, record.tx.inputs, r)
    requires y in r.txStore && InputsOf(r, y, i)
    ensures i in r.conflictSets && y in r.conflictSets[i]
  {
    if y != record.tx.id {
      assert InputsOf(st, y, i);
    }
  }

  lemma AddedMember(st: State, record: TxRecord, r: State, y: Hash, i: Hash)
    requires Indexed(st) && RecordAdded(st, record, r) && MemberAdded(st, record.tx.id, record.tx.inputs, r)
    requires i in r.conflictSets && y in r.conflictSets[i]
    ensures y in r.txStore && InputsOf(r, y, i)
  {
    if y == record.tx.id && i in record.tx.inputs {
    } else {
      assert i in st.conflictSets && y in st.conflictSets[i];
      assert InputsOf(st, y, i);
    }
  }

  lemma AddedNumbered(st: State, record: TxRecord, r: State)
    requires Numbered(st) && record.tx.id !in st.txStore && record.arrivalSeq == r.arrivalSeq == st.arrivalSeq + 1
    requires RecordAdded(st, record, r) && MemberAdded(st, record.tx.id, record.tx.inputs, r)
    ensures Numbered(r)
  {
    hide InOrder, MemberAdded, DistinctArrivals;
    assert |r.txStore| == |r.txStore.Keys| == |st.txStore.Keys| + 1 && |st.txStore.Keys| == |st.txStore|;
    AddedDistinct(st, record, r);
    ArrivalsBounded(st);
    forall i | i in r.conflictSets ensures InOrder(r, r.conflictSets[i]) {
      AddedSetInOrder(st, record, r, i);
    }
  }

  lemma ArrivalsBounded(st: State)
    requires DistinctArrivals(st)
    ensures forall y <- st.txStore :: st.txStore[y].arrivalSeq <= st.arrivalSeq
  {}

  lemma AddedDistinct(st: State, record: TxRecord, r: State)
    requires DistinctArrivals(st) && record.arrivalSeq == r.arrivalSeq == st.arrivalSeq + 1
    requires RecordAdded(st, record, r)
    ensures DistinctArrivals(r)
  {
    forall x, y | x in r.txStore && y in r.txStore && x != y ensures r.txStore[x].arrivalSeq != r.txStore[y].arrivalSeq {
      assert x != record.tx.id ==> x in st.txStore;
      assert y != record.tx.id ==> y in st.txStore;
    }
  }

  lemma AddedSetInOrder(st: State, record: TxRecord, r: State, i: Hash)
    requires RecordAdded(st, record, r) && MemberAdded(st, record.tx.id, record.tx.inputs, r) && i in r.conflictSets
    requires forall y <- st.txStore :: st.txStore[y].arrivalSeq < record.arrivalSeq
    requires forall j <- st.conflictSets :: InOrder(st, st.conflictSets[j])
    ensures InOrder(r, r.conflictSets[i])
  {
    hide InOrder, RecordAdded;
    var xs := ConflictSet(st, i);
    assert InOrder(st, xs) by {
      NothingInOrder(st);
    }
    AddedInOrder(st, record, r, xs);
    assert r.conflictSets[i] == xs || r.conflictSets[i] == xs + [record.tx.id];
  }

  lemma NothingInOrder(st: State)
    ensures InOrder(st, [])
  {}

  lemma AddedInOrder(st: State, record: TxRecord, r: State, xs: seq<Hash>)
    requires RecordAdded(st, record, r) && InOrder(st, xs)
    requires forall y <- st.txStore :: st.txStore[y].arrivalSeq < record.arrivalSeq
    ensures InOrder(r, xs) && InOrder(r, xs + [record.tx.id])
  {}

  lemma AddedEntry(env: Env, st: State, record: TxRecord, r: State, i: Hash)
    requires Indexed(st) && Indexed(r) && RecordAdded(st, record, r) && MemberAdded(st, record.tx.id, record.tx.inputs, r)
    requires record.tx.id !in st.txStore && r.selected == st.selected && r.proofs == st.proofs
    requires forall y <- st.txStore :: PeersOf(r, y) == PeersOf(st, y)
    requires i in st.conflictSets && i !in record.tx.inputs && EntryFresh(env, st, i)
    ensures EntryFresh(env, r, i)
  {
    hide EntryAt, PeersOf, NoDuplicates;
    forall y | y in ConflictSet(st, i) ensures y in st.txStore && CandidateOf(r, y) == CandidateOf(st, y) {
      assert InputsOf(st, y, i);
    }
    EntryFrame(env, st.selected[i].updatedAt, st, r, i);
  }

  lemma AddedFinality(env: Env, st: State, record: TxRecord, r: State, y: Hash)
    requires RecordAdded(st, record, r) && r.selected == st.selected && r.finality == st.finality && r.proofs == st.proofs
    requires y in st.txStore && PeersOf(r, y) == PeersOf(st, y) && FinalityFresh(env, st, y)
    ensures FinalityFresh(env, r, y)
  {
    hide FinalityOf, PeersOf;
    var i :| InputsOf(st, y, i) && i in st.selected && st.finality[y] == FinalityOf(env, st.selected[i].updatedAt, st, y);
    assert InputsOf(r, y, i);
    FinalityFrame(env, st.selected[i].updatedAt, st, r, y);
  }

  lemma AddedCachedOutside(env: Env, st: State, record: TxRecord, r: State)
    requires Indexed(st) && Indexed(r) && Cached(env, st)
    requires RecordAdded(st, record, r) && MemberAdded(st, record.tx.id, record.tx.inputs, r)
    requires record.tx.id !in st.txStore && record.tx.inputs != []
    requires r.selected == st.selected && r.finality == st.finality && r.proofs == st.proofs
    requires forall y <- st.txStore :: PeersOf(r, y) == PeersOf(st, y)
    ensures CachedOutside(env, r, Elements(record.tx.inputs))
  {
    hide EntryFresh, FinalityFresh, Indexed, PeersOf, Touched;
    var x, inputs := record.tx.id, Elements(record.tx.inputs);
    assert x in Touched(r, inputs) by {
      InputsIndexed(r, x);
    }
    forall i | i in r.conflictSets && i !in inputs ensures EntryFresh(env, r, i) {
      AddedEntry(env, st, record, r, i);
    }
    forall y | y in r.txStore && y !in Touched(r, inputs) ensures FinalityFresh(env, r, y) {
      AddedFinality(env, st, record, r, y);
    }
  }

  lemma {:induction false} StoreOutputsAddressed(hash: Hasher, values: map<Hash, Value>, outputs: seq<Value>)
    requires forall v <- outputs :: v == WithValueID(hash, v)
    requires forall v <- values :: values[v].id == v == ComputeValueID(hash, values[v])
    ensures var r := StoreOutputs(values, outputs);
            && (forall v <- r :: r[v].id == v == ComputeValueID(hash, r[v]))
            && (forall v :: v in r <==> v in values || exists o <- outputs :: o.id == v)
  {
    hide WithValueID, ComputeValueID;
    if outputs != [] {
      var init, last := outputs[..|outputs| - 1], outputs[|outputs| - 1];
      assert outputs == init + [last];
      StoreOutputsAddressed(hash, values, init);
      SelfIdentified(hash, last);
    }
  }

  lemma SelfIdentified(hash: Hasher, v: Value)
    requires v == WithValueID(hash, v)
    ensures v.id == ComputeValueID(hash, v)
  {}

  lemma NormalizedOutputs(hash: Hasher, tx: Transfer)
    requires tx == Normalize(hash, tx)
    ensures forall v <- tx.outputs :: v == WithValueID(hash, v)
  {
    var n := Normalize(hash, tx);
    forall v | v in tx.outputs ensures v == WithValueID(hash, v) {
      var i :| 0 <= i < |tx.outputs| && tx.outputs[i] == v;
      assert n.outputs[i] == WithValueID(hash, tx.outputs[i]);
    }
  }

  lemma NormalizedID(hash: Hasher, tx: Transfer)
    requires tx == Normalize(hash, tx)
    ensures tx.id == hash(EncodeTransfer(tx))
  {
    EncodingIgnoresIDs(hash, tx);
  }

  lemma AddedAddressed(env: Env, st: State, record: TxRecord, r: State)
    requires Addressed(env, st) && RecordAdded(st, record, r) && RecordAddressed(env, record.tx.id, record)
    requires r.valueStore == StoreOutputs(st.valueStore, record.tx.outputs)
    ensures Addressed(env, r)
  {
    hide StoreOutputs, Normalize, EncodeTransfer, WithValueID, ComputeValueID;
    NormalizedOutputs(env.hash, record.tx);
    StoreOutputsAddressed(env.hash, st.valueStore, record.tx.outputs);
    hide RecordAddressed;
    forall y | y in r.txStore ensures RecordAddressed(env, y, r.txStore[y]) {
      assert y != record.tx.id ==> RecordAddressed(env, y, st.txStore[y]);
    }
  }

  lemma AddedEvident(now: Int64, st: State, tx: Transfer, canonical: Bytes, from: PeerId)
    requires Evident(st) && tx.id !in st.txStore
    ensures Evident(Insert(now, st, tx, canonical, from))
    ensures forall y <- st.txStore :: PeersOf(Insert(now, st, tx, canonical, from), y) == PeersOf(st, y)
  {
    hide Insert, StoreOutputs, RecordAdded, NewRecord;
    var r, record := Insert(now, st, tx, canonical, from), NewRecord(now, st, tx, canonical, from);
    InsertForm(now, st, tx, canonical, from);
    NewPeers(now, st, tx, canonical, from, r);
    forall x | x in r.txStore ensures r.txStore[x].peers == PeersOf(r, x) && r.txStore[x].seenCount == |r.txStore[x].peers| {
      AddedRecord(st, record, r, x);
    }
    forall x | x in r.observations ensures x in r.txStore {
      AddedRecord(st, record, r, x);
    }
  }

  lemma NewPeers(now: Int64, st: State, tx: Transfer, canonical: Bytes, from: PeerId, r: State)
    requires Evident(st) && tx.id !in st.txStore
    requires r.observations == (if from == [] then st.observations else st.observations[tx.id := PeersOf(st, tx.id)[from := now]])
    ensures var record := NewRecord(now, st, tx, canonical, from);
            record.tx.id == tx.id && record.peers == PeersOf(r, tx.id) && record.seenCount == |record.peers|
    ensures forall y <- st.txStore :: PeersOf(r, y) == PeersOf(st, y)
    ensures r.observations.Keys <= st.observations.Keys + {tx.id}
  {}

  lemma AddedRecord(st: State, record: TxRecord, r: State, x: Hash)
    requires RecordAdded(st, record, r)
    ensures x in r.txStore <==> x == record.tx.id || x in st.txStore
    ensures x == record.tx.id ==> r.txStore[x] == record
    ensures x in st.txStore ==> r.txStore[x] == st.txStore[x]
  {}

  lemma InsertKeepsInv(env: Env, now: Int64, st: State, tx: Transfer, canonical: Bytes, from: PeerId)
    requires Inv(env, st) && Insertable(env, st, tx, canonical)
    ensures var st' := Insert(now, st, tx, canonical, from);
            MembersStored(st') && Inv(env, RecomputeTransfer(env, now, st', tx.id))
  {
    hide Cached, Indexed, Numbered, Refreshes, Evident, Addressed, CachedOutside, RecomputeTransfer, Insert;
    hide RecordAdded, MemberAdded, StoreOutputs, PeersOf, Normalize, EncodeTransfer;
    var st', record := Insert(now, st, tx, canonical, from), NewRecord(now, st, tx, canonical, from);
    InsertForm(now, st, tx, canonical, from);
    InsertMember(now, st, tx, canonical, from);
    AddedIndexed(st, record, st');
    AddedNumbered(st, record, st');
    AddedEvident(now, st, tx, canonical, from);
    AddedCachedOutside(env, st, record, st');
    NormalizedID(env.hash, tx);
    AddedAddressed(env, st, record, st');
    AddedRecord(st, record, st', tx.id);
    InsertedRefresh(env, now, st', record);
  }

  lemma InsertedRefresh(env: Env, now: Int64, st: State, record: TxRecord)
    requires Indexed(st) && Numbered(st) && Evident(st) && Addressed(env, st)
    requires record.tx.id in st.txStore && st.txStore[record.tx.id] == record
    requires CachedOutside(env, st, Elements(record.tx.inputs))
    ensures MembersStored(st) && Inv(env, RecomputeTransfer(env, now, st, record.tx.id))
  {
    hide Cached, Indexed, Numbered, Refreshes, Evident, Addressed, CachedOutside, RecomputeTransfer;
    var x := record.tx.id;
    IndexedMembersStored(st);
    RecomputeTransferRefreshes(env, now, st, x);
    var r := RecomputeTransfer(env, now, st, x);
    RefreshRepairs(env, now, st, Elements(record.tx.inputs), r);
    NumberedFrame(st, r);
    RecordsFrame(env, st, r);
  }
}
