/** At one clock value, evidence may arrive in any order. */
module Confluence {
  import opened Bytes
  import opened Crypto
  import opened Protocol
  import opened Replay
  import opened Selection
  import opened NodeState
  import opened Coherence
  import opened Invariants
  import opened Runs

  /** A PROOF_RESP about `target`, or one more copy of an already stored transfer. */
  datatype Evidence = Proof(target: Hash, record: ProofRecord) | Copy(target: Hash, from: PeerId)

  /** The stores after a piece of evidence, before anything is recomputed. */
  function Add(now: Int64, st: State, e: Evidence): State {
    match e
    case Proof(x, r) => UpdateProof(st, x, r)
    case Copy(x, from) => ObservePeer(now, st, x, from)
  }

  predicate Usable(st: State, e: Evidence) {
    e.Copy? ==> e.target in st.txStore
  }

  lemma AddReevidences(now: Int64, st: State, e: Evidence)
    requires Usable(st, e)
    ensures Reevidenced(st, Add(now, st, e), e.target)
  {
    hide Reevidenced, UpdateProof, ObservePeer;
    match e {
      case Proof(x, r) => ProofReevidences(st, x, r);
      case Copy(x, from) => ObserveReevidences(now, st, x, from);
    }
  }

  lemma AddKeepsMembersStored(now: Int64, st: State, e: Evidence)
    requires Usable(st, e) && MembersStored(st)
    ensures MembersStored(Add(now, st, e))
  {
    hide UpdateProof, ObservePeer;
    AddReevidences(now, st, e);
    hide Add, CandidateOf;
  }

  ghost function Absorb(env: Env, now: Int64, st: State, e: Evidence): State
    requires MembersStored(st) && Usable(st, e)
  {
    AddKeepsMembersStored(now, st, e);
    RecomputeTransfer(env, now, Add(now, st, e), e.target)
  }

  lemma AbsorbKeepsInv(env: Env, now: Int64, st: State, e: Evidence)
    requires Inv(env, st) && MembersStored(st) && Usable(st, e)
    ensures var r := Absorb(env, now, st, e); Inv(env, r) && MembersStored(r) && r.txStore.Keys == st.txStore.Keys
  {
    hide Inv, RecomputeTransfer, UpdateProof, ObservePeer, Reevidenced, MembersStored;
    AddReevidences(now, st, e);
    ReevidencedFields(st, Add(now, st, e), e.target);
    match e {
      case Proof(x, r) => ProofKeepsInv(env, now, st, x, r);
      case Copy(x, from) => CopyKeepsInv(env, now, st, x, from);
    }
    InvMembersStored(env, Absorb(env, now, st, e));
  }

  /** handleProofResponse absorbs a proof. */
  lemma ProofResponseAbsorbs(env: Env, tick: Tick, st: State, from: PeerId, m: Message)
    requires MembersStored(st) && DecodeProofPayload(m.payload).Ok?
    ensures var p := DecodeProofPayload(m.payload).value;
            var e := Proof(p.target, ProofRecord(from, p.seen, p.seenTime, p.conflict, p.distance));
            HandleProofResponse(env, tick, st, from, m) == (Absorb(env, tick.now, st, e), Nil)
  {
    hide DecodeProofPayload, RecomputeTransfer, UpdateProof, MembersStored;
  }

  /** handleTX on a valid copy of a stored transfer absorbs an observation and sends nothing. */
  lemma RepeatCopyAbsorbs(env: Env, tick: Tick, st: State, from: PeerId, m: Message)
    requires MembersStored(st) && DecodedTransfer(env, m.payload).Ok?
    requires var tx := DecodedTransfer(env, m.payload).value.0;
             tx.id in st.txStore && Validate(env, tick.now, st.valueStore, tx) == Nil
    ensures var e := Copy(DecodedTransfer(env, m.payload).value.0.id, from);
            HandleTx(env, tick, st, from, m) == (Absorb(env, tick.now, st, e), Nil)
  {
    DecodedTransferFacts(env, m.payload);
    hide DecodedTransfer, Validate, Normalize, RecomputeTransfer, ObservePeer, MembersStored, Insert;
  }

  // ---------------------------------------------------------------------------------------
  // Two pieces of evidence commute

  /** No two different proofs from the same sender about the same transfer. */
  predicate Compatible(d: Evidence, e: Evidence) {
    d == e || d.Copy? || e.Copy? || d.target != e.target || d.record.peer != e.record.peer
  }

  lemma AddsCommute(now: Int64, st: State, d: Evidence, e: Evidence)
    requires Usable(st, d) && Usable(st, e) && Compatible(d, e)
    ensures Add(now, Add(now, st, d), e) == Add(now, Add(now, st, e), d)
  {
    match (d, e) {
      case (Proof(x, r), Proof(y, s)) => ProofsCommute(st, x, r, y, s);
      case (Proof(x, r), Copy(y, q)) => ProofAndCopyCommute(now, st, x, r, y, q);
      case (Copy(x, p), Proof(y, s)) => ProofAndCopyCommute(now, st, y, s, x, p);
      case (Copy(x, p), Copy(y, q)) => CopiesCommute(now, st, x, p, y, q);
    }
  }

  lemma ProofsCommute(st: State, x: Hash, r: ProofRecord, y: Hash, s: ProofRecord)
    requires (x == y && r == s) || x != y || r.peer != s.peer
    ensures UpdateProof(UpdateProof(st, x, r), y, s) == UpdateProof(UpdateProof(st, y, s), x, r)
  {
    RecordsCommute(st.proofs, x, r, y, s);
  }

  function Recorded(proofs: map<Hash, Proofs>, x: Hash, r: ProofRecord): map<Hash, Proofs> {
    proofs[x := Lookup(proofs, x, map[])[r.peer := r]]
  }

  lemma RecordsCommute(proofs: map<Hash, Proofs>, x: Hash, r: ProofRecord, y: Hash, s: ProofRecord)
    requires (x == y && r == s) || x != y || r.peer != s.peer
    ensures Recorded(Recorded(proofs, x, r), y, s) == Recorded(Recorded(proofs, y, s), x, r)
  {
    var p: Proofs := Lookup(proofs, x, map[]);
    if x == y {
      assert p[r.peer := r][s.peer := s] == p[s.peer := s][r.peer := r];
    }
  }

  lemma ProofAndCopyCommute(now: Int64, st: State, x: Hash, r: ProofRecord, y: Hash, q: PeerId)
    ensures UpdateProof(ObservePeer(now, st, y, q), x, r) == ObservePeer(now, UpdateProof(st, x, r), y, q)
  {}

  lemma CopiesCommute(now: Int64, st: State, x: Hash, p: PeerId, y: Hash, q: PeerId)
    ensures ObservePeer(now, ObservePeer(now, st, x, p), y, q) == ObservePeer(now, ObservePeer(now, st, y, q), x, p)
  {
    hide Observed, ObservedInRecord;
    ObservedCommute(st.observations, x, p, y, q, now);
    ObservedInRecordCommute(st.txStore, x, p, y, q, now);
  }

  lemma ObservedCommute(m: map<Hash, map<PeerId, Int64>>, x: Hash, p: PeerId, y: Hash, q: PeerId, now: Int64)
    ensures Observed(Observed(m, x, p, now), y, q, now) == Observed(Observed(m, y, q, now), x, p, now)
  {
    if x == y {
      var peers: map<PeerId, Int64> := Lookup(m, x, map[]);
      assert peers[p := now][q := now] == peers[q := now][p := now];
    }
  }

  lemma ObservedInRecordCommute(m: map<Hash, TxRecord>, x: Hash, p: PeerId, y: Hash, q: PeerId, now: Int64)
    ensures ObservedInRecord(ObservedInRecord(m, x, p, now), y, q, now) == ObservedInRecord(ObservedInRecord(m, y, q, now), x, p, now)
  {
    if x == y && x in m {
      assert m[x].peers[p := now][q := now] == m[x].peers[q := now][p := now];
    }
  }

  /** Absorbing is adding and then deciding the target's inputs anew. */
  lemma AbsorbRefreshes(env: Env, now: Int64, st: State, e: Evidence)
    requires Inv(env, st) && MembersStored(st) && Usable(st, e)
    ensures Indexed(Add(now, st, e))
    ensures Refreshes(env, now, Add(now, st, e), InputSet(st, e.target), Absorb(env, now, st, e))
  {
    hide Cached, Numbered, Indexed, Evident, Addressed, Reevidenced, Refreshes, RecomputeTransfer, Add;
    AddReevidences(now, st, e);
    ReevidencedRecompute(env, now, st, Add(now, st, e), e.target);
  }

  /** Deciding `inputs` before more evidence arrives, and the inputs of that evidence after it, is
      deciding them all after both. */
  lemma RefreshAfterBoth(env: Env, now: Int64, b: State, mid: State, mid': State, both: State, r: State, x: Hash, inputs: set<Hash>)
    requires Indexed(b) && Refreshes(env, now, b, inputs, mid) && Indexed(both) && Reevidenced(b, both, x)
    requires mid' == both.(selected := mid.selected, finality := mid.finality) && Indexed(mid')
    requires Refreshes(env, now, mid', InputSet(b, x), r)
    ensures Refreshes(env, now, both, inputs + InputSet(b, x), r)
  {
    hide FinalityOf, EntryAt, CandidateOf, Touched, Indexed, Reevidenced, Refreshes;
    var more := InputSet(b, x);
    ShapeAfterBoth(env, now, b, mid, mid', both, r, x, inputs);
    MembersKnown(both);
    forall i | i in r.selected
      ensures r.selected[i] == if i in inputs + more then EntryAt(env, now, both, i) else both.selected[i]
    {
      DecidedAfterBoth(env, now, b, mid, mid', both, r, x, inputs, i);
    }
    forall y | y in r.finality
      ensures r.finality[y] == if y in Touched(both, inputs + more) then FinalityOf(env, now, r, y) else both.finality[y]
    {
      UpdatedAfterBoth(env, now, b, mid, mid', both, r, x, inputs, y);
    }
    RefreshesFrom(env, now, both, inputs + more, r);
  }

  lemma ShapeAfterBoth(env: Env, now: Int64, b: State, mid: State, mid': State, both: State, r: State, x: Hash, inputs: set<Hash>)
    requires Indexed(b) && Refreshes(env, now, b, inputs, mid) && Indexed(both) && Reevidenced(b, both, x)
    requires mid' == both.(selected := mid.selected, finality := mid.finality) && Indexed(mid')
    requires Refreshes(env, now, mid', InputSet(b, x), r)
    ensures inputs + InputSet(b, x) <= both.conflictSets.Keys
    ensures r == both.(selected := r.selected, finality := r.finality)
    ensures r.selected.Keys == both.selected.Keys + (inputs + InputSet(b, x))
    ensures r.finality.Keys == both.finality.Keys + Touched(both, inputs + InputSet(b, x))
  {
    hide Touched, Indexed, Reevidenced, Refreshes, InputSet;
    var more := InputSet(b, x);
    ReevidencedFields(b, both, x);
    TouchedAfterBoth(b, mid', both, x, inputs, more);
    RefreshedCaches(env, now, b, inputs, mid);
    RefreshedCaches(env, now, mid', more, r);
  }

  lemma TouchedAfterBoth(b: State, mid': State, both: State, x: Hash, inputs: set<Hash>, more: set<Hash>)
    requires Reevidenced(b, both, x) && mid'.txStore == both.txStore
    ensures Touched(both, inputs + more) == Touched(b, inputs) + Touched(mid', more)
  {
    hide Touched, Reevidenced;
    ReevidencedTouched(b, both, x, inputs);
    TouchedFrame(both, mid', more);
    TouchedUnion(both, inputs, more);
  }

  lemma DecidedAfterBoth(
      env: Env, now: Int64, b: State, mid: State, mid': State, both: State, r: State, x: Hash, inputs: set<Hash>, i: Hash)
    requires Indexed(b) && Refreshes(env, now, b, inputs, mid) && Indexed(both) && Reevidenced(b, both, x)
    requires mid' == both.(selected := mid.selected, finality := mid.finality) && Indexed(mid')
    requires Refreshes(env, now, mid', InputSet(b, x), r) && i in r.selected
    ensures i in inputs + InputSet(b, x) ==>
              && ConflictSet(both, i) != [] && (forall y <- ConflictSet(both, i) :: y in both.txStore)
              && r.selected[i] == EntryAt(env, now, both, i)
    ensures i !in inputs + InputSet(b, x) ==> i in both.selected && r.selected[i] == both.selected[i]
  {
    hide FinalityOf, EntryAt, CandidateOf, Touched, Indexed, Reevidenced, Refreshes;
    var more := InputSet(b, x);
    ReevidencedFields(b, both, x);
    RefreshedLineages(env, now, b, inputs, mid);
    RefreshedLineages(env, now, mid', more, r);
    MembersKnown(both);
    if i in more {
      IndexedEntryFrame(env, now, both, mid', i);
    } else if i in inputs {
      ReevidencedEntryAt(env, now, b, both, x, i);
    }
  }

  lemma UpdatedAfterBoth(
      env: Env, now: Int64, b: State, mid: State, mid': State, both: State, r: State, x: Hash, inputs: set<Hash>, y: Hash)
    requires Indexed(b) && Refreshes(env, now, b, inputs, mid) && Indexed(both) && Reevidenced(b, both, x)
    requires mid' == both.(selected := mid.selected, finality := mid.finality) && Indexed(mid')
    requires Refreshes(env, now, mid', InputSet(b, x), r) && y in r.finality
    ensures y in Touched(both, inputs + InputSet(b, x)) ==> y in r.txStore && r.finality[y] == FinalityOf(env, now, r, y)
    ensures y !in Touched(both, inputs + InputSet(b, x)) ==> y in both.finality && r.finality[y] == both.finality[y]
  {
    hide FinalityOf, EntryAt, CandidateOf, Touched, Indexed, Reevidenced, Refreshes;
    var more := InputSet(b, x);
    ReevidencedFields(b, both, x);
    ReevidencedTouched(b, both, x, inputs);
    TouchedFrame(both, mid', more);
    TouchedUnion(both, inputs, more);
    RefreshedCaches(env, now, mid', more, r);
    RefreshedAt(env, now, mid', more, r, y);
    RefreshedAt(env, now, b, inputs, mid, y);
    if y !in Touched(both, more) && y in Touched(both, inputs) {
      UntouchedFinality(env, now, b, mid, mid', both, r, x, y, inputs);
    }
  }

  lemma MembersKnown(st: State)
    requires Indexed(st)
    ensures forall i <- st.conflictSets :: ConflictSet(st, i) != [] && forall x <- ConflictSet(st, i) :: x in st.txStore
  {}

  lemma RefreshesFrom(env: Env, now: Int64, st: State, inputs: set<Hash>, r: State)
    requires Indexed(st) && inputs <= st.conflictSets.Keys
    requires r == st.(selected := r.selected, finality := r.finality)
    requires r.selected.Keys == st.selected.Keys + inputs && r.finality.Keys == st.finality.Keys + Touched(st, inputs)
    requires forall i <- r.selected :: r.selected[i] == if i in inputs then EntryAt(env, now, st, i) else st.selected[i]
    requires forall x <- r.finality ::
               r.finality[x] == if x in Touched(st, inputs) then FinalityOf(env, now, r, x) else st.finality[x]
    ensures Refreshes(env, now, st, inputs, r)
  {
    hide FinalityOf, EntryAt, Touched, Indexed;
  }

  lemma TouchedFrame(st: State, st': State, inputs: set<Hash>)
    requires st'.txStore == st.txStore
    ensures Touched(st', inputs) == Touched(st, inputs)
  {
    assert forall y, i | y in st.txStore :: InputsOf(st', y, i) == InputsOf(st, y, i);
  }

  lemma IndexedEntryFrame(env: Env, now: Int64, st: State, st': State, i: Hash)
    requires Indexed(st) && Indexed(st') && i in st.conflictSets && st' == st.(selected := st'.selected, finality := st'.finality)
    ensures EntryAt(env, now, st', i) == EntryAt(env, now, st, i)
  {
    hide EntryAt, CandidateOf, Touched, Indexed;
    ConflictSetTouched(st, i);
    forall y | y in ConflictSet(st, i) ensures CandidateOf(st, y) == CandidateOf(st', y) {
      SameEvidence(st, st', y);
    }
    EntryFrame(env, now, st, st', i);
  }

  lemma ReevidencedEntryAt(env: Env, now: Int64, st: State, st': State, x: Hash, i: Hash)
    requires Indexed(st) && Indexed(st') && Reevidenced(st, st', x) && i in st.conflictSets && i !in InputSet(st, x)
    ensures EntryAt(env, now, st', i) == EntryAt(env, now, st, i)
  {
    hide EntryAt, CandidateOf;
    forall y | y in ConflictSet(st, i) ensures y != x && y in st.txStore {
      assert InputsOf(st, y, i);
    }
    EntryFrame(env, now, st, st', i);
  }

  lemma UntouchedFinality(
      env: Env, now: Int64, b: State, mid: State, mid': State, both: State, r: State, x: Hash, y: Hash, inputs: set<Hash>)
    requires Indexed(b) && Refreshes(env, now, b, inputs, mid) && Reevidenced(b, both, x) && Indexed(mid')
    requires mid' == both.(selected := mid.selected, finality := mid.finality)
    requires Refreshes(env, now, mid', InputSet(b, x), r)
    requires y in Touched(both, inputs) && y !in Touched(both, InputSet(b, x))
    ensures y in r.finality && r.finality[y] == FinalityOf(env, now, r, y)
  {
    hide FinalityOf, EntryAt, Indexed, Refreshes, Reevidenced, Touched, CandidateOf;
    var more := InputSet(b, x);
    ReevidencedTouched(b, both, x, inputs);
    ReevidencedTouched(b, both, x, more);
    TouchedFrame(both, mid', more);
    ReevidencedFields(b, both, x);
    TargetTouched(b, x, more);
    ReevidencedOther(b, both, x, y);
    RefreshedAt(env, now, b, inputs, mid, y);
    RefreshedAt(env, now, mid', more, r, y);
    RefreshedLineages(env, now, b, inputs, mid);
    RefreshedLineages(env, now, mid', more, r);
    RefreshedCaches(env, now, b, inputs, mid);
    RefreshedCaches(env, now, mid', more, r);
    SameEvidence(b, mid, y);
    SameEvidence(mid', r, y);
    SameEvidence(both, mid', y);
    UntouchedInputs(both, more, y);
    FinalityFrame(env, now, mid, r, y);
  }

  lemma ReevidencedOther(st: State, st': State, x: Hash, y: Hash)
    requires Reevidenced(st, st', x) && y in st.txStore && y != x
    ensures y in st'.txStore && CandidateOf(st', y) == CandidateOf(st, y) && st'.txStore[y].tx == st.txStore[y].tx
  {
    hide CandidateOf;
  }

  lemma TargetTouched(st: State, x: Hash, inputs: set<Hash>)
    requires Indexed(st) && inputs == InputSet(st, x)
    ensures x in st.txStore ==> x in Touched(st, inputs)
  {
    if x in st.txStore {
      InputsIndexed(st, x);
    }
  }

  lemma AddIgnoresCaches(now: Int64, st: State, st': State, e: Evidence)
    requires st' == st.(selected := st'.selected, finality := st'.finality)
    ensures Add(now, st', e) == Add(now, st, e).(selected := st'.selected, finality := st'.finality)
  {
    hide UpdateProof, ObservePeer;
    match e {
      case Proof(x, r) => ProofIgnoresCaches(st, st', x, r);
      case Copy(x, from) => CopyIgnoresCaches(now, st, st', x, from);
    }
  }

  lemma ProofIgnoresCaches(st: State, st': State, x: Hash, r: ProofRecord)
    requires st' == st.(selected := st'.selected, finality := st'.finality)
    ensures UpdateProof(st', x, r) == UpdateProof(st, x, r).(selected := st'.selected, finality := st'.finality)
  {}

  lemma CopyIgnoresCaches(now: Int64, st: State, st': State, x: Hash, from: PeerId)
    requires st' == st.(selected := st'.selected, finality := st'.finality)
    ensures ObservePeer(now, st', x, from) == ObservePeer(now, st, x, from).(selected := st'.selected, finality := st'.finality)
  {
    hide Observed, ObservedInRecord;
  }

  /** Both pieces of evidence, in either order, refresh both targets' inputs over both. */
  lemma AbsorbBoth(env: Env, now: Int64, st: State, d: Evidence, e: Evidence)
    requires Inv(env, st) && MembersStored(st) && Usable(st, d) && Usable(st, e)
    ensures var mid := Absorb(env, now, st, d);
            && MembersStored(mid) && Usable(mid, e) && Indexed(Add(now, Add(now, st, d), e))
            && Refreshes(env, now, Add(now, Add(now, st, d), e), InputSet(st, d.target) + InputSet(st, e.target), Absorb(env, now, mid, e))
  {
    hide Cached, Numbered, Indexed, Evident, Addressed, Reevidenced, Refreshes, RecomputeTransfer, Add, Absorb;
    hide MembersStored;
    AbsorbKeepsInv(env, now, st, d);
    var b, mid := Add(now, st, d), Absorb(env, now, st, d);
    AbsorbRefreshes(env, now, st, d);
    RefreshedCaches(env, now, b, InputSet(st, d.target), mid);
    AddReevidences(now, st, d);
    ReevidencedInputs(st, b, d.target, e.target);
    AbsorbRefreshes(env, now, mid, e);
    AddReevidences(now, b, e);
    ReevidencedIndexed(b, Add(now, b, e), e.target);
    AddIgnoresCaches(now, b, mid, e);
    RefreshAfterBoth(env, now, b, mid, Add(now, mid, e), Add(now, b, e), Absorb(env, now, mid, e), e.target, InputSet(st, d.target));
  }

  lemma ReevidencedInputs(st: State, st': State, x: Hash, y: Hash)
    requires Reevidenced(st, st', x)
    ensures InputSet(st', y) == InputSet(st, y) && st'.txStore.Keys == st.txStore.Keys
  {
    hide CandidateOf;
  }

  lemma AbsorbsCommute(env: Env, now: Int64, st: State, d: Evidence, e: Evidence)
    requires Inv(env, st) && MembersStored(st) && Usable(st, d) && Usable(st, e) && Compatible(d, e)
    ensures var a, b := Absorb(env, now, st, d), Absorb(env, now, st, e);
            && MembersStored(a) && Usable(a, e) && MembersStored(b) && Usable(b, d)
            && Absorb(env, now, a, e) == Absorb(env, now, b, d)
  {
    hide Inv, Refreshes, Indexed, Absorb, Add, MembersStored;
    AbsorbBoth(env, now, st, d, e);
    AbsorbBoth(env, now, st, e, d);
    AddsCommute(now, st, d, e);
    assert InputSet(st, d.target) + InputSet(st, e.target) == InputSet(st, e.target) + InputSet(st, d.target);
    var both := Add(now, Add(now, st, d), e);
    RefreshesUnique(env, now, both, InputSet(st, d.target) + InputSet(st, e.target),
      Absorb(env, now, Absorb(env, now, st, d), e), Absorb(env, now, Absorb(env, now, st, e), d));
  }

  /** With two different proofs from one sender about one transfer the last one stands. */
  lemma LastProofWins(env: Env, now: Int64, st: State, x: Hash, r: ProofRecord, s: ProofRecord)
    requires Inv(env, st) && MembersStored(st) && r.peer == s.peer
    ensures var mid := Absorb(env, now, st, Proof(x, r));
            MembersStored(mid) && ProofsOf(Absorb(env, now, mid, Proof(x, s)), x) == ProofsOf(st, x)[s.peer := s]
  {
    hide Inv, MembersStored, Absorb, UpdateProof;
    AbsorbKeepsInv(env, now, st, Proof(x, r));
    var mid := Absorb(env, now, st, Proof(x, r));
    ProofAbsorbed(env, now, st, x, r);
    ProofAbsorbed(env, now, mid, x, s);
    assert ProofsOf(st, x)[r.peer := r][s.peer := s] == ProofsOf(st, x)[s.peer := s];
  }

  lemma ProofAbsorbed(env: Env, now: Int64, st: State, x: Hash, r: ProofRecord)
    requires MembersStored(st)
    ensures ProofsOf(Absorb(env, now, st, Proof(x, r)), x) == ProofsOf(st, x)[r.peer := r]
  {
    hide MembersStored, RecomputeTransfer;
    AddKeepsMembersStored(now, st, Proof(x, r));
  }

  /** Handling two pieces of evidence in either order gives one state if and only if they are not two
      different proofs from one sender about one transfer. */
  lemma CommuteIffCompatible(env: Env, now: Int64, st: State, d: Evidence, e: Evidence)
    requires Inv(env, st) && MembersStored(st) && Usable(st, d) && Usable(st, e)
    ensures var a, b := Absorb(env, now, st, d), Absorb(env, now, st, e);
            && MembersStored(a) && Usable(a, e) && MembersStored(b) && Usable(b, d)
            && (Absorb(env, now, a, e) == Absorb(env, now, b, d) <==> Compatible(d, e))
  {
    hide Inv, MembersStored, Absorb;
    AbsorbKeepsInv(env, now, st, d);
    AbsorbKeepsInv(env, now, st, e);
    if Compatible(d, e) {
      AbsorbsCommute(env, now, st, d, e);
    } else {
      LastProofWins(env, now, st, d.target, d.record, e.record);
      LastProofWins(env, now, st, d.target, e.record, d.record);
      assert ProofsOf(st, d.target)[e.record.peer := e.record][e.record.peer] == e.record;
      assert ProofsOf(st, d.target)[d.record.peer := d.record][d.record.peer] == d.record;
    }
  }

  // ---------------------------------------------------------------------------------------
  // Whole batches

  predicate AllUsable(st: State, batch: seq<Evidence>) {
    forall e <- batch :: Usable(st, e)
  }

  ghost predicate AllCompatible(batch: seq<Evidence>) {
    forall d <- batch, e <- batch :: Compatible(d, e)
  }

  ghost function AbsorbAll(env: Env, now: Int64, st: State, batch: seq<Evidence>): State
    requires Inv(env, st) && MembersStored(st) && AllUsable(st, batch)
    decreases |batch|
  {
    if batch == [] then st
    else
      hide Inv, Absorb, MembersStored, Usable;
      AbsorbKeepsInv(env, now, st, batch[0]);
      SameUsable(st, Absorb(env, now, st, batch[0]));
      AbsorbAll(env, now, Absorb(env, now, st, batch[0]), batch[1..])
  }

  /** The k-th piece of evidence might as well have come first. */
  lemma {:induction false} MoveToFront(env: Env, now: Int64, st: State, batch: seq<Evidence>, k: nat)
    requires Inv(env, st) && MembersStored(st) && AllUsable(st, batch) && AllCompatible(batch) && k < |batch|
    ensures AllUsable(st, [batch[k]] + (batch[..k] + batch[k + 1..]))
    ensures AbsorbAll(env, now, st, batch) == AbsorbAll(env, now, st, [batch[k]] + (batch[..k] + batch[k + 1..]))
    decreases |batch|
  {
    hide Inv, Absorb, Usable, Compatible, MembersStored;
    var moved := [batch[k]] + (batch[..k] + batch[k + 1..]);
    if k == 0 {
      assert moved == batch;
    } else {
      var first, e, rest := batch[0], batch[k], batch[1..];
      assert forall c <- rest :: c in batch;
      AbsorbKeepsInv(env, now, st, first);
      AbsorbKeepsInv(env, now, st, e);
      var st1, st2 := Absorb(env, now, st, first), Absorb(env, now, st, e);
      SameUsable(st, st1);
      SameUsable(st, st2);
      MoveToFront(env, now, st1, rest, k - 1);
      var others := rest[..k - 1] + rest[k..];
      assert batch[..k] + batch[k + 1..] == [first] + others;
      AbsorbsCommute(env, now, st, first, e);
      AbsorbAllTwo(env, now, st, e, first, others);
      assert rest[k - 1] == e && ([e] + others)[1..] == others;
    }
  }

  lemma SameUsable(st: State, st': State)
    requires st'.txStore.Keys == st.txStore.Keys
    ensures forall e :: Usable(st', e) <==> Usable(st, e)
  {}

  lemma AbsorbAllFirst(env: Env, now: Int64, st: State, e: Evidence, rest: seq<Evidence>)
    requires Inv(env, st) && MembersStored(st) && AllUsable(st, [e] + rest)
    ensures Usable(st, e)
    ensures var next := Absorb(env, now, st, e);
            && Inv(env, next) && MembersStored(next) && AllUsable(next, rest)
            && AbsorbAll(env, now, st, [e] + rest) == AbsorbAll(env, now, next, rest)
  {
    hide Inv, Absorb, Usable, MembersStored;
    var all := [e] + rest;
    assert all[0] == e && all[1..] == rest && e in all && forall c <- rest :: c in all;
    AbsorbKeepsInv(env, now, st, e);
    SameUsable(st, Absorb(env, now, st, e));
  }

  lemma AbsorbAllTwo(env: Env, now: Int64, st: State, d: Evidence, e: Evidence, rest: seq<Evidence>)
    requires Inv(env, st) && MembersStored(st) && AllUsable(st, [d] + ([e] + rest))
    ensures Usable(st, d)
    ensures var a := Absorb(env, now, st, d);
            && Inv(env, a) && MembersStored(a) && Usable(a, e)
            && (var b := Absorb(env, now, a, e);
                && Inv(env, b) && MembersStored(b) && AllUsable(b, rest)
                && AbsorbAll(env, now, st, [d] + ([e] + rest)) == AbsorbAll(env, now, b, rest))
  {
    hide Inv, Absorb, Usable, MembersStored;
    AbsorbAllFirst(env, now, st, d, [e] + rest);
    AbsorbAllFirst(env, now, Absorb(env, now, st, d), e, rest);
  }

  lemma WithoutFirst<T>(a: seq<T>, b: seq<T>, k: nat)
    requires a != [] && k < |b| && b[k] == a[0] && multiset(a) == multiset(b)
    ensures multiset(a[1..]) == multiset(b[..k] + b[k + 1..])
  {
    var head, before, after := a[0], b[..k], b[k + 1..];
    assert a == [head] + a[1..];
    assert multiset(a) == multiset{head} + multiset(a[1..]);
    assert b == before + ([head] + after);
    assert multiset(b) == multiset(before) + (multiset{head} + multiset(after));
    assert multiset(before + after) == multiset(before) + multiset(after);
    CancelOne(head, multiset(a[1..]), multiset(before + after));
  }

  lemma CancelOne<T>(x: T, m: multiset<T>, n: multiset<T>)
    requires multiset{x} + m == multiset{x} + n
    ensures m == n
  {
    forall y ensures m[y] == n[y] {
      assert (multiset{x} + m)[y] == (multiset{x} + n)[y];
    }
  }

  /** Confluence: every delivery order of a compatible batch ends in the same state. */
  lemma {:induction false} AnyOrder(env: Env, now: Int64, st: State, a: seq<Evidence>, b: seq<Evidence>)
    requires Inv(env, st) && MembersStored(st) && AllUsable(st, a) && AllCompatible(a) && multiset(a) == multiset(b)
    ensures AllUsable(st, b) && AbsorbAll(env, now, st, a) == AbsorbAll(env, now, st, b)
    decreases |a|
  {
    hide Inv, Absorb, Usable, Compatible, MembersStored;
    forall e | e in b ensures e in a {
      assert e in multiset(b);
    }
    if a == [] {
      assert |multiset(b)| == 0 && b == [];
      assert a == b;
    } else {
      assert a[0] in multiset(b);
      var k :| 0 <= k < |b| && b[k] == a[0];
      MoveToFront(env, now, st, b, k);
      var others := b[..k] + b[k + 1..];
      WithoutFirst(a, b, k);
      AbsorbKeepsInv(env, now, st, a[0]);
      var next := Absorb(env, now, st, a[0]);
      SameUsable(st, next);
      assert forall e <- a[1..] :: e in a;
      AnyOrder(env, now, next, a[1..], others);
      AbsorbAllFirst(env, now, st, a[0], others);
      AbsorbAllFirst(env, now, st, a[0], a[1..]);
      assert a == [a[0]] + a[1..];
    }
  }

  // ---------------------------------------------------------------------------------------
  // Whole batches of messages

  lemma UpdateFinalityIgnoresSeen(env: Env, now: Int64, st: State, seen: Seen, x: Hash)
    ensures UpdateFinality(env, now, st.(seen := seen), x) == UpdateFinality(env, now, st, x).(seen := seen)
  {
    hide FinalityOf;
    if x in st.txStore {
      FinalityFrame(env, now, st, st.(seen := seen), x);
    }
  }

  lemma {:induction false} UpdateFinalitiesIgnoreSeen(env: Env, now: Int64, st: State, seen: Seen, xs: seq<Hash>)
    ensures UpdateFinalities(env, now, st.(seen := seen), xs) == UpdateFinalities(env, now, st, xs).(seen := seen)
  {
    hide UpdateFinality;
    if xs != [] {
      UpdateFinalitiesIgnoreSeen(env, now, st, seen, xs[..|xs| - 1]);
      UpdateFinalityIgnoresSeen(env, now, UpdateFinalities(env, now, st, xs[..|xs| - 1]), seen, xs[|xs| - 1]);
    }
  }

  lemma RecomputeInputIgnoresSeen(env: Env, now: Int64, st: State, seen: Seen, i: Hash)
    requires MembersStored(st)
    ensures MembersStored(st.(seen := seen))
    ensures RecomputeInput(env, now, st.(seen := seen), i) == RecomputeInput(env, now, st, i).(seen := seen)
  {
    hide UpdateFinalities, EntryAt;
    SameMembersStored(st, st.(seen := seen));
    if ConflictSet(st, i) != [] {
      EntryFrame(env, now, st, st.(seen := seen), i);
      var decided := st.(selected := st.selected[i := EntryAt(env, now, st, i)]);
      UpdateFinalitiesIgnoreSeen(env, now, decided, seen, ConflictSet(st, i));
    }
  }

  lemma {:induction false} RecomputeInputsIgnoreSeen(env: Env, now: Int64, st: State, seen: Seen, inputs: seq<Hash>)
    requires MembersStored(st)
    ensures MembersStored(st.(seen := seen))
    ensures RecomputeInputs(env, now, st.(seen := seen), inputs) == RecomputeInputs(env, now, st, inputs).(seen := seen)
  {
    hide RecomputeInput, MembersStored;
    SameMembersStored(st, st.(seen := seen));
    if inputs != [] {
      var init, last := inputs[..|inputs| - 1], inputs[|inputs| - 1];
      RecomputeInputsIgnoreSeen(env, now, st, seen, init);
      var mid := RecomputeInputs(env, now, st, init);
      SameMembersStored(st, mid);
      RecomputeInputIgnoresSeen(env, now, mid, seen, last);
    }
  }

  lemma AbsorbIgnoresSeen(env: Env, now: Int64, st: State, seen: Seen, e: Evidence)
    requires MembersStored(st) && Usable(st, e)
    ensures MembersStored(st.(seen := seen)) && Usable(st.(seen := seen), e)
    ensures Absorb(env, now, st.(seen := seen), e) == Absorb(env, now, st, e).(seen := seen)
  {
    hide RecomputeInputs, MembersStored, UpdateFinality, Add;
    SameMembersStored(st, st.(seen := seen));
    AddKeepsMembersStored(now, st, e);
    AddIgnoresSeen(now, st, seen, e);
    var b := Add(now, st, e);
    if e.target in b.txStore {
      var inputs := b.txStore[e.target].tx.inputs;
      RecomputeInputsIgnoreSeen(env, now, b, seen, inputs);
      UpdateFinalityIgnoresSeen(env, now, RecomputeInputs(env, now, b, inputs), seen, e.target);
    }
  }

  lemma AddIgnoresSeen(now: Int64, st: State, seen: Seen, e: Evidence)
    ensures Add(now, st.(seen := seen), e) == Add(now, st, e).(seen := seen)
  {
    hide UpdateProof, ObservePeer;
    match e {
      case Proof(x, r) => ProofIgnoresSeen(st, seen, x, r);
      case Copy(x, from) => CopyIgnoresSeen(now, st, seen, x, from);
    }
  }

  lemma ProofIgnoresSeen(st: State, seen: Seen, x: Hash, r: ProofRecord)
    ensures UpdateProof(st.(seen := seen), x, r) == UpdateProof(st, x, r).(seen := seen)
  {}

  lemma CopyIgnoresSeen(now: Int64, st: State, seen: Seen, x: Hash, from: PeerId)
    ensures ObservePeer(now, st.(seen := seen), x, from) == ObservePeer(now, st, x, from).(seen := seen)
  {
    hide Observed, ObservedInRecord;
  }

  lemma {:induction false} AbsorbAllIgnoresSeen(env: Env, now: Int64, st: State, seen: Seen, batch: seq<Evidence>)
    requires Inv(env, st) && MembersStored(st) && AllUsable(st, batch)
    ensures Inv(env, st.(seen := seen)) && MembersStored(st.(seen := seen)) && AllUsable(st.(seen := seen), batch)
    ensures AbsorbAll(env, now, st.(seen := seen), batch) == AbsorbAll(env, now, st, batch).(seen := seen)
    decreases |batch|
  {
    hide Inv, MembersStored, Absorb, SameCore, Usable;
    SeenKeepsInv(env, st, seen);
    SameUsable(st, st.(seen := seen));
    if batch != [] {
      AbsorbIgnoresSeen(env, now, st, seen, batch[0]);
      AbsorbKeepsInv(env, now, st, batch[0]);
      SameUsable(st, Absorb(env, now, st, batch[0]));
      AbsorbAllIgnoresSeen(env, now, Absorb(env, now, st, batch[0]), seen, batch[1..]);
    }
  }

  lemma SeenKeepsInv(env: Env, st: State, seen: Seen)
    requires Inv(env, st)
    ensures Inv(env, st.(seen := seen)) && MembersStored(st.(seen := seen))
  {
    hide Inv, MembersStored;
    SameCoreKeepsInv(env, st, st.(seen := seen));
    InvMembersStored(env, st.(seen := seen));
  }

  datatype Delivery = Delivery(from: PeerId, message: Message)

  /** A PROOF_RESP, or a valid copy of a transfer that is already stored. */
  ghost predicate IsEvidence(env: Env, now: Int64, st: State, d: Delivery) {
    || (d.message.typ == PROOF_RESP && DecodeProofPayload(d.message.payload).Ok?)
    || (d.message.typ == TX && DecodedTransfer(env, d.message.payload).Ok?
        && DecodedTransfer(env, d.message.payload).value.0.id in st.txStore
        && Validate(env, now, st.valueStore, DecodedTransfer(env, d.message.payload).value.0) == Nil)
  }

  function EvidenceOf(env: Env, d: Delivery): Evidence {
    if d.message.typ == TX && DecodedTransfer(env, d.message.payload).Ok? then
      Copy(DecodedTransfer(env, d.message.payload).value.0.id, d.from)
    else if DecodeProofPayload(d.message.payload).Ok? then
      var p := DecodeProofPayload(d.message.payload).value;
      Proof(p.target, ProofRecord(d.from, p.seen, p.seenTime, p.conflict, p.distance))
    else Copy(0, [])
  }

  function AllEvidence(env: Env, ds: seq<Delivery>): seq<Evidence> {
    seq(|ds|, i requires 0 <= i < |ds| => EvidenceOf(env, ds[i]))
  }

  /** All of it is evidence, under message IDs that are new and all different. */
  ghost predicate Batch(env: Env, now: Int64, st: State, ds: seq<Delivery>) {
    && (forall d <- ds :: IsEvidence(env, now, st, d) && d.message.messageId !in st.seen)
    && (forall i, j | 0 <= i < j < |ds| :: ds[i].message.messageId != ds[j].message.messageId)
  }

  ghost function DeliverAll(env: Env, tick: Tick, st: State, ds: seq<Delivery>): State
    requires Inv(env, st) && MembersStored(st)
    decreases |ds|
  {
    if ds == [] then st
    else
      hide Inv, MembersStored, OnMessage;
      OnMessageKeepsInv(env, tick, st, ds[0].from, ds[0].message);
      var next := OnMessage(env, tick, st, ds[0].from, ds[0].message).0;
      InvMembersStored(env, next);
      DeliverAll(env, tick, next, ds[1..])
  }

  lemma DeliveryAbsorbs(env: Env, tick: Tick, st: State, d: Delivery)
    requires MembersStored(st) && IsEvidence(env, tick.now, st, d) && d.message.messageId !in st.seen
    ensures Usable(st, EvidenceOf(env, d))
    ensures OnMessage(env, tick, st, d.from, d.message).0
         == Absorb(env, tick.now, st, EvidenceOf(env, d)).(seen := Mark(tick, st, d.message.messageId).seen)
  {
    hide MembersStored, Validate, DecodedTransfer, DecodeProofPayload, Absorb, HandleTx, HandleProofResponse;
    var marked, e := Mark(tick, st, d.message.messageId), EvidenceOf(env, d);
    AbsorbIgnoresSeen(env, tick.now, st, marked.seen, e);
    if d.message.typ == TX {
      RepeatCopyAbsorbs(env, tick, marked, d.from, d.message);
    } else {
      ProofResponseAbsorbs(env, tick, marked, d.from, d.message);
    }
  }

  lemma AbsorbLeaves(env: Env, now: Int64, st: State, e: Evidence)
    requires MembersStored(st) && Usable(st, e)
    ensures Absorb(env, now, st, e).valueStore == st.valueStore && Absorb(env, now, st, e).txStore.Keys == st.txStore.Keys
  {
    hide MembersStored, RecomputeTransfer;
    AddKeepsMembersStored(now, st, e);
  }

  lemma BatchRest(env: Env, tick: Tick, st: State, next: State, ds: seq<Delivery>)
    requires ds != [] && Batch(env, tick.now, st, ds)
    requires next.valueStore == st.valueStore && next.txStore.Keys == st.txStore.Keys
    requires next.seen == Mark(tick, st, ds[0].message.messageId).seen
    ensures Batch(env, tick.now, next, ds[1..])
  {
    hide Validate, DecodedTransfer, DecodeProofPayload;
    forall d | d in ds[1..] ensures IsEvidence(env, tick.now, next, d) && d.message.messageId !in next.seen {
      var j :| 0 <= j < |ds[1..]| && ds[1..][j] == d;
      assert ds[j + 1] == d && IsEvidence(env, tick.now, st, d);
    }
  }

  /** Delivering a batch absorbs its evidence in that order; only the replay cache changes besides. */
  lemma {:induction false} DeliverAllAbsorbs(env: Env, tick: Tick, st: State, ds: seq<Delivery>)
    requires Inv(env, st) && MembersStored(st) && Batch(env, tick.now, st, ds)
    ensures AllUsable(st, AllEvidence(env, ds))
    ensures var r := DeliverAll(env, tick, st, ds);
            r == AbsorbAll(env, tick.now, st, AllEvidence(env, ds)).(seen := r.seen)
    decreases |ds|
  {
    hide Inv, MembersStored, Absorb, OnMessage, EvidenceOf, IsEvidence, Usable, Mark;
    forall d | d in ds ensures Usable(st, EvidenceOf(env, d)) {
      DeliveryAbsorbs(env, tick, st, d);
    }
    if ds != [] {
      var d, e := ds[0], EvidenceOf(env, ds[0]);
      DeliveryAbsorbs(env, tick, st, d);
      AbsorbKeepsInv(env, tick.now, st, e);
      AbsorbLeaves(env, tick.now, st, e);
      var absorbed, next := Absorb(env, tick.now, st, e), OnMessage(env, tick, st, d.from, d.message).0;
      OnMessageKeepsInv(env, tick, st, d.from, d.message);
      InvMembersStored(env, next);
      BatchRest(env, tick, st, next, ds);
      DeliverAllAbsorbs(env, tick, next, ds[1..]);
      var rest := AllEvidence(env, ds[1..]);
      assert AllEvidence(env, ds) == [e] + rest;
      AbsorbAllFirst(env, tick.now, st, e, rest);
      AbsorbAllIgnoresSeen(env, tick.now, absorbed, next.seen, rest);
    }
  }

  lemma {:induction false} SameEvidenceBag(env: Env, a: seq<Delivery>, b: seq<Delivery>)
    requires multiset(a) == multiset(b)
    ensures multiset(AllEvidence(env, a)) == multiset(AllEvidence(env, b))
    decreases |a|
  {
    hide EvidenceOf;
    if a == [] {
      assert |multiset(b)| == 0 && b == [];
    } else {
      assert a[0] in multiset(b);
      var k :| 0 <= k < |b| && b[k] == a[0];
      WithoutFirst(a, b, k);
      SameEvidenceBag(env, a[1..], b[..k] + b[k + 1..]);
      EvidenceSplit(env, a, 0);
      EvidenceSplit(env, b, k);
      assert a[..0] + a[1..] == a[1..];
    }
  }

  lemma EvidenceSplit(env: Env, ds: seq<Delivery>, k: nat)
    requires k < |ds|
    ensures multiset(AllEvidence(env, ds)) == multiset{EvidenceOf(env, ds[k])} + multiset(AllEvidence(env, ds[..k] + ds[k + 1..]))
  {
    hide EvidenceOf;
    var es, before, after := AllEvidence(env, ds), AllEvidence(env, ds[..k]), AllEvidence(env, ds[k + 1..]);
    assert es == before + ([EvidenceOf(env, ds[k])] + after);
    assert AllEvidence(env, ds[..k] + ds[k + 1..]) == before + after;
  }

  lemma BatchInAnyOrder(env: Env, now: Int64, st: State, a: seq<Delivery>, b: seq<Delivery>)
    requires Batch(env, now, st, a) && multiset(a) == multiset(b)
    ensures Batch(env, now, st, b)
  {
    hide IsEvidence;
    forall d | d in b ensures d in a {
      assert d in multiset(b);
    }
    forall i, j | 0 <= i < j < |b| ensures b[i].message.messageId != b[j].message.messageId {
      if b[i].message.messageId == b[j].message.messageId {
        assert b[i] in a && b[j] in a;
        var x :| 0 <= x < |a| && a[x] == b[i];
        var y :| 0 <= y < |a| && a[y] == b[j];
        TwiceInMultiset(b, i, j);
        DeliveredOnce(a, x);
      }
    }
  }

  lemma DeliveredOnce(ds: seq<Delivery>, i: nat)
    requires i < |ds| && forall j, k | 0 <= j < k < |ds| :: ds[j].message.messageId != ds[k].message.messageId
    ensures multiset(ds)[ds[i]] == 1
  {
    assert ds == ds[..i] + [ds[i]] + ds[i + 1..];
    assert ds[i] !in multiset(ds[..i]) && ds[i] !in multiset(ds[i + 1..]);
  }

  /** Confluence: proofs from different senders and repeat copies, received at one clock value under
      new message IDs, leave the same stores and caches whatever the order they arrive in. */
  lemma MessagesInAnyOrder(env: Env, tick: Tick, st: State, a: seq<Delivery>, b: seq<Delivery>)
    requires Inv(env, st) && MembersStored(st) && multiset(a) == multiset(b)
    requires Batch(env, tick.now, st, a) && AllCompatible(AllEvidence(env, a))
    ensures var r, q := DeliverAll(env, tick, st, a), DeliverAll(env, tick, st, b); r == q.(seen := r.seen)
  {
    hide Inv, MembersStored, IsEvidence, EvidenceOf, Usable, Compatible;
    BatchInAnyOrder(env, tick.now, st, a, b);
    DeliverAllAbsorbs(env, tick, st, a);
    DeliverAllAbsorbs(env, tick, st, b);
    SameEvidenceBag(env, a, b);
    AnyOrder(env, tick.now, st, AllEvidence(env, a), AllEvidence(env, b));
  }
}
