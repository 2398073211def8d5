/** What the invariant says about every reachable state of one node. */
module Promises {
  import opened Bytes
  import opened Crypto
  import opened Replay
  import opened Selection
  import opened NodeState
  import opened Coherence
  import opened Invariants
  import opened Runs

  // ---------------------------------------------------------------------------------------
  // Conflict sets

  lemma CandidatesInOrder(st: State, xs: seq<Hash>)
    requires InOrder(st, xs)
    ensures InArrivalOrder(Candidates(st, xs)) && DistinctIDs(Candidates(st, xs))
  {}

  lemma SharedInput(st: State, x: Hash, i: Hash)
    requires Indexed(st) && Numbered(st) && x in st.txStore && i in st.txStore[x].tx.inputs
    ensures |ConflictSet(st, i)| > 1 <==> exists y :: y != x && y in st.txStore && i in st.txStore[y].tx.inputs
  {
    assert InputsOf(st, x, i);
    var xs := st.conflictSets[i];
    assert InOrder(st, xs);
    if |xs| > 1 {
      var y := if xs[0] == x then xs[1] else xs[0];
      assert y in xs && InputsOf(st, y, i);
    }
    if y :| y != x && y in st.txStore && i in st.txStore[y].tx.inputs {
      assert InputsOf(st, y, i);
      var a :| 0 <= a < |xs| && xs[a] == x;
      var b :| 0 <= b < |xs| && xs[b] == y;
    }
  }

  /** In arrival order and without repeats, so that ranking by arrival is the identity. */
  ghost predicate Ranked(st: State, xs: seq<Hash>) {
    InOrder(st, xs) && NoDuplicates(xs) && RankByArrival(Candidates(st, xs)) == Candidates(st, xs)
  }

  /** The conflict sets list exactly the stored transfers that spend each input, once each and in
      arrival order, so ranking by arrival is the identity on them; hasConflict is right. */
  lemma ConflictSetsExact(env: Env, events: seq<Event>)
    ensures var st := Run(env, events);
            && (forall i, x :: x in ConflictSet(st, i) <==> x in st.txStore && i in st.txStore[x].tx.inputs)
            && (forall i <- st.conflictSets :: Ranked(st, st.conflictSets[i]))
            && (forall x <- st.txStore :: HasConflict(st, x) <==>
                  exists y, i :: y != x && y in st.txStore && i in st.txStore[x].tx.inputs && i in st.txStore[y].tx.inputs)
            && st.arrivalSeq == |st.txStore|
  {
    hide Cached, Evident, Addressed, Run;
    var st := Run(env, events);
    forall i, x ensures x in ConflictSet(st, i) <==> x in st.txStore && i in st.txStore[x].tx.inputs {
      MemberIff(st, i, x);
    }
    forall i | i in st.conflictSets ensures Ranked(st, st.conflictSets[i]) {
      RankedSet(st, st.conflictSets[i]);
    }
    forall x | x in st.txStore
      ensures HasConflict(st, x) <==>
              exists y, i :: y != x && y in st.txStore && i in st.txStore[x].tx.inputs && i in st.txStore[y].tx.inputs
    {
      forall i | i in st.txStore[x].tx.inputs
        ensures |ConflictSet(st, i)| > 1 <==> exists y :: y != x && y in st.txStore && i in st.txStore[y].tx.inputs
      {
        SharedInput(st, x, i);
      }
    }
  }

  lemma MemberIff(st: State, i: Hash, x: Hash)
    requires Indexed(st)
    ensures x in ConflictSet(st, i) <==> x in st.txStore && i in st.txStore[x].tx.inputs
  {
    assert x in st.txStore ==> (InputsOf(st, x, i) <==> i in st.txStore[x].tx.inputs);
  }

  lemma RankedSet(st: State, xs: seq<Hash>)
    requires InOrder(st, xs)
    ensures Ranked(st, xs)
  {
    CandidatesInOrder(st, xs);
    RankIsIdentity(Candidates(st, xs));
  }

  // ---------------------------------------------------------------------------------------
  // Caches

  /** The inputs with a selected lineage are those with a conflict set, and each lineage is the
      from-scratch choice over the current stores and evidence at the time it carries. */
  ghost predicate SelectionCoherent(env: Env, st: State) {
    && st.selected.Keys == st.conflictSets.Keys
    && forall i <- st.conflictSets ::
         && st.conflictSets[i] != [] && (forall x <- st.conflictSets[i] :: x in st.txStore)
         && var best := SelectBest(env.log, st.selected[i].updatedAt, Candidates(st, st.conflictSets[i]));
            st.selected[i].txID == best.txID && st.selected[i].score == best.score
  }

  lemma InvCoherent(env: Env, st: State)
    requires Inv(env, st)
    ensures SelectionCoherent(env, st)
  {
    hide Numbered, Evident, Addressed, SelectBest;
    forall i | i in st.conflictSets
      ensures st.conflictSets[i] != [] && (forall x <- st.conflictSets[i] :: x in st.txStore)
      ensures var best := SelectBest(env.log, st.selected[i].updatedAt, Candidates(st, st.conflictSets[i]));
              st.selected[i].txID == best.txID && st.selected[i].score == best.score
    {
      assert EntryFresh(env, st, i);
    }
  }

  ghost predicate SelectedOnAll(st: State, x: Hash)
    requires x in st.txStore
  {
    forall i <- st.txStore[x].tx.inputs :: i in st.selected && st.selected[i].txID == x
  }

  lemma StatusOf(env: Env, now: Int64, st: State, x: Hash)
    requires x in st.txStore && st.txStore[x].tx.inputs != []
    ensures var f, inputs := FinalityOf(env, now, st, x), st.txStore[x].tx.inputs;
            && (f.status != PENDING <==> SelectedOnAll(st, x))
            && (SelectedOnAll(st, x) ==> f.score == st.selected[inputs[|inputs| - 1]].score)
            && (f.status == FINAL <==> SelectedOnAll(st, x) && f.confidence >= Threshold(TransferAmount(st.txStore[x].tx.outputs)))
            && (f.status == PENDING ==> f.confidence == 0.0)
            && (f.status != PENDING ==> f.confidence == Confidence(env.log, now, CandidateOf(st, x)))
  {
    hide Confidence, CandidateOf, Threshold, TransferAmount, ScanInputs;
    ScanSelected(st.selected, x, st.txStore[x].tx.inputs, 0.0);
  }

  /** The from-scratch entry that a cached finality entry equals. */
  lemma FinalityTime(env: Env, st: State, x: Hash) returns (now: Int64)
    requires Inv(env, st) && x in st.txStore
    ensures st.txStore[x].tx.inputs != [] && x in st.finality && st.finality[x] == FinalityOf(env, now, st, x)
  {
    hide Numbered, Evident, Addressed, FinalityOf, EntryFresh;
    assert FinalityFresh(env, st, x);
    var i :| InputsOf(st, x, i) && i in st.selected && st.finality[x] == FinalityOf(env, st.selected[i].updatedAt, st, x);
    now := st.selected[i].updatedAt;
  }

  lemma StatusFromLineage(env: Env, st: State, x: Hash)
    requires Inv(env, st) && x in st.txStore
    ensures x in st.finality && (st.finality[x].status != PENDING <==> SelectedOnAll(st, x))
    ensures SelectedOnAll(st, x) ==>
              var inputs := st.txStore[x].tx.inputs;
              inputs != [] && inputs[|inputs| - 1] in st.selected && st.finality[x].score == st.selected[inputs[|inputs| - 1]].score
  {
    hide Inv, FinalityOf;
    var now := FinalityTime(env, st, x);
    StatusOf(env, now, st, x);
  }

  /** Finality covers exactly the stored transfers; past PENDING means selected on all inputs; and two
      different transfers that share an input are never both past PENDING. */
  ghost predicate FinalityExclusive(st: State) {
    && st.finality.Keys == st.txStore.Keys
    && (forall x <- st.txStore :: st.finality[x].status != PENDING <==> SelectedOnAll(st, x))
    && (forall x, y, i | x in st.txStore && y in st.txStore && x != y
          && i in st.txStore[x].tx.inputs && i in st.txStore[y].tx.inputs ::
          st.finality[x].status == PENDING || st.finality[y].status == PENDING)
  }

  lemma InvExclusive(env: Env, st: State)
    requires Inv(env, st)
    ensures FinalityExclusive(st)
  {
    hide Numbered, Evident, Addressed, FinalityFresh, EntryFresh;
    forall x | x in st.txStore ensures st.finality[x].status != PENDING <==> SelectedOnAll(st, x) {
      StatusFromLineage(env, st, x);
    }
  }

  /** Both caches are right in every reachable state, although each step recomputes only the inputs
      of the one transfer it touches. */
  lemma CachesRight(env: Env, events: seq<Event>)
    ensures SelectionCoherent(env, Run(env, events)) && FinalityExclusive(Run(env, events))
  {
    hide Inv, SelectionCoherent, FinalityExclusive, Run;
    InvCoherent(env, Run(env, events));
    InvExclusive(env, Run(env, events));
  }

  /** A FINAL transfer had a peer or a supporting proof; from 50,000 on, it had a peer. */
  lemma FinalityNeedsEvidence(env: Env, events: seq<Event>)
    ensures var st := Run(env, events);
            forall x <- st.txStore ::
              x in st.finality && st.finality[x].status == FINAL ==>
                && (PeersOf(st, x) != map[] || ProofWeight(ProofsOf(st, x)) > 0.0)
                && (TransferAmount(st.txStore[x].tx.outputs) >= 50_000 ==> PeersOf(st, x) != map[])
  {
    hide Inv, Run, Confidence, TransferAmount, FinalityOf;
    var st := Run(env, events);
    forall x | x in st.txStore && x in st.finality && st.finality[x].status == FINAL
      ensures PeersOf(st, x) != map[] || ProofWeight(ProofsOf(st, x)) > 0.0
      ensures TransferAmount(st.txStore[x].tx.outputs) >= 50_000 ==> PeersOf(st, x) != map[]
    {
      var now := FinalityTime(env, st, x);
      StatusOf(env, now, st, x);
      ConfidenceNeedsEvidence(env.log, now, CandidateOf(st, x), TransferAmount(st.txStore[x].tx.outputs));
    }
  }

  /** Both stores are keyed by the hash of what they hold. */
  lemma ContentAddressed(env: Env, events: seq<Event>)
    ensures var st := Run(env, events);
            && (forall x <- st.txStore ::
                  x == env.hash(st.txStore[x].canonical) == ComputeTransferID(env.hash, st.txStore[x].tx) == st.txStore[x].tx.id)
            && (forall v <- st.valueStore :: v == ComputeValueID(env.hash, st.valueStore[v]) == st.valueStore[v].id)
            && (forall x <- st.txStore :: st.txStore[x].seenCount == |PeersOf(st, x)| && st.txStore[x].peers == PeersOf(st, x))
  {
    hide Cached, Numbered, Indexed, Run, EncodeTransfer, EncodeValue;
    var st := Run(env, events);
    forall x | x in st.txStore
      ensures x == env.hash(st.txStore[x].canonical) == ComputeTransferID(env.hash, st.txStore[x].tx) == st.txStore[x].tx.id
    {
      assert RecordAddressed(env, x, st.txStore[x]);
    }
  }

  // ---------------------------------------------------------------------------------------
  // Signers

  /** All the owners from `k` on are `owner`, all the ones before it are empty. */
  predicate OwnedFrom(values: map<Hash, Value>, inputs: seq<Hash>, k: nat, owner: Bytes)
    requires k <= |inputs| && forall i <- inputs :: i in values
  {
    && (forall j | 0 <= j < k :: values[inputs[j]].owner == [])
    && (forall j | k <= j < |inputs| :: values[inputs[j]].owner == owner)
  }

  lemma {:induction false} ResolveWithOwner(values: map<Hash, Value>, inputs: seq<Hash>, owner: Bytes)
    requires (forall i <- inputs :: i in values) && owner != []
    ensures ResolveSigner(values, inputs, owner) ==
            if forall i <- inputs :: values[i].owner == owner then Ok(owner) else Err(DifferentOwners)
  {
    if inputs != [] {
      assert inputs == [inputs[0]] + inputs[1..];
      if values[inputs[0]].owner == owner {
        ResolveWithOwner(values, inputs[1..], owner);
      }
    }
  }

  /** resolveSigner accepts `owner` exactly for a run of ownerless inputs followed by inputs it owns. */
  lemma {:induction false} SignerAccepted(values: map<Hash, Value>, inputs: seq<Hash>, owner: Bytes)
    requires (forall i <- inputs :: i in values) && owner != []
    ensures ResolveSigner(values, inputs, []) == Ok(owner) <==>
            exists k: nat | k < |inputs| :: OwnedFrom(values, inputs, k, owner)
  {
    if inputs != [] {
      var rest, first := inputs[1..], values[inputs[0]].owner;
      assert inputs == [inputs[0]] + rest;
      if first == [] {
        SignerAccepted(values, rest, owner);
        if ResolveSigner(values, rest, []) == Ok(owner) {
          var k: nat :| k < |rest| && OwnedFrom(values, rest, k, owner);
          assert OwnedFrom(values, inputs, k + 1, owner);
        }
        if k: nat :| k < |inputs| && OwnedFrom(values, inputs, k, owner) {
          assert k != 0;
          assert OwnedFrom(values, rest, k - 1, owner) by {
            assert forall j | 0 <= j < |rest| :: rest[j] == inputs[j + 1];
          }
        }
      } else {
        ResolveWithOwner(values, rest, first);
        if first == owner && (forall i <- rest :: values[i].owner == first) {
          assert OwnedFrom(values, inputs, 0, owner);
        }
      }
    }
  }

  /** "Inputs have different owners" is reported as promised only when the first input has an owner:
      among accepted inputs, all have the signer as owner iff the first one's owner is not empty. */
  lemma OwnersAgreeIff(values: map<Hash, Value>, inputs: seq<Hash>, owner: Bytes)
    requires inputs != [] && (forall i <- inputs :: i in values) && owner != []
    requires ResolveSigner(values, inputs, []) == Ok(owner)
    ensures (forall i <- inputs :: values[i].owner == owner) <==> values[inputs[0]].owner != []
  {
    SignerAccepted(values, inputs, owner);
    var k: nat :| k < |inputs| && OwnedFrom(values, inputs, k, owner);
  }

  /** At a node seeded with an ownerless value and an owned one, the transfer that spends them in this
      order is accepted on the owner's signature, and in the other order is rejected. */
  lemma OwnerlessInputAccepted(env: Env, now: Int64, v: Value, w: Value, outputs: seq<Value>, sig: Bytes)
    requires v.owner == [] && |w.owner| == PUBLIC_KEY_SIZE && ComputeValueID(env.hash, v) != ComputeValueID(env.hash, w)
    requires outputs != [] && forall o <- outputs :: o.expiry == 0 || now < o.expiry
    ensures var values := Run(env, [Seed(v), Seed(w)]).valueStore;
            var i, j := ComputeValueID(env.hash, v), ComputeValueID(env.hash, w);
            && (Validate(env, now, values, SpendingTwo(i, j, outputs, sig)) == Nil <==>
                  env.verify(w.owner, EncodeTransfer(SpendingTwo(i, j, outputs, sig)), sig))
            && Validate(env, now, values, SpendingTwo(j, i, outputs, sig)) == Failed(DifferentOwners)
  {
    hide ResolveSigner, EncodeTransfer, EncodeValue, Expires, Inv;
    var values := Run(env, [Seed(v), Seed(w)]).valueStore;
    NothingExpires(outputs, now);
    var i, j := ComputeValueID(env.hash, v), ComputeValueID(env.hash, w);
    TwoSeeded(env, v, w);
    assert OwnedFrom(values, [i, j], 1, w.owner);
    SignerAccepted(values, [i, j], w.owner);
    SecondOwnerless(values, i, j);
  }

  function SpendingTwo(i: Hash, j: Hash, outputs: seq<Value>, sig: Bytes): Transfer {
    Transfer(0, [i, j], outputs, sig, 0)
  }

  lemma NothingExpires(outputs: seq<Value>, now: Int64)
    requires forall o <- outputs :: o.expiry == 0 || now < o.expiry
    ensures forall o <- outputs :: !Expires(o, now)
  {}

  lemma TwoSeeded(env: Env, v: Value, w: Value)
    ensures Run(env, [Seed(v), Seed(w)]).valueStore
         == map[ComputeValueID(env.hash, v) := WithValueID(env.hash, v), ComputeValueID(env.hash, w) := WithValueID(env.hash, w)]
  {
    hide EncodeValue, Inv, MembersStored;
    var events := [Seed(v), Seed(w)];
    assert events[..1] == [Seed(v)] && events[..1][..0] == [];
    assert Run(env, [Seed(v)]) == SeedValue(env, NEW_NODE, v);
    assert Run(env, events) == SeedValue(env, Run(env, [Seed(v)]), w);
  }

  lemma SecondOwnerless(values: map<Hash, Value>, i: Hash, j: Hash)
    requires i in values && j in values && values[i].owner == [] && values[j].owner != []
    ensures ResolveSigner(values, [j, i], []) == Err(DifferentOwners)
  {
    ResolveWithOwner(values, [i], values[j].owner);
    assert [j, i][1..] == [i];
  }

  // ---------------------------------------------------------------------------------------
  // Agreement between nodes

  /** The two values do not collide: equal hashes mean equal encodings. */
  predicate NoCollision(hash: Hasher, v: Value, w: Value) {
    hash(EncodeValue(v)) == hash(EncodeValue(w)) ==> EncodeValue(v) == EncodeValue(w)
  }

  ghost predicate SameKnowledge(env: Env, values: map<Hash, Value>, values': map<Hash, Value>, inputs: seq<Hash>) {
    forall i <- inputs ::
      && i in values && i in values' && SizedValue(values[i]) && SizedValue(values'[i])
      && NoCollision(env.hash, values[i], values'[i])
  }

  lemma {:induction false} SameSigner(values: map<Hash, Value>, values': map<Hash, Value>, inputs: seq<Hash>, owner: Bytes)
    requires forall i <- inputs :: i in values && i in values' && values[i].owner == values'[i].owner
    ensures ResolveSigner(values, inputs, owner) == ResolveSigner(values', inputs, owner)
  {
    if inputs != [] {
      assert inputs == [inputs[0]] + inputs[1..];
      SameSigner(values, values', inputs[1..], if owner == [] then values[inputs[0]].owner else owner);
    }
  }

  /** Any two nodes that know the inputs, at times when the same outputs have expired, give a
      transfer the same verdict, whatever else they hold. */
  lemma CrossNodeAgreement(env: Env, st: State, st': State, now: Int64, now': Int64, tx: Transfer)
    requires Addressed(env, st) && Addressed(env, st')
    requires SameKnowledge(env, st.valueStore, st'.valueStore, tx.inputs)
    requires forall v <- tx.outputs :: 0 != v.expiry <= now <==> 0 != v.expiry <= now'
    ensures Validate(env, now, st.valueStore, tx) == Validate(env, now', st'.valueStore, tx)
  {
    hide EncodeValue, EncodeTransfer, ResolveSigner, RecordAddressed;
    forall i | i in tx.inputs ensures st.valueStore[i].owner == st'.valueStore[i].owner {
      ValueEncodeInjective(env.hash, st.valueStore[i], st'.valueStore[i]);
    }
    SameSigner(st.valueStore, st'.valueStore, tx.inputs, []);
  }

  // ---------------------------------------------------------------------------------------
  // More evidence for a winner

  /** In `st'` the transfer `x` has one more peer or supporting proof than in `st`. */
  ghost predicate Gains(st: State, st': State, x: Hash) {
    x in st.txStore && Reevidenced(st, st', x) && Supported(CandidateOf(st, x), CandidateOf(st', x))
  }

  lemma NewPeerGains(now: Int64, st: State, x: Hash, from: PeerId)
    requires x in st.txStore && from != [] && from !in PeersOf(st, x)
    ensures Gains(st, ObservePeer(now, st, x, from), x)
  {
    ObserveReevidences(now, st, x, from);
    var peers := PeersOf(st, x);
    assert peers[from := now].Keys == peers.Keys + {from};
    assert |peers[from := now]| == |peers[from := now].Keys| == |peers.Keys| + 1 && |peers.Keys| == |peers|;
  }

  lemma NewProofGains(st: State, x: Hash, r: ProofRecord)
    requires x in st.txStore && r.peer !in ProofsOf(st, x) && r.seen && !r.conflict
    ensures Gains(st, UpdateProof(st, x, r), x)
  {
    ProofReevidences(st, x, r);
    var st' := UpdateProof(st, x, r);
    assert CandidateOf(st', x) == CandidateOf(st, x).(proofs := CandidateOf(st, x).proofs[r.peer := r]);
  }

  /** Of the candidates for an input, only the k-th differs. */
  ghost predicate GainedAt(st: State, st': State, xs: seq<Hash>, k: nat, x: Hash) {
    && InOrder(st, xs) && (forall y <- xs :: y in st'.txStore)
    && k < |xs| && xs[k] == x && Candidates(st', xs) == Candidates(st, xs)[k := CandidateOf(st', x)]
  }

  lemma GainedCandidates(st: State, st': State, x: Hash, i: Hash) returns (k: nat)
    requires Indexed(st) && Numbered(st) && Gains(st, st', x) && InputsOf(st, x, i)
    ensures ConflictSet(st', i) == ConflictSet(st, i) && GainedAt(st, st', ConflictSet(st, i), k, x)
  {
    hide CandidateOf, Supported;
    var xs := st.conflictSets[i];
    assert InOrder(st, xs);
    k :| 0 <= k < |xs| && xs[k] == x;
  }

  /** A winner that gains evidence keeps its input, with a strictly higher score. */
  lemma EvidenceKeepsInput(env: Env, now: Int64, st: State, st': State, x: Hash, i: Hash)
    requires LogLike(env.log) && Inv(env, st) && Gains(st, st', x) && InputsOf(st, x, i) && Indexed(st')
    requires i in st.selected && st.selected[i].updatedAt == now && st.selected[i].txID == x
    requires i in st'.conflictSets
    ensures EntryAt(env, now, st', i).txID == x && EntryAt(env, now, st', i).score > st.selected[i].score
  {
    hide Evident, Addressed, Supported, Reevidenced, SelectBest, CandidateOf;
    assert EntryFresh(env, st, i);
    var k := GainedCandidates(st, st', x, i);
    var xs := ConflictSet(st, i);
    CandidatesInOrder(st, xs);
    CandidateID(st, x);
    WinnerKeepsWinning(env.log, now, Candidates(st, xs), k, CandidateOf(st', x));
  }

  lemma CandidateID(st: State, x: Hash)
    requires x in st.txStore
    ensures CandidateOf(st, x).txID == x
  {}

  /** At one clock value, new evidence for a transfer selected on all its inputs raises its score on
      each of them, keeps it selected on all of them, and a FINAL transfer stays FINAL. */
  lemma EvidenceMonotone(env: Env, now: Int64, st: State, st': State, x: Hash)
    requires LogLike(env.log) && Inv(env, st) && Gains(st, st', x)
    requires forall i <- st.txStore[x].tx.inputs :: i in st.selected && st.selected[i].updatedAt == now && st.selected[i].txID == x
    ensures MembersStored(st')
    ensures var r := RecomputeTransfer(env, now, st', x);
            && (forall i <- st.txStore[x].tx.inputs ::
                  i in r.selected && r.selected[i].txID == x && r.selected[i].score > st.selected[i].score)
            && x in st.finality && x in r.finality && r.finality[x].confidence > st.finality[x].confidence
            && (st.finality[x].status == FINAL ==> r.finality[x].status == FINAL)
  {
    hide Cached, Evident, Addressed, Supported, RecomputeTransfer, FinalityOf, EntryAt, CandidateOf;
    ReevidencedRecompute(env, now, st, st', x);
    var r := RecomputeTransfer(env, now, st', x);
    forall i | i in st.txStore[x].tx.inputs
      ensures i in r.selected && r.selected[i].txID == x && r.selected[i].score > st.selected[i].score
    {
      assert InputsOf(st, x, i) && InputsOf(st', x, i);
      EvidenceKeepsInput(env, now, st, st', x, i);
    }
    InputsIndexed(st', x);
    assert st'.txStore[x].tx == st.txStore[x].tx;
    SameEvidence(st', r, x);
    DecidedAt(env, now, st, x);
    FinalityRaised(env, now, st, r, x);
  }

  lemma DecidedAt(env: Env, now: Int64, st: State, x: Hash)
    requires Inv(env, st) && x in st.txStore
    requires forall i <- st.txStore[x].tx.inputs :: i in st.selected && st.selected[i].updatedAt == now
    ensures x in st.finality && st.finality[x] == FinalityOf(env, now, st, x) && st.txStore[x].tx.inputs != []
  {
    hide Numbered, Evident, Addressed, FinalityOf, EntryFresh;
    assert FinalityFresh(env, st, x);
  }

  lemma FinalityRaised(env: Env, now: Int64, st: State, r: State, x: Hash)
    requires LogLike(env.log) && x in st.txStore && x in r.txStore && r.txStore[x].tx == st.txStore[x].tx
    requires st.txStore[x].tx.inputs != [] && SelectedOnAll(st, x) && SelectedOnAll(r, x)
    requires Supported(CandidateOf(st, x), CandidateOf(r, x))
    ensures var f, g := FinalityOf(env, now, st, x), FinalityOf(env, now, r, x);
            g.confidence > f.confidence && (f.status == FINAL ==> g.status == FINAL)
  {
    hide Supported, CandidateOf, Confidence, Threshold, TransferAmount, ScanInputs;
    StatusOf(env, now, st, x);
    StatusOf(env, now, r, x);
    SupportRaisesConfidence(env.log, now, CandidateOf(st, x), CandidateOf(r, x));
  }
}
